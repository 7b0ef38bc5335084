/**
 Reception by the i.MX serial driver: DMA fills one half of a buffer while the other half is copied to
 the input buffer; a full input buffer parks the filled half and leaves the DMA engine idle.
 */
module SerialRx {
  import opened Arith

  type byte = bv8

  class Port {
    const half0: array<byte>           // rx_dma.buf
    const half1: array<byte>           // rx_dma.buf + xfer_size
    const size: nat                    // room in the input buffer of io-char
    var cnt: nat                       // and how much of it is used
    var buffer0: bool
    var bytesRead: nat
    var running: bool                  // the DMA engine
    var target: bool                   // fills half 0 (true) or half 1,
    var filled: nat                    // up to here
    ghost var received: seq<byte>      // all bytes that came in
    ghost var delivered: seq<byte>     // all bytes put into the input buffer

    /** The half that the driver takes to be the current one. */
    function Current(): array<byte>
      reads this`buffer0
    {
      if buffer0 then half0 else half1
    }

    function Target(): array<byte>
      reads this`target
    {
      if target then half0 else half1
    }

    ghost predicate Shape()
      reads this
    {
      && half0 != half1 && half0.Length == half1.Length
      && filled <= half0.Length && bytesRead <= half0.Length && cnt <= size
    }

    /** What has come in and is not delivered yet: the parked half, or what the running transfer holds. */
    ghost function Pending(): seq<byte>
      requires Shape()
      reads this, half0, half1
    {
      if running then Target()[..filled] else Current()[..bytesRead]
    }

    ghost predicate Valid()
      reads this, half0, half1
    {
      && Shape()
      && (running ==> target == buffer0)
      && delivered + Pending() == received
    }

    /** As init.c leaves it: the first transfer fills half 0. */
    constructor (xferSize: nat, size: nat)
      ensures Valid() && running && buffer0 && received == [] && delivered == [] && cnt == 0 && this.size == size
      ensures bytesRead == 0 && filled == 0 && half0.Length == xferSize
      ensures fresh(half0) && fresh(half1)
    {
      half0 := new byte[xferSize](_ => 0);
      half1 := new byte[xferSize](_ => 0);
      this.size := size;
      cnt, buffer0, bytesRead := 0, true, 0;
      running, target, filled, received, delivered := true, true, 0, [], [];
    }

    /** The DMA engine stores what comes in, as long as its half has room. */
    method Arrive(data: seq<byte>)
      requires Shape() && running
      modifies this`filled, this`received, Target()
      ensures Shape() && filled >= old(filled) && old(received) <= received
      ensures Target()[..filled] == old(Target()[..filled]) + received[|old(received)|..]
      ensures received == old(received) + data[..Min(|data|, half0.Length - old(filled))]
      ensures data == [] ==> Target()[..] == old(Target()[..])
    {
      var i := 0;
      while i < |data| && filled < half0.Length
        invariant Shape() && filled == old(filled) + i && i <= |data|
        invariant received == old(received) + data[..i]
        invariant Target()[..filled] == old(Target()[..filled]) + data[..i]
        invariant data == [] ==> Target()[..] == old(Target()[..])
      {
        ghost var before := Target()[..filled];
        Target()[filled] := data[i];
        assert Target()[..filled + 1] == before + [data[i]];
        assert data[..i + 1] == data[..i] + [data[i]];
        filled, received, i := filled + 1, received + [data[i]], i + 1;
      }
    }

    /** Nothing that comes in gets among the first n bytes of this half. */
    ghost predicate Untouched(from: array<byte>, n: nat, arrivals: nat -> seq<byte>)
      reads this
    {
      forall k :: Spares(from, n, arrivals(k))
    }

    ghost predicate Spares(from: array<byte>, n: nat, data: seq<byte>)
      reads this
    {
      running && Target() == from && filled < n ==> data == []
    }

    /** One byte, after what comes in before it */
    method DeliverOne(from: array<byte>, k: nat, ghost n: nat, data: seq<byte>)
      requires Shape() && (from == half0 || from == half1) && k < n <= from.Length && cnt < size
      modifies this`cnt, this`delivered, this`filled, this`received, Target()
      ensures Shape() && cnt == old(cnt) + 1 && |delivered| == |old(delivered)| + 1
      ensures old(Spares(from, n, data)) ==> from[..n] == old(from[..n]) && delivered == old(delivered) + [old(from[k])]
      ensures !running || data == [] ==> filled == old(filled) && received == old(received)
      ensures running ==> filled >= old(filled) && old(received) <= received
      ensures running ==> Target()[..filled] == old(Target()[..filled]) + received[|old(received)|..]
    {
      if running { Arrive(data); }
      delivered := delivered + [from[k]];
      cnt := cnt + 1;
    }

    /** tti2: the first n bytes of a half go into the input buffer, as far as there is room, while the DMA
        engine may go on filling the other half; arrivals(k) comes in before the k-th byte is copied. */
    method Deliver(from: array<byte>, n: nat, arrivals: nat -> seq<byte>)
      requires Shape() && (from == half0 || from == half1) && n <= from.Length
      modifies this`cnt, this`delivered, this`filled, this`received, Target()
      ensures Shape() && cnt == old(cnt) + Min(n, size - old(cnt))
      ensures |delivered| == |old(delivered)| + Min(n, size - old(cnt))
      ensures old(Untouched(from, n, arrivals)) ==> delivered == old(delivered) + old(from[..Min(n, size - cnt)])
      ensures !running || (forall k :: arrivals(k) == []) ==> filled == old(filled) && received == old(received)
      ensures running ==> filled >= old(filled) && old(received) <= received
      ensures running ==> Target()[..filled] == old(Target()[..filled]) + received[|old(received)|..]
    {
      var k := 0;
      while k < n && cnt < size
        invariant Shape() && k <= n && cnt == old(cnt) + k && k <= Min(n, size - old(cnt))
        invariant |delivered| == |old(delivered)| + k
        invariant old(Untouched(from, n, arrivals)) ==> from[..n] == old(from[..n])
        invariant old(Untouched(from, n, arrivals)) ==> delivered == old(delivered) + old(from[..k])
        invariant !running || (forall k :: arrivals(k) == []) ==> filled == old(filled) && received == old(received)
        invariant running ==> filled >= old(filled) && old(received) <= received
        invariant running ==> Target()[..filled] == old(Target()[..filled]) + received[|old(received)|..]
      {
        DeliverOne(from, k, n, arrivals(k));
        assert old(from[..k + 1]) == old(from[..k]) + [old(from[k])];
        k := k + 1;
      }
    }

    /** setup_xfer and xfer_start on the half that is not the current one */
    method StartOther()
      requires Shape()
      modifies this`running, this`target, this`filled
      ensures Shape() && running && target == !buffer0 && filled == 0
    {
      running, target, filled := true, !buffer0, 0;
    }

    /** mx53_rx_pulse_hdlr: the transfer has ended.  Without room for its bytes the half stays parked and
        the engine idle; otherwise the engine goes on with the other half while this one is copied. */
    method RxPulse(arrivals: nat -> seq<byte>)
      requires Valid() && running
      modifies this, half0, half1
      ensures Valid() && old(received) <= received
      ensures if size - old(cnt) < old(filled)
              then !running && bytesRead == old(filled) && delivered == old(delivered) && buffer0 == old(buffer0)
              else running && Target() != old(Current()) && delivered == old(delivered) + old(Pending())
    {
      bytesRead := filled;
      running := false;
      if size - cnt < bytesRead { return; }
      var current := Current();
      StartOther();
      Deliver(current, bytesRead, arrivals);
      buffer0 := !buffer0;
    }

    /** The RTS arm of tto, which does not ask whether a half is parked.  It keeps the stream only if it delivers
        as many bytes as were pending and came in meanwhile; exactly then, if those that come in do not get among
        those that it copies; and with a half parked, exactly if there is room for it. */
    method Resume(arrivals: nat -> seq<byte>)
      requires Valid()
      modifies this, half0, half1
      ensures running && Target() != old(Current()) && old(received) <= received
      ensures var balanced := Min(old(bytesRead), size - old(cnt)) == |old(Pending())| + |received| - |old(received)|;
              && (Valid() ==> balanced)
              && (old(Untouched(Current(), bytesRead, arrivals)) && balanced ==> Valid())
      ensures !old(running) || (forall k :: arrivals(k) == []) ==> received == old(received)
      ensures old(!running && bytesRead <= size - cnt) ==> Valid() && delivered == received
    {
      ghost var pending := Pending();
      var current := Current();
      Deliver(current, bytesRead, arrivals);
      StartOther();
      buffer0 := !buffer0;
    }
  }

  /** A resume in the middle of the very first transfer: the byte that has come in is lost. */
  method ResumeTooEarly() returns (port: Port)
    ensures port.received == [7] && !port.Valid()
  {
    port := new Port(4, 4);
    port.Arrive([7]);
    assert port.received == [7] && port.received[0..] == [7] && port.Pending() == [7];
    port.Resume(_ => []);
  }
}
