/**
 Transmission by the i.MX serial driver: tto copies the output ring into a DMA staging buffer, as flow
 control allows, and falls back to programmed output when a transfer times out.
 */
module SerialTx {
  import opened Arith
  import opened Rings

  type byte = bv8

  /** Bytes that move from the ring to the staging buffer stay where they are in the stream. */
  lemma Moved(sent: seq<byte>, staged: seq<byte>, moved: seq<byte>, rest: seq<byte>, written: seq<byte>)
    requires Conserved(sent, staged, moved + rest, written)
    ensures Conserved(sent, staged + moved, rest, written)
  {
  }

  /** The first n bytes of the ring are appended to the staged ones, and the rest is still a ring. */
  ghost predicate Splits(staged: seq<byte>, ring: seq<byte>, tail: nat, cnt: nat, n: nat, all: seq<byte>,
                         rest: seq<byte>)
    requires tail < |ring| && n <= cnt <= |ring|
  {
    && all == staged + Ring(ring, tail, n)
    && Wrap(tail + n, |ring|) < |ring| && rest == Ring(ring, Wrap(tail + n, |ring|), cnt - n)
  }

  /** Seen as staged already, the next n bytes leave the stream as it is. */
  lemma MayMove(sent: seq<byte>, staged: seq<byte>, ring: seq<byte>, tail: nat, cnt: nat, n: nat, written: seq<byte>)
    returns (all: seq<byte>, rest: seq<byte>)
    requires tail < |ring| && n <= cnt <= |ring| && Conserved(sent, staged, Ring(ring, tail, cnt), written)
    ensures Splits(staged, ring, tail, cnt, n, all, rest) && Conserved(sent, all, rest, written)
  {
    RingDrop(ring, tail, cnt, n);
    all, rest := staged + Ring(ring, tail, n), Ring(ring, Wrap(tail + n, |ring|), cnt - n);
    Moved(sent, staged, Ring(ring, tail, n), rest, written);
  }

  lemma Passed(sent: seq<byte>, c: byte, rest: seq<byte>, written: seq<byte>)
    requires Conserved(sent, [], [c] + rest, written)
    ensures Conserved(sent + [c], [], rest, written)
  {
  }

  /** The bytes sent, staged and still in the ring are those written. */
  ghost predicate Conserved(sent: seq<byte>, staged: seq<byte>, ring: seq<byte>, written: seq<byte>) {
    sent + staged + ring == written
  }

  lemma Longer(base: seq<byte>, data: seq<byte>, i: nat)
    requires i < |data|
    ensures base + data[..i + 1] == base + data[..i] + [data[i]]
  {
    assert data[..i + 1] == data[..i] + [data[i]];
  }

  lemma JoinParts(staged: seq<byte>, buff: seq<byte>, tail: nat, n: nat, all: seq<byte>)
    requires tail < |buff| < tail + n && n <= |buff| && all == (staged + buff[tail..]) + buff[..tail + n - |buff|]
    ensures all == staged + Ring(buff, tail, n)
  {
  }

  class Port {
    const buff: array<byte>            // the output ring
    const staging: array<byte>         // tx_dma.buf, of xfer_size bytes
    var tail: nat
    var cnt: nat
    var byteCnt: nat                   // static in tto
    var active: bool                   // tx_xfer_active
    var usedma: bool
    ghost var written: seq<byte>       // all bytes that clients wrote
    ghost var sent: seq<byte>          // all bytes handed to the DMA engine or the UART
    ghost var flight: seq<byte>        // what the DMA engine is reading from the staging buffer

    ghost predicate Valid()
      reads this, buff, staging
    {
      && buff.Length > 0 && buff != staging && staging.Length > 0
      && tail < buff.Length && cnt <= buff.Length && byteCnt <= staging.Length
      && Conserved(sent, staging[..byteCnt], Ring(buff[..], tail, cnt), written)
      && (active ==> usedma && byteCnt == 0)
      && (active ==> |flight| <= staging.Length && staging[..|flight|] == flight)
      && (!usedma ==> byteCnt == 0)
    }

    constructor (size: nat, xferSize: nat, usedma: bool)
      requires size > 0 && xferSize > 0
      ensures Valid() && !active && written == [] && sent == [] && this.usedma == usedma
      ensures fresh(buff) && fresh(staging)
    {
      buff := new byte[size](_ => 0);
      staging := new byte[xferSize](_ => 0);
      tail, cnt, byteCnt, active := 0, 0, 0, false;
      this.usedma := usedma;
      written, sent, flight := [], [], [];
    }

    method Put(b: byte)
      requires Valid() && cnt < buff.Length
      modifies this`cnt, this`written, buff
      ensures Valid() && written == old(written) + [b] && cnt == old(cnt) + 1
    {
      RingPutOne(buff[..], tail, cnt, b);
      ghost var before, at := buff[..], Wrap(tail + cnt, buff.Length);
      buff[Wrap(tail + cnt, buff.Length)] := b;
      assert buff[..] == before[at := b];
      cnt := cnt + 1;
      written := written + [b];
    }

    /** A client's write puts as much behind the ring as there is room for. */
    method Write(data: seq<byte>)
      requires Valid()
      modifies this`cnt, this`written, buff
      ensures Valid() && written == old(written) + data[..Min(|data|, buff.Length - old(cnt))]
      ensures cnt == old(cnt) + Min(|data|, buff.Length - old(cnt))
    {
      for i := 0 to Min(|data|, buff.Length - cnt)
        invariant Valid() && written == old(written) + data[..i] && cnt == old(cnt) + i
      {
        Longer(old(written), data, i);
        Put(data[i]);
      }
      assert data[..0] == [];
    }

    method Memcpy(dst: nat, src: nat, n: nat)
      requires buff != staging && dst + n <= staging.Length && src + n <= buff.Length
      modifies staging
      ensures staging[..dst + n] == old(staging[..dst]) + buff[..][src..src + n]
    {
      for i := 0 to n
        invariant staging[..dst + i] == old(staging[..dst]) + buff[src..src + i]
      {
        ghost var before := staging[..dst + i];
        staging[dst + i] := buff[src + i];
        assert staging[..dst + i + 1] == before + [buff[src + i]];
        assert buff[src..src + i + 1] == buff[src..src + i] + [buff[src + i]];
      }
    }

    /** The first n bytes of the ring behind the staged ones, where they lie in two parts. */
    method CopyWrapped(n: nat)
      requires buff != staging && tail < buff.Length && buff.Length - tail < n <= buff.Length
      requires byteCnt + n <= staging.Length
      modifies staging
      ensures staging[..byteCnt + n] == old(staging[..byteCnt]) + Ring(buff[..], tail, n)
    {
      var firstPass := buff.Length - tail;
      ghost var ring, staged := buff[..], staging[..byteCnt];
      assert ring[tail..tail + firstPass] == ring[tail..];
      Memcpy(byteCnt, tail, firstPass);
      Memcpy(byteCnt + firstPass, 0, n - firstPass);
      JoinParts(staged, ring, tail, n, staging[..byteCnt + n]);
    }

    method CopyOut(n: nat, ghost staged: seq<byte>, ghost moved: seq<byte>)
      requires buff != staging && tail < buff.Length && n <= cnt <= buff.Length && byteCnt + n <= staging.Length
      requires staged == staging[..byteCnt] && moved == Ring(buff[..], tail, n)
      modifies this`tail, staging
      ensures buff[..] == old(buff[..]) && staging[..byteCnt + n] == staged + moved
      ensures tail == Wrap(old(tail) + n, buff.Length)
    {
      var firstPass := buff.Length - tail;
      if n <= firstPass {
        Memcpy(byteCnt, tail, n);
        tail := tail + n;
        if tail == buff.Length { tail := 0; }
      } else {
        CopyWrapped(n);
        tail := n - firstPass;
      }
    }

    /** The copy of raw output: all that fits into the staging buffer. */
    method Stage()
      requires Valid() && !active && usedma
      modifies this`tail, this`cnt, this`byteCnt, staging
      ensures Valid()
      ensures byteCnt == old(byteCnt) + Min(old(cnt), staging.Length - old(byteCnt))
      ensures cnt == old(cnt) - Min(old(cnt), staging.Length - old(byteCnt))
    {
      var n := Min(cnt, staging.Length - byteCnt);
      ghost var all, rest := MayMove(sent, staging[..byteCnt], buff[..], tail, cnt, n, written);
      StageBytes(n, staging[..byteCnt], all, rest);
      HasMoved(all, rest);
    }

    lemma HasMoved(all: seq<byte>, rest: seq<byte>)
      requires buff.Length > 0 && buff != staging && staging.Length > 0 && usedma && !active
      requires tail < buff.Length && cnt <= buff.Length && byteCnt <= staging.Length
      requires staging[..byteCnt] == all && Ring(buff[..], tail, cnt) == rest && Conserved(sent, all, rest, written)
      ensures Valid()
    {
    }

    method StageBytes(n: nat, ghost staged: seq<byte>, ghost all: seq<byte>, ghost rest: seq<byte>)
      requires buff != staging && byteCnt + n <= staging.Length && staged == staging[..byteCnt]
      requires tail < buff.Length && n <= cnt <= buff.Length && Splits(staged, buff[..], tail, cnt, n, all, rest)
      modifies this`tail, this`cnt, this`byteCnt, staging
      ensures buff[..] == old(buff[..]) && tail < buff.Length && cnt == old(cnt) - n && byteCnt == old(byteCnt) + n
      ensures staging[..byteCnt] == all && Ring(buff[..], tail, cnt) == rest
    {
      CopyOut(n, staged, Ring(buff[..], tail, n));
      cnt := cnt - n;
      byteCnt := byteCnt + n;
    }

    /** tto_getchar in raw output mode: the byte at the tail. */
    method GetChar() returns (c: byte)
      requires Valid() && cnt > 0
      modifies this`tail, this`cnt
      ensures cnt == old(cnt) - 1 && tail < buff.Length
      ensures Ring(buff[..], old(tail), old(cnt)) == [c] + Ring(buff[..], tail, cnt)
    {
      RingDropOne(buff[..], tail, cnt);
      c := buff[tail];
      tail := Wrap(tail + 1, buff.Length);
      cnt := cnt - 1;
    }

    /** Something is staged, or will be since output is not paused at the first look. */
    predicate Sendable(clear: nat)
      reads this
    {
      byteCnt > 0 || (cnt > 0 && clear > 0)
    }

    /** The DMA branch of tto while no transfer is under way.  The first clear looks at the flags find output
        not paused, and the next one that it is; just before look k a client may have written arrivals(k). */
    method Fill(clear: nat, arrivals: nat -> seq<byte>)
      requires Valid() && !active && usedma
      modifies this`tail, this`cnt, this`byteCnt, this`written, buff, staging
      ensures Valid() && old(written) <= written && byteCnt >= old(byteCnt)
      ensures byteCnt == staging.Length || cnt == 0 || clear == 0
      ensures old(Sendable(clear)) ==> byteCnt > 0
    {
      var k := 0;
      while cnt > 0 && byteCnt < staging.Length
        invariant Valid() && old(written) <= written && byteCnt >= old(byteCnt)
        invariant k > 0 ==> clear > 0 && byteCnt > 0 && (byteCnt == staging.Length || cnt == 0)
        invariant k == 0 ==> cnt == old(cnt)
        decreases staging.Length - byteCnt
      {
        if k == clear { break; }
        Write(arrivals(k));
        Stage();
        k := k + 1;
      }
    }

    method StartTransfer()
      requires Valid() && !active && usedma && byteCnt > 0
      modifies this`byteCnt, this`active, this`sent, this`flight
      ensures Valid() && active && byteCnt == 0
      ensures flight == old(staging[..byteCnt]) && sent == old(sent) + flight
    {
      flight := staging[..byteCnt];
      sent := sent + flight;
      active := true;
      byteCnt := 0;
      assert sent + staging[..byteCnt] == sent;
    }

    /** n bytes more have been sent. */
    ghost predicate Onward(wrote: seq<byte>, before: seq<byte>, n: nat)
      reads this, buff, staging
    {
      Valid() && !usedma && !active && wrote <= written && before <= sent && |sent| == |before| + n
    }

    method PioOne(data: seq<byte>, ghost wrote: seq<byte>, ghost before: seq<byte>, ghost n: nat)
      requires Onward(wrote, before, n) && cnt > 0
      modifies this`tail, this`cnt, this`sent, this`written, buff
      ensures Onward(wrote, before, n + 1)
    {
      Write(data);
      SendOne();
    }

    /** Programmed output of n bytes: until the ring is empty, the room in the UART is used up, or a look
        finds output paused. */
    predicate StopsAt(n: nat, clear: nat, room: nat)
      reads this
    {
      n <= room && n <= clear && (cnt == 0 || n == room || n == clear)
    }

    method Pio(clear: nat, room: nat, arrivals: nat -> seq<byte>) returns (k: nat)
      requires Valid() && !usedma && !active
      modifies this`tail, this`cnt, this`sent, this`written, buff
      ensures Onward(old(written), old(sent), k) && StopsAt(k, clear, room)
    {
      k := 0;
      while cnt > 0 && k < room
        invariant Onward(old(written), old(sent), k) && k <= clear && k <= room
        decreases room - k
      {
        if k == clear { break; }
        PioOne(arrivals(k), old(written), old(sent), k);
        k := k + 1;
      }
    }

    method SendOne()
      requires Valid() && !usedma && !active && cnt > 0
      modifies this`tail, this`cnt, this`sent
      ensures Valid() && |sent| == |old(sent)| + 1 && old(sent) <= sent
    {
      ghost var before := sent;
      assert staging[..byteCnt] == [];
      var c := GetChar();
      Passed(before, c, Ring(buff[..], tail, cnt), written);
      sent := sent + [c];
    }

    /** With DMA and no transfer under way before: a transfer is started with all that is staged, if there is
        something and output is not paused by then; and no less is staged than fits, is there, or may be sent. */
    ghost predicate Started(before: seq<byte>, sendable: bool, clear: nat, pausedAtStart: bool)
      reads this, staging
    {
      && usedma && (sendable ==> active || pausedAtStart)
      && (active <==> byteCnt == 0 && sent != before)
      && (if active then !pausedAtStart && flight != [] && sent == before + flight
          else sent == before && (byteCnt == 0 || pausedAtStart))
      && ((if active then |flight| else byteCnt) == staging.Length || cnt == 0 || clear == 0)
    }

    /** tto for TTO_DATA (then timedOut says whether the TX timer is 0) and TTO_EVENT. */
    method Tto(data: bool, timedOut: bool, clear: nat, pausedAtStart: bool, room: nat,
               arrivals: nat -> seq<byte>)
      requires Valid()
      modifies this`tail, this`cnt, this`byteCnt, this`active, this`usedma, this`sent, this`written, this`flight
      modifies buff, staging
      ensures Valid() && old(written) <= written && old(sent) <= sent
      ensures old(active) && !(data && timedOut) ==>
                && active && sent == old(sent) && written == old(written) && cnt == old(cnt)
                && staging[..] == old(staging[..])
      ensures old(active) && data && timedOut ==> !usedma && byteCnt == 0
      ensures old(usedma && !active) ==> Started(old(sent), old(Sendable(clear)), clear, pausedAtStart)
      ensures !usedma ==> StopsAt(|sent| - |old(sent)|, clear, room)
    {
      if usedma {
        if active {
          if !data || !timedOut { return; }
          usedma := false;
          active := false;
        } else {
          Fill(clear, arrivals);
          if byteCnt > 0 && !pausedAtStart { StartTransfer(); }
        }
      }
      if !usedma { var _ := Pio(clear, room, arrivals); }
    }

    /** mx53_tx_pulse_hdlr: the transfer is complete. */
    method TxComplete()
      requires Valid() && active
      modifies this`active
      ensures Valid() && !active && staging[..|flight|] == flight
    {
      active := false;
    }
  }
}
