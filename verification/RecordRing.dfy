/**
 The byte ring of the input library.  buff_append and buff_delete are right only under conditions that
 whole records of a fixed size keep up: the conditions are given exactly, and the ring is shown to be a
 bounded queue of records.
 */
module RecordRing {
  import opened Arith
  import opened Rings

  type byte = bv8

  const MAX_BUFF_BYTES := 512

  /** The size that buff_create chooses. */
  function BufSize(size: nat, rsize: nat): nat
    requires rsize > 0
  {
    if size > 0 then size else MAX_BUFF_BYTES - MAX_BUFF_BYTES % rsize
  }

  /** A chosen size takes as many whole records as fit into 512 bytes, and at least one exactly if a record is
      not larger; a size that is asked for is kept. */
  lemma ChosenSizeFits(size: nat, rsize: nat)
    requires rsize > 0
    ensures size > 0 ==> BufSize(size, rsize) == size
    ensures BufSize(0, rsize) % rsize == 0
    ensures BufSize(0, rsize) <= 512 < BufSize(0, rsize) + rsize
    ensures BufSize(0, rsize) > 0 <==> rsize <= 512
  {
    var q, r := MAX_BUFF_BYTES / rsize, MAX_BUFF_BYTES % rsize;
    assert MAX_BUFF_BYTES - r == q * rsize;
    DivMul(q, rsize);
  }

  /** n is a number of whole records. */
  predicate Whole(n: nat, rsize: nat)
    requires rsize > 0
  {
    n % rsize == 0
  }

  /** Between two whole numbers of records there is room for one. */
  lemma WholeBelow(a: nat, b: nat, rsize: nat)
    requires rsize > 0 && Whole(a, rsize) && Whole(b, rsize) && a < b
    ensures a + rsize <= b
  {
    var x, y := a / rsize, b / rsize;
    assert a == x * rsize && b == y * rsize;
    if y <= x {
      MulLe(y, x, rsize);
    } else {
      MulLe(x + 1, y, rsize);
    }
  }

  lemma WholeSum(a: nat, b: nat, rsize: nat)
    requires rsize > 0 && Whole(a, rsize) && Whole(b, rsize)
    ensures Whole(a + b, rsize)
  {
    var x, y := a / rsize, b / rsize;
    assert a + b == (x + y) * rsize;
    DivMul(x + y, rsize);
  }

  lemma WholeDifference(a: nat, b: nat, rsize: nat)
    requires rsize > 0 && Whole(a, rsize) && Whole(b, rsize) && b <= a
    ensures Whole(a - b, rsize)
  {
    var x, y := a / rsize, b / rsize;
    assert a - b == (x - y) * rsize;
    if x < y {
      MulLe(x + 1, y, rsize);
    }
    DivMul(x - y, rsize);
  }

  /** The records in a string of bytes */
  function Split(s: seq<byte>, rsize: nat): seq<seq<byte>>
    requires rsize > 0
  {
    if |s| < rsize then [] else [s[..rsize]] + Split(s[rsize..], rsize)
  }

  lemma {:induction false} SplitAppend(s: seq<byte>, rec: seq<byte>, rsize: nat)
    requires rsize > 0 && Whole(|s|, rsize) && |rec| == rsize
    ensures Split(s + rec, rsize) == Split(s, rsize) + [rec]
    decreases |s|
  {
    if s == [] {
      assert s + rec == rec && rec[..rsize] == rec && rec[rsize..] == [];
      assert Split(rec[rsize..], rsize) == [];
    } else {
      WholeBelow(0, |s|, rsize);
      WholeDifference(|s|, rsize, rsize);
      assert (s + rec)[..rsize] == s[..rsize] && (s + rec)[rsize..] == s[rsize..] + rec;
      SplitAppend(s[rsize..], rec, rsize);
    }
  }

  function Joined(pieces: seq<seq<byte>>): seq<byte> {
    if pieces == [] then [] else Joined(pieces[..|pieces| - 1]) + pieces[|pieces| - 1]
  }

  lemma JoinedStep(pieces: seq<seq<byte>>, i: nat)
    requires i < |pieces|
    ensures Joined(pieces[..i + 1]) == Joined(pieces[..i]) + pieces[i]
  {
    assert pieces[..i + 1][..i] == pieces[..i];
  }

  lemma {:induction false} JoinedPart(pieces: seq<seq<byte>>, i: nat)
    requires i <= |pieces|
    ensures |Joined(pieces[..i])| <= |Joined(pieces)|
    decreases |pieces| - i
  {
    if i < |pieces| {
      JoinedStep(pieces, i);
      JoinedPart(pieces, i + 1);
    } else {
      assert pieces[..i] == pieces;
    }
  }

  lemma StoredOneMore(buff: seq<byte>, dst: nat, data: seq<byte>, i: nat)
    requires dst + |data| <= |buff| && i < |data|
    ensures Stored(buff, dst, data[..i])[dst + i := data[i]] == Stored(buff, dst, data[..i + 1])
  {
    assert data[..i + 1] == data[..i] + [data[i]];
  }

  class Buffer {
    const buff: array<byte>
    var head: nat
    var tail: nat
    var cnt: nat

    /** The fields are in range, whatever they say. */
    ghost predicate Shape()
      reads this
    {
      head < buff.Length && tail < buff.Length
    }

    /** The fields say what a ring's do. */
    ghost predicate Valid()
      reads this
    {
      Shape() && cnt <= buff.Length && head == Wrap(tail + cnt, buff.Length)
    }

    ghost function Contents(): seq<byte>
      requires Valid()
      reads this, buff
    {
      Ring(buff[..], tail, cnt)
    }

    constructor (bufsize: nat)
      requires bufsize > 0
      ensures Valid() && Contents() == [] && buff.Length == bufsize && fresh(buff)
    {
      buff := new byte[bufsize](_ => 0);
      head, tail, cnt := 0, 0, 0;
    }

    method Memcpy(dst: nat, data: seq<byte>)
      requires dst + |data| <= buff.Length
      modifies buff
      ensures buff[..] == Stored(old(buff[..]), dst, data)
    {
      for i := 0 to |data|
        invariant buff[..] == Stored(old(buff[..]), dst, data[..i])
      {
        ghost var before := buff[..];
        buff[dst + i] := data[i];
        assert buff[..] == before[dst + i := data[i]];
        StoredOneMore(old(buff[..]), dst, data, i);
      }
    }

    /** One pass of the loop in buff_append: what fits in front of the end of the array. */
    method StoreChunk(data: seq<byte>) returns (t: nat)
      requires Shape() && data != []
      modifies this`head, this`cnt, buff
      ensures Shape() && 0 < t <= |data| && cnt == old(cnt) + t && old(head) + t <= buff.Length
      ensures buff[..] == Stored(old(buff[..]), old(head), data[..t])
      ensures head == Wrap(old(head) + t, buff.Length)
    {
      t := Min(|data|, buff.Length - head);
      Memcpy(head, data[..t]);
      cnt := cnt + t;
      head := head + t;
      if head >= buff.Length { head := 0; }
    }

    /** As long as the count does not exceed the size, the ring holds base. */
    ghost predicate Holds(base: seq<byte>)
      reads this, buff
    {
      Shape() && (cnt <= buff.Length ==> Valid() && Contents() == base)
    }

    method StoreSome(data: seq<byte>, ghost base: seq<byte>) returns (t: nat)
      requires Holds(base) && data != []
      modifies this`head, this`cnt, buff
      ensures 0 < t <= |data| && cnt == old(cnt) + t && Holds(base + data[..t])
    {
      ghost var ring, n := buff[..], cnt;
      t := StoreChunk(data);
      if cnt <= buff.Length { RingPut(ring, tail, n, data[..t]); }
    }

    /** buff_append.  It asks whether the ring is full, but not whether there is room for all of the data:
        the ring stays one exactly if there is, or if nothing was to be done. */
    method BuffAppend(data: seq<byte>) returns (r: nat)
      requires Valid()
      modifies this, buff
      ensures Shape() && tail == old(tail) && r == cnt
      ensures Valid() <==> data == [] || old(cnt) == buff.Length || old(cnt) + |data| <= buff.Length
      ensures data == [] || old(cnt) == buff.Length ==> Valid() && Contents() == old(Contents())
      ensures old(cnt) + |data| <= buff.Length ==> Valid() && Contents() == old(Contents()) + data
      ensures cnt == if old(cnt) < buff.Length then old(cnt) + |data| else old(cnt)
    {
      ghost var base := Contents();
      assert base + [] == base;
      if data != [] && cnt < buff.Length { AppendAll(data, base); }
      return cnt;
    }

    method AppendAll(data: seq<byte>, ghost base: seq<byte>)
      requires Holds(base)
      modifies this`head, this`cnt, buff
      ensures Holds(base + data) && cnt == old(cnt) + |data|
    {
      var i := 0;
      assert base + data[..0] == base;
      while i < |data|
        invariant i <= |data| && cnt == old(cnt) + i && Holds(base + data[..i])
      {
        var t := StoreSome(data[i..], base + data[..i]);
        assert base + data[..i] + data[i..][..t] == base + data[..i + t];
        i := i + t;
      }
      assert data[..|data|] == data;
    }

    /** One pass of the loop in buff_delete, of t bytes that lie in one piece. */
    method TakeChunk(t: nat) returns (out: seq<byte>)
      requires Valid() && 0 < t <= cnt && tail + t <= buff.Length
      modifies this`tail, this`cnt
      ensures Valid() && out + Contents() == old(Contents()) && |out| == t && cnt == old(cnt) - t
    {
      RingDrop(buff[..], tail, cnt, t);
      out := buff[tail..tail + t];
      tail := tail + t;
      cnt := cnt - t;
      if tail >= buff.Length { tail := 0; }
    }

    /** buff_delete without a destination, as buffers are flushed: it does not split at the end of the array,
        and what is left is a ring exactly if it need not. */
    method BuffDiscard(n: nat) returns (v: nat)
      requires Valid()
      modifies this`tail, this`cnt
      ensures Shape() && v == Min(n, old(cnt)) && cnt == old(cnt) - v
      ensures Valid() <==> old(tail) + Min(n, old(cnt)) <= buff.Length
      ensures Valid() ==> Contents() == old(Contents())[v..]
    {
      v := Min(n, cnt);
      if tail + v <= buff.Length { RingDrop(buff[..], tail, cnt, v); }
      tail := tail + v;
      cnt := cnt - v;
      if tail >= buff.Length { tail := 0; }
    }

    /** buff_delete into a buffer, which does not split either: what it would have to take from the start of the
        array it takes from the memory behind, and what is left is a ring exactly if it need not. */
    method BuffDelete(n: nat, behind: nat -> byte) returns (out: seq<byte>)
      requires Valid()
      modifies this`tail, this`cnt
      ensures Shape() && |out| == Min(n, old(cnt)) && cnt == old(cnt) - |out|
      ensures Valid() <==> old(tail) + Min(n, old(cnt)) <= buff.Length
      ensures Valid() ==> out + Contents() == old(Contents())
      ensures forall k :: 0 <= k < |out| ==>
                out[k] == if old(tail) + k < buff.Length then old(Contents())[k]
                          else behind(old(tail) + k - buff.Length)
    {
      out := [];
      var t := Min(n, cnt);
      if t > 0 && tail + t <= buff.Length {
        out := TakeChunk(t);
      } else if t > 0 {
        var inside := buff.Length - tail;
        out := buff[tail..] + seq(t - inside, k requires 0 <= k => behind(k));
        cnt := cnt - t;
        tail := 0;
      }
      if t == 0 { assert [] + Contents() == Contents(); }
    }

    method BuffPutc(c: byte) returns (r: nat)
      requires Valid()
      modifies this`head, this`cnt, buff
      ensures Valid() && r == cnt
      ensures Contents() == if old(cnt) < buff.Length then old(Contents()) + [c] else old(Contents())
    {
      if cnt < buff.Length {
        RingPutOne(buff[..], tail, cnt, c);
        ghost var ring, at := buff[..], head;
        cnt := cnt + 1;
        buff[head] := c;
        assert buff[..] == ring[at := c];
        head := head + 1;
        if head >= buff.Length { head := 0; }
      }
      return cnt;
    }

    method BuffGetc() returns (r: int, c: byte)
      requires Valid()
      modifies this`tail, this`cnt
      ensures Valid()
      ensures if old(cnt) == 0 then r == -1 && Contents() == [] else r == 0 && [c] + Contents() == old(Contents())
    {
      if cnt == 0 { return -1, 0; }
      RingDropOne(buff[..], tail, cnt);
      r, c := 0, buff[tail];
      cnt := cnt - 1;
      tail := tail + 1;
      if tail >= buff.Length { tail := 0; }
    }

    // ---------------------------------------------------------------- records

    /** The ring is used for whole records of rsize bytes. */
    ghost predicate Aligned(rsize: nat)
      reads this
    {
      Valid() && rsize > 0 && Whole(buff.Length, rsize) && Whole(tail, rsize) && Whole(cnt, rsize)
    }

    ghost function Records(rsize: nat): seq<seq<byte>>
      requires Aligned(rsize)
      reads this, buff
    {
      Split(Contents(), rsize)
    }

    /** One record: it is put last, or dropped if the ring is full. */
    method AppendRecord(rec: seq<byte>)
      requires Aligned(|rec|)
      modifies this, buff
      ensures Aligned(|rec|) && tail == old(tail)
      ensures Records(|rec|) == if old(cnt) == buff.Length then old(Records(|rec|)) else old(Records(|rec|)) + [rec]
    {
      ghost var before := Contents();
      if cnt < buff.Length {
        WholeBelow(cnt, buff.Length, |rec|);
        WholeSum(cnt, |rec|, |rec|);
        SplitAppend(before, rec, |rec|);
      }
      var _ := BuffAppend(rec);
    }

    /** What appending part of a record to n bytes has led to: nothing, if the ring was full. */
    ghost predicate Appended(before: seq<byte>, n: nat, part: seq<byte>)
      reads this, buff
    {
      && Valid() && n <= buff.Length
      && (if n < buff.Length then cnt == n + |part| && Contents() == before + part
          else cnt == n && Contents() == before)
    }

    method AppendPiece(piece: seq<byte>, ghost before: seq<byte>, ghost n: nat, ghost part: seq<byte>)
      requires Appended(before, n, part) && (n < buff.Length ==> n + |part| + |piece| <= buff.Length)
      modifies this, buff
      ensures Appended(before, n, part + piece) && tail == old(tail)
    {
      assert before + part + piece == before + (part + piece);
      assert piece == [] ==> part + piece == part;
      var _ := BuffAppend(piece);
    }

    /** One record in several pieces, appended one after the other under the lock: the same as in one piece. */
    method AppendPieces(pieces: seq<seq<byte>>, ghost rec: seq<byte>)
      requires Aligned(|rec|) && Joined(pieces) == rec
      modifies this, buff
      ensures Aligned(|rec|) && tail == old(tail)
      ensures Records(|rec|) == if old(cnt) == buff.Length then old(Records(|rec|)) else old(Records(|rec|)) + [rec]
    {
      ghost var before, n := Contents(), cnt;
      if n < buff.Length {
        WholeBelow(n, buff.Length, |rec|);
        WholeSum(n, |rec|, |rec|);
        SplitAppend(before, rec, |rec|);
      }
      assert before + Joined(pieces[..0]) == before;
      for i := 0 to |pieces|
        invariant Appended(before, n, Joined(pieces[..i])) && tail == old(tail)
      {
        JoinedStep(pieces, i);
        JoinedPart(pieces, i + 1);
        AppendPiece(pieces[i], before, n, Joined(pieces[..i]));
      }
      assert pieces[..|pieces|] == pieces;
    }

    /** One record from the front, if there is one. */
    method DeleteRecord(rsize: nat) returns (out: seq<byte>)
      requires Aligned(rsize)
      modifies this`tail, this`cnt
      ensures Aligned(rsize)
      ensures if old(cnt) == 0 then out == [] && Records(rsize) == [] else [out] + Records(rsize) == old(Records(rsize))
    {
      ghost var before := Contents();
      WholeBelow(tail, buff.Length, rsize);
      if cnt > 0 {
        WholeBelow(0, cnt, rsize);
        WholeSum(tail, rsize, rsize);
        WholeDifference(cnt, rsize, rsize);
        WholeDifference(0, 0, rsize);
      }
      out := BuffDelete(rsize, _ => 0);
      if out != [] {
        assert before[..rsize] == out && before[rsize..] == Contents();
      }
    }
  }
}
