/** Packed tables of the keyboard maps: bytes, and the four-byte little-endian wchar_t within them. */
module Packed {
  type byte = x: int | 0 <= x < 256

  /** A wchar_t */
  type wchar = x: int | 0 <= x < 0x1_0000_0000

  const WCHAR_SIZE := 4

  function EncodeChar(c: wchar): (b: seq<byte>)
    ensures |b| == WCHAR_SIZE
  {
    [c % 0x100, c / 0x100 % 0x100, c / 0x1_0000 % 0x100, c / 0x100_0000]
  }

  function EncodeChars(s: seq<wchar>): (b: seq<byte>)
    ensures |b| == WCHAR_SIZE * |s|
  {
    if s == [] then [] else EncodeChar(s[0]) + EncodeChars(s[1..])
  }

  /** The wchar_t at a byte position. */
  function ReadChar(mem: seq<byte>, at: nat): wchar
    requires at + WCHAR_SIZE <= |mem|
  {
    (mem[at] as int) + 0x100 * (mem[at + 1] as int)
    + 0x1_0000 * (mem[at + 2] as int) + 0x100_0000 * (mem[at + 3] as int)
  }

  lemma CharRoundTrip(c: wchar)
    ensures ReadChar(EncodeChar(c), 0) == c
  {
    var b0, r1 := c % 0x100, c / 0x100;
    var b1, r2 := r1 % 0x100, r1 / 0x100;
    assert c / 0x1_0000 == r2 && c / 0x100_0000 == r2 / 0x100;
  }

  /** The string s can be read at a byte position. */
  ghost predicate Holds(mem: seq<byte>, at: nat, s: seq<wchar>) {
    && at + WCHAR_SIZE * |s| <= |mem|
    && forall i :: 0 <= i < |s| ==> ReadChar(mem, at + WCHAR_SIZE * i) == s[i]
  }

  lemma ReadCons(mem: seq<byte>, at: nat, s: seq<wchar>)
    requires s != [] && at + WCHAR_SIZE <= |mem| && mem[at..at + WCHAR_SIZE] == EncodeChar(s[0])
    requires Holds(mem, at + WCHAR_SIZE, s[1..])
    ensures Holds(mem, at, s)
  {
    var b := mem[at..at + WCHAR_SIZE];
    assert b[0] == mem[at] && b[1] == mem[at + 1] && b[2] == mem[at + 2] && b[3] == mem[at + 3];
    CharRoundTrip(s[0]);
    assert ReadChar(mem, at) == s[0];
    forall i | 0 <= i < |s|
      ensures ReadChar(mem, at + WCHAR_SIZE * i) == s[i]
    {
      if i > 0 {
        assert s[1..][i - 1] == s[i];
        assert at + WCHAR_SIZE + WCHAR_SIZE * (i - 1) == at + WCHAR_SIZE * i;
      }
    }
  }

  /** Encoding and reading back: what was encoded at a position can be read there. */
  lemma {:induction false} EncodedHolds(mem: seq<byte>, at: nat, s: seq<wchar>)
    requires at + WCHAR_SIZE * |s| <= |mem| && mem[at..at + WCHAR_SIZE * |s|] == EncodeChars(s)
    ensures Holds(mem, at, s)
    decreases |s|
  {
    if s != [] {
      var b := mem[at..at + WCHAR_SIZE * |s|];
      assert mem[at..at + WCHAR_SIZE] == b[..WCHAR_SIZE] == EncodeChar(s[0]);
      assert mem[at + WCHAR_SIZE..at + WCHAR_SIZE + WCHAR_SIZE * |s[1..]|] == b[WCHAR_SIZE..] == EncodeChars(s[1..]);
      EncodedHolds(mem, at + WCHAR_SIZE, s[1..]);
      ReadCons(mem, at, s);
    }
  }

  /** memcpy of n wchar_t */
  function ReadChars(mem: seq<byte>, at: nat, n: nat): (s: seq<wchar>)
    requires at + WCHAR_SIZE * n <= |mem|
    ensures |s| == n
  {
    seq(n, i requires 0 <= i < n => ReadChar(mem, at + WCHAR_SIZE * i))
  }

  lemma ReadSlice(mem: seq<byte>, at: nat, s: seq<wchar>, from: nat, n: nat)
    requires Holds(mem, at, s) && from + n <= |s|
    ensures ReadChars(mem, at + WCHAR_SIZE * from, n) == s[from..from + n]
  {
    var r := ReadChars(mem, at + WCHAR_SIZE * from, n);
    forall i | 0 <= i < n
      ensures r[i] == s[from + i]
    {
      assert at + WCHAR_SIZE * from + WCHAR_SIZE * i == at + WCHAR_SIZE * (from + i);
    }
  }

  /** What lies at a position in memory, and the parts of it. */
  ghost predicate BytesAt(mem: seq<byte>, at: nat, b: seq<byte>) {
    at + |b| <= |mem| && mem[at..at + |b|] == b
  }

  lemma PartsAt(mem: seq<byte>, at: nat, a: seq<byte>, b: seq<byte>)
    requires BytesAt(mem, at, a + b)
    ensures BytesAt(mem, at, a) && BytesAt(mem, at + |a|, b)
  {
    var all := mem[at..at + |a + b|];
    assert mem[at..at + |a|] == all[..|a|];
    assert mem[at + |a|..at + |a| + |b|] == all[|a|..];
  }
}
