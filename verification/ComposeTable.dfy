/**
 The compose table of a keyboard map: sequences of typed characters and what replaces them, in the
 order that the matcher relies on, and as the packed records that it reads.
 */
module ComposeTable {
  import opened Packed

  datatype Entry = Entry(input: seq<wchar>, output: seq<wchar>)
  {
    /** The record has four bits for either length. */
    predicate Fits() { 0 < |input| < 16 && |output| < 16 }
  }

  // ---------------------------------------------------------------- order

  /** Lexicographic, a prefix before its extensions */
  predicate Less(a: seq<wchar>, b: seq<wchar>) {
    b != [] && (a == [] || a[0] < b[0] || (a[0] == b[0] && Less(a[1..], b[1..])))
  }

  predicate Ordered(table: seq<Entry>) {
    forall i, j :: 0 <= i < j < |table| ==> Less(table[i].input, table[j].input)
  }

  lemma {:induction false} PrefixIsLess(p: seq<wchar>, a: seq<wchar>)
    requires p < a
    ensures Less(p, a)
  {
    if p != [] {
      PrefixIsLess(p[1..], a[1..]);
    }
  }

  lemma {:induction false} LessIsAsymmetric(a: seq<wchar>, b: seq<wchar>)
    requires Less(a, b)
    ensures !Less(b, a) && a != b
  {
    if a != [] && a[0] == b[0] {
      LessIsAsymmetric(a[1..], b[1..]);
    }
  }

  /** What lies between two extensions of p is an extension of p. */
  lemma {:induction false} PrefixBetween(p: seq<wchar>, a: seq<wchar>, b: seq<wchar>, c: seq<wchar>)
    requires p <= a && p <= c && Less(a, b) && Less(b, c)
    ensures p <= b
  {
    if p != [] {
      assert a[0] == c[0] == p[0];
      assert p[1..] <= a[1..] && p[1..] <= c[1..];
      PrefixBetween(p[1..], a[1..], b[1..], c[1..]);
    }
  }

  /** Entries with a common prefix stand together. */
  lemma Contiguous(table: seq<Entry>, p: seq<wchar>, i: nat, j: nat, k: nat)
    requires Ordered(table) && i <= j <= k < |table|
    requires p <= table[i].input && p <= table[k].input
    ensures p <= table[j].input
  {
    if i < j < k {
      PrefixBetween(p, table[i].input, table[j].input, table[k].input);
    }
  }

  // ---------------------------------------------------------------- the simple specification

  /** Some entry goes on after u. */
  ghost predicate Extends(table: seq<Entry>, u: seq<wchar>) {
    exists i :: 0 <= i < |table| && u < table[i].input
  }

  /** Entry i is the first that goes on after u. */
  ghost predicate FirstExtension(table: seq<Entry>, u: seq<wchar>, i: nat) {
    && i < |table| && u < table[i].input
    && forall j :: 0 <= j < i ==> !(u < table[j].input)
  }

  ghost predicate IsEntry(table: seq<Entry>, u: seq<wchar>, i: nat) {
    i < |table| && table[i].input == u
  }

  /** An entry that extends u stands after u itself, and then so does the entry next to u. */
  lemma ExtensionIsNext(table: seq<Entry>, u: seq<wchar>, i: nat, k: nat)
    requires Ordered(table) && IsEntry(table, u, i) && k < |table| && u < table[k].input
    ensures i + 1 < |table| && u < table[i + 1].input
  {
    PrefixIsLess(u, table[k].input);
    LessIsAsymmetric(u, table[k].input);
    Contiguous(table, u, i, i + 1, k);
    LessIsAsymmetric(table[i].input, table[i + 1].input);
  }

  // ---------------------------------------------------------------- packed records

  function Size(e: Entry): nat { 1 + WCHAR_SIZE * (|e.input| + |e.output|) }

  function EncodeEntry(e: Entry): (b: seq<byte>)
    requires e.Fits()
    ensures |b| == Size(e)
  {
    [|e.input| + 16 * |e.output|] + EncodeChars(e.input + e.output)
  }

  predicate AllFit(table: seq<Entry>) {
    forall i :: 0 <= i < |table| ==> table[i].Fits()
  }

  /** The byte offset of entry k */
  function Offset(table: seq<Entry>, k: nat): nat
    requires k <= |table|
  {
    if k == 0 then 0 else Offset(table, k - 1) + Size(table[k - 1])
  }

  /** The records of the first n entries */
  function EncodeUpTo(table: seq<Entry>, n: nat): (b: seq<byte>)
    requires n <= |table| && AllFit(table)
    ensures |b| == Offset(table, n)
  {
    if n == 0 then [] else EncodeUpTo(table, n - 1) + EncodeEntry(table[n - 1])
  }

  function EncodeTable(table: seq<Entry>): seq<byte>
    requires AllFit(table)
  {
    EncodeUpTo(table, |table|)
  }

  /** The record of e lies at a byte position. */
  ghost predicate EntryAt(mem: seq<byte>, at: nat, e: Entry) {
    && e.Fits() && at < |mem|
    && mem[at] % 16 == |e.input| && mem[at] / 16 == |e.output|
    && Holds(mem, at + 1, e.input + e.output)
  }

  ghost predicate RecordAt(mem: seq<byte>, base: nat, table: seq<Entry>, k: nat)
    requires k < |table|
  {
    EntryAt(mem, base + Offset(table, k), table[k])
  }

  ghost predicate TableAt(mem: seq<byte>, base: nat, table: seq<Entry>) {
    forall k :: 0 <= k < |table| ==> RecordAt(mem, base, table, k)
  }

  lemma EncodedEntryAt(mem: seq<byte>, at: nat, e: Entry)
    requires e.Fits() && BytesAt(mem, at, EncodeEntry(e))
    ensures EntryAt(mem, at, e)
  {
    var header: byte := |e.input| + 16 * |e.output|;
    PartsAt(mem, at, [header], EncodeChars(e.input + e.output));
    assert mem[at..at + |[header]|][0] == header;
    EncodedHolds(mem, at + 1, e.input + e.output);
  }

  lemma {:induction false} EncodedUpTo(mem: seq<byte>, base: nat, table: seq<Entry>, n: nat)
    requires n <= |table| && AllFit(table) && BytesAt(mem, base, EncodeUpTo(table, n))
    ensures forall k :: 0 <= k < n ==> RecordAt(mem, base, table, k)
  {
    if n > 0 {
      LastOf(mem, base, table, n);
      EncodedUpTo(mem, base, table, n - 1);
    }
  }

  lemma LastOf(mem: seq<byte>, base: nat, table: seq<Entry>, n: nat)
    requires 0 < n <= |table| && AllFit(table) && BytesAt(mem, base, EncodeUpTo(table, n))
    ensures BytesAt(mem, base, EncodeUpTo(table, n - 1)) && RecordAt(mem, base, table, n - 1)
  {
    PartsAt(mem, base, EncodeUpTo(table, n - 1), EncodeEntry(table[n - 1]));
    EncodedEntryAt(mem, base + Offset(table, n - 1), table[n - 1]);
  }

  /** Packing a table and reading the records back */
  lemma EncodedTableAt(mem: seq<byte>, base: nat, table: seq<Entry>)
    requires AllFit(table) && BytesAt(mem, base, EncodeTable(table))
    ensures TableAt(mem, base, table)
  {
    EncodedUpTo(mem, base, table, |table|);
  }
}
