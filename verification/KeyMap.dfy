/**
 The key-map lookup: kmap_get_unicode scans packed items of varying length, section by section.  It is
 shown to find what a search of the plain list of items finds.
 */
module KeyMap {
  import opened Wrappers
  import opened Packed
  import M = Modifiers

  /** One key with a string, whose last character may be its CAP code, or a range of keys with a character
      each. */
  datatype Item =
    | Single(code: nat, hasCap: bool, deadKey: bool, chars: seq<wchar>)
    | Range(code: nat, chars: seq<wchar>)
  {
    predicate Fits() {
      code < 0x1_0000 && if Single? then 0 < |chars| < 16 else |chars| < 128
    }

    predicate Covers(key: nat) {
      if Single? then code == key else code <= key < code + |chars|
    }
  }

  /** The modifiers that a section tests and the state that it wants, and where its blocks lie. */
  datatype Section = Section(modState: M.Mask, modToTest: M.Mask, offset: nat, nBlocks: nat)

  /** What a lookup gives: the characters, and the dead-key flag if the item has one. */
  datatype Hit = Hit(chars: seq<wchar>, deadKey: Option<bool>)

  /** A lookup: the key, whether its CAP code is asked for, the modifiers that are on, and the character
      that marks a key without a symbol (Pk_InvalidSymbol, from a header that is not part of this model). */
  datatype Query = Query(key: nat, needCap: bool, mods: M.Mask, invalid: wchar)

  // ---------------------------------------------------------------- the plain list

  predicate Wanted(s: Section, q: Query) {
    if q.needCap then s.modState == M.Zero() else s.modState == M.And(q.mods, s.modToTest)
  }

  function Give(item: Item, q: Query): Hit
    requires item.Covers(q.key)
  {
    if item.Range? then Hit([item.chars[q.key - item.code]], None)
    else
      var n := |item.chars|;
      Hit(if n == 0 || item.chars[0] == q.invalid then []
          else if q.needCap then [item.chars[n - 1]]
          else if item.hasCap then item.chars[..n - 1]
          else item.chars,
          Some(item.deadKey))
  }

  /** What the first item that covers the key gives. */
  function FirstMatch(items: seq<Item>, q: Query): Option<Hit> {
    if items == [] then None
    else if items[0].Covers(q.key) then Some(Give(items[0], q))
    else FirstMatch(items[1..], q)
  }

  /** The items of all sections that are wanted, in order. */
  function Candidates(dir: seq<Section>, maps: seq<seq<Item>>, q: Query): seq<Item>
    requires |dir| == |maps|
  {
    if dir == [] then []
    else Candidates(dir[..|dir| - 1], maps[..|dir| - 1], q)
         + if Wanted(dir[|dir| - 1], q) then maps[|dir| - 1] else []
  }

  lemma {:induction false} FirstMatchConcat(a: seq<Item>, b: seq<Item>, q: Query)
    ensures FirstMatch(a + b, q) == if FirstMatch(a, q).Some? then FirstMatch(a, q) else FirstMatch(b, q)
    decreases |a|
  {
    if a == [] {
      assert a + b == b;
    } else {
      assert (a + b)[1..] == a[1..] + b;
      FirstMatchConcat(a[1..], b, q);
    }
  }

  /** The definition of a first match, spelt out: it is what item i gives, and no earlier item covers the key. */
  lemma {:induction false} FirstMatchIsFirst(items: seq<Item>, q: Query, i: nat)
    requires i < |items| && items[i].Covers(q.key)
    requires forall j :: 0 <= j < i ==> !items[j].Covers(q.key)
    ensures FirstMatch(items, q) == Some(Give(items[i], q))
    decreases i
  {
    if i > 0 {
      assert !items[0].Covers(q.key) && items[1..][i - 1] == items[i];
      assert forall j :: 0 <= j < i - 1 ==> items[1..][j] == items[j + 1];
      FirstMatchIsFirst(items[1..], q, i - 1);
    }
  }

  lemma {:induction false} NoMatchIff(items: seq<Item>, q: Query)
    ensures FirstMatch(items, q) == None <==> forall j :: 0 <= j < |items| ==> !items[j].Covers(q.key)
    decreases |items|
  {
    if items != [] {
      NoMatchIff(items[1..], q);
      assert forall j :: 1 <= j < |items| ==> items[j] == items[1..][j - 1];
      if forall j :: 0 <= j < |items| ==> !items[j].Covers(q.key) {
        assert forall j :: 0 <= j < |items[1..]| ==> items[1..][j] == items[j + 1];
      }
    }
  }

  // ---------------------------------------------------------------- what an item gives

  /** The first item for the key is this one. */
  predicate FirstIs(items: seq<Item>, key: nat, i: nat) {
    i < |items| && items[i].Covers(key) && forall j :: 0 <= j < i ==> !items[j].Covers(key)
  }

  /** Key code + k of a range types its k-th character, whatever is asked for. */
  lemma RangeGivesKth(items: seq<Item>, q: Query, i: nat, k: nat)
    requires FirstIs(items, q.key, i) && items[i].Range? && q.key == items[i].code + k
    ensures k < |items[i].chars| && FirstMatch(items, q) == Some(Hit([items[i].chars[k]], None))
  {
    FirstMatchIsFirst(items, q, i);
  }

  /** A key with an item of its own: the text and the CAP code make up the stored string, or the text is all
      of it; where its first character is the invalid symbol, neither has a character. */
  lemma SingleGivesString(items: seq<Item>, q: Query, i: nat)
    requires FirstIs(items, q.key, i) && items[i].Single?
    ensures items[i].code == q.key
    ensures var text, cap := FirstMatch(items, q.(needCap := false)), FirstMatch(items, q.(needCap := true));
            var stored := items[i].chars;
            && text.Some? && cap.Some? && text.value.deadKey == cap.value.deadKey == Some(items[i].deadKey)
            && (if stored == [] || stored[0] == q.invalid then text.value.chars == cap.value.chars == []
                else if items[i].hasCap then |cap.value.chars| == 1 && text.value.chars + cap.value.chars == stored
                else text.value.chars == stored && cap.value.chars == [stored[|stored| - 1]])
  {
    FirstMatchIsFirst(items, q.(needCap := false), i);
    FirstMatchIsFirst(items, q.(needCap := true), i);
  }

  /** The first n keys of a range, each as an item of its own */
  function OneByOne(item: Item, n: nat): seq<Item>
    requires item.Range? && n <= |item.chars|
  {
    if n == 0 then [] else OneByOne(item, n - 1) + [Single(item.code + n - 1, false, false, [item.chars[n - 1]])]
  }

  /** The list without ranges */
  function Expanded(items: seq<Item>): seq<Item> {
    if items == [] then []
    else (if items[0].Range? then OneByOne(items[0], |items[0].chars|) else [items[0]]) + Expanded(items[1..])
  }

  /** The characters, with those of a range tested for the invalid symbol too, as those of other items are */
  function Typed(hit: Option<Hit>, invalid: wchar): Option<seq<wchar>> {
    if hit.None? then None
    else Some(if hit.value.deadKey.None? && hit.value.chars == [invalid] then [] else hit.value.chars)
  }

  lemma {:induction false} OneByOneGives(item: Item, n: nat, q: Query)
    requires item.Range? && n <= |item.chars|
    ensures var hit := FirstMatch(OneByOne(item, n), q);
            if item.code <= q.key < item.code + n
            then hit.Some? && var c := item.chars[q.key - item.code];
                              hit.value.chars == if c == q.invalid then [] else [c]
            else hit.None?
    decreases n
  {
    if n > 0 {
      OneByOneGives(item, n - 1, q);
      var last := Single(item.code + n - 1, false, false, [item.chars[n - 1]]);
      FirstMatchConcat(OneByOne(item, n - 1), [last], q);
      assert [last][1..] == [] && FirstMatch([], q) == None;
    }
  }

  /** A list of ranges and single keys is looked up as if every key of a range had an item of its own. */
  lemma {:induction false} RangesAreShorthand(items: seq<Item>, q: Query)
    ensures Typed(FirstMatch(Expanded(items), q), q.invalid) == Typed(FirstMatch(items, q), q.invalid)
    decreases |items|
  {
    if items != [] {
      RangesAreShorthand(items[1..], q);
      var item := items[0];
      if item.Range? {
        OneByOneGives(item, |item.chars|, q);
        FirstMatchConcat(OneByOne(item, |item.chars|), Expanded(items[1..]), q);
      } else {
        FirstMatchConcat([item], Expanded(items[1..]), q);
        assert [item][1..] == [] && FirstMatch([], q) == None;
      }
    }
  }

  // ---------------------------------------------------------------- which section

  /** A section is wanted for text exactly if it asks for nothing that it does not test, and every modifier
      that it tests is as it asks; for a CAP code, if it asks for no modifier to be on. */
  lemma WantedIff(s: Section, q: Query)
    ensures var asked, tested, on := M.Bits(s.modState), M.Bits(s.modToTest), M.Bits(q.mods);
            Wanted(s, q) <==> if q.needCap then asked == {}
                              else asked <= tested && forall n :: n in tested ==> (n in asked <==> n in on)
  {
    M.ZeroIff(s.modState);
    if !q.needCap && M.Bits(s.modState) <= M.Bits(s.modToTest)
       && forall n :: n in M.Bits(s.modToTest) ==> (n in M.Bits(s.modState) <==> n in M.Bits(q.mods)) {
      forall i: M.Mod ensures s.modState[i] == M.And(q.mods, s.modToTest)[i] {
        assert i in M.Bits(s.modState) <==> s.modState[i];
      }
      assert s.modState == M.And(q.mods, s.modToTest);
    }
  }

  /** The key has no item in this section, or the section is not wanted. */
  predicate Silent(dir: seq<Section>, maps: seq<seq<Item>>, q: Query, s: nat)
    requires s < |dir| == |maps|
  {
    Wanted(dir[s], q) ==> forall j :: 0 <= j < |maps[s]| ==> !maps[s][j].Covers(q.key)
  }

  predicate AllSilent(dir: seq<Section>, maps: seq<seq<Item>>, q: Query)
    requires |dir| == |maps|
  {
    forall s :: 0 <= s < |dir| ==> Silent(dir, maps, q, s)
  }

  lemma {:induction false} NoneInSilent(dir: seq<Section>, maps: seq<seq<Item>>, q: Query)
    requires |dir| == |maps| && AllSilent(dir, maps, q)
    ensures FirstMatch(Candidates(dir, maps, q), q) == None
    decreases |dir|
  {
    if dir != [] {
      var n := |dir| - 1;
      assert forall s :: 0 <= s < n ==> Silent(dir, maps, q, s) && maps[..n][s] == maps[s] && dir[..n][s] == dir[s];
      NoneInSilent(dir[..n], maps[..n], q);
      assert Silent(dir, maps, q, n);
      NoMatchIff(maps[n], q);
      NoMatchIff([], q);
      FirstMatchConcat(Candidates(dir[..n], maps[..n], q), if Wanted(dir[n], q) then maps[n] else [], q);
    }
  }

  /** The lookup finds the first item for the key in the first wanted section that has one. */
  lemma {:induction false} EarliestSectionWins(dir: seq<Section>, maps: seq<seq<Item>>, q: Query, s: nat, i: nat)
    requires s < |dir| == |maps| && Wanted(dir[s], q) && FirstIs(maps[s], q.key, i)
    requires AllSilent(dir[..s], maps[..s], q)
    ensures FirstMatch(Candidates(dir, maps, q), q) == FirstMatch([maps[s][i]], q)
    decreases |dir|
  {
    var n := |dir| - 1;
    if s == n {
      NoneInSilent(dir[..n], maps[..n], q);
      FirstMatchIsFirst(maps[n], q, i);
      FirstMatchConcat(Candidates(dir[..n], maps[..n], q), maps[n], q);
    } else {
      assert dir[..n][..s] == dir[..s] && maps[..n][..s] == maps[..s];
      EarliestSectionWins(dir[..n], maps[..n], q, s, i);
      FirstMatchConcat(Candidates(dir[..n], maps[..n], q), if Wanted(dir[n], q) then maps[n] else [], q);
    }
  }

  predicate AllFit(items: seq<Item>) {
    forall i :: 0 <= i < |items| ==> items[i].Fits()
  }

  // ---------------------------------------------------------------- packed items

  function Size(item: Item): nat { 3 + WCHAR_SIZE * |item.chars| }

  function Descriptor(item: Item): byte
    requires item.Fits()
  {
    if item.Range? then 2 * |item.chars|
    else 1 + (if item.hasCap then 2 else 0) + (if item.deadKey then 4 else 0) + 16 * |item.chars|
  }

  function EncodeItem(item: Item): (b: seq<byte>)
    requires item.Fits()
    ensures |b| == Size(item)
  {
    [item.code % 0x100, item.code / 0x100, Descriptor(item)] + EncodeChars(item.chars)
  }

  /** The byte offset of item k */
  function Offset(items: seq<Item>, k: nat): nat
    requires k <= |items|
  {
    if k == 0 then 0 else Offset(items, k - 1) + Size(items[k - 1])
  }

  /** The first n items, packed */
  function EncodeUpTo(items: seq<Item>, n: nat): (b: seq<byte>)
    requires n <= |items| && AllFit(items)
    ensures |b| == Offset(items, n)
  {
    if n == 0 then [] else EncodeUpTo(items, n - 1) + EncodeItem(items[n - 1])
  }

  function EncodeItems(items: seq<Item>): seq<byte>
    requires AllFit(items)
  {
    EncodeUpTo(items, |items|)
  }

  ghost predicate ItemAt(mem: seq<byte>, at: nat, item: Item) {
    && item.Fits() && at + 3 <= |mem|
    && mem[at] + 0x100 * (mem[at + 1] as int) == item.code && mem[at + 2] == Descriptor(item)
    && Holds(mem, at + 3, item.chars)
  }

  ghost predicate RecordAt(mem: seq<byte>, base: nat, items: seq<Item>, k: nat)
    requires k < |items|
  {
    ItemAt(mem, base + Offset(items, k), items[k])
  }

  ghost predicate ItemsAt(mem: seq<byte>, base: nat, items: seq<Item>) {
    forall k :: 0 <= k < |items| ==> RecordAt(mem, base, items, k)
  }

  lemma EncodedItemAt(mem: seq<byte>, at: nat, item: Item)
    requires item.Fits() && BytesAt(mem, at, EncodeItem(item))
    ensures ItemAt(mem, at, item)
  {
    var header: seq<byte> := [item.code % 0x100, item.code / 0x100, Descriptor(item)];
    PartsAt(mem, at, header, EncodeChars(item.chars));
    var h := mem[at..at + |header|];
    assert h[0] == mem[at] && h[1] == mem[at + 1] && h[2] == mem[at + 2];
    EncodedHolds(mem, at + 3, item.chars);
  }

  lemma {:induction false} EncodedUpTo(mem: seq<byte>, base: nat, items: seq<Item>, n: nat)
    requires n <= |items| && AllFit(items) && BytesAt(mem, base, EncodeUpTo(items, n))
    ensures forall k :: 0 <= k < n ==> RecordAt(mem, base, items, k)
  {
    if n > 0 {
      LastOf(mem, base, items, n);
      EncodedUpTo(mem, base, items, n - 1);
    }
  }

  lemma LastOf(mem: seq<byte>, base: nat, items: seq<Item>, n: nat)
    requires 0 < n <= |items| && AllFit(items) && BytesAt(mem, base, EncodeUpTo(items, n))
    ensures BytesAt(mem, base, EncodeUpTo(items, n - 1)) && RecordAt(mem, base, items, n - 1)
  {
    PartsAt(mem, base, EncodeUpTo(items, n - 1), EncodeItem(items[n - 1]));
    EncodedItemAt(mem, base + Offset(items, n - 1), items[n - 1]);
  }

  /** Packing a list of items and reading the records back */
  lemma EncodedItemsAt(mem: seq<byte>, base: nat, items: seq<Item>)
    requires AllFit(items) && BytesAt(mem, base, EncodeItems(items))
    ensures ItemsAt(mem, base, items)
  {
    EncodedUpTo(mem, base, items, |items|);
  }

  /** The bits of a descriptor say what it describes. */
  lemma DescriptorBits(item: Item)
    requires item.Fits()
    ensures var d := Descriptor(item) as int;
            && (d % 2 == 1 <==> item.Single?)
            && |item.chars| == (if d % 2 == 1 then d / 16 else d / 2)
            && (item.Single? ==> (d / 2 % 2 == 1 <==> item.hasCap) && (d / 4 % 2 == 1 <==> item.deadKey))
  {
  }

  // ---------------------------------------------------------------- the scan

  class Table {
    const area: seq<byte>
    const dir: seq<Section>
    ghost const maps: seq<seq<Item>>

    ghost predicate SectionOk(s: nat)
      requires s < |dir| && s < |maps|
    {
      dir[s].nBlocks == |maps[s]| && ItemsAt(area, dir[s].offset, maps[s])
    }

    ghost predicate Valid() {
      |dir| == |maps| && forall s :: 0 <= s < |dir| ==> SectionOk(s)
    }

    constructor (area: seq<byte>, dir: seq<Section>, ghost maps: seq<seq<Item>>)
      requires |dir| == |maps|
      requires forall s :: 0 <= s < |dir| ==>
        AllFit(maps[s]) && dir[s].nBlocks == |maps[s]| && BytesAt(area, dir[s].offset, EncodeItems(maps[s]))
      ensures Valid() && this.dir == dir && this.maps == maps
    {
      this.area, this.dir, this.maps := area, dir, maps;
      new;
      forall s | 0 <= s < |dir|
        ensures SectionOk(s)
      {
        EncodedItemsAt(area, dir[s].offset, maps[s]);
      }
    }

    /** The item at a position, and where the next one is; the length is in other bits for either type. */
    method ReadItem(at: nat, ghost item: Item) returns (r: Item, next: nat)
      requires ItemAt(area, at, item)
      ensures r == item && next == at + Size(item)
    {
      DescriptorBits(item);
      var code, d := area[at] + 0x100 * (area[at + 1] as int), area[at + 2] as int;
      var n := if d % 2 == 1 then d / 16 else d / 2;
      var chars := ReadChars(area, at + 3, n);
      ReadSlice(area, at + 3, item.chars, 0, n);
      assert item.chars[0..0 + n] == item.chars;
      r := if d % 2 == 1 then Single(code, d / 2 % 2 == 1, d / 4 % 2 == 1, chars) else Range(code, chars);
      next := at + 3 + WCHAR_SIZE * n;
    }

    method ScanSection(s: nat, q: Query) returns (hit: Option<Hit>)
      requires Valid() && s < |dir|
      ensures hit == FirstMatch(maps[s], q)
    {
      assert SectionOk(s);
      ghost var items := maps[s];
      var at := dir[s].offset;
      var nBlk := 0;
      while nBlk < dir[s].nBlocks
        invariant nBlk <= |items| && at == dir[s].offset + Offset(items, nBlk)
        invariant FirstMatch(items, q) == FirstMatch(items[nBlk..], q)
      {
        assert RecordAt(area, dir[s].offset, items, nBlk);
        var item, next := ReadItem(at, items[nBlk]);
        assert items[nBlk..][0] == item && items[nBlk..][1..] == items[nBlk + 1..];
        if item.Covers(q.key) { return Some(Give(item, q)); }
        nBlk, at := nBlk + 1, next;
      }
      return None;
    }

    /** kmap_get_unicode */
    method GetUnicode(q: Query) returns (hit: Option<Hit>)
      requires Valid()
      ensures hit == FirstMatch(Candidates(dir, maps, q), q)
    {
      var s := 0;
      while s < |dir|
        invariant s <= |dir|
        invariant FirstMatch(Candidates(dir[..s], maps[..s], q), q) == None
      {
        assert dir[..s + 1][..s] == dir[..s] && maps[..s + 1][..s] == maps[..s];
        ghost var before := Candidates(dir[..s], maps[..s], q);
        if Wanted(dir[s], q) {
          hit := ScanSection(s, q);
          FirstMatchConcat(before, maps[s], q);
          if hit.Some? {
            LaterSections(s + 1, q);
            return;
          }
        } else {
          assert before + [] == before;
        }
        s := s + 1;
      }
      assert dir[..|dir|] == dir && maps[..|dir|] == maps;
      return None;
    }

    /** Later sections do not change a match that has been found. */
    lemma {:induction false} LaterSections(s: nat, q: Query)
      requires |dir| == |maps| && s <= |dir|
      requires FirstMatch(Candidates(dir[..s], maps[..s], q), q).Some?
      ensures FirstMatch(Candidates(dir, maps, q), q) == FirstMatch(Candidates(dir[..s], maps[..s], q), q)
      decreases |dir| - s
    {
      if s == |dir| {
        assert dir[..s] == dir && maps[..s] == maps;
      } else {
        assert dir[..s + 1][..s] == dir[..s] && maps[..s + 1][..s] == maps[..s];
        var before := Candidates(dir[..s], maps[..s], q);
        var more := if Wanted(dir[s], q) then maps[s] else [];
        FirstMatchConcat(before, more, q);
        LaterSections(s + 1, q);
      }
    }
  }
}
