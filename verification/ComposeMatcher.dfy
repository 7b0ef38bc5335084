/**
 The incremental compose matcher: check_comp_state keeps a cursor into the packed table of a section
 and advances it by one typed character at a time.  The cursor is shown to be where a search of the
 whole table for the characters typed so far would put it.
 */
module ComposeMatcher {
  import opened Wrappers
  import opened Packed
  import opened ComposeTable

  type short = x: int | -0x8000 <= x < 0x8000

  const SHORT_MAX := 0x7FFF

  /** Room in the buffer that a key is decoded into */
  const MAX_UNICODE_LEN := 20

  datatype Section = Section(nComps: nat, nOffset: nat)

  /** How one entry compares with what was typed, or that it was passed over or ended the search. */
  datatype Verdict = Complete | NeedsMore | Differs | Skipped | Ended

  function Take<T>(s: seq<T>, n: nat): (r: seq<T>)
    ensures |r| <= n && |r| <= |s|
  {
    if n < |s| then s[..n] else s
  }

  lemma TakeConcat<T>(a: seq<T>, b: seq<T>, n: nat)
    ensures Take(a, n) + Take(b, n - |Take(a, n)|) == Take(a + b, n)
  {
  }

  /** No entry of the table goes on after u, and those that are u itself are among the found. */
  ghost predicate Searched(table: seq<Entry>, n: nat, u: seq<wchar>, found: Option<nat>) {
    && n <= |table|
    && (forall j :: 0 <= j < n ==> !(u < table[j].input))
    && (found.None? ==> forall j :: 0 <= j < n ==> table[j].input != u)
    && (found.Some? ==> found.value < n && table[found.value].input == u)
  }

  /** Once an entry lacks the prefix that the cursor's entry has, no later one has it. */
  lemma SearchedToEnd(table: seq<Entry>, w: seq<wchar>, u: seq<wchar>, k: nat, n: nat, found: Option<nat>)
    requires Ordered(table) && Searched(table, n, u, found) && w < u
    requires k < n < |table| && w <= table[k].input && !(w <= table[n].input)
    ensures Searched(table, |table|, u, found)
  {
    forall j | n <= j < |table|
      ensures !(u <= table[j].input)
    {
      if w <= table[j].input {
        Contiguous(table, w, k, n, j);
      }
    }
  }

  /** The pending characters themselves are no entry after the cursor. */
  lemma LaterIsLonger(table: seq<Entry>, w: seq<wchar>, k: nat, n: nat)
    requires Ordered(table) && k <= n < |table| && w < table[k].input
    ensures table[n].input != w
  {
    PrefixIsLess(w, table[k].input);
    if k < n {
      LessIsAsymmetric(w, table[k].input);
      assert Less(table[k].input, table[n].input);
    }
  }

  /** Once the entry after the one found does not go on after u, no later one does. */
  lemma SearchedPastFound(table: seq<Entry>, u: seq<wchar>, n: nat, found: Option<nat>)
    requires Ordered(table) && Searched(table, n, u, found) && found.Some?
    requires n < |table| && !(u < table[n].input)
    ensures Searched(table, |table|, u, found)
  {
    forall j | 0 <= j < |table|
      ensures !(u < table[j].input)
    {
      if u < table[j].input {
        ExtensionIsNext(table, u, found.value, j);
      }
    }
  }

  lemma SearchedOneMore(table: seq<Entry>, u: seq<wchar>, n: nat, found: Option<nat>)
    requires Searched(table, n, u, found) && n < |table| && !(u <= table[n].input)
    ensures Searched(table, n + 1, u, found)
  {
  }

  /** The outcome of one typed character, for the characters u typed up to and with it. */
  ghost predicate Replaces(table: seq<Entry>, u: seq<wchar>, out: seq<wchar>, left: int, room: nat) {
    && !Extends(table, u)
    && exists i: nat :: IsEntry(table, u, i) && out == Take(table[i].output, room) && left == 0
  }

  /** What the code puts out when the characters fit no entry: the pending ones w, and then one character
      less than that from the input buffer. */
  predicate Flushed(w: seq<wchar>, codes: seq<wchar>, out: seq<wchar>, left: int, room: nat)
    requires |w| <= |codes|
  {
    var taken: nat := if w == [] then 0 else |w| - 1;
    out == Take(w + codes[..taken], room) && left == 1 - |Take(codes[..taken], room - |Take(w, room)|)|
  }

  ghost predicate PassesThrough(t: seq<Entry>, w: seq<wchar>, codes: seq<wchar>, out: seq<wchar>, left: int, room: nat)
    requires |w| < |codes|
  {
    && !Extends(t, w + [codes[0]])
    && (forall i :: 0 <= i < |t| ==> t[i].input != w + [codes[0]])
    && Flushed(w, codes, out, left, room)
  }

  /** All that is put out for pending characters w and a character that fits no entry, given room. */
  function Unmatched(w: seq<wchar>, codes: seq<wchar>): seq<wchar>
    requires |w| <= |codes| && codes != []
  {
    w + codes[..if |w| < 2 then 1 else |w| - 1]
  }

  /** That is what was typed exactly if at most two characters were pending; so it always is in a table
      whose entries have at most three. */
  lemma UnmatchedIsTypedIff(w: seq<wchar>, codes: seq<wchar>)
    requires |w| <= |codes| && codes != []
    ensures Unmatched(w, codes) == w + [codes[0]] <==> |w| <= 2
  {
    assert |Unmatched(w, codes)| == |w| + if |w| < 2 then 1 else |w| - 1;
  }

  lemma ShortEntriesPassThrough(t: seq<Entry>, w: seq<wchar>, codes: seq<wchar>)
    requires |w| <= |codes| && codes != []
    requires Extends(t, w) && forall i :: 0 <= i < |t| ==> |t[i].input| <= 3
    ensures Unmatched(w, codes) == w + [codes[0]]
  {
    UnmatchedIsTypedIff(w, codes);
  }

  lemma UnmatchedParts(w: seq<wchar>, codes: seq<wchar>, out: seq<wchar>, left: int, room: nat)
    requires |w| <= |codes| && codes != [] && Flushed(w, codes, out, left, room) && left > 0
    ensures out + Take(codes[..left], room - |out|) == Take(Unmatched(w, codes), room)
  {
  }

  lemma UnmatchedWhole(w: seq<wchar>, codes: seq<wchar>, out: seq<wchar>, left: int, room: nat)
    requires |w| <= |codes| && codes != [] && Flushed(w, codes, out, left, room) && left <= 0
    ensures out == Take(Unmatched(w, codes), room)
  {
  }

  lemma ExtendsEarlier(t: seq<Entry>, p: seq<wchar>, u: seq<wchar>)
    requires p <= u && Extends(t, u)
    ensures Extends(t, p)
  {
    var i :| 0 <= i < |t| && u < t[i].input;
    assert p < t[i].input;
  }

  lemma AllSearched(t: seq<Entry>, u: seq<wchar>, item: Option<nat>)
    requires Searched(t, |t|, u, item)
    ensures !Extends(t, u)
    ensures if item.Some? then IsEntry(t, u, item.value) else forall i :: 0 <= i < |t| ==> t[i].input != u
  {
  }

  /** The one character that the inner loop looks at decides how the entry goes on after w. */
  lemma ComparedIs(input: seq<wchar>, w: seq<wchar>, code: wchar)
    requires w < input
    ensures w + [code] <= input <==> input[|w|] == code
    ensures w + [code] == input <==> input[|w|] == code && |input| == |w| + 1
  {
  }

  /** What a pass over entry n, begun at entry k, says about the search for u. */
  ghost predicate Judgement(t: seq<Entry>, u: seq<wchar>, n: nat, k: nat, item: Option<nat>, v: Verdict)
    requires n < |t|
  {
    match v
    case NeedsMore => FirstExtension(t, u, n)
    case Complete => Searched(t, n + 1, u, Some(n))
    case Differs => Searched(t, n + 1, u, item)
    case Skipped => Searched(t, n + 1, u, item) && n > k
    case Ended => Searched(t, |t|, u, item) && (n > k || item.Some?)
  }

  lemma Judged(t: seq<Entry>, w: seq<wchar>, code: wchar, n: nat, k: nat, item: Option<nat>, v: Verdict)
    requires n < |t| && w < t[n].input && Searched(t, n, w + [code], item)
    requires v == if t[n].input[|w|] != code then Differs else if |t[n].input| == |w| + 1 then Complete else NeedsMore
    ensures Judgement(t, w + [code], n, k, item, v)
  {
    ComparedIs(t[n].input, w, code);
  }

  lemma OffsetNext(table: seq<Entry>, k: nat)
    requires k < |table|
    ensures Offset(table, k + 1) == Offset(table, k) + Size(table[k])
  {
  }

  lemma {:induction false} OffsetBound(table: seq<Entry>, k: nat, n: nat)
    requires k <= n <= |table|
    ensures Offset(table, k) <= Offset(table, n)
  {
    if k < n {
      OffsetBound(table, k, n - 1);
    }
  }

  /** One pass of the outer loop over entry n, begun at entry k: it is passed over, or ends the search, or
      is compared with the character. */
  predicate PassedOver(input: seq<wchar>, n: nat, k: nat, len: nat) {
    n > k && len > 0 && |input| < len
  }

  predicate EndsSearch(first: seq<wchar>, input: seq<wchar>, n: nat, k: nat, len: nat, found: Option<Entry>)
    requires len <= |first| && !PassedOver(input, n, k, len)
  {
    || (n > k && len > 0 && input[..len] != first[..len])
    || (found.Some? && (|input| <= |found.value.input| || input[..|found.value.input|] != found.value.input))
  }

  ghost predicate FoundIs(t: seq<Entry>, found: Option<Entry>, item: Option<nat>) {
    match item
    case None => found.None?
    case Some(i) => i < |t| && found == Some(t[i])
  }

  lemma PassedOverIsNone(t: seq<Entry>, w: seq<wchar>, u: seq<wchar>, n: nat, k: nat, item: Option<nat>)
    requires Searched(t, n, u, item) && n < |t| && w < u && PassedOver(t[n].input, n, k, |w|)
    ensures Searched(t, n + 1, u, item)
  {
  }

  lemma EndedSearch(t: seq<Entry>, w: seq<wchar>, u: seq<wchar>, n: nat, k: nat, found: Option<Entry>,
                    item: Option<nat>)
    requires Ordered(t) && Searched(t, n, u, item) && FoundIs(t, found, item)
    requires k <= n < |t| && w < u && w <= t[k].input && !PassedOver(t[n].input, n, k, |w|)
    requires EndsSearch(t[k].input, t[n].input, n, k, |w|, found)
    ensures Searched(t, |t|, u, item)
  {
    if n > k && |w| > 0 && t[n].input[..|w|] != t[k].input[..|w|] {
      SearchedToEnd(t, w, u, k, n, item);
    } else {
      SearchedPastFound(t, u, n, item);
    }
  }

  /** An entry that is compared goes on after the pending characters. */
  lemma ComparedExtends(t: seq<Entry>, w: seq<wchar>, n: nat, k: nat, found: Option<Entry>)
    requires Ordered(t) && k <= n < |t| && w < t[k].input && !PassedOver(t[n].input, n, k, |w|)
    requires !EndsSearch(t[k].input, t[n].input, n, k, |w|, found)
    ensures w < t[n].input
  {
    LaterIsLonger(t, w, k, n);
  }

  class Matcher {
    const area: seq<byte>
    const sect: seq<Section>
    ghost const tables: seq<seq<Entry>>
    var nCurSect: int
    var nCurItemNum: short
    var nCurOffset: short
    var nCurLen: short
    ghost var typed: seq<wchar>

    ghost predicate TableOk(s: nat)
      requires s < |sect| && s < |tables|
    {
      && sect[s].nComps == |tables[s]| <= SHORT_MAX && Offset(tables[s], |tables[s]|) <= SHORT_MAX
      && Ordered(tables[s]) && TableAt(area, sect[s].nOffset, tables[s])
    }

    /** The cursor is at the first entry that goes on after what was typed. */
    ghost predicate CursorOk()
      requires 0 <= nCurSect < |tables|
      reads this
    {
      var t := tables[nCurSect];
      && nCurLen == |typed|
      && (typed == [] ==> nCurItemNum == 0 && nCurOffset == 0)
      && (typed != [] ==> nCurItemNum >= 0 && FirstExtension(t, typed, nCurItemNum)
                          && nCurOffset == Offset(t, nCurItemNum))
    }

    ghost predicate Valid()
      reads this
    {
      && |sect| == |tables| && (forall s :: 0 <= s < |sect| ==> TableOk(s))
      && -1 <= nCurSect < |sect|
      && (nCurSect >= 0 ==> CursorOk())
    }

    /** The sections lie packed in the area, each at its offset. */
    constructor (area: seq<byte>, sect: seq<Section>, ghost tables: seq<seq<Entry>>)
      requires |sect| == |tables|
      requires forall s :: 0 <= s < |sect| ==>
        && AllFit(tables[s]) && Ordered(tables[s])
        && sect[s].nComps == |tables[s]| <= SHORT_MAX && |EncodeTable(tables[s])| <= SHORT_MAX
        && BytesAt(area, sect[s].nOffset, EncodeTable(tables[s]))
      ensures Valid() && nCurSect == -1 && this.sect == sect && this.tables == tables
    {
      this.area, this.sect, this.tables := area, sect, tables;
      nCurSect, nCurItemNum, nCurOffset, nCurLen, typed := -1, 0, 0, 0, [];
      new;
      forall s | 0 <= s < |sect|
        ensures TableOk(s)
      {
        EncodedTableAt(area, sect[s].nOffset, tables[s]);
      }
    }

    method InitCompState(section: nat)
      requires Valid() && section < |sect|
      modifies this
      ensures Valid() && nCurSect == section && typed == []
    {
      nCurSect, nCurItemNum, nCurOffset, nCurLen, typed := section, 0, 0, 0, [];
    }

    /** The record at a position, and where the next one is. */
    method Record(at: nat, ghost e: Entry) returns (r: Entry, next: nat)
      requires EntryAt(area, at, e)
      ensures r == e && next == at + Size(e)
    {
      var n, m := area[at] % 16, area[at] / 16;
      r := Entry(ReadChars(area, at + 1, n), ReadChars(area, at + 1 + WCHAR_SIZE * n, m));
      next := at + 1 + WCHAR_SIZE * (m + n);
      ReadSlice(area, at + 1, e.input + e.output, 0, n);
      ReadSlice(area, at + 1, e.input + e.output, n, m);
      assert (e.input + e.output)[0..0 + n] == e.input && (e.input + e.output)[n..n + m] == e.output;
    }

    /** The inner loop: a stored sequence against the input, from the current length on. */
    method Compare(input: seq<wchar>, len: nat, code: wchar) returns (verdict: Verdict, nChar: int)
      requires len < |input|
      ensures verdict == if input[len] != code then Differs else if |input| == len + 1 then Complete else NeedsMore
      ensures verdict == Differs ==> nChar == len - 1
    {
      var nCurChar := 0;
      nChar := len;
      while true
        invariant 0 <= nCurChar <= 1 && nChar == len + nCurChar <= |input|
        invariant nCurChar == 1 ==> input[len] == code
        decreases 1 - nCurChar
      {
        if nChar == |input| { return Complete, nChar; }
        if nCurChar >= 1 { return NeedsMore, nChar; }
        if input[nChar] != code { return Differs, nChar - 1; }
        nChar, nCurChar := nChar + 1, nCurChar + 1;
      }
    }

    /** A cursor in section t, before or after a step: it is at an entry that goes on after typed, and all
        before it have been searched. */
    ghost predicate CursorIn(t: seq<Entry>, u: seq<wchar>)
      reads this
    {
      && 0 <= nCurItemNum && nCurLen == |typed| && Searched(t, nCurItemNum, u, None)
      && nCurOffset == Offset(t, nCurItemNum)
      && (if t == [] then typed == [] else nCurItemNum < |t| && typed < t[nCurItemNum].input)
    }

    lemma CursorSearched(code: wchar)
      requires Valid() && nCurSect >= 0
      ensures CursorIn(tables[nCurSect], typed + [code]) && |typed| < 15
    {
      var t := tables[nCurSect];
      assert TableOk(nCurSect);
      if t != [] {
        assert RecordAt(area, sect[nCurSect].nOffset, t, nCurItemNum);
      }
    }

    /** One pass of the outer loop. */
    method Pass(cur: Entry, first: seq<wchar>, n: nat, k: nat, len: nat, code: wchar, found: Option<Entry>,
                ghost t: seq<Entry>, ghost w: seq<wchar>, ghost item: Option<nat>)
      returns (verdict: Verdict, nChar: int)
      requires Ordered(t) && k <= n < |t| && cur == t[n] && first == t[k].input && |w| == len && w < first
      requires Searched(t, n, w + [code], item) && FoundIs(t, found, item)
      ensures Judgement(t, w + [code], n, k, item, verdict)
      ensures verdict == Differs ==> nChar == len - 1
    {
      ghost var u := w + [code];
      nChar := 0;
      if PassedOver(cur.input, n, k, len) {
        PassedOverIsNone(t, w, u, n, k, item);
        return Skipped, 0;
      }
      if EndsSearch(first, cur.input, n, k, len, found) {
        EndedSearch(t, w, u, n, k, found, item);
        return Ended, 0;
      }
      ComparedExtends(t, w, n, k, found);
      verdict, nChar := Compare(cur.input, len, code);
      Judged(t, w, code, n, k, item, verdict);
    }

    /** The outer loop.  Either there is an entry that goes on after the character, number nItem at byte
        offset, or the whole section has been searched: found is the entry typed, if there is one. */
    method Search(code: wchar, base: nat, nItems: nat, ghost t: seq<Entry>)
      returns (pending: bool, nItem: nat, offset: nat, first: seq<wchar>, found: Option<Entry>, nChar: int,
               ghost item: Option<nat>)
      requires Ordered(t) && TableAt(area, base, t) && nItems == |t|
      requires CursorIn(t, typed + [code])
      ensures pending ==> FirstExtension(t, typed + [code], nItem) && offset == Offset(t, nItem)
      ensures !pending ==> Searched(t, |t|, typed + [code], item) && FoundIs(t, found, item)
      ensures !pending ==> (typed != [] ==> typed <= first)
      ensures !pending && found.None? ==> nChar == nCurLen - 1 || (nCurLen == 0 && nChar <= 0)
    {
      var len: nat, k: nat := nCurLen, nCurItemNum;
      pending, nItem, offset, first, found, item, nChar := false, k, nCurOffset, [], None, None, 0;
      while nItem < nItems
        invariant k <= nItem <= nItems && offset == Offset(t, nItem)
        invariant nItem > k ==> first == t[k].input
        invariant Searched(t, nItem, typed + [code], item) && FoundIs(t, found, item)
        invariant found.None? ==> nChar == if nItem > k then len - 1 else 0
      {
        assert RecordAt(area, base, t, nItem);
        var cur, next := Record(base + offset, t[nItem]);
        if nItem == k { first := cur.input; }
        var verdict, n := Pass(cur, first, nItem, k, len, code, found, t, typed, item);
        if verdict == Ended { return; }
        if verdict == NeedsMore {
          pending := true;
          return;
        }
        if verdict == Complete { found, item := Some(cur), Some(nItem); }
        if verdict == Differs { nChar := n; }
        OffsetNext(t, nItem);
        nItem, offset := nItem + 1, next - base;
      }
    }

    /** The end of check_comp_state when no entry is left: the pending characters, which first begins with,
        and then the used part of the input. */
    method PassThrough(first: seq<wchar>, codes: seq<wchar>, nChar: int, room: nat) returns (out: seq<wchar>, left: int)
      requires |codes| == MAX_UNICODE_LEN && nCurLen == |typed| < 15 && (typed != [] ==> typed <= first)
      requires nChar == nCurLen - 1 || (nCurLen == 0 && nChar <= 0)
      ensures Flushed(typed, codes, out, left, room)
    {
      out, left := [], 1;
      if nCurLen > 0 {
        out := Take(first[..nCurLen], room);
        assert first[..nCurLen] == typed;
      }
      if nChar > 0 {
        TakeConcat(typed, codes[..nChar], room);
        var more := Take(codes[..nChar], room - |out|);
        out := out + more;
        left := left - |more|;
      } else {
        assert typed + codes[..0] == typed;
      }
    }

    /** What check_comp_state decides for one character of input, codes[0]. */
    method Decide(codes: seq<wchar>, room: nat, base: nat, nItems: nat, ghost t: seq<Entry>)
      returns (pending: bool, nItem: nat, offset: nat, out: seq<wchar>, left: int)
      requires Ordered(t) && TableAt(area, base, t) && nItems == |t| && |codes| == MAX_UNICODE_LEN
      requires CursorIn(t, typed + [codes[0]]) && |typed| < 15
      ensures pending ==> FirstExtension(t, typed + [codes[0]], nItem) && offset == Offset(t, nItem)
      ensures pending ==> out == [] && left == 0
      ensures !pending ==> || Replaces(t, typed + [codes[0]], out, left, room)
                           || PassesThrough(t, typed, codes, out, left, room)
    {
      var first, found, nChar;
      ghost var item;
      pending, nItem, offset, first, found, nChar, item := Search(codes[0], base, nItems, t);
      out, left := [], 0;
      if pending { return; }
      AllSearched(t, typed + [codes[0]], item);
      if found.Some? {
        out := Take(found.value.output, room);
        assert IsEntry(t, typed + [codes[0]], item.value);
      } else {
        out, left := PassThrough(first, codes, nChar, room);
      }
    }

    /** check_comp_state for one character: what was typed becomes one longer, or it is replaced, or it
        passes through. */
    method CheckCompState(codes: seq<wchar>, room: nat) returns (out: seq<wchar>, left: int)
      requires Valid() && nCurSect >= 0 && |codes| == MAX_UNICODE_LEN
      modifies this
      ensures Valid() && |old(typed)| < 15
      ensures var t, u := tables[old(nCurSect)], old(typed) + [codes[0]];
              if Extends(t, u) then nCurSect == old(nCurSect) && typed == u && out == [] && left == 0
              else nCurSect == -1 && (|| Replaces(t, u, out, left, room)
                                      || PassesThrough(t, old(typed), codes, out, left, room))
    {
      ghost var t, u := tables[nCurSect], typed + [codes[0]];
      assert TableOk(nCurSect);
      CursorSearched(codes[0]);
      var pending, nItem, offset;
      pending, nItem, offset, out, left := Decide(codes, room, sect[nCurSect].nOffset, sect[nCurSect].nComps, t);
      if pending {
        OffsetBound(t, nItem, |t|);
        nCurItemNum, nCurOffset, nCurLen, typed := nItem, offset, nCurLen + 1, u;
      } else {
        nCurSect := -1;
      }
    }

    /** What kmap_process_key_event does with the one character of a key: codes[0] is the character, the
        rest of the buffer is whatever was there before. */
    method TypeCharacter(codes: seq<wchar>, room: nat) returns (out: seq<wchar>)
      requires Valid() && |codes| == MAX_UNICODE_LEN
      modifies this
      ensures Valid() && (old(nCurSect) >= 0 ==> |old(typed)| < 15)
      ensures old(nCurSect) < 0 ==> nCurSect == old(nCurSect) && out == Take(codes[..1], room)
      ensures old(nCurSect) >= 0 ==>
        var t, u := tables[old(nCurSect)], old(typed) + [codes[0]];
        if Extends(t, u) then nCurSect == old(nCurSect) && typed == u && out == []
        else nCurSect == -1
             && ((exists i: nat :: IsEntry(t, u, i) && out == Take(t[i].output, room))
                 || ((forall i :: 0 <= i < |t| ==> t[i].input != u)
                     && out == Take(Unmatched(old(typed), codes), room)))
    {
      var len := 1;
      out := [];
      if nCurSect >= 0 {
        ghost var t, w := tables[nCurSect], typed;
        out, len := CheckCompState(codes, room);
        if nCurSect < 0 && PassesThrough(t, w, codes, out, len, room) {
          if len > 0 { UnmatchedParts(w, codes, out, len, room); } else { UnmatchedWhole(w, codes, out, len, room); }
        }
      }
      if len > 0 {
        out := out + Take(codes[..len], room - |out|);
      }
    }

    /** Typing a word from the start of a composition: afterwards the matcher is pending exactly if some
        entry goes on after the word, and then the cursor is at the first such entry. */
    method TypeWord(section: nat, word: seq<wchar>, rest: seq<wchar>, room: nat)
      requires Valid() && section < |sect| && word != [] && |rest| == MAX_UNICODE_LEN - 1
      modifies this
      ensures Valid()
      ensures nCurSect >= 0 <==> Extends(tables[section], word)
      ensures nCurSect >= 0 ==> nCurItemNum >= 0 && FirstExtension(tables[section], word, nCurItemNum)
                                && nCurOffset == Offset(tables[section], nCurItemNum) && nCurLen == |word|
    {
      InitCompState(section);
      var i := 0;
      while i < |word| && nCurSect >= 0
        invariant Valid() && i <= |word| && (nCurSect == section || nCurSect < 0)
        invariant nCurSect >= 0 ==> typed == word[..i] && (i > 0 ==> Extends(tables[section], word[..i]))
        invariant nCurSect < 0 ==> !Extends(tables[section], word)
        decreases |word| - i
      {
        ghost var sofar := word[..i];
        var _ := TypeCharacter([word[i]] + rest, room);
        assert word[..i + 1] == sofar + [word[i]];
        if nCurSect < 0 && Extends(tables[section], word) { ExtendsEarlier(tables[section], word[..i + 1], word); }
        i := i + 1;
      }
      assert word[..|word|] == word;
    }
  }
}
