/**
 The check that a module's compression is covered by its Accept-Encoding header: parse, stable
 sort by weight, first match. Compared with sections 12.4.2 and 12.5.3 of RFC 9110.
 */
module AcceptEncoding {
  import opened Wrappers

  // ----- weights -----

  /** A floating-point weight; rounding to single precision is left aside. */
  datatype Weight = NaN | NegInf | Finite(value: real) | PosInf {
    function Rank(): int { match this case NaN => 0 case NegInf => -1 case Finite(_) => 0 case PosInf => 1 }

    predicate Less(w: Weight) {
      && !NaN? && !w.NaN?
      && (Rank() < w.Rank() || (Finite? && w.Finite? && value < w.value))
    }

    predicate Positive() { Finite(0.0).Less(this) }
  }

  /** Rounding half away from zero. */
  function Round(x: real): int {
    if 0.0 <= x then (x + 0.5).Floor else -((0.5 - x).Floor)
  }

  /** To three decimals, as the header allows. */
  function Rounded(w: Weight): Weight {
    if w.Finite? then Finite(Round(w.value * 1000.0) as real / 1000.0) else w
  }

  /** To the nearest integer, and alike on both sides of zero. */
  lemma RoundNearest(x: real)
    ensures x - 0.5 <= Round(x) as real <= x + 0.5 && Round(-x) == -Round(x)
  {
  }

  /** Rounding makes a weight positive exactly from half a thousandth on. */
  lemma RoundedPositive(w: Weight)
    ensures Rounded(w).Positive() <==> w.PosInf? || (w.Finite? && 0.0005 <= w.value)
  {
    if w.Finite? {
      var x := w.value * 1000.0;
      assert 0 < Round(x) <==> 0.5 <= x;
    }
  }

  /** A weight with at most three decimals is kept. */
  lemma RoundedKeepsThousandths(k: int)
    ensures Rounded(Finite(k as real / 1000.0)) == Finite(k as real / 1000.0)
  {
    RoundInteger(k);
    assert k as real / 1000.0 * 1000.0 == k as real;
  }

  lemma RoundInteger(k: int)
    ensures Round(k as real) == k
  {
    assert (k as real + 0.5).Floor == k;
    assert ((-k) as real + 0.5).Floor == -k;
    assert (-k) as real + 0.5 == 0.5 - k as real;
  }

  // ----- parsing -----

  datatype Entry = Entry(encoding: string, quality: Weight)

  function Split(s: string): (parts: seq<string>)
    ensures 0 < |parts|
  {
    if s == [] then [[]]
    else
      var rest := Split(s[1..]);
      if s[0] == ',' then [[]] + rest else [[s[0]] + rest[0]] + rest[1..]
  }

  /** The position of the last semicolon, or -1. */
  function LastSemicolon(s: string): (i: int)
    ensures -1 <= i < |s|
  {
    if s == [] then -1 else if s[|s| - 1] == ';' then |s| - 1 else LastSemicolon(s[..|s| - 1])
  }

  predicate IsSpace(c: char) { c in {' ', '\t', '\n', '\r', '\U{000B}', '\U{000C}'} }

  function TrimSpace(s: string): string {
    if s == [] then s
    else if IsSpace(s[0]) then TrimSpace(s[1..])
    else if IsSpace(s[|s| - 1]) then TrimSpace(s[..|s| - 1])
    else s
  }

  function TrimPrefix(s: string, p: string): string {
    if p <= s then s[|p|..] else s
  }

  /** One element of the header; `number` is the float parser, None standing for an error. */
  function ParseEntry(part: string, number: string -> Option<Weight>): Entry {
    var i := LastSemicolon(part);
    if i == -1 then Entry(TrimSpace(part), Finite(1.0))
    else
      var q := number(TrimPrefix(TrimSpace(part[i + 1..]), "q="));
      Entry(TrimSpace(part[..i]), if q.None? then Finite(0.0) else Rounded(q.value))
  }

  function Entries(header: string, number: string -> Option<Weight>): seq<Entry> {
    var parts := Split(header);
    seq(|parts|, i requires 0 <= i < |parts| => ParseEntry(parts[i], number))
  }

  // ----- what parsing recovers -----

  /** A weight as a header writer would put it, with white space around the semicolon. */
  datatype Param = Param(before: string, after: string, value: string)

  /** A list element: a coding and optionally a weight, within white space. */
  datatype Item = Item(lead: string, coding: string, weight: Option<Param>, trail: string) {
    predicate WellFormed() {
      && Blank(lead) && Plain(coding) && Blank(trail)
      && (weight.Some? ==> Blank(weight.value.before) && Blank(weight.value.after) && Plain(weight.value.value))
    }
  }

  predicate Blank(s: string) {
    forall i :: 0 <= i < |s| ==> IsSpace(s[i])
  }

  /** No comma, semicolon or white space. */
  predicate Plain(s: string) {
    forall i :: 0 <= i < |s| ==> s[i] != ',' && s[i] != ';' && !IsSpace(s[i])
  }

  predicate WellFormed(items: seq<Item>) {
    forall i :: 0 <= i < |items| ==> items[i].WellFormed()
  }

  /** What stands before the semicolon, and what behind it. */
  function NameText(item: Item): string {
    item.lead + item.coding + if item.weight.Some? then item.weight.value.before else item.trail
  }

  function WeightText(param: Param, trail: string): string {
    param.after + ("q=" + param.value) + trail
  }

  function Text(item: Item): string {
    if item.weight.None? then NameText(item) else NameText(item) + ";" + WeightText(item.weight.value, item.trail)
  }

  function Render(items: seq<Item>): string
    requires items != []
  {
    if |items| == 1 then Text(items[0]) else Text(items[0]) + "," + Render(items[1..])
  }

  function EntryOf(item: Item, number: string -> Option<Weight>): Entry {
    if item.weight.None? then Entry(item.coding, Finite(1.0))
    else
      var q := number(item.weight.value.value);
      Entry(item.coding, if q.None? then Finite(0.0) else Rounded(q.value))
  }

  predicate NoComma(s: string) {
    forall i :: 0 <= i < |s| ==> s[i] != ','
  }

  lemma {:induction false} SplitFirst(p: string, rest: string)
    requires NoComma(p)
    ensures Split(p) == [p] && Split(p + "," + rest) == [p] + Split(rest)
  {
    if p == [] {
      assert (p + "," + rest)[1..] == rest;
    } else {
      SplitFirst(p[1..], rest);
      assert (p + "," + rest)[1..] == p[1..] + "," + rest;
      assert [p[0]] + p[1..] == p;
    }
  }

  lemma TextHasNoComma(item: Item)
    requires item.WellFormed()
    ensures NoComma(Text(item))
  {
  }

  /** The parts of a rendered list. */
  lemma {:induction false} SplitRendered(items: seq<Item>, k: nat)
    requires items != [] && WellFormed(items) && k < |items|
    ensures |Split(Render(items))| == |items| && Split(Render(items))[k] == Text(items[k])
    decreases |items|
  {
    TextHasNoComma(items[0]);
    if |items| == 1 {
      SplitFirst(Text(items[0]), "");
    } else {
      SplitFirst(Text(items[0]), Render(items[1..]));
      SplitRendered(items[1..], if k == 0 then 0 else k - 1);
    }
  }

  lemma {:induction false} LastSemicolonAt(a: string, b: string)
    requires forall i :: 0 <= i < |b| ==> b[i] != ';'
    ensures LastSemicolon(a + ";" + b) == |a|
    decreases |b|
  {
    var s := a + ";" + b;
    if b == [] {
      assert s[|s| - 1] == ';';
    } else {
      LastSemicolonAt(a, b[..|b| - 1]);
      assert s[..|s| - 1] == a + ";" + b[..|b| - 1];
    }
  }

  lemma {:induction false} NoSemicolon(s: string)
    requires forall i :: 0 <= i < |s| ==> s[i] != ';'
    ensures LastSemicolon(s) == -1
  {
    if s != [] {
      NoSemicolon(s[..|s| - 1]);
    }
  }

  /** No white space at either end. */
  predicate Tight(s: string) {
    s == "" || (!IsSpace(s[0]) && !IsSpace(s[|s| - 1]))
  }

  /** Trimming takes away white space on both sides, and only that. */
  lemma {:induction false} TrimWithin(lead: string, s: string, trail: string)
    requires Blank(lead) && Tight(s) && Blank(trail)
    ensures TrimSpace(lead + s + trail) == s
    decreases |lead| + |trail|
  {
    var all := lead + s + trail;
    if lead != "" {
      TrimWithin(lead[1..], s, trail);
      assert all[1..] == lead[1..] + s + trail;
    } else if trail != "" {
      if s == "" {
        TrimWithin(trail[1..], s, "");
        assert all == trail && trail[1..] + s + "" == trail[1..];
      } else {
        TrimWithin(lead, s, trail[..|trail| - 1]);
        assert all[..|all| - 1] == lead + s + trail[..|trail| - 1];
      }
    } else {
      assert all == s;
    }
  }

  lemma {:induction false} ParseWeighted(name: string, param: Param, trail: string, number: string -> Option<Weight>)
    requires Blank(param.after) && Plain(param.value) && Blank(trail)
    ensures var q := number(param.value);
            ParseEntry(name + ";" + WeightText(param, trail), number) ==
              Entry(TrimSpace(name), if q.None? then Finite(0.0) else Rounded(q.value))
  {
    var q, text := "q=" + param.value, WeightText(param, trail);
    var part := name + ";" + text;
    LastSemicolonAt(name, text);
    assert part[..|name|] == name && part[|name| + 1..] == text;
    TrimWithin(param.after, q, trail);
    assert q[2..] == param.value;
  }

  lemma {:induction false} ParseRendered(item: Item, number: string -> Option<Weight>)
    requires item.WellFormed()
    ensures ParseEntry(Text(item), number) == EntryOf(item, number)
  {
    TrimWithin(item.lead, item.coding, if item.weight.Some? then item.weight.value.before else item.trail);
    if item.weight.None? {
      NoSemicolon(NameText(item));
    } else {
      ParseWeighted(NameText(item), item.weight.value, item.trail, number);
    }
  }

  /** Parsing a rendered list gives back its codings and weights, in order, whatever the white space. */
  lemma ParseRoundTrip(items: seq<Item>, number: string -> Option<Weight>)
    requires items != [] && WellFormed(items)
    ensures Entries(Render(items), number) == seq(|items|, i requires 0 <= i < |items| => EntryOf(items[i], number))
  {
    var header := Render(items);
    SplitRendered(items, 0);
    forall k | 0 <= k < |items| ensures Entries(header, number)[k] == EntryOf(items[k], number) {
      SplitRendered(items, k);
      ParseRendered(items[k], number);
    }
  }

  // ----- the stable sort -----

  /** Insert from the end, moving left past entries of smaller weight. */
  function Insert(s: seq<Entry>, e: Entry): seq<Entry> {
    if s != [] && s[|s| - 1].quality.Less(e.quality) then Insert(s[..|s| - 1], e) + [s[|s| - 1]] else s + [e]
  }

  function StableSort(s: seq<Entry>): seq<Entry> {
    if s == [] then [] else Insert(StableSort(s[..|s| - 1]), s[|s| - 1])
  }

  /** Where an entry is inserted. */
  lemma {:induction false} InsertAt(s: seq<Entry>, e: Entry, j: nat)
    requires j <= |s| && forall k :: j <= k < |s| ==> s[k].quality.Less(e.quality)
    requires j == 0 || !s[j - 1].quality.Less(e.quality)
    ensures Insert(s, e) == s[..j] + [e] + s[j..]
  {
    if j < |s| {
      var front := s[..|s| - 1];
      InsertAt(front, e, j);
      assert front[..j] == s[..j] && front[j..] + [s[|s| - 1]] == s[j..];
    }
  }

  /** Swap entry `i` to the left while its left neighbour weighs less. */
  method Sift(a: array<Entry>, i: nat)
    requires i < a.Length
    modifies a
    ensures a[..i + 1] == Insert(old(a[..i]), old(a[i])) && a[i + 1..] == old(a[i + 1..])
  {
    var j := i;
    ghost var s, e := a[..i], a[i];
    while 0 < j && a[j - 1].quality.Less(a[j].quality)
      invariant 0 <= j <= i && a[j] == e
      invariant forall k :: 0 <= k < j ==> a[k] == s[k]
      invariant forall k :: j < k <= i ==> a[k] == s[k - 1] && a[k].quality.Less(e.quality)
      invariant forall k :: i < k < a.Length ==> a[k] == old(a[k])
    {
      a[j - 1], a[j] := a[j], a[j - 1];
      j := j - 1;
    }
    forall k | j <= k < i ensures s[k].quality.Less(e.quality) {
      assert s[k] == a[k + 1];
    }
    InsertAt(s, e, j);
    assert a[..i + 1] == s[..j] + [e] + s[j..];
  }

  /** The sort, in place. */
  method Sort(a: array<Entry>)
    modifies a
    ensures a[..] == StableSort(old(a[..]))
  {
    ghost var s := a[..];
    for i := 0 to a.Length
      invariant a[..i] == StableSort(s[..i]) && a[i..] == s[i..]
    {
      assert a[i] == s[i..][0] && s[..i + 1][..i] == s[..i];
      assert a[i + 1..] == a[i..][1..] && s[i..][1..] == s[i + 1..];
      Sift(a, i);
    }
    assert s[..a.Length] == s && a[..a.Length] == a[..];
  }

  /** The entries of one weight, in order. */
  function OfWeight(s: seq<Entry>, q: Weight): seq<Entry> {
    if s == [] then []
    else
      var front, last := s[..|s| - 1], s[|s| - 1];
      if last.quality == q then OfWeight(front, q) + [last] else OfWeight(front, q)
  }

  /** An entry is inserted behind all others of its weight. */
  lemma {:induction false} InsertIsStable(s: seq<Entry>, e: Entry, q: Weight)
    ensures OfWeight(Insert(s, e), q) == OfWeight(s, q) + if e.quality == q then [e] else []
  {
    if s != [] && s[|s| - 1].quality.Less(e.quality) {
      var front, last := s[..|s| - 1], s[|s| - 1];
      InsertIsStable(front, e, q);
      assert (Insert(front, e) + [last])[..|Insert(front, e)|] == Insert(front, e);
    } else {
      assert (s + [e])[..|s|] == s;
    }
  }

  /** Entries of equal weight keep their order. */
  lemma {:induction false} SortIsStable(s: seq<Entry>, q: Weight)
    ensures OfWeight(StableSort(s), q) == OfWeight(s, q)
  {
    if s != [] {
      SortIsStable(s[..|s| - 1], q);
      InsertIsStable(StableSort(s[..|s| - 1]), s[|s| - 1], q);
    }
  }

  // ----- what the check computes -----

  predicate NoNaN(s: seq<Entry>) {
    forall i :: 0 <= i < |s| ==> !s[i].quality.NaN?
  }

  predicate Descending(s: seq<Entry>) {
    forall i, j :: 0 <= i < j < |s| ==> !s[i].quality.Less(s[j].quality)
  }

  lemma {:induction false} InsertPermutes(s: seq<Entry>, e: Entry)
    ensures multiset(Insert(s, e)) == multiset(s) + multiset{e}
  {
    if s != [] && s[|s| - 1].quality.Less(e.quality) {
      InsertPermutes(s[..|s| - 1], e);
      assert s == s[..|s| - 1] + [s[|s| - 1]];
    }
  }

  lemma InsertedFrom(s: seq<Entry>, e: Entry, i: nat)
    requires i < |Insert(s, e)|
    ensures Insert(s, e)[i] == e || Insert(s, e)[i] in s
  {
    InsertPermutes(s, e);
    assert Insert(s, e)[i] in multiset(Insert(s, e));
  }

  lemma {:induction false} InsertKeeps(s: seq<Entry>, e: Entry)
    requires Descending(s) && NoNaN(s) && !e.quality.NaN?
    ensures Descending(Insert(s, e)) && NoNaN(Insert(s, e))
  {
    if s != [] && s[|s| - 1].quality.Less(e.quality) {
      var front, last := s[..|s| - 1], s[|s| - 1];
      InsertKeeps(front, e);
      var t := Insert(front, e);
      forall i | 0 <= i < |t| ensures !t[i].quality.Less(last.quality) {
        InsertedFrom(front, e, i);
      }
    }
  }

  lemma {:induction false} SortKeeps(s: seq<Entry>)
    requires NoNaN(s)
    ensures Descending(StableSort(s)) && multiset(StableSort(s)) == multiset(s) && NoNaN(StableSort(s))
  {
    if s != [] {
      var front, last := s[..|s| - 1], s[|s| - 1];
      assert s == front + [last];
      SortKeeps(front);
      InsertKeeps(StableSort(front), last);
      InsertPermutes(StableSort(front), last);
    }
  }

  predicate Covers(e: Entry, encoding: string) {
    e.encoding == encoding || e.encoding == "*"
  }

  /** Some entry that covers the encoding has a positive weight. */
  predicate Accepts(s: seq<Entry>, encoding: string) {
    exists e :: e in s && Covers(e, encoding) && e.quality.Positive()
  }

  /** The verdict of the final loop: the first covering entry decides. */
  function FirstCovering(s: seq<Entry>, encoding: string): bool {
    if s == [] then false
    else if Covers(s[0], encoding) then s[0].quality.Positive()
    else FirstCovering(s[1..], encoding)
  }

  lemma {:induction false} FirstDecides(s: seq<Entry>, encoding: string)
    requires Descending(s) && NoNaN(s)
    ensures FirstCovering(s, encoding) <==> Accepts(s, encoding)
  {
    if s != [] {
      if Covers(s[0], encoding) {
        if s[0].quality.Positive() {
          assert s[0] in s;
        } else {
          forall e | e in s && Covers(e, encoding) ensures !e.quality.Positive() {
            var i :| 0 <= i < |s| && s[i] == e;
            assert i == 0 || !s[0].quality.Less(s[i].quality);
          }
        }
      } else {
        FirstDecides(s[1..], encoding);
        assert s == [s[0]] + s[1..];
      }
    }
  }

  /** Parse, sort and first match together: some covering entry has a positive weight. */
  lemma SortedFirstIsSome(s: seq<Entry>, encoding: string)
    requires NoNaN(s)
    ensures FirstCovering(StableSort(s), encoding) <==> Accepts(s, encoding)
  {
    SortKeeps(s);
    FirstDecides(StableSort(s), encoding);
    SameElements(StableSort(s), s, encoding);
  }

  lemma SameElements(s: seq<Entry>, t: seq<Entry>, encoding: string)
    requires multiset(s) == multiset(t)
    ensures Accepts(s, encoding) == Accepts(t, encoding)
  {
    assert forall e :: e in s <==> e in multiset(s);
    assert forall e :: e in t <==> e in multiset(t);
  }

  /** The parsing loop. */
  method ParseEntries(header: string, number: string -> Option<Weight>) returns (encodings: array<Entry>)
    ensures fresh(encodings) && encodings[..] == Entries(header, number)
  {
    var parts := Split(header);
    encodings := new Entry[|parts|](_ => Entry("", NaN));
    for i := 0 to |parts|
      invariant forall k :: 0 <= k < i ==> encodings[k] == ParseEntry(parts[k], number)
    {
      encodings[i] := ParseEntry(parts[i], number);
    }
  }

  /** isCompressionAcceptEncodingValid. */
  method IsCompressionAcceptEncodingValid(encoding: string, header: string, number: string -> Option<Weight>)
    returns (ok: bool)
    ensures encoding == "" || header == "" ==> ok
    ensures encoding != "" && header != "" ==>
              var entries := Entries(header, number);
              && ok == FirstCovering(StableSort(entries), encoding)
              && (NoNaN(entries) ==> ok == Accepts(entries, encoding))
  {
    if encoding == "" || header == "" {
      return true;
    }
    ghost var entries := Entries(header, number);
    assert NoNaN(entries) ==> FirstCovering(StableSort(entries), encoding) == Accepts(entries, encoding) by {
      if NoNaN(entries) {
        SortedFirstIsSome(entries, encoding);
      }
    }
    var encodings := ParseEntries(header, number);
    Sort(encodings);
    ghost var sorted := encodings[..];
    for i := 0 to encodings.Length
      invariant encodings[..] == sorted
      invariant FirstCovering(sorted, encoding) == FirstCovering(sorted[i..], encoding)
    {
      assert sorted[i..][0] == encodings[i] && sorted[i..][1..] == sorted[i + 1..];
      if Covers(encodings[i], encoding) {
        return encodings[i].quality.Positive();
      }
    }
    return false;
  }

  /** The order of the entries in the header is irrelevant. */
  lemma OrderIrrelevant(s: seq<Entry>, t: seq<Entry>, encoding: string)
    requires NoNaN(s) && NoNaN(t) && multiset(s) == multiset(t)
    ensures FirstCovering(StableSort(s), encoding) == FirstCovering(StableSort(t), encoding)
  {
    SortedFirstIsSome(s, encoding);
    SortedFirstIsSome(t, encoding);
    SameElements(s, t, encoding);
  }

  // ----- RFC 9110 -----

  predicate Lists(s: seq<Entry>, name: string) {
    exists e :: e in s && e.encoding == name
  }

  predicate ListsPositive(s: seq<Entry>, name: string) {
    exists e :: e in s && e.encoding == name && e.quality.Positive()
  }

  /**
   Section 12.5.3: a listed coding is acceptable unless its weight is 0; "*" speaks for codings that
   are not listed; an unlisted coding is otherwise acceptable only if it is identity.
   */
  predicate Acceptable(s: seq<Entry>, coding: string) {
    if Lists(s, coding) then ListsPositive(s, coding)
    else if Lists(s, "*") then ListsPositive(s, "*")
    else coding == "identity"
  }

  /**
   The check agrees with the RFC on every header and coding except exactly in two cases: the coding
   is listed at weight 0 beside a positive "*", or it is identity and the header covers it in no way.
   */
  lemma AgreesWithRfcIff(s: seq<Entry>, coding: string)
    requires NoNaN(s) && coding != "*"
    ensures FirstCovering(StableSort(s), coding) == Acceptable(s, coding) <==>
              && !(Lists(s, coding) && !ListsPositive(s, coding) && ListsPositive(s, "*"))
              && !(coding == "identity" && !Lists(s, coding) && !Lists(s, "*"))
  {
    SortedFirstIsSome(s, coding);
    assert Accepts(s, coding) <==> ListsPositive(s, coding) || ListsPositive(s, "*") by {
      if ListsPositive(s, coding) {
        var e :| e in s && e.encoding == coding && e.quality.Positive();
        assert Covers(e, coding);
      }
      if ListsPositive(s, "*") {
        var e :| e in s && e.encoding == "*" && e.quality.Positive();
        assert Covers(e, coding);
      }
    }
    assert ListsPositive(s, coding) ==> Lists(s, coding);
    assert ListsPositive(s, "*") ==> Lists(s, "*");
  }
}
