/**
 The probe history: two bounded slices that together show the tail of an unbounded log.

 Go slices are modelled explicitly as a backing array plus a length, because `List`
 appends onto a slice of the internal history and is safe only if that append never
 happens in place.
 */
module ResultHistories {
  import opened Wrappers

  datatype Result = Result(id: int, moduleName: string, target: string, debugOutput: string, success: bool)

  // ----- the unbounded log and what is retained of it -----

  function LastN<T>(s: seq<T>, n: nat): seq<T> {
    s[if |s| <= n then 0 else |s| - n..]
  }

  function Failures(s: seq<Result>): seq<Result> {
    if s == [] then []
    else
      var last := s[|s| - 1];
      Failures(s[..|s| - 1]) + (if last.success then [] else [last])
  }

  function Expired(log: seq<Result>, max: nat): seq<Result> {
    log[..if |log| <= max then 0 else |log| - max]
  }

  function Preserved(log: seq<Result>, max: nat): seq<Result> {
    LastN(Failures(Expired(log, max)), max)
  }

  /** What `List` shows of the log: the preserved failures, then the recent results. */
  function Retained(log: seq<Result>, max: nat): seq<Result> {
    Preserved(log, max) + LastN(log, max)
  }

  /** The ids are the positions in the log. */
  predicate Numbered(log: seq<Result>) {
    forall k :: 0 <= k < |log| ==> log[k].id == k
  }

  predicate StrictlyIncreasing(s: seq<Result>) {
    forall i, j :: 0 <= i < j < |s| ==> s[i].id < s[j].id
  }

  lemma {:induction false} FailuresOfNumbered(s: seq<Result>)
    requires Numbered(s)
    ensures StrictlyIncreasing(Failures(s))
    ensures forall r :: r in Failures(s) <==> r in s && !r.success
  {
    if s != [] {
      FailuresOfNumbered(s[..|s| - 1]);
      assert s == s[..|s| - 1] + [s[|s| - 1]];
    }
  }

  lemma {:induction false} FailuresConcat(s: seq<Result>, t: seq<Result>)
    ensures Failures(s + t) == Failures(s) + Failures(t)
  {
    if t == [] {
      assert s + t == s;
    } else {
      FailuresConcat(s, t[..|t| - 1]);
      assert (s + t)[..|s + t| - 1] == s + t[..|t| - 1];
    }
  }

  /** A listing is ordered by id and therefore free of duplicates. */
  lemma ListingIsOrdered(log: seq<Result>, max: nat)
    requires Numbered(log)
    ensures StrictlyIncreasing(Retained(log, max))
  {
    var expired := Expired(log, max);
    FailuresOfNumbered(expired);
    var kept := Preserved(log, max);
    forall i | 0 <= i < |kept| ensures kept[i].id < |expired| {
      assert kept[i] in Failures(expired);
    }
  }

  /** In an id-ordered sequence an element is among the last `n` exactly when fewer than `n` follow it. */
  lemma InLastN(s: seq<Result>, n: nat, at: nat)
    requires StrictlyIncreasing(s) && at < |s|
    ensures s[at] in LastN(s, n) <==> |s| - at <= n
  {
    var t := LastN(s, n);
    var off := |s| - |t|;
    if |s| - at <= n {
      assert t[at - off] == s[at];
    } else {
      forall i | 0 <= i < |t| ensures t[i] != s[at] {
        assert t[i] == s[i + off];
      }
    }
  }

  /** Where an expired failure sits among the expired failures. */
  lemma FailureAt(s: seq<Result>, k: nat)
    requires k < |s| && !s[k].success
    ensures var at := |Failures(s[..k])|;
            && at + 1 + |Failures(s[k + 1..])| == |Failures(s)|
            && Failures(s)[at] == s[k]
  {
    assert s == s[..k] + [s[k]] + s[k + 1..];
    FailuresConcat(s[..k] + [s[k]], s[k + 1..]);
    FailuresConcat(s[..k], [s[k]]);
    assert Failures([s[k]]) == [s[k]];
  }

  /**
   An entry is listed exactly when it is among the last `max`, or it failed and fewer than `max` failures
   expired after it.
   */
  lemma ListedExactly(log: seq<Result>, max: nat, k: nat)
    requires Numbered(log) && k < |log|
    ensures log[k] in Retained(log, max) <==>
              || |log| <= k + max
              || (!log[k].success && |Failures(Expired(log, max)[k + 1..])| < max)
  {
    InLastN(log, max, k);
    var expired := Expired(log, max);
    if |log| > k + max {
      FailuresOfNumbered(expired);
      if log[k].success {
        assert log[k] !in Preserved(log, max);
      } else {
        FailureAt(expired, k);
        InLastN(Failures(expired), max, |Failures(expired[..k])|);
      }
    }
  }

  /** Drop the oldest element if there is one too many. */
  function Bounded(s: seq<Result>, max: nat): seq<Result> {
    if |s| <= max then s else s[1..]
  }

  /** How one more result changes the two histories. */
  lemma RetainedAfterAdd(log: seq<Result>, r: Result, max: nat)
    ensures LastN(log + [r], max) == Bounded(LastN(log, max) + [r], max)
    ensures |log| < max ==> Preserved(log + [r], max) == Preserved(log, max) == []
    ensures max <= |log| ==>
              var evicted := (LastN(log, max) + [r])[0];
              && Expired(log + [r], max) == Expired(log, max) + [evicted]
              && Preserved(log + [r], max) ==
                 (if evicted.success then Preserved(log, max) else Bounded(Preserved(log, max) + [evicted], max))
              && |Failures(Expired(log + [r], max))| == |Failures(Expired(log, max))| + if evicted.success then 0 else 1
  {
    if max <= |log| {
      var evicted := (LastN(log, max) + [r])[0];
      assert Expired(log + [r], max) == Expired(log, max) + [evicted];
      FailuresConcat(Expired(log, max), [evicted]);
    }
  }

  // ----- append growth -----

  ghost predicate Grows(g: nat -> nat) {
    forall c: nat :: c < g(c)
  }

  /** The capacities that one-element appends reach from a nil slice. */
  function Chain(g: nat -> nat, k: nat): nat {
    if k == 0 then 0 else g(Chain(g, k - 1))
  }

  /** From nil the first append gives capacity 1, and each later growth at most doubles (plus one). */
  ghost predicate AtMostDoubles(g: nat -> nat) {
    forall k: nat :: g(Chain(g, k)) <= 2 * Chain(g, k) + 1
  }

  lemma {:induction false} ChainIncreases(g: nat -> nat, i: nat, j: nat)
    requires Grows(g) && i < j
    ensures Chain(g, i) < Chain(g, j)
  {
    if i + 1 < j {
      ChainIncreases(g, i, j - 1);
    }
  }

  /** The capacity of `preservedFailedResults` once `f` failures have expired. */
  function Capacity(f: nat, max: nat, g: nat -> nat): nat {
    if f == 0 then 0
    else if max < f then max
    else
      var c := Capacity(f - 1, max, g);
      if f <= c then c else g(c)
  }

  /** Up to `max` failures the capacity lies on the chain, and the last growth was needed. */
  lemma {:induction false} CapacityOnChain(f: nat, max: nat, g: nat -> nat) returns (k: nat)
    requires Grows(g) && f <= max
    ensures f <= Capacity(f, max, g) == Chain(g, k)
    ensures 0 < k ==> Chain(g, k - 1) < f
  {
    if f == 0 {
      k := 0;
    } else {
      k := CapacityOnChain(f - 1, max, g);
      if Capacity(f - 1, max, g) < f {
        k := k + 1;
      }
    }
  }

  function ExpiredFailures(log: seq<Result>, max: nat): nat {
    |Failures(Expired(log, max))|
  }

  /** The capacity after one more append to a slice of `len` elements bounded by `max`. */
  function NextCapacity(len: nat, capacity: nat, max: nat, g: nat -> nat): nat {
    if len == max then max else if len < capacity then capacity else g(capacity)
  }

  /** Both slices by value, with the capacity of the preserved one. */
  datatype State = State(recent: seq<Result>, kept: seq<Result>, capacity: nat)

  function Push(s: State, r: Result, max: nat, g: nat -> nat): State {
    var shifted := s.recent + [r];
    if max < |shifted| && !shifted[0].success
    then State(Bounded(shifted, max), Bounded(s.kept + [shifted[0]], max), NextCapacity(|s.kept|, s.capacity, max, g))
    else s.(recent := Bounded(shifted, max))
  }

  predicate IsPush(run: seq<State>, log: seq<Result>, i: nat, max: nat, g: nat -> nat)
    requires i < |log| && |run| == |log| + 1
  {
    run[i + 1] == Push(run[i], log[i], max, g)
  }

  /** The states after each log entry, starting from empty histories: one push per entry. */
  ghost predicate IsRun(run: seq<State>, log: seq<Result>, max: nat, g: nat -> nat) {
    && |run| == |log| + 1 && run[0] == State([], [], 0)
    && forall i :: 0 <= i < |log| ==> IsPush(run, log, i, max, g)
  }

  lemma RunExtends(run: seq<State>, log: seq<Result>, r: Result, max: nat, g: nat -> nat)
    requires IsRun(run, log, max, g)
    ensures IsRun(run + [Push(run[|log|], r, max, g)], log + [r], max, g)
  {
    var run', log' := run + [Push(run[|log|], r, max, g)], log + [r];
    forall i | 0 <= i < |log'| ensures IsPush(run', log', i, max, g) {
      if i < |log| {
        assert IsPush(run, log, i, max, g);
      }
    }
  }

  /** The two bounded histories that belong to an unbounded log. */
  function Tail(log: seq<Result>, max: nat, g: nat -> nat): State {
    State(LastN(log, max), Preserved(log, max), Capacity(ExpiredFailures(log, max), max, g))
  }

  lemma TailAfterAdd(log: seq<Result>, r: Result, max: nat, g: nat -> nat)
    ensures Push(Tail(log, max, g), r, max, g) == Tail(log + [r], max, g)
  {
    RetainedAfterAdd(log, r, max);
    var f := ExpiredFailures(log, max);
    assert Capacity(f + 1, max, g) == NextCapacity(|Preserved(log, max)|, Capacity(f, max, g), max, g);
  }

  /** The two bounded histories are exactly the tails of the unbounded log. */
  lemma {:induction false} RunIsTail(run: seq<State>, log: seq<Result>, max: nat, g: nat -> nat, n: nat)
    requires IsRun(run, log, max, g) && n <= |log|
    ensures run[n] == Tail(log[..n], max, g)
  {
    if n == 0 {
      assert log[..0] == [];
    } else {
      assert IsPush(run, log, n - 1, max, g);
      calc {
        run[n];
        Push(run[n - 1], log[n - 1], max, g);
        { RunIsTail(run, log, max, g, n - 1); }
        Push(Tail(log[..n - 1], max, g), log[n - 1], max, g);
        { TailAfterAdd(log[..n - 1], log[n - 1], max, g); }
        Tail(log[..n - 1] + [log[n - 1]], max, g);
        { assert log[..n - 1] + [log[n - 1]] == log[..n]; }
        Tail(log[..n], max, g);
      }
    }
  }

  /** Whether the append inside `List` copies (or has nothing to write). */
  predicate ListCopies(log: seq<Result>, max: nat, g: nat -> nat) {
    Retained(log, max) == [] || Capacity(ExpiredFailures(log, max), max, g) < |Retained(log, max)|
  }

  lemma ListCopiesWhenDoubling(log: seq<Result>, max: nat, g: nat -> nat)
    requires Grows(g) && AtMostDoubles(g)
    ensures ListCopies(log, max, g)
  {
    var f := ExpiredFailures(log, max);
    if 0 < f <= max {
      var k := CapacityOnChain(f, max, g);
      assert g(Chain(g, k - 1)) <= 2 * Chain(g, k - 1) + 1;
    }
  }

  lemma {:induction false} FailuresAll(s: seq<Result>)
    requires forall i :: 0 <= i < |s| ==> !s[i].success
    ensures Failures(s) == s
  {
    if s != [] {
      FailuresAll(s[..|s| - 1]);
    }
  }

  /** `max` failures followed by `max` successes. */
  predicate FailuresThenSuccesses(log: seq<Result>, max: nat) {
    |log| == 2 * max && forall i :: 0 <= i < |log| ==> log[i].success == (max <= i)
  }

  /** When `max` is one above a chain capacity, that many expired failures sit in the next chain capacity. */
  lemma CapacityOneAbove(k: nat, g: nat -> nat)
    requires Grows(g)
    ensures Capacity(Chain(g, k) + 1, Chain(g, k) + 1, g) == g(Chain(g, k))
  {
    var max := Chain(g, k) + 1;
    var j := CapacityOnChain(max, max, g);
    if j < k {
      ChainIncreases(g, j, k);
    } else if k + 1 < j {
      ChainIncreases(g, k, j - 1);
    }
  }

  lemma FullHistories(log: seq<Result>, max: nat)
    requires FailuresThenSuccesses(log, max)
    ensures ExpiredFailures(log, max) == max
    ensures Preserved(log, max) == log[..max] && LastN(log, max) == log[max..]
  {
    FailuresAll(log[..max]);
  }

  /** If some growth on the chain more than doubles, some history leaves room for a whole listing. */
  lemma RoomSomewhere(k: nat, g: nat -> nat) returns (log: seq<Result>, max: nat)
    requires Grows(g) && g(Chain(g, k)) > 2 * Chain(g, k) + 1
    ensures !ListCopies(log, max, g)
  {
    max := Chain(g, k) + 1;
    log := seq(2 * max, i => Result(i, "", "", "", max <= i));
    assert |Retained(log, max)| == 2 * max && ExpiredFailures(log, max) == max by { FullHistories(log, max); }
    CapacityOneAbove(k, g);
  }

  /**
   The invariant behind `List`: its append copies after every run and for every history limit
   exactly when growth from a nil slice at most doubles.
   */
  lemma ListAlwaysCopiesIff(g: nat -> nat)
    requires Grows(g)
    ensures (forall log: seq<Result>, max: nat :: ListCopies(log, max, g)) <==> AtMostDoubles(g)
  {
    if AtMostDoubles(g) {
      forall log: seq<Result>, max: nat ensures ListCopies(log, max, g) {
        ListCopiesWhenDoubling(log, max, g);
      }
    } else {
      var k: nat :| g(Chain(g, k)) > 2 * Chain(g, k) + 1;
      var log, max := RoomSomewhere(k, g);
    }
  }

  // ----- slices -----

  datatype Slice = Slice(backing: array<Result>, len: nat) {
    ghost predicate Ok() {
      len <= backing.Length
    }

    ghost function Contents(): seq<Result>
      requires Ok()
      reads backing
    {
      backing[..len]
    }
  }

  /** Go's append: in place when the capacity suffices, into a fresh array otherwise. */
  method Append(s: Slice, xs: seq<Result>, g: nat -> nat) returns (t: Slice)
    requires s.Ok() && Grows(g)
    modifies if xs != [] && s.len + |xs| <= s.backing.Length then {s.backing} else {}
    ensures t.Ok() && t.Contents() == old(s.Contents()) + xs
    ensures s.len + |xs| <= s.backing.Length ==> t.backing == s.backing
    ensures s.backing.Length < s.len + |xs| ==> fresh(t.backing)
    ensures |xs| == 1 && s.len == s.backing.Length ==> t.backing.Length == g(s.backing.Length)
  {
    var a := s.backing;
    if s.backing.Length < s.len + |xs| {
      var capacity := g(s.backing.Length);
      if capacity < s.len + |xs| {
        capacity := s.len + |xs|;
      }
      a := new Result[capacity];
      forall i | 0 <= i < s.len { a[i] := s.backing[i]; }
    }
    forall i | 0 <= i < |xs| { a[s.len + i] := xs[i]; }
    t := Slice(a, s.len + |xs|);
    assert t.Contents()[..s.len] == old(s.Contents());
  }

  /** Go's make and copy of everything but the first element. */
  method DropFirst(s: Slice) returns (t: Slice)
    requires s.Ok() && 0 < s.len
    ensures t.Ok() && fresh(t.backing) && t.backing.Length == s.len - 1
    ensures t.Contents() == s.Contents()[1..]
  {
    var a := new Result[s.len - 1];
    forall i | 0 <= i < s.len - 1 { a[i] := s.backing[i + 1]; }
    t := Slice(a, s.len - 1);
  }

  /** Append one element and drop the oldest if that exceeds `max`. */
  method AppendBounded(s: Slice, r: Result, max: nat, g: nat -> nat) returns (t: Slice)
    requires s.Ok() && s.len <= max && Grows(g)
    modifies if s.len < s.backing.Length then {s.backing} else {}
    ensures t.Ok() && (t.backing == s.backing || fresh(t.backing))
    ensures t.Contents() == Bounded(old(s.Contents()) + [r], max)
    ensures t.backing.Length == NextCapacity(s.len, s.backing.Length, max, g)
  {
    t := Append(s, [r], g);
    if t.len > max {
      t := DropFirst(t);
    }
  }

  /** A listing handed out by `List`, with the contents it had then. */
  datatype Snapshot = Snapshot(slice: Slice, contents: seq<Result>)

  class ResultHistory {
    const maxResults: nat
    /** How the runtime chooses the capacity of a grown slice. */
    const grow: nat -> nat
    var nextId: int
    var results: Slice
    var preserved: Slice
    ghost var log: seq<Result>
    ghost var run: seq<State>
    ghost var issued: seq<Snapshot>

    ghost function Footprint(): set<object>
      reads this
    {
      {this, results.backing, preserved.backing} + set i | 0 <= i < |issued| :: issued[i].slice.backing
    }

    /** Both slices show the log, and no handed-out listing has changed or can be written to. */
    ghost predicate Valid()
      reads this, Footprint()
    {
      Mirrors() && (AtMostDoubles(grow) ==> SnapshotsIntact())
    }

    /** The two slices show the log. */
    ghost predicate Mirrors()
      reads this, results.backing, preserved.backing
    {
      && Grows(grow) && results.Ok() && preserved.Ok() && results.backing != preserved.backing
      && nextId == |log| && Numbered(log)
      && results.len <= maxResults && preserved.len <= maxResults
      && IsRun(run, log, maxResults, grow)
      && State(results.Contents(), preserved.Contents(), preserved.backing.Length) == run[|log|]
    }

    ghost predicate SnapshotsIntact()
      reads this, Footprint()
    {
      forall i :: 0 <= i < |issued| ==>
        && issued[i].slice.Ok() && issued[i].slice.Contents() == issued[i].contents
        && (0 < issued[i].slice.len ==>
              issued[i].slice.backing != results.backing && issued[i].slice.backing != preserved.backing)
    }

    constructor (maxResults: nat, grow: nat -> nat)
      requires Grows(grow)
      ensures Valid() && log == [] && issued == [] && this.maxResults == maxResults && this.grow == grow
      ensures fresh(results.backing) && fresh(preserved.backing)
    {
      this.maxResults, this.grow, nextId := maxResults, grow, 0;
      var empty, nothing := new Result[0], new Result[0];
      results, preserved := Slice(empty, 0), Slice(nothing, 0);
      log, run, issued := [], [State([], [], 0)], [];
    }

    method Add(moduleName: string, target: string, debugOutput: string, success: bool)
      requires Valid()
      modifies this`nextId, this`results, this`preserved, this`log, this`run, results.backing, preserved.backing
      ensures results.backing == old(results.backing) || fresh(results.backing)
      ensures preserved.backing == old(preserved.backing) || fresh(preserved.backing)
      ensures issued == old(issued)
      ensures old(0 < results.len && results.backing[0].success) ==> preserved == old(preserved)
      ensures log == old(log) + [Result(|old(log)|, moduleName, target, debugOutput, success)]
      ensures Valid()
    {
      var r := Result(nextId, moduleName, target, debugOutput, success);
      nextId := nextId + 1;
      Shift(r);
      RunExtends(run, log, r, maxResults, grow);
      run, log := run + [Push(run[|log|], r, maxResults, grow)], log + [r];
    }

    /** The slice operations of `Add`. */
    method Shift(r: Result)
      requires Grows(grow) && results.Ok() && preserved.Ok() && results.backing != preserved.backing
      requires results.len <= maxResults && preserved.len <= maxResults
      modifies this`results, this`preserved, results.backing, preserved.backing
      ensures results.Ok() && preserved.Ok() && results.backing != preserved.backing
      ensures results.len <= maxResults && preserved.len <= maxResults
      ensures results.backing == old(results.backing) || fresh(results.backing)
      ensures preserved.backing == old(preserved.backing) || fresh(preserved.backing)
      ensures old(0 < results.len && results.backing[0].success) ==> preserved == old(preserved)
      ensures State(results.Contents(), preserved.Contents(), preserved.backing.Length) ==
              Push(old(State(results.Contents(), preserved.Contents(), preserved.backing.Length)), r, maxResults, grow)
    {
      results := Append(results, [r], grow);
      assert results.Contents() == old(results.Contents()) + [r];
      if results.len > maxResults {
        assert results.backing[0] == results.Contents()[0];
        Evict();
      }
    }

    /** The oldest result makes room, and is preserved if it failed. */
    method Evict()
      requires Grows(grow) && results.Ok() && preserved.Ok() && results.backing != preserved.backing
      requires results.len == maxResults + 1 && preserved.len <= maxResults
      modifies this`results, this`preserved, preserved.backing
      ensures results.Ok() && preserved.Ok() && results.backing != preserved.backing
      ensures fresh(results.backing) && results.Contents() == old(results.Contents())[1..]
      ensures preserved.backing == old(preserved.backing) || fresh(preserved.backing)
      ensures old(results.backing[0].success) ==>
                preserved == old(preserved) && preserved.Contents() == old(preserved.Contents())
      ensures !old(results.backing[0].success) ==>
                && preserved.Contents() == Bounded(old(preserved.Contents()) + [old(results.backing[0])], maxResults)
                && preserved.backing.Length ==
                     NextCapacity(old(preserved.len), old(preserved.backing.Length), maxResults, grow)
    {
      if !results.backing[0].success {
        preserved := AppendBounded(preserved, results.backing[0], maxResults, grow);
      }
      results := DropFirst(results);
    }

    /** The append in `List` has nothing to write or does not fit the preserved slice. */
    ghost predicate MustCopy()
      reads this
    {
      preserved.len + results.len == 0 || preserved.backing.Length < preserved.len + results.len
    }

    /** What the two slices hold, in terms of the log. */
    lemma ListingOfLog()
      requires Valid()
      ensures preserved.Contents() + results.Contents() == Retained(log, maxResults)
      ensures MustCopy() == ListCopies(log, maxResults, grow)
      ensures StrictlyIncreasing(Retained(log, maxResults))
      ensures results.Contents() == LastN(log, maxResults)
      ensures preserved.Contents() == Preserved(log, maxResults)
      ensures preserved.backing.Length == Capacity(ExpiredFailures(log, maxResults), maxResults, grow)
    {
      RunIsTail(run, log, maxResults, grow, |log|);
      assert log[..|log|] == log;
      ListingIsOrdered(log, maxResults);
    }

    lemma ListingDoesNotFit()
      requires Valid()
      ensures AtMostDoubles(grow) ==> MustCopy()
    {
      ListingOfLog();
      if AtMostDoubles(grow) {
        ListCopiesWhenDoubling(log, maxResults, grow);
      }
    }

    /** The append in `List`. */
    method Concatenate() returns (listing: Slice)
      requires Grows(grow) && results.Ok() && preserved.Ok() && results.backing != preserved.backing
      modifies if MustCopy() then {} else {preserved.backing}
      ensures listing.Ok() && listing.len == preserved.len + results.len
      ensures listing.Contents() == old(preserved.Contents() + results.Contents())
      ensures preserved.Contents() == old(preserved.Contents()) && results.Contents() == old(results.Contents())
      ensures !MustCopy() ==> listing.backing == preserved.backing
      ensures MustCopy() && 0 < listing.len ==> fresh(listing.backing)
    {
      listing := Append(preserved, results.backing[..results.len], grow);
      assert listing.Contents()[..preserved.len] == old(preserved.Contents());
    }

    /** `List`: writes to an existing array only if the append can happen in place. */
    method List() returns (listing: Slice)
      requires Valid()
      modifies this`issued
      modifies if MustCopy() then {} else {preserved.backing}
      ensures listing.Ok() && listing.Contents() == Retained(log, maxResults)
      ensures issued == old(issued) + [Snapshot(listing, listing.Contents())]
      ensures listing.len == preserved.len + results.len
      ensures !MustCopy() ==> listing.backing == preserved.backing
      ensures MustCopy() && 0 < listing.len ==> fresh(listing.backing)
      ensures Valid()
    {
      assert AtMostDoubles(grow) ==> MustCopy() by { ListingDoesNotFit(); }
      assert preserved.Contents() + results.Contents() == Retained(log, maxResults) by { ListingOfLog(); }
      listing := Concatenate();
      assert Mirrors();
      issued := issued + [Snapshot(listing, listing.Contents())];
    }

    /** The entry with the given id, found exactly when it is retained. */
    method GetById(id: int) returns (r: Option<Result>)
      requires Valid()
      ensures r.Some? ==> r.value in Retained(log, maxResults) && r.value.id == id
      ensures r.None? ==> forall e :: e in Retained(log, maxResults) ==> e.id != id
    {
      ListingOfLog();
      r := FirstWhere(preserved, results, (e: Result) => e.id == id);
    }

    /** The oldest retained entry for the target, optionally of one module. */
    method GetByTargetAndModule(target: string, moduleName: string) returns (r: Option<Result>)
      requires Valid()
      ensures r.Some? ==>
                && r.value in Retained(log, maxResults) && Concerns(r.value, target, moduleName)
                && forall e :: e in Retained(log, maxResults) && Concerns(e, target, moduleName) ==> r.value.id <= e.id
      ensures r.None? ==> forall e :: e in Retained(log, maxResults) ==> !Concerns(e, target, moduleName)
    {
      ListingOfLog();
      r := FirstWhere(preserved, results, (e: Result) => Concerns(e, target, moduleName));
    }
  }

  /** The two loops of a lookup: the oldest wanted element of two slices that are ordered by id. */
  method FirstWhere(kept: Slice, recent: Slice, wanted: Result -> bool) returns (r: Option<Result>)
    requires kept.Ok() && recent.Ok() && StrictlyIncreasing(kept.Contents() + recent.Contents())
    ensures IsOldest(r, kept.Contents() + recent.Contents(), wanted)
  {
    ghost var all := kept.Contents() + recent.Contents();
    var i := FirstIn(kept, wanted);
    if i < kept.len {
      assert all[i] == kept.Contents()[i] == kept.backing[i];
      FirstIsOldest(all, wanted, i);
      return Some(kept.backing[i]);
    }
    assert forall j :: 0 <= j < kept.len ==> all[j] == kept.Contents()[j];
    i := FirstIn(recent, wanted);
    assert forall j :: kept.len <= j < kept.len + i ==> all[j] == recent.Contents()[j - kept.len];
    FirstIsOldest(all, wanted, kept.len + i);
    if i < recent.len {
      assert all[kept.len + i] == recent.Contents()[i] == recent.backing[i];
      return Some(recent.backing[i]);
    }
    return None;
  }

  /** The wanted element with the smallest id, or nothing if there is none. */
  ghost predicate IsOldest(r: Option<Result>, all: seq<Result>, wanted: Result -> bool) {
    if r.Some? then r.value in all && wanted(r.value) && forall e :: e in all && wanted(e) ==> r.value.id <= e.id
    else forall e :: e in all ==> !wanted(e)
  }

  /** The position of the first wanted element of a slice, or its length. */
  method FirstIn(s: Slice, wanted: Result -> bool) returns (i: nat)
    requires s.Ok()
    ensures i <= s.len && (i < s.len ==> wanted(s.Contents()[i])) && forall j :: 0 <= j < i ==> !wanted(s.Contents()[j])
  {
    i := 0;
    while i < s.len
      invariant i <= s.len && forall j :: 0 <= j < i ==> !wanted(s.Contents()[j])
    {
      if wanted(s.backing[i]) {
        return;
      }
      i := i + 1;
    }
  }

  lemma FirstIsOldest(all: seq<Result>, wanted: Result -> bool, i: nat)
    requires StrictlyIncreasing(all) && i <= |all| && forall j :: 0 <= j < i ==> !wanted(all[j])
    requires i < |all| ==> wanted(all[i])
    ensures IsOldest(if i < |all| then Some(all[i]) else None, all, wanted)
  {
    forall e | e in all && wanted(e) ensures i < |all| && all[i].id <= e.id {
      var j :| 0 <= j < |all| && all[j] == e;
      assert i <= j;
    }
  }

  predicate Concerns(r: Result, target: string, moduleName: string) {
    r.target == target && (moduleName == "" || moduleName == r.moduleName)
  }

  /** A history of `max` failures, all expired, and `max` later successes. */
  method FailThenSucceed(max: nat, g: nat -> nat) returns (h: ResultHistory)
    requires Grows(g)
    ensures h.Valid() && fresh(h) && fresh(h.preserved.backing) && fresh(h.results.backing)
    ensures h.maxResults == max && h.grow == g && FailuresThenSuccesses(h.log, max)
  {
    h := new ResultHistory(max, g);
    for i := 0 to 2 * max
      invariant h.Valid() && fresh(h) && fresh(h.results.backing) && fresh(h.preserved.backing)
      invariant |h.log| == i && forall j :: 0 <= j < i ==> h.log[j].success == (max <= j)
    {
      h.Add("module", "target", "", max <= i);
    }
  }

  /** Under a policy that more than doubles, that history leaves room for a whole listing. */
  lemma RoomForListing(h: ResultHistory, k: nat)
    requires h.Valid() && h.maxResults == Chain(h.grow, k) + 1 && FailuresThenSuccesses(h.log, h.maxResults)
    ensures h.preserved.len == h.results.len == h.maxResults && h.results.backing[0].success && h.log != []
    ensures h.preserved.backing.Length == h.grow(Chain(h.grow, k))
  {
    h.ListingOfLog();
    FullHistories(h.log, h.maxResults);
    CapacityOneAbove(k, h.grow);
    assert h.results.backing[0] == h.results.Contents()[0] == h.log[h.maxResults];
  }

  /** The newest result is always listed last, so every addition changes the listing. */
  lemma ListingsDiffer(log: seq<Result>, r: Result, max: nat)
    requires Numbered(log) && r.id == |log| && log != [] && 0 < max
    ensures Retained(log, max) != Retained(log + [r], max)
  {
    var before, after := Retained(log, max), Retained(log + [r], max);
    assert before[|before| - 1].id == |log| - 1;
    assert after[|after| - 1].id == |log|;
  }

  /** If a listing once fits in place, the next listing after a success expires overwrites it. */
  method ListTwice(h: ResultHistory) returns (listing: Slice, ghost was: seq<Result>)
    requires h.Valid() && h.results.len == h.maxResults && 0 < h.maxResults && h.results.backing[0].success
    requires h.log != [] && !h.MustCopy()
    modifies h, h.results.backing, h.preserved.backing
    ensures listing.Ok() && listing.Contents() != was == old(Retained(h.log, h.maxResults))
  {
    listing := h.List();
    was := listing.Contents();
    ghost var log := h.log;
    h.Add("module", "target", "", true);
    assert was != Retained(h.log, h.maxResults) by { ListingsDiffer(log, h.log[|log|], h.maxResults); }
    assert h.results.len == h.maxResults by { h.ListingOfLog(); }
    var again := h.List();
    assert again == listing;
  }

  /**
   The growth condition is needed: under any policy that breaks it, a listing handed out earlier
   is overwritten by a later one.
   */
  method ListingOverwritten(g: nat -> nat, k: nat) returns (listing: Slice, ghost was: seq<Result>)
    requires Grows(g) && g(Chain(g, k)) > 2 * Chain(g, k) + 1
    ensures listing.Ok() && listing.Contents() != was
  {
    var h := FailThenSucceed(Chain(g, k) + 1, g);
    RoomForListing(h, k);
    listing, was := ListTwice(h);
  }
}
