/**
 Validation of the resource records in a section of a DNS response against four lists of regular
 expressions.
 */
module DnsValidation {
  import opened Wrappers

  /** A regular expression: None if it does not compile, else what it matches. */
  type Pattern = Option<string -> bool>

  datatype Validator = Validator(
    failIfMatches: seq<Pattern>, failIfAllMatch: seq<Pattern>,
    failIfNotMatches: seq<Pattern>, failIfNoneMatches: seq<Pattern>)

  predicate Compile(ps: seq<Pattern>) {
    forall i :: 0 <= i < |ps| ==> ps[i].Some?
  }

  predicate Matches(p: Pattern, rr: string) {
    p.Some? && p.value(rr)
  }

  predicate Every(rrs: seq<string>, ps: seq<Pattern>) {
    forall i, j :: 0 <= i < |rrs| && 0 <= j < |ps| ==> Matches(ps[j], rrs[i])
  }

  predicate Any(rrs: seq<string>, ps: seq<Pattern>) {
    exists i, j :: 0 <= i < |rrs| && 0 <= j < |ps| && Matches(ps[j], rrs[i])
  }

  /** What the nested loops decide, as one quantified condition. */
  predicate Valid(rrs: seq<string>, v: Validator) {
    if rrs == [] then v.failIfNotMatches == [] && v.failIfNoneMatches == []
    else
      && Compile(v.failIfMatches) && Compile(v.failIfAllMatch)
      && Compile(v.failIfNotMatches) && Compile(v.failIfNoneMatches)
      && !Any(rrs, v.failIfMatches)
      && Every(rrs, v.failIfAllMatch)
      && Every(rrs, v.failIfNotMatches)
      && (v.failIfNoneMatches != [] ==> Any(rrs, v.failIfNoneMatches))
  }

  // ----- one record -----

  /** The four inner loops on one record: whether to fail at once, and the two accumulators. */
  datatype RecordResult = RecordResult(fails: bool, allMatch: bool, anyMatch: bool)

  predicate RecordFails(rr: string, v: Validator) {
    || !Compile(v.failIfMatches) || !Compile(v.failIfAllMatch)
    || !Compile(v.failIfNotMatches) || !Compile(v.failIfNoneMatches)
    || Any([rr], v.failIfMatches)
    || !Every([rr], v.failIfNotMatches)
  }

  /** One inner loop: stop at an uncompilable pattern; report whether any and whether all patterns match. */
  method Scan(rr: string, ps: seq<Pattern>, stopOn: Option<bool>) returns (stopped: bool, any: bool, all: bool)
    ensures stopped <==>
              || !Compile(ps)
              || (stopOn == Some(true) && Any([rr], ps)) || (stopOn == Some(false) && !Every([rr], ps))
    ensures !stopped ==> any == Any([rr], ps) && all == Every([rr], ps)
  {
    any, all := false, true;
    for i := 0 to |ps|
      invariant forall j :: 0 <= j < i ==> ps[j].Some?
      invariant any <==> exists j :: 0 <= j < i && Matches(ps[j], rr)
      invariant all <==> forall j :: 0 <= j < i ==> Matches(ps[j], rr)
      invariant (stopOn == Some(true) ==> !any) && (stopOn == Some(false) ==> all)
    {
      if ps[i].None? {
        return true, any, all;
      }
      var hit := ps[i].value(rr);
      assert hit == Matches(ps[i], [rr][0]);
      if stopOn == Some(hit) {
        return true, any, all;
      }
      if hit {
        any := true;
      } else {
        all := false;
      }
    }
    assert any == Any([rr], ps) by { assert [rr][0] == rr; }
    return false, any, all;
  }

  method CheckRecord(rr: string, v: Validator) returns (r: RecordResult)
    ensures r.fails == RecordFails(rr, v)
    ensures !r.fails ==> r.allMatch == Every([rr], v.failIfAllMatch) && r.anyMatch == Any([rr], v.failIfNoneMatches)
  {
    var stopped, any, all := Scan(rr, v.failIfMatches, Some(true));
    if stopped {
      return RecordResult(true, false, false);
    }
    stopped, any, all := Scan(rr, v.failIfAllMatch, None);
    if stopped {
      return RecordResult(true, false, false);
    }
    var allMatch := all;
    stopped, any, all := Scan(rr, v.failIfNotMatches, Some(false));
    if stopped {
      return RecordResult(true, false, false);
    }
    stopped, any, all := Scan(rr, v.failIfNoneMatches, None);
    if stopped {
      return RecordResult(true, false, false);
    }
    return RecordResult(false, allMatch, any);
  }

  /** validRRs. */
  method ValidRRs(rrs: seq<string>, v: Validator) returns (ok: bool)
    ensures ok == Valid(rrs, v)
  {
    var anyMatch, allMatch := false, true;
    if |rrs| == 0 && 0 < |v.failIfNotMatches| {
      return false;
    }
    if |rrs| == 0 && 0 < |v.failIfNoneMatches| {
      return false;
    }
    for i := 0 to |rrs|
      invariant forall k :: 0 <= k < i ==> !RecordFails(rrs[k], v)
      invariant allMatch <==> forall k :: 0 <= k < i ==> Every([rrs[k]], v.failIfAllMatch)
      invariant anyMatch <==> exists k :: 0 <= k < i && Any([rrs[k]], v.failIfNoneMatches)
    {
      var r := CheckRecord(rrs[i], v);
      if r.fails {
        RecordByRecord(rrs, v);
        return false;
      }
      allMatch, anyMatch := allMatch && r.allMatch, anyMatch || r.anyMatch;
    }
    RecordByRecord(rrs, v);
    if 0 < |v.failIfAllMatch| && !allMatch {
      return false;
    }
    if 0 < |v.failIfNoneMatches| && !anyMatch {
      return false;
    }
    return true;
  }

  /** The condition on a whole section, record by record. */
  lemma RecordByRecord(rrs: seq<string>, v: Validator)
    ensures rrs != [] ==>
              (Valid(rrs, v) <==>
                 && (forall k :: 0 <= k < |rrs| ==> !RecordFails(rrs[k], v))
                 && (forall k :: 0 <= k < |rrs| ==> Every([rrs[k]], v.failIfAllMatch))
                 && (v.failIfNoneMatches != [] ==> exists k :: 0 <= k < |rrs| && Any([rrs[k]], v.failIfNoneMatches)))
    ensures v.failIfAllMatch == [] ==> forall k :: 0 <= k < |rrs| ==> Every([rrs[k]], v.failIfAllMatch)
  {
    EveryByRecord(rrs, v.failIfAllMatch);
    EveryByRecord(rrs, v.failIfNotMatches);
    AnyByRecord(rrs, v.failIfMatches);
    AnyByRecord(rrs, v.failIfNoneMatches);
    if rrs != [] && Valid(rrs, v) {
      assert !RecordFails(rrs[0], v);
    }
    if rrs != [] && !RecordFails(rrs[0], v) {
      assert Compile(v.failIfMatches) && Compile(v.failIfAllMatch);
      assert Compile(v.failIfNotMatches) && Compile(v.failIfNoneMatches);
    }
  }

  lemma EveryByRecord(rrs: seq<string>, ps: seq<Pattern>)
    ensures Every(rrs, ps) <==> forall k :: 0 <= k < |rrs| ==> Every([rrs[k]], ps)
  {
    if forall k :: 0 <= k < |rrs| ==> Every([rrs[k]], ps) {
      forall i, j | 0 <= i < |rrs| && 0 <= j < |ps| ensures Matches(ps[j], rrs[i]) {
        assert Every([rrs[i]], ps) && [rrs[i]][0] == rrs[i];
      }
    }
  }

  lemma AnyByRecord(rrs: seq<string>, ps: seq<Pattern>)
    ensures Any(rrs, ps) <==> exists k :: 0 <= k < |rrs| && Any([rrs[k]], ps)
  {
    if Any(rrs, ps) {
      var i, j :| 0 <= i < |rrs| && 0 <= j < |ps| && Matches(ps[j], rrs[i]);
      assert [rrs[i]][0] == rrs[i] && Any([rrs[i]], ps);
    }
  }

  // ----- order and intent -----

  ghost predicate Permuted<T>(s: seq<T>, t: seq<T>) {
    multiset(s) == multiset(t)
  }

  lemma PermutedElements<T>(s: seq<T>, t: seq<T>, i: nat) returns (j: nat)
    requires Permuted(s, t) && i < |s|
    ensures j < |t| && t[j] == s[i]
  {
    assert s[i] in multiset(s);
    assert s[i] in t;
    j :| 0 <= j < |t| && t[j] == s[i];
  }

  lemma PermutedNonEmpty<T>(s: seq<T>, t: seq<T>)
    requires Permuted(s, t)
    ensures s == [] <==> t == []
  {
    assert |s| == |multiset(s)| == |multiset(t)| == |t|;
  }

  lemma PermutedCompile(p: seq<Pattern>, q: seq<Pattern>)
    requires Permuted(p, q) && Compile(p)
    ensures Compile(q)
  {
    forall i | 0 <= i < |q| ensures q[i].Some? {
      var j := PermutedElements(q, p, i);
    }
  }

  lemma PermutedEvery(rrs: seq<string>, rrs': seq<string>, p: seq<Pattern>, q: seq<Pattern>)
    requires Permuted(rrs, rrs') && Permuted(p, q) && Every(rrs, p)
    ensures Every(rrs', q)
  {
    forall i, j | 0 <= i < |rrs'| && 0 <= j < |q| ensures Matches(q[j], rrs'[i]) {
      var i' := PermutedElements(rrs', rrs, i);
      var j' := PermutedElements(q, p, j);
      assert Matches(p[j'], rrs[i']);
    }
  }

  lemma PermutedAny(rrs: seq<string>, rrs': seq<string>, p: seq<Pattern>, q: seq<Pattern>)
    requires Permuted(rrs, rrs') && Permuted(p, q) && Any(rrs, p)
    ensures Any(rrs', q)
  {
    var i, j :| 0 <= i < |rrs| && 0 <= j < |p| && Matches(p[j], rrs[i]);
    var i' := PermutedElements(rrs, rrs', i);
    var j' := PermutedElements(p, q, j);
    assert Matches(q[j'], rrs'[i']);
  }

  ghost predicate PermutedValidators(v: Validator, w: Validator) {
    && Permuted(v.failIfMatches, w.failIfMatches) && Permuted(v.failIfAllMatch, w.failIfAllMatch)
    && Permuted(v.failIfNotMatches, w.failIfNotMatches) && Permuted(v.failIfNoneMatches, w.failIfNoneMatches)
  }

  lemma PermutedStaysValid(rrs: seq<string>, rrs': seq<string>, v: Validator, w: Validator)
    requires Permuted(rrs, rrs') && PermutedValidators(v, w) && Valid(rrs, v)
    ensures Valid(rrs', w)
  {
    PermutedNonEmpty(rrs, rrs');
    PermutedNonEmpty(v.failIfNotMatches, w.failIfNotMatches);
    PermutedNonEmpty(v.failIfNoneMatches, w.failIfNoneMatches);
    if rrs != [] {
      PermutedCompile(v.failIfMatches, w.failIfMatches);
      PermutedCompile(v.failIfAllMatch, w.failIfAllMatch);
      PermutedCompile(v.failIfNotMatches, w.failIfNotMatches);
      PermutedCompile(v.failIfNoneMatches, w.failIfNoneMatches);
      PermutedEvery(rrs, rrs', v.failIfAllMatch, w.failIfAllMatch);
      PermutedEvery(rrs, rrs', v.failIfNotMatches, w.failIfNotMatches);
      if Any(rrs', w.failIfMatches) {
        PermutedAny(rrs', rrs, w.failIfMatches, v.failIfMatches);
      }
      if v.failIfNoneMatches != [] {
        PermutedAny(rrs, rrs', v.failIfNoneMatches, w.failIfNoneMatches);
      }
    }
  }

  /** Neither the order of the records nor that of the patterns within each list changes the verdict. */
  lemma OrderIrrelevant(rrs: seq<string>, rrs': seq<string>, v: Validator, w: Validator)
    requires Permuted(rrs, rrs') && PermutedValidators(v, w)
    ensures Valid(rrs, v) == Valid(rrs', w)
  {
    if Valid(rrs, v) {
      PermutedStaysValid(rrs, rrs', v, w);
    }
    if Valid(rrs', w) {
      PermutedStaysValid(rrs', rrs, w, v);
    }
  }

  /** The checks other than fail_if_all_match_regexp; patterns are compiled only when there is a record. */
  predicate OthersPass(rrs: seq<string>, v: Validator) {
    Valid(rrs, v.(failIfAllMatch := [])) && (rrs != [] ==> Compile(v.failIfAllMatch))
  }

  /** What the name fail_if_all_match_regexp says: fail if every record matches. */
  predicate Intended(rrs: seq<string>, v: Validator) {
    OthersPass(rrs, v) && (v.failIfAllMatch != [] ==> !Every(rrs, v.failIfAllMatch))
  }

  /**
   The code gives the verdict its name promises exactly if the list is empty or another check fails
   anyway; otherwise, on an empty section too, it gives the opposite one.
   */
  lemma IntendedIff(rrs: seq<string>, v: Validator)
    ensures Valid(rrs, v) == Intended(rrs, v) <==> v.failIfAllMatch == [] || !OthersPass(rrs, v)
  {
  }
}
