/**
 Certificate expiry metrics: the earliest expiry of the peer certificates, and the latest, over
 the verified chains, of each chain's earliest expiry.

 Times are integers with 0 as the zero time.
 */
module TlsExpiry {
  import opened Wrappers

  type Time = int

  /** The earliest non-zero time, or 0 if there is none. */
  ghost predicate IsEarliest(r: Time, times: set<Time>) {
    && (r == 0 <==> forall t :: t in times ==> t == 0)
    && (r != 0 ==> r in times && forall t :: t in times && t != 0 ==> r <= t)
  }

  function Elements(s: seq<Time>): set<Time> {
    set t | t in s
  }

  /** The accumulator loop shared by both metrics. */
  function Earliest(s: seq<Time>): Time {
    if s == [] then 0
    else
      var e, t := Earliest(s[..|s| - 1]), s[|s| - 1];
      if (e == 0 || t < e) && t != 0 then t else e
  }

  lemma {:induction false} EarliestIs(s: seq<Time>)
    ensures IsEarliest(Earliest(s), Elements(s))
  {
    if s != [] {
      EarliestIs(s[..|s| - 1]);
      assert s == s[..|s| - 1] + [s[|s| - 1]];
      assert Elements(s) == Elements(s[..|s| - 1]) + {s[|s| - 1]};
    }
  }

  lemma EarliestUnique(a: Time, b: Time, times: set<Time>)
    requires IsEarliest(a, times) && IsEarliest(b, times)
    ensures a == b
  {
  }

  /** getEarliestCertExpiry. */
  method GetEarliestCertExpiry(certs: seq<Time>) returns (earliest: Time)
    ensures earliest == Earliest(certs) && IsEarliest(earliest, Elements(certs))
  {
    earliest := 0;
    for i := 0 to |certs|
      invariant earliest == Earliest(certs[..i])
    {
      assert certs[..i + 1][..i] == certs[..i];
      if (earliest == 0 || certs[i] < earliest) && certs[i] != 0 {
        earliest := certs[i];
      }
    }
    assert certs[..|certs|] == certs;
    EarliestIs(certs);
  }

  // ----- chains -----

  function Last(chains: seq<seq<Time>>): Time {
    if chains == [] then 0
    else
      var l, e := Last(chains[..|chains| - 1]), Earliest(chains[|chains| - 1]);
      if l == 0 || l < e then e else l
  }

  /** getLastChainExpiry. */
  method GetLastChainExpiry(chains: seq<seq<Time>>) returns (last: Time)
    ensures last == Last(chains)
  {
    last := 0;
    for i := 0 to |chains|
      invariant last == Last(chains[..i])
    {
      var earliest := GetEarliestCertExpiry(chains[i]);
      assert chains[..i + 1][..i] == chains[..i];
      if last == 0 || last < earliest {
        last := earliest;
      }
    }
    assert chains[..|chains|] == chains;
  }

  predicate NoneBeforeZero(chains: seq<seq<Time>>) {
    forall i, j :: 0 <= i < |chains| && 0 <= j < |chains[i]| ==> 0 <= chains[i][j]
  }

  /** The chains as sets of expiry times, without order or repetition. */
  function Shape(chains: seq<seq<Time>>): set<set<Time>> {
    set c | c in chains :: Elements(c)
  }

  /** The latest of the chains' earliest times, or 0 if there are no chains. */
  ghost predicate IsLatest(r: Time, shape: set<set<Time>>) {
    && (shape == {} ==> r == 0)
    && (shape != {} ==> exists c :: c in shape && IsEarliest(r, c))
    && (forall c, e :: c in shape && IsEarliest(e, c) ==> e <= r)
  }

  lemma EarliestNotNegative(s: seq<Time>)
    requires forall i :: 0 <= i < |s| ==> 0 <= s[i]
    ensures 0 <= Earliest(s)
  {
    EarliestIs(s);
  }

  lemma {:induction false} LastIs(chains: seq<seq<Time>>)
    requires NoneBeforeZero(chains)
    ensures 0 <= Last(chains)
    ensures chains == [] ==> Last(chains) == 0
    ensures chains != [] ==> exists i :: 0 <= i < |chains| && Last(chains) == Earliest(chains[i])
    ensures forall i :: 0 <= i < |chains| ==> Earliest(chains[i]) <= Last(chains)
  {
    if chains != [] {
      LastIs(chains[..|chains| - 1]);
      EarliestNotNegative(chains[|chains| - 1]);
      assert chains[|chains| - 1] in chains;
      assert forall i :: 0 <= i < |chains| - 1 ==> chains[i] == chains[..|chains| - 1][i];
      if Last(chains) != Earliest(chains[|chains| - 1]) {
        var i :| 0 <= i < |chains| - 1 && Last(chains) == Earliest(chains[..|chains| - 1][i]);
        assert Last(chains) == Earliest(chains[i]);
      }
    }
  }

  /**
   For expiry times not before the zero time the metric is the maximum over the chains of the minimum
   non-zero expiry.
   */
  lemma LastIsLatest(chains: seq<seq<Time>>)
    requires NoneBeforeZero(chains)
    ensures IsLatest(Last(chains), Shape(chains))
  {
    LastIs(chains);
    if chains != [] {
      var i :| 0 <= i < |chains| && Last(chains) == Earliest(chains[i]);
      EarliestIs(chains[i]);
      assert Elements(chains[i]) in Shape(chains);
    }
    forall c, e | c in Shape(chains) && IsEarliest(e, c) ensures e <= Last(chains) {
      var s :| s in chains && Elements(s) == c;
      var i :| 0 <= i < |chains| && chains[i] == s;
      EarliestIs(s);
      EarliestUnique(e, Earliest(s), c);
    }
  }

  lemma LatestUnique(a: Time, b: Time, shape: set<set<Time>>)
    requires IsLatest(a, shape) && IsLatest(b, shape)
    ensures a == b
  {
    if shape != {} {
      var c :| c in shape && IsEarliest(a, c);
      var d :| d in shape && IsEarliest(b, d);
      assert a <= b && b <= a;
    }
  }

  /** Neither the order of chains and certificates nor repetition matters. */
  lemma OrderAndRepetitionIrrelevant(a: seq<seq<Time>>, b: seq<seq<Time>>)
    requires NoneBeforeZero(a) && NoneBeforeZero(b) && Shape(a) == Shape(b)
    ensures Last(a) == Last(b)
  {
    LastIsLatest(a);
    LastIsLatest(b);
    LatestUnique(Last(a), Last(b), Shape(a));
  }

  // ----- the GOST path -----

  datatype ConnectionState = ConnectionState(peer: seq<Time>, verified: seq<seq<Time>>)

  datatype Cert = Unparsable | Parsed(notAfter: Time)

  function ParsedTimes(certs: seq<Cert>): seq<Time> {
    if certs == [] then []
    else ParsedTimes(certs[..|certs| - 1]) + if certs[|certs| - 1].Parsed? then [certs[|certs| - 1].notAfter] else []
  }

  /** `at` lists, in order, the positions of exactly the certificates that parse, and `times` their times. */
  ghost predicate Picks(certs: seq<Cert>, times: seq<Time>, at: seq<nat>) {
    && |at| == |times|
    && (forall i, j :: 0 <= i < j < |at| ==> at[i] < at[j])
    && (forall j :: 0 <= j < |at| ==> at[j] < |certs| && certs[at[j]] == Parsed(times[j]))
    && (forall i :: 0 <= i < |certs| && certs[i].Parsed? ==> i in at)
  }

  lemma PicksOneMore(certs: seq<Cert>, c: Cert, times: seq<Time>, at: seq<nat>)
    requires Picks(certs, times, at)
    ensures if c.Parsed? then Picks(certs + [c], times + [c.notAfter], at + [|certs|])
            else Picks(certs + [c], times, at)
  {
  }

  /** The parsed times are those of exactly the certificates that parse, in order. */
  lemma {:induction false} ParsedInOrder(certs: seq<Cert>) returns (at: seq<nat>)
    ensures Picks(certs, ParsedTimes(certs), at)
  {
    at := [];
    if certs != [] {
      var n := |certs| - 1;
      at := ParsedInOrder(certs[..n]);
      PicksOneMore(certs[..n], certs[n], ParsedTimes(certs[..n]), at);
      assert certs == certs[..n] + [certs[n]];
      at := if certs[n].Parsed? then at + [n] else at;
    }
  }

  /** A leaf that parses comes first. */
  lemma LeafFirst(leaf: Cert, chain: seq<Cert>)
    requires leaf.Parsed?
    ensures var times := ParsedTimes([leaf] + chain); times != [] && times[0] == leaf.notAfter
  {
    var certs := [leaf] + chain;
    var at := ParsedInOrder(certs);
    assert certs[0].Parsed? && 0 in at;
    assert at[0] == 0;
  }

  /** opensslConnectionState: the leaf is put before the chain, and what parses is the only verified chain. */
  method OpensslConnectionState(leaf: Option<Cert>, chain: seq<Cert>) returns (s: ConnectionState)
    ensures s.peer == ParsedTimes(if leaf.Some? then [leaf.value] + chain else chain)
    ensures s.verified == if s.peer == [] then [] else [s.peer]
    ensures Last(s.verified) == Earliest(s.peer)
  {
    var certs := if leaf.Some? then [leaf.value] + chain else chain;
    var peer: seq<Time> := [];
    for i := 0 to |certs|
      invariant peer == ParsedTimes(certs[..i])
    {
      assert certs[..i + 1][..i] == certs[..i];
      if certs[i].Parsed? {
        peer := peer + [certs[i].notAfter];
      }
    }
    assert certs[..|certs|] == certs;
    s := ConnectionState(peer, if peer == [] then [] else [peer]);
    SingleChain(peer);
  }

  /** With a single chain both metrics coincide, whatever the times. */
  lemma SingleChain(peer: seq<Time>)
    ensures Last([peer]) == Earliest(peer) && (peer == [] ==> Last([]) == Earliest(peer))
  {
    assert [peer][..0] == [];
  }
}
