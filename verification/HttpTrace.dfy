/**
 Timings of HTTP round trips: the trace hooks, the order in which they can fire (including a
 second attempt over the GOST backend on the same trace), and the phase durations of a probe.

 Times are natural numbers; 0 is Go's zero time.
 */
module HttpTrace {
  import opened Wrappers

  type Time = nat

  datatype Trace = Trace(
    tls: bool, start: Time, dnsDone: Time, connectDone: Time, gotConn: Time,
    responseStart: Time, end: Time, tlsStart: Time, tlsDone: Time)

  datatype Hook =
    | DNSStart | DNSDone | ConnectStart | ConnectDone | HandshakeStart | HandshakeDone
    | GotConn | FirstResponseByte | BodyRead

  const NO_TIMES := Trace(false, 0, 0, 0, 0, 0, 0, 0, 0)

  /** What one hook records. */
  function Record(t: Trace, h: Hook, now: Time): Trace {
    match h
    case DNSStart => t.(start := now)
    case DNSDone => t.(dnsDone := now)
    case ConnectStart => if t.dnsDone == 0 then t.(start := now, dnsDone := now) else t
    case ConnectDone => t.(connectDone := now)
    case HandshakeStart => t.(tlsStart := now)
    case HandshakeDone => t.(tlsDone := now)
    case GotConn => t.(gotConn := now)
    case FirstResponseByte => t.(responseStart := now)
    case BodyRead => t.(end := now)
  }

  /** The tracing transport: a new trace per round trip; hooks write to the latest. */
  class Transport {
    var traces: seq<Trace>

    constructor ()
      ensures traces == []
    {
      traces := [];
    }

    method BeginRoundTrip(tls: bool)
      modifies this
      ensures traces == old(traces) + [NO_TIMES.(tls := tls)]
    {
      traces := traces + [NO_TIMES.(tls := tls)];
    }

    method Fire(h: Hook, now: Time)
      requires traces != []
      modifies this
      ensures traces == old(traces)[|old(traces)| - 1 := Record(old(traces)[|old(traces)| - 1], h, now)]
    {
      traces := traces[|traces| - 1 := Record(traces[|traces| - 1], h, now)];
    }
  }

  // ----- which hooks can follow which -----

  datatype Phase =
    | Fresh | Resolving | Resolved | Dialing(up: bool) | Shaking | Shaken | Connected | Answering | Finished

  /** Where the recorded first response byte lies relative to the connection got last. */
  datatype Answer = Unanswered | Earlier | Later

  /**
   `stale`: an established connection failed and the request is being retried on the same trace.
   `unconnected`: the last resolution is newer than the last finished connection attempt.
   `late`: a connection attempt finished after the last handshake began.
   `beside`: the last handshake began while the connection on record was already abandoned.
   */
  datatype Progress = Progress(
    phase: Phase, stale: bool, unconnected: bool, late: bool, beside: bool, answer: Answer) {

    /** A connection has been recorded. */
    predicate HasConn() {
      stale || phase.Connected? || phase.Answering? || phase.Finished?
    }
  }

  const BEGIN := Progress(Fresh, false, true, false, false, Unanswered)

  /**
   The hooks of a round trip, on one backend or two. A retry can come after a failed lookup, dial or
   handshake, and after an established connection (with or without a response byte) has failed; it
   begins with a lookup or, if there is nothing to look up, with ConnectStart. Any number of retries can
   follow each other: net/http redials a refused HTTP/2 stream, and the GOST backend comes after that.
   A connection attempt that lost a race can finish at any later time. Behind an https proxy there is a
   handshake with the proxy first, for plain requests too.
   */
  function Next(p: Progress, h: Hook, tls: bool): Option<Progress> {
    match h
    case DNSStart =>
      if p.phase.Fresh? || p.phase.Resolved? || p.phase.Dialing? || (tls && p.phase.Shaken?) then
        Some(p.(phase := Resolving))
      else if tls && (p.phase.Connected? || p.phase.Answering?) then Some(p.(phase := Resolving, stale := true))
      else None
    case DNSDone => if p.phase.Resolving? then Some(p.(phase := Resolved, unconnected := true)) else None
    case ConnectStart =>
      if p.phase.Dialing? then Some(p)
      else if p.phase.Fresh? || p.phase.Resolved? || (tls && p.phase.Shaken?) then
        Some(p.(phase := Dialing(false)))
      else if tls && (p.phase.Connected? || p.phase.Answering?) then Some(p.(phase := Dialing(false), stale := true))
      else None
    case ConnectDone =>
      if p.phase.Fresh? then None
      else
        var phase := if p.phase.Resolved? || p.phase.Dialing? then Dialing(true) else p.phase;
        Some(p.(phase := phase, unconnected := false, late := true))
    case HandshakeStart =>
      if p.phase != Dialing(true) && !p.phase.Shaken? then None
      else Some(p.(phase := Shaking, late := false, beside := p.stale))
    case HandshakeDone => if p.phase.Shaking? then Some(p.(phase := Shaken)) else None
    case GotConn =>
      if p.phase.Shaken? || (!tls && p.phase == Dialing(true)) then
        var answer := if p.answer.Unanswered? then Unanswered else Earlier;
        Some(p.(phase := Connected, stale := false, beside := false, answer := answer))
      else None
    case FirstResponseByte => if p.phase.Connected? then Some(p.(phase := Answering, answer := Later)) else None
    case BodyRead => if p.phase.Answering? then Some(p.(phase := Finished)) else None
  }

  datatype Event = Event(hook: Hook, at: Time)

  /** A round trip: the hooks that fired, and the trace and the progress before the first and after each of them. */
  datatype RoundTrip = RoundTrip(
    tls: bool, begin: Time, events: seq<Event>, traces: seq<Trace>, progress: seq<Progress>) {

    predicate WellFormed() {
      |traces| == |progress| == |events| + 1
    }

    function TimeAt(i: nat): Time
      requires i <= |events|
    {
      if i == 0 then begin else events[i - 1].at
    }

    predicate Records(i: nat)
      requires WellFormed() && i < |events|
    {
      traces[i + 1] == Record(traces[i], events[i].hook, events[i].at)
    }

    predicate Advances(i: nat)
      requires WellFormed() && i < |events|
    {
      && 0 < events[i].at && TimeAt(i) <= events[i].at
      && Next(progress[i], events[i].hook, tls) == Some(progress[i + 1])
    }

    /** Every hook writes to the trace. */
    predicate Recorded() {
      && WellFormed() && traces[0] == NO_TIMES.(tls := tls)
      && forall i :: 0 <= i < |events| ==> Records(i)
    }

    /** The hooks fire in a legal order, on a clock that never runs backwards. */
    predicate Legal() {
      && Recorded() && progress[0] == BEGIN
      && forall i :: 0 <= i < |events| ==> Advances(i)
    }

    function Final(): Trace
      requires WellFormed()
    {
      traces[|events|]
    }

    function Ending(): Progress
      requires WellFormed()
    {
      progress[|events|]
    }

    function Last(): Time {
      TimeAt(|events|)
    }

    /** No two hooks fire at the same time. */
    predicate Ticking() {
      forall i :: 0 < i < |events| ==> events[i - 1].at < events[i].at
    }
  }

  /** Nothing is recorded in the future, or before its hook could have fired. */
  ghost predicate Recordable(t: Trace, p: Progress, now: Time) {
    && t.start <= now && t.dnsDone <= now && t.connectDone <= now && t.gotConn <= now
    && t.responseStart <= now && t.end <= now && t.tlsStart <= now && t.tlsDone <= now
    && (if p.phase.Fresh? then t == NO_TIMES.(tls := t.tls) && p == BEGIN else 0 < t.start)
    && (p.stale ==> t.tls && !p.phase.Connected? && !p.phase.Answering? && !p.phase.Finished?)
    && (p.beside ==> p.stale) && (p.phase.Shaking? && p.stale ==> p.beside)
    && (0 < t.tlsDone || p.phase.Shaking? ==> 0 < t.tlsStart)
    && (0 < t.gotConn <==> p.HasConn())
    && (p.HasConn() || !p.unconnected ==> 0 < t.connectDone)
    && (p.HasConn() || (!p.phase.Fresh? && !p.phase.Resolving?) ==> 0 < t.dnsDone)
    && (0 < t.responseStart <==> !p.answer.Unanswered?)
    && (p.phase.Answering? || p.phase.Finished? ==> p.answer.Later?)
    && (!p.answer.Unanswered? ==> p.HasConn())
    && (0 < t.end <==> p.phase.Finished?)
  }

  /** The order of resolution, connection and response. */
  ghost predicate ConnectOrdered(t: Trace, p: Progress) {
    && (if p.phase.Resolving? then t.dnsDone <= t.start else t.start <= t.dnsDone)
    && (if p.unconnected then t.connectDone <= t.dnsDone else t.dnsDone <= t.connectDone)
    && (p.unconnected ==> p.phase.Fresh? || p.phase.Resolving? || p.phase.Resolved? || p.phase == Dialing(false))
    && (p.answer.Later? ==> t.gotConn <= t.responseStart)
    && (p.answer.Earlier? ==> t.responseStart <= t.gotConn)
    && (p.phase.Finished? ==> t.responseStart <= t.end)
  }

  /** The order of the handshake within the rest. */
  ghost predicate HandshakeOrdered(t: Trace, p: Progress) {
    && (!p.late ==> t.connectDone <= t.tlsStart)
    && (p.phase.Shaking? ==> t.tlsDone <= t.tlsStart)
    && (p.phase.Shaken? || (p.HasConn() && t.tls && !p.phase.Shaking?) ==> t.tlsStart <= t.tlsDone)
  }

  /** The handshake lies before the connection on record, or is a later one beside it. */
  ghost predicate BesideOrdered(t: Trace, p: Progress) {
    && (p.HasConn() && t.tls && !p.beside ==> t.tlsDone <= t.gotConn)
    && (p.beside && p.answer.Later? ==> t.responseStart <= t.tlsStart)
  }

  /** Nothing but a late ConnectDone falls within a lookup. */
  ghost predicate LookupApart(t: Trace, p: Progress) {
    && (t.dnsDone <= t.tlsStart || t.tlsDone <= t.start) && (t.dnsDone <= t.gotConn || t.responseStart <= t.start)
    && (p.phase.Resolving? ==> t.tlsDone <= t.start && t.responseStart <= t.start)
    && (p.phase.Shaking? ==> t.dnsDone <= t.tlsStart)
    && (p.phase.Connected? || p.phase.Answering? || p.phase.Finished? ==> t.dnsDone <= t.gotConn)
  }

  ghost predicate Inv(t: Trace, p: Progress, now: Time) {
    && Recordable(t, p, now) && ConnectOrdered(t, p) && HandshakeOrdered(t, p)
    && BesideOrdered(t, p) && LookupApart(t, p)
  }

  lemma HookKeepsRecordable(t: Trace, p: Progress, h: Hook, was: Time, now: Time)
    requires Inv(t, p, was) && was <= now && 0 < now && Next(p, h, t.tls).Some?
    ensures Recordable(Record(t, h, now), Next(p, h, t.tls).value, now)
  {
  }

  lemma HookKeepsConnectOrder(t: Trace, p: Progress, h: Hook, was: Time, now: Time)
    requires Recordable(t, p, was) && ConnectOrdered(t, p) && was <= now && 0 < now && Next(p, h, t.tls).Some?
    ensures ConnectOrdered(Record(t, h, now), Next(p, h, t.tls).value)
  {
  }

  lemma HookKeepsHandshakeOrder(t: Trace, p: Progress, h: Hook, was: Time, now: Time)
    requires Recordable(t, p, was) && HandshakeOrdered(t, p) && was <= now && 0 < now && Next(p, h, t.tls).Some?
    ensures HandshakeOrdered(Record(t, h, now), Next(p, h, t.tls).value)
  {
  }

  lemma HookKeepsBesideOrder(t: Trace, p: Progress, h: Hook, was: Time, now: Time)
    requires Recordable(t, p, was) && BesideOrdered(t, p) && was <= now && 0 < now && Next(p, h, t.tls).Some?
    ensures BesideOrdered(Record(t, h, now), Next(p, h, t.tls).value)
  {
  }

  lemma HookKeepsLookupApart(t: Trace, p: Progress, h: Hook, was: Time, now: Time)
    requires Recordable(t, p, was) && LookupApart(t, p) && was <= now && 0 < now && Next(p, h, t.tls).Some?
    ensures LookupApart(Record(t, h, now), Next(p, h, t.tls).value)
  {
  }

  lemma HookKeepsInv(t: Trace, p: Progress, h: Hook, was: Time, now: Time)
    requires Inv(t, p, was) && was <= now && 0 < now && Next(p, h, t.tls).Some?
    ensures Inv(Record(t, h, now), Next(p, h, t.tls).value, now) && Record(t, h, now).tls == t.tls
  {
    HookKeepsRecordable(t, p, h, was, now);
    HookKeepsConnectOrder(t, p, h, was, now);
    HookKeepsHandshakeOrder(t, p, h, was, now);
    HookKeepsBesideOrder(t, p, h, was, now);
    HookKeepsLookupApart(t, p, h, was, now);
  }

  /** Every legal hook sequence keeps the order of the recorded times. */
  lemma {:induction false} HooksKeepInv(r: RoundTrip, i: nat)
    requires r.Legal() && i <= |r.events|
    ensures r.begin <= r.TimeAt(i) && r.traces[i].tls == r.tls
    ensures Inv(r.traces[i], r.progress[i], r.TimeAt(i))
  {
    if 0 < i {
      HooksKeepInv(r, i - 1);
      assert r.Records(i - 1) && r.Advances(i - 1);
      HookKeepsInv(r.traces[i - 1], r.progress[i - 1], r.events[i - 1].hook, r.TimeAt(i - 1), r.events[i - 1].at);
    }
  }

  /** What a strictly increasing clock adds: times that are out of order are strictly so. */
  ghost predicate Strict(t: Trace, p: Progress) {
    && (p.phase.Resolving? ==> t.dnsDone < t.start)
    && (p.unconnected && 0 < t.connectDone ==> t.connectDone < t.dnsDone)
    && (p.phase.Shaking? ==> t.tlsDone < t.tlsStart)
    && (p.answer.Earlier? ==> t.responseStart < t.gotConn)
  }

  lemma HookKeepsStrict(t: Trace, p: Progress, h: Hook, was: Time, now: Time)
    requires Inv(t, p, was) && Strict(t, p) && was < now && Next(p, h, t.tls).Some?
    ensures Strict(Record(t, h, now), Next(p, h, t.tls).value)
  {
  }

  lemma {:induction false} HooksKeepStrict(r: RoundTrip, i: nat)
    requires r.Legal() && r.Ticking() && i <= |r.events|
    ensures Strict(r.traces[i], r.progress[i])
  {
    if 0 < i {
      HooksKeepStrict(r, i - 1);
      HooksKeepInv(r, i - 1);
      assert r.Records(i - 1) && r.Advances(i - 1);
      var t, p, e := r.traces[i - 1], r.progress[i - 1], r.events[i - 1];
      HookKeepsStrict(t, p, e.hook, if i == 1 then 0 else r.TimeAt(i - 1), e.at);
    }
  }

  // ----- what the recorded times are -----

  /** When a hook fired last among the first `n` events; 0 if it did not. */
  function LastOf(events: seq<Event>, n: nat, h: Hook): Time
    requires n <= |events|
  {
    if n == 0 then 0 else if events[n - 1].hook == h then events[n - 1].at else LastOf(events, n - 1, h)
  }

  /** When it fired first. */
  function FirstOf(events: seq<Event>, n: nat, h: Hook): Time
    requires n <= |events|
  {
    if n == 0 then 0
    else
      var before := FirstOf(events, n - 1, h);
      if before == 0 && events[n - 1].hook == h then events[n - 1].at else before
  }

  ghost predicate LastTimes(t: Trace, events: seq<Event>, n: nat)
    requires n <= |events|
  {
    && t.connectDone == LastOf(events, n, ConnectDone) && t.gotConn == LastOf(events, n, GotConn)
    && t.tlsStart == LastOf(events, n, HandshakeStart) && t.tlsDone == LastOf(events, n, HandshakeDone)
    && t.responseStart == LastOf(events, n, FirstResponseByte) && t.end == LastOf(events, n, BodyRead)
  }

  /** Each recorded time, apart from the lookup, is that of the last event of its hook, in any order of hooks. */
  lemma {:induction false} RecordsLastTimes(r: RoundTrip, i: nat)
    requires r.Recorded() && i <= |r.events|
    ensures LastTimes(r.traces[i], r.events, i)
  {
    if 0 < i {
      RecordsLastTimes(r, i - 1);
      assert r.Records(i - 1);
    }
  }

  /** The last lookup, or the first connection attempt if there was nothing to look up. */
  ghost predicate LookupTimes(t: Trace, events: seq<Event>, n: nat)
    requires n <= |events|
  {
    var started, done := LastOf(events, n, DNSStart), LastOf(events, n, DNSDone);
    var dial := FirstOf(events, n, ConnectStart);
    && t.start == (if started == 0 then dial else started)
    && t.dnsDone == (if done == 0 then dial else done)
  }

  /** The recorded lookup of a legal round trip is the last one. */
  lemma {:induction false} RecordsLookup(r: RoundTrip, i: nat)
    requires r.Legal() && i <= |r.events|
    ensures LookupTimes(r.traces[i], r.events, i)
  {
    if 0 < i {
      RecordsLookup(r, i - 1);
      assert r.Records(i - 1) && r.Advances(i - 1);
      if r.events[i - 1].hook.ConnectStart? {
        HooksKeepInv(r, i - 1);
        LookupBeforeDial(r.traces[i - 1], r.progress[i - 1], r.TimeAt(i - 1), r.tls);
      }
    }
  }

  lemma LookupBeforeDial(t: Trace, p: Progress, now: Time, tls: bool)
    requires Inv(t, p, now) && Next(p, ConnectStart, tls).Some?
    ensures t.start == 0 <==> t.dnsDone == 0
  {
  }

  // ----- phase durations -----

  datatype Durations = Durations(resolve: int, connect: int, tls: int, processing: int, transfer: int) {
    function Plus(d: Durations): Durations {
      Durations(resolve + d.resolve, connect + d.connect, tls + d.tls, processing + d.processing, transfer + d.transfer)
    }

    function Total(): int {
      resolve + connect + tls + processing + transfer
    }

    predicate NonNegative() {
      0 <= resolve && 0 <= connect && 0 <= tls && 0 <= processing && 0 <= transfer
    }
  }

  // What one trace adds to each phase. The resolution of the first round trip is measured elsewhere.

  function ResolveOf(t: Trace, first: bool): int {
    if first then 0 else t.dnsDone - t.start
  }

  function ConnectOf(t: Trace): int {
    if t.gotConn == 0 then 0 else (if t.tls then t.connectDone else t.gotConn) - t.dnsDone
  }

  function HandshakeOf(t: Trace): int {
    if t.gotConn == 0 || !t.tls then 0 else t.tlsDone - t.tlsStart
  }

  function ProcessingOf(t: Trace): int {
    if t.gotConn == 0 || t.responseStart == 0 then 0 else t.responseStart - t.gotConn
  }

  function TransferOf(t: Trace): int {
    if t.gotConn == 0 || t.responseStart == 0 || t.end == 0 then 0 else t.end - t.responseStart
  }

  function DurationsOf(t: Trace, first: bool): Durations {
    Durations(ResolveOf(t, first), ConnectOf(t), HandshakeOf(t), ProcessingOf(t), TransferOf(t))
  }

  /** What each trace adds. */
  function DurationsIn(traces: seq<Trace>): seq<Durations> {
    seq(|traces|, i requires 0 <= i < |traces| => DurationsOf(traces[i], i == 0))
  }

  /** The first `n` of them together. */
  function Sum(durations: seq<Durations>, n: nat): Durations
    requires n <= |durations|
  {
    if n == 0 then Durations(0, 0, 0, 0, 0) else Sum(durations, n - 1).Plus(durations[n - 1])
  }

  /** One turn of the aggregation loop. */
  method AddTrace(d0: Durations, t: Trace, first: bool) returns (d: Durations)
    ensures d == d0.Plus(DurationsOf(t, first))
  {
    d := d0;
    if !first {
      d := d.(resolve := d.resolve + (t.dnsDone - t.start));
    }
    if t.gotConn == 0 {
      return;
    }
    if t.tls {
      d := d.(connect := d.connect + (t.connectDone - t.dnsDone), tls := d.tls + (t.tlsDone - t.tlsStart));
    } else {
      d := d.(connect := d.connect + (t.gotConn - t.dnsDone));
    }
    if t.responseStart == 0 {
      return;
    }
    d := d.(processing := d.processing + (t.responseStart - t.gotConn));
    if t.end == 0 {
      return;
    }
    d := d.(transfer := d.transfer + (t.end - t.responseStart));
  }

  /** The aggregation at the end of a probe. */
  method Aggregate(traces: seq<Trace>) returns (d: Durations)
    ensures d == Sum(DurationsIn(traces), |traces|)
  {
    d := Durations(0, 0, 0, 0, 0);
    for i := 0 to |traces|
      invariant d == Sum(DurationsIn(traces), i)
    {
      d := AddTrace(d, traces[i], i == 0);
    }
  }

  // ----- when durations are negative -----

  /**
   The endings that add a negative duration: a lookup left open (not counted for the first round trip),
   a retry after an established connection that has resolved again but not connected or has a handshake
   left open, and a retry that got a connection after an abandoned response but no new response byte.
   */
  predicate Backwards(p: Progress, first: bool) {
    || (!first && p.phase.Resolving?)
    || (p.stale && (p.unconnected || p.phase.Shaking?))
    || p.answer.Earlier?
  }

  /** Every other ending of a legal hook sequence adds only non-negative durations. */
  lemma DurationsNonNegative(r: RoundTrip, first: bool)
    requires r.Legal() && !Backwards(r.Ending(), first)
    ensures DurationsOf(r.Final(), first).NonNegative()
  {
    HooksKeepInv(r, |r.events|);
  }

  /** The condition is exact as soon as no two hooks fire at the same time. */
  lemma NonNegativeIff(r: RoundTrip, first: bool)
    requires r.Legal() && r.Ticking()
    ensures DurationsOf(r.Final(), first).NonNegative() <==> !Backwards(r.Ending(), first)
  {
    HooksKeepInv(r, |r.events|);
    HooksKeepStrict(r, |r.events|);
  }

  /**
   A finished round trip after the first: without TLS its phases telescope to end minus start;
   with TLS they miss exactly the gaps before and after the handshake, which are non-negative
   unless a connection attempt finished late.
   */
  lemma FinishedTelescopes(r: RoundTrip)
    requires r.Legal() && r.Ending().phase.Finished?
    ensures var t := r.Final();
            var gaps := if r.tls then (t.tlsStart - t.connectDone) + (t.gotConn - t.tlsDone) else 0;
            DurationsOf(t, false).Total() == t.end - t.start - gaps && (!r.Ending().late ==> 0 <= gaps)
  {
    HooksKeepInv(r, |r.events|);
  }

  /** The same by the clock: from the last lookup, or else the first dial, to the reading of the body. */
  lemma FinishedByTheClock(r: RoundTrip)
    requires r.Legal() && r.Ending().phase.Finished?
    ensures var e, n := r.events, |r.events|;
            var start := if LastOf(e, n, DNSStart) == 0 then FirstOf(e, n, ConnectStart) else LastOf(e, n, DNSStart);
            var gaps := (LastOf(e, n, HandshakeStart) - LastOf(e, n, ConnectDone))
                        + (LastOf(e, n, GotConn) - LastOf(e, n, HandshakeDone));
            DurationsOf(r.Final(), false).Total() == LastOf(e, n, BodyRead) - start - if r.tls then gaps else 0
  {
    RecordsLastTimes(r, |r.events|);
    RecordsLookup(r, |r.events|);
    FinishedTelescopes(r);
  }

  // ----- counting instants -----

  /** From one recorded time to another, possibly the wrong way round. */
  datatype Span = Span(from: Time, to: Time) {
    function Forward(): nat { if from < to then to - from else 0 }

    function Backward(): nat { if to < from then from - to else 0 }

    /** How often the span covers the instant `k`. */
    function At(k: Time): nat { if from <= k < to then 1 else 0 }
  }

  const NO_SPAN := Span(0, 0)

  // Where the durations of a trace lie.

  function ResolveSpan(t: Trace, first: bool): Span {
    if first then NO_SPAN else Span(t.start, t.dnsDone)
  }

  function ConnectSpan(t: Trace): Span {
    if t.gotConn == 0 then NO_SPAN else Span(t.dnsDone, if t.tls then t.connectDone else t.gotConn)
  }

  function HandshakeSpan(t: Trace): Span {
    if t.gotConn == 0 || !t.tls then NO_SPAN else Span(t.tlsStart, t.tlsDone)
  }

  function ProcessingSpan(t: Trace): Span {
    if t.gotConn == 0 || t.responseStart == 0 then NO_SPAN else Span(t.gotConn, t.responseStart)
  }

  function TransferSpan(t: Trace): Span {
    if t.gotConn == 0 || t.responseStart == 0 || t.end == 0 then NO_SPAN else Span(t.responseStart, t.end)
  }

  /** The five phases of a trace. */
  datatype Phases = Phases(resolve: Span, connect: Span, tls: Span, processing: Span, transfer: Span) {
    /** How many phases count the instant `k`. */
    function Depth(k: Time): nat {
      resolve.At(k) + connect.At(k) + tls.At(k) + processing.At(k) + transfer.At(k)
    }

    function Forward(): nat {
      resolve.Forward() + connect.Forward() + tls.Forward() + processing.Forward() + transfer.Forward()
    }

    function Backward(): nat {
      resolve.Backward() + connect.Backward() + tls.Backward() + processing.Backward() + transfer.Backward()
    }

    predicate Within(lo: Time, hi: Time) {
      && Inside(resolve, lo, hi) && Inside(connect, lo, hi) && Inside(tls, lo, hi)
      && Inside(processing, lo, hi) && Inside(transfer, lo, hi)
    }
  }

  predicate Inside(s: Span, lo: Time, hi: Time) {
    s.from < s.to ==> lo <= s.from && s.to <= hi
  }

  function PhasesOf(t: Trace, first: bool): Phases {
    Phases(ResolveSpan(t, first), ConnectSpan(t), HandshakeSpan(t), ProcessingSpan(t), TransferSpan(t))
  }

  /** The instants from `lo` to `hi` that no phase counts. */
  function Idle(p: Phases, lo: Time, hi: Time): nat {
    if hi <= lo then 0 else Idle(p, lo, hi - 1) + if p.Depth(hi - 1) == 0 then 1 else 0
  }

  /** How often instants from `lo` to `hi` are counted after the first time. */
  function Overlap(p: Phases, lo: Time, hi: Time): nat {
    if hi <= lo then 0 else Overlap(p, lo, hi - 1) + if p.Depth(hi - 1) == 0 then 0 else p.Depth(hi - 1) - 1
  }

  /** The instants from `lo` to `hi` that a span covers. */
  function Covered(s: Span, lo: Time, hi: Time): nat {
    if hi <= lo then 0 else Covered(s, lo, hi - 1) + s.At(hi - 1)
  }

  lemma {:induction false} CoveredWithin(s: Span, lo: Time, hi: Time)
    ensures Covered(s, lo, hi) ==
              Span(if lo <= s.from then s.from else lo, if s.to <= hi then s.to else hi).Forward()
  {
    if lo < hi {
      CoveredWithin(s, lo, hi - 1);
    }
  }

  lemma CoveredInside(s: Span, lo: Time, hi: Time)
    requires Inside(s, lo, hi)
    ensures Covered(s, lo, hi) == s.Forward()
  {
    CoveredWithin(s, lo, hi);
  }

  function CoveredByAll(p: Phases, lo: Time, hi: Time): nat {
    Covered(p.resolve, lo, hi) + Covered(p.connect, lo, hi) + Covered(p.tls, lo, hi)
    + Covered(p.processing, lo, hi) + Covered(p.transfer, lo, hi)
  }

  /** Counting by phase and counting by instant give the same. */
  lemma {:induction false} DoubleCount(p: Phases, lo: Time, hi: Time)
    requires lo <= hi
    ensures CoveredByAll(p, lo, hi) + Idle(p, lo, hi) == hi - lo + Overlap(p, lo, hi)
  {
    if lo < hi {
      DoubleCount(p, lo, hi - 1);
    }
  }

  lemma PhasesAddUp(p: Phases, lo: Time, hi: Time)
    requires lo <= hi && p.Within(lo, hi)
    ensures p.Forward() + Idle(p, lo, hi) == hi - lo + Overlap(p, lo, hi)
  {
    DoubleCount(p, lo, hi);
    CoveredInside(p.resolve, lo, hi);
    CoveredInside(p.connect, lo, hi);
    CoveredInside(p.tls, lo, hi);
    CoveredInside(p.processing, lo, hi);
    CoveredInside(p.transfer, lo, hi);
  }

  lemma {:induction false} NoOverlap(p: Phases, lo: Time, hi: Time)
    requires forall k :: p.Depth(k) <= 1
    ensures Overlap(p, lo, hi) == 0
  {
    if lo < hi {
      NoOverlap(p, lo, hi - 1);
    }
  }

  // ----- when phases overlap -----

  /**
   The endings in which the connection phase can reach into later ones: a connection attempt finished
   after the recorded handshake began, or a retry connected and recorded its handshake beside an
   abandoned response.
   */
  predicate CountsTwice(t: Trace, p: Progress) {
    t.tls && p.HasConn() && (p.late || (p.beside && p.answer.Later?))
  }

  /** Apart from the connection, no instant counts for two phases, whatever was retried. */
  lemma ApartFromConnect(t: Trace, p: Progress, last: Time, first: bool, k: Time)
    requires Inv(t, p, last)
    ensures ResolveSpan(t, first).At(k) + HandshakeSpan(t).At(k) + ProcessingSpan(t).At(k) + TransferSpan(t).At(k) <= 1
    ensures ResolveSpan(t, first).At(k) + ConnectSpan(t).At(k) <= 1
  {
  }

  lemma ConnectApart(t: Trace, p: Progress, last: Time, k: Time)
    requires Inv(t, p, last) && !CountsTwice(t, p) && ConnectSpan(t).At(k) == 1
    ensures HandshakeSpan(t).At(k) + ProcessingSpan(t).At(k) + TransferSpan(t).At(k) == 0
  {
  }

  /** No instant is counted three times, and one that is counted twice is counted as part of the connection. */
  lemma DepthOfEnding(t: Trace, p: Progress, last: Time, first: bool, k: Time)
    requires Inv(t, p, last)
    ensures PhasesOf(t, first).Depth(k) <= 1 + ConnectSpan(t).At(k)
    ensures !CountsTwice(t, p) ==> PhasesOf(t, first).Depth(k) <= 1
  {
    ApartFromConnect(t, p, last, first, k);
    if !CountsTwice(t, p) && ConnectSpan(t).At(k) == 1 {
      ConnectApart(t, p, last, k);
    }
  }

  // ----- the account of a round trip -----

  /** What is counted, counted backwards, idle and counted again, and the time that passed. */
  datatype Account = Account(total: int, backward: nat, idle: nat, overlap: nat, passed: int) {
    function Plus(a: Account): Account {
      Account(total + a.total, backward + a.backward, idle + a.idle, overlap + a.overlap, passed + a.passed)
    }

    predicate Balanced() {
      total + backward + idle == passed + overlap
    }
  }

  function AccountOf(r: RoundTrip, first: bool): Account
    requires r.WellFormed()
  {
    var phases := PhasesOf(r.Final(), first);
    Account(DurationsOf(r.Final(), first).Total(), phases.Backward(),
            Idle(phases, r.begin, r.Last()), Overlap(phases, r.begin, r.Last()), r.Last() - r.begin)
  }

  lemma TotalIsSigned(t: Trace, first: bool, d: Durations, p: Phases)
    requires d == DurationsOf(t, first) && p == PhasesOf(t, first)
    ensures d.Total() == p.Forward() - p.Backward()
  {
    assert d.resolve == p.resolve.Forward() - p.resolve.Backward();
    assert d.connect == p.connect.Forward() - p.connect.Backward();
    assert d.tls == p.tls.Forward() - p.tls.Backward();
    assert d.processing == p.processing.Forward() - p.processing.Backward();
    assert d.transfer == p.transfer.Forward() - p.transfer.Backward();
  }

  ghost predicate NotBefore(t: Trace, begin: Time) {
    && (t.start == 0 || begin <= t.start) && (t.dnsDone == 0 || begin <= t.dnsDone)
    && (t.gotConn == 0 || begin <= t.gotConn) && (t.tlsStart == 0 || begin <= t.tlsStart)
    && (t.responseStart == 0 || begin <= t.responseStart)
  }

  /** No hook records a time before the round trip began. */
  lemma {:induction false} NothingBefore(r: RoundTrip, i: nat)
    requires r.Legal() && i <= |r.events|
    ensures NotBefore(r.traces[i], r.begin)
  {
    if 0 < i {
      NothingBefore(r, i - 1);
      assert r.begin <= r.events[i - 1].at by {
        HooksKeepInv(r, i);
      }
      assert r.Records(i - 1);
      HookNotBefore(r.traces[i - 1], r.events[i - 1].hook, r.begin, r.events[i - 1].at);
    }
  }

  lemma HookNotBefore(t: Trace, h: Hook, begin: Time, now: Time)
    requires NotBefore(t, begin) && begin <= now
    ensures NotBefore(Record(t, h, now), begin)
  {
  }

  lemma PhasesWithin(t: Trace, p: Progress, first: bool, begin: Time, last: Time)
    requires Inv(t, p, last) && NotBefore(t, begin)
    ensures PhasesOf(t, first).Within(begin, last)
  {
  }

  /**
   Conservation of time in one round trip. Every instant that passed is idle or counted: what is
   counted, plus what is counted backwards, plus the idle instants, make up the time that passed plus
   the instants counted again. None is counted again unless the ending counts twice.
   */
  lemma RoundTripAccounted(r: RoundTrip, first: bool, a: Account)
    requires r.Legal() && a == AccountOf(r, first)
    ensures a.Balanced()
    ensures !CountsTwice(r.Final(), r.Ending()) ==> a.overlap == 0
  {
    var t, p := r.Final(), r.Ending();
    HooksKeepInv(r, |r.events|);
    NothingBefore(r, |r.events|);
    EndingAccounted(t, p, first, r.begin, r.Last(), DurationsOf(t, first), PhasesOf(t, first));
  }

  lemma EndingAccounted(
    t: Trace, p: Progress, first: bool, begin: Time, last: Time, durations: Durations, phases: Phases)
    requires Inv(t, p, last) && NotBefore(t, begin) && begin <= last
    requires durations == DurationsOf(t, first) && phases == PhasesOf(t, first)
    ensures durations.Total() + phases.Backward() + Idle(phases, begin, last) ==
              last - begin + Overlap(phases, begin, last)
    ensures !CountsTwice(t, p) ==> Overlap(phases, begin, last) == 0
  {
    assert phases.Within(begin, last) by {
      PhasesWithin(t, p, first, begin, last);
    }
    PhasesAddUp(phases, begin, last);
    TotalIsSigned(t, first, durations, phases);
    if !CountsTwice(t, p) {
      forall k ensures phases.Depth(k) <= 1 {
        DepthOfEnding(t, p, last, first, k);
      }
      NoOverlap(phases, begin, last);
    }
  }

  lemma BalanceDecides(a: Account)
    requires a.Balanced()
    ensures a.total <= a.passed <==> a.overlap <= a.idle + a.backward
  {
  }

  /** The counted time after connecting. */
  function Busy(t: Trace): int {
    HandshakeOf(t) + ProcessingOf(t) + TransferOf(t)
  }

  /** In terms of the recorded times: exactly when the phases of a round trip exceed the time that passed. */
  lemma ExceedsIff(r: RoundTrip, first: bool)
    requires r.Legal()
    ensures var t := r.Final();
            DurationsOf(t, first).Total() > r.Last() - r.begin <==>
              && CountsTwice(t, r.Ending())
              && Busy(t) > (r.Last() - t.connectDone) + (if first then t.dnsDone else t.start) - r.begin
  {
    if CountsTwice(r.Final(), r.Ending()) {
      HooksKeepInv(r, |r.events|);
    } else {
      RoundTripAccounted(r, first, AccountOf(r, first));
    }
  }

  // ----- all round trips of a probe -----

  /** When the first `n` round trips are over. */
  function TimeAfter(rts: seq<RoundTrip>, begin: Time, n: nat): Time
    requires n <= |rts|
  {
    if n == 0 then begin else rts[n - 1].Last()
  }

  predicate Follows(rts: seq<RoundTrip>, begin: Time, i: nat)
    requires i < |rts|
  {
    rts[i].begin == TimeAfter(rts, begin, i)
  }

  /** Each round trip begins when the one before is over. */
  predicate Chained(rts: seq<RoundTrip>, begin: Time) {
    forall i :: 0 <= i < |rts| ==> Follows(rts, begin, i)
  }

  /** One round trip after the other, each legal, each ending anywhere. */
  predicate Sequential(rts: seq<RoundTrip>, begin: Time) {
    Chained(rts, begin) && forall i :: 0 <= i < |rts| ==> rts[i].Legal()
  }

  predicate AllWellFormed(rts: seq<RoundTrip>) {
    forall i :: 0 <= i < |rts| ==> rts[i].WellFormed()
  }

  function TracesOf(rts: seq<RoundTrip>): seq<Trace>
    requires AllWellFormed(rts)
  {
    seq(|rts|, i requires 0 <= i < |rts| => rts[i].Final())
  }

  function AccountsOf(rts: seq<RoundTrip>): seq<Account>
    requires AllWellFormed(rts)
  {
    seq(|rts|, i requires 0 <= i < |rts| => AccountOf(rts[i], i == 0))
  }

  /** The first `n` accounts together. */
  function Balance(accounts: seq<Account>, n: nat): Account
    requires n <= |accounts|
  {
    if n == 0 then Account(0, 0, 0, 0, 0) else Balance(accounts, n - 1).Plus(accounts[n - 1])
  }

  /** No round trip ends in a way that counts time twice. */
  predicate CountsOnce(rts: seq<RoundTrip>)
    requires AllWellFormed(rts)
  {
    forall i :: 0 <= i < |rts| ==> !CountsTwice(rts[i].Final(), rts[i].Ending())
  }

  lemma {:induction false} BalanceBalanced(accounts: seq<Account>, n: nat)
    requires n <= |accounts| && forall i :: 0 <= i < |accounts| ==> accounts[i].Balanced()
    ensures Balance(accounts, n).Balanced()
    ensures (forall i :: 0 <= i < |accounts| ==> accounts[i].overlap == 0) ==> Balance(accounts, n).overlap == 0
  {
    if 0 < n {
      BalanceBalanced(accounts, n - 1);
    }
  }

  lemma {:induction false} BalanceTotal(accounts: seq<Account>, durations: seq<Durations>, n: nat)
    requires n <= |accounts| == |durations|
    requires forall i :: 0 <= i < |accounts| ==> accounts[i].total == durations[i].Total()
    ensures Balance(accounts, n).total == Sum(durations, n).Total()
  {
    if 0 < n {
      BalanceTotal(accounts, durations, n - 1);
    }
  }

  lemma {:induction false} BalancePassed(rts: seq<RoundTrip>, begin: Time, accounts: seq<Account>, n: nat)
    requires n <= |rts| == |accounts| && Chained(rts, begin)
    requires forall i :: 0 <= i < |rts| ==> accounts[i].passed == rts[i].Last() - rts[i].begin
    ensures Balance(accounts, n).passed == TimeAfter(rts, begin, n) - begin
  {
    if 0 < n {
      BalancePassed(rts, begin, accounts, n - 1);
      assert Follows(rts, begin, n - 1);
    }
  }

  function DurationsOfProbe(rts: seq<RoundTrip>): seq<Durations>
    requires AllWellFormed(rts)
  {
    DurationsIn(TracesOf(rts))
  }

  lemma {:induction false} AccountsTotal(rts: seq<RoundTrip>, accounts: seq<Account>, durations: seq<Durations>)
    requires AllWellFormed(rts) && accounts == AccountsOf(rts) && durations == DurationsOfProbe(rts)
    ensures forall i :: 0 <= i < |rts| ==> accounts[i].total == durations[i].Total()
  {
    assert forall i :: 0 <= i < |rts| ==> durations[i] == DurationsOf(rts[i].Final(), i == 0);
  }

  lemma {:induction false} AccountsBalanced(rts: seq<RoundTrip>, begin: Time, accounts: seq<Account>)
    requires Sequential(rts, begin) && AllWellFormed(rts) && accounts == AccountsOf(rts)
    ensures forall i :: 0 <= i < |rts| ==> accounts[i].Balanced() && (CountsOnce(rts) ==> accounts[i].overlap == 0)
  {
    forall i | 0 <= i < |rts| ensures accounts[i].Balanced() && (CountsOnce(rts) ==> accounts[i].overlap == 0) {
      RoundTripAccounted(rts[i], i == 0, accounts[i]);
    }
  }

  lemma {:induction false} AccountsPassed(rts: seq<RoundTrip>, accounts: seq<Account>)
    requires AllWellFormed(rts) && accounts == AccountsOf(rts)
    ensures forall i :: 0 <= i < |rts| ==> accounts[i].passed == rts[i].Last() - rts[i].begin
  {
  }

  /** The sums of accounts, given what each of them says. */
  lemma {:induction false} AccountsAddUp(
    rts: seq<RoundTrip>, begin: Time, accounts: seq<Account>, durations: seq<Durations>, once: bool, a: Account)
    requires |rts| == |accounts| == |durations| && Chained(rts, begin) && a == Balance(accounts, |rts|)
    requires forall i :: 0 <= i < |rts| ==> accounts[i].Balanced() && (once ==> accounts[i].overlap == 0)
    requires forall i :: 0 <= i < |rts| ==> accounts[i].total == durations[i].Total()
    requires forall i :: 0 <= i < |rts| ==> accounts[i].passed == rts[i].Last() - rts[i].begin
    ensures a.Balanced() && (once ==> a.overlap == 0)
    ensures a.total == Sum(durations, |rts|).Total() && a.passed == TimeAfter(rts, begin, |rts|) - begin
  {
    assert a.Balanced() && (once ==> a.overlap == 0) by {
      BalanceBalanced(accounts, |rts|);
    }
    assert a.total == Sum(durations, |rts|).Total() by {
      BalanceTotal(accounts, durations, |rts|);
    }
    assert a.passed == TimeAfter(rts, begin, |rts|) - begin by {
      BalancePassed(rts, begin, accounts, |rts|);
    }
  }

  /** Conservation of time over all round trips of a probe. */
  lemma {:induction false} ProbeAccounted(
    rts: seq<RoundTrip>, begin: Time, accounts: seq<Account>, durations: seq<Durations>, a: Account)
    requires Sequential(rts, begin) && AllWellFormed(rts)
    requires accounts == AccountsOf(rts) && durations == DurationsOfProbe(rts) && a == Balance(accounts, |rts|)
    ensures a.Balanced() && (CountsOnce(rts) ==> a.overlap == 0)
    ensures a.total == Sum(durations, |rts|).Total() && a.passed == TimeAfter(rts, begin, |rts|) - begin
  {
    AccountsBalanced(rts, begin, accounts);
    AccountsTotal(rts, accounts, durations);
    AccountsPassed(rts, accounts);
    AccountsAddUp(rts, begin, accounts, durations, CountsOnce(rts), a);
  }

  /**
   The reported phases, summed over all round trips of any legal probe, exceed the time that passed
   exactly if more instants are counted again than are idle or counted backwards; without a round trip
   that counts twice they never do.
   */
  lemma {:induction false} SumWithinElapsed(rts: seq<RoundTrip>, begin: Time)
    requires Sequential(rts, begin)
    ensures AllWellFormed(rts)
    ensures var a := Balance(AccountsOf(rts), |rts|);
            Sum(DurationsOfProbe(rts), |rts|).Total() <= TimeAfter(rts, begin, |rts|) - begin <==>
              a.overlap <= a.idle + a.backward
    ensures CountsOnce(rts) ==> Sum(DurationsOfProbe(rts), |rts|).Total() <= TimeAfter(rts, begin, |rts|) - begin
  {
    var accounts := AccountsOf(rts);
    var a := Balance(accounts, |rts|);
    ProbeAccounted(rts, begin, accounts, DurationsOfProbe(rts), a);
    BalanceDecides(a);
  }

  /** All hooks of one round trip, fired on the transport. */
  method TraceRoundTrip(transport: Transport, r: RoundTrip)
    requires r.Recorded()
    modifies transport
    ensures transport.traces == old(transport.traces) + [r.Final()]
  {
    transport.BeginRoundTrip(r.tls);
    for j := 0 to |r.events|
      invariant transport.traces == old(transport.traces) + [r.traces[j]]
    {
      assert r.Records(j);
      transport.Fire(r.events[j].hook, r.events[j].at);
    }
  }

  /** From the hooks of all round trips to the reported phases, and when these exceed the time that passed. */
  method ReportPhases(rts: seq<RoundTrip>, ghost begin: Time) returns (d: Durations)
    requires AllWellFormed(rts) && forall i :: 0 <= i < |rts| ==> rts[i].Recorded()
    ensures d == Sum(DurationsOfProbe(rts), |rts|)
    ensures Sequential(rts, begin) ==>
              var a := Balance(AccountsOf(rts), |rts|);
              d.Total() <= TimeAfter(rts, begin, |rts|) - begin <==> a.overlap <= a.idle + a.backward
    ensures Sequential(rts, begin) && CountsOnce(rts) ==> d.Total() <= TimeAfter(rts, begin, |rts|) - begin
  {
    var transport := new Transport();
    for i := 0 to |rts|
      invariant transport.traces == TracesOf(rts)[..i]
    {
      TraceRoundTrip(transport, rts[i]);
    }
    assert transport.traces == TracesOf(rts);
    d := Aggregate(transport.traces);
    if Sequential(rts, begin) {
      SumWithinElapsed(rts, begin);
    }
  }

  // ----- particular sequences -----

  function Start(tls: bool, begin: Time): RoundTrip {
    RoundTrip(tls, begin, [], [NO_TIMES.(tls := tls)], [BEGIN])
  }

  /** One more hook. */
  function Fired(r: RoundTrip, h: Hook, at: Time): RoundTrip
    requires r.WellFormed() && Next(r.Ending(), h, r.tls).Some?
  {
    r.(events := r.events + [Event(h, at)], traces := r.traces + [Record(r.Final(), h, at)],
       progress := r.progress + [Next(r.Ending(), h, r.tls).value])
  }

  lemma FiredIsLegal(r: RoundTrip, h: Hook, at: Time)
    requires r.Legal() && r.Ticking() && Next(r.Ending(), h, r.tls).Some?
    requires 0 < at && r.Last() <= at && (r.events != [] ==> r.Last() < at)
    ensures var s := Fired(r, h, at);
            && s.Legal() && s.Ticking() && s.events != [] && s.Last() == at
            && s.Final() == Record(r.Final(), h, at) && s.Ending() == Next(r.Ending(), h, r.tls).value
  {
    var s := Fired(r, h, at);
    forall i | 0 <= i < |s.events| ensures s.Records(i) && s.Advances(i) {
      if i < |r.events| {
        assert r.Records(i) && r.Advances(i);
      }
    }
  }

  /** What a chain of hooks has led to. */
  ghost predicate Reached(r: RoundTrip, tls: bool, at: Time, t: Trace, p: Progress) {
    && r.Legal() && r.Ticking() && r.events != [] && r.tls == tls
    && r.Last() == at && r.Final() == t && r.Ending() == p
  }

  lemma Fires(r: RoundTrip, h: Hook, at: Time, was: Time, t: Trace, p: Progress) returns (s: RoundTrip)
    requires Reached(r, t.tls, was, t, p) && was < at && Next(p, h, t.tls).Some?
    ensures Reached(s, t.tls, at, Record(t, h, at), Next(p, h, t.tls).value)
  {
    FiredIsLegal(r, h, at);
    s := Fired(r, h, at);
  }

  /** The times of a complete exchange, in order. */
  datatype Times = Times(
    lookup: Time, found: Time, dial: Time, connected: Time, shake: Time, shaken: Time,
    got: Time, answer: Time, read: Time) {

    predicate Increasing() {
      0 < lookup < found < dial < connected < shake < shaken < got < answer < read
    }
  }

  lemma LookedUp(tls: bool, lookup: bool, at: Times) returns (r: RoundTrip)
    requires at.Increasing()
    ensures var t := NO_TIMES.(tls := tls);
            Reached(r, tls, at.dial,
                    if lookup then t.(start := at.lookup, dnsDone := at.found)
                    else t.(start := at.dial, dnsDone := at.dial),
                    BEGIN.(phase := Dialing(false)))
  {
    r := Start(tls, at.lookup);
    if lookup {
      FiredIsLegal(r, DNSStart, at.lookup);
      r := Fired(r, DNSStart, at.lookup);
      var t := NO_TIMES.(tls := tls, start := at.lookup);
      r := Fires(r, DNSDone, at.found, at.lookup, t, BEGIN.(phase := Resolving));
      r := Fires(r, ConnectStart, at.dial, at.found, t.(dnsDone := at.found), BEGIN.(phase := Resolved));
    } else {
      FiredIsLegal(r, ConnectStart, at.dial);
      r := Fired(r, ConnectStart, at.dial);
    }
  }

  lemma ConnectedTo(tls: bool, r0: RoundTrip, at: Times, t0: Trace) returns (r: RoundTrip)
    requires at.Increasing() && t0.tls == tls && 0 < t0.dnsDone
    requires Reached(r0, tls, at.dial, t0, BEGIN.(phase := Dialing(false)))
    ensures var t := t0.(connectDone := at.connected, gotConn := at.got);
            Reached(r, tls, at.got, if tls then t.(tlsStart := at.shake, tlsDone := at.shaken) else t,
                    Progress(Connected, false, false, !tls, false, Unanswered))
  {
    var p := Progress(Dialing(true), false, false, true, false, Unanswered);
    r := Fires(r0, ConnectDone, at.connected, at.dial, t0, BEGIN.(phase := Dialing(false)));
    var t := t0.(connectDone := at.connected);
    if tls {
      r := Fires(r, HandshakeStart, at.shake, at.connected, t, p);
      t, p := t.(tlsStart := at.shake), p.(phase := Shaking, late := false);
      r := Fires(r, HandshakeDone, at.shaken, at.shake, t, p);
      t, p := t.(tlsDone := at.shaken), p.(phase := Shaken);
      r := Fires(r, GotConn, at.got, at.shaken, t, p);
    } else {
      r := Fires(r, GotConn, at.got, at.connected, t, p);
    }
  }

  /**
   The ordinary case: a complete exchange at any times, with TLS or without, with a lookup or without,
   is legal, and its phases are the differences of the times at which its hooks fired.
   */
  lemma CompleteExchange(tls: bool, lookup: bool, at: Times) returns (r: RoundTrip)
    requires at.Increasing()
    ensures r.Legal() && r.Ending().phase.Finished? && r.Last() == at.read && r.tls == tls
    ensures var found := if lookup then at.found else at.dial;
            DurationsOf(r.Final(), false) == Durations(
              if lookup then at.found - at.lookup else 0, (if tls then at.connected else at.got) - found,
              if tls then at.shaken - at.shake else 0, at.answer - at.got, at.read - at.answer)
  {
    r := LookedUp(tls, lookup, at);
    r := ConnectedTo(tls, r, at, r.Final());
    var t, p := r.Final(), r.Ending();
    r := Fires(r, FirstResponseByte, at.answer, at.got, t, p);
    t, p := t.(responseStart := at.answer), p.(phase := Answering, answer := Later);
    r := Fires(r, BodyRead, at.read, at.answer, t, p);
  }

  /** A lookup that is still open when the probe ends: a redirect to a slow name. */
  lemma OpenLookup() returns (r: RoundTrip)
    ensures r.Legal() && r.Ticking() && Backwards(r.Ending(), false) && DurationsOf(r.Final(), false).resolve == -5
  {
    r := Start(true, 5);
    FiredIsLegal(r, DNSStart, 5);
    r := Fired(r, DNSStart, 5);
  }

  /** An https dial, at times 1 and 2. */
  lemma Dialed() returns (r: RoundTrip)
    ensures r.Legal() && r.Ticking() && r.tls && r.begin == 1 && r.events != [] && r.Last() == 2
    ensures r.Ending() == Progress(Dialing(true), false, false, true, false, Unanswered)
    ensures r.Final() == Trace(true, 1, 1, 2, 0, 0, 0, 0, 0)
  {
    r := Start(true, 1);
    FiredIsLegal(r, ConnectStart, 1);
    r := Fired(r, ConnectStart, 1);
    FiredIsLegal(r, ConnectDone, 2);
    r := Fired(r, ConnectDone, 2);
  }

  /** An https exchange up to the connection, at times 1 to 5. */
  lemma Established() returns (r: RoundTrip)
    ensures r.Legal() && r.Ticking() && r.tls && r.begin == 1 && r.events != [] && r.Last() == 5
    ensures r.Ending() == Progress(Connected, false, false, false, false, Unanswered)
    ensures r.Final() == Trace(true, 1, 1, 2, 5, 0, 0, 3, 4)
  {
    r := Dialed();
    FiredIsLegal(r, HandshakeStart, 3);
    r := Fired(r, HandshakeStart, 3);
    FiredIsLegal(r, HandshakeDone, 4);
    r := Fired(r, HandshakeDone, 4);
    FiredIsLegal(r, GotConn, 5);
    r := Fired(r, GotConn, 5);
  }

  /** A retry that connects after an established connection broke: the phases exceed the time that passed. */
  lemma FailedRedialCountsTwice() returns (r: RoundTrip)
    ensures r.Legal() && r.Ticking() && CountsTwice(r.Final(), r.Ending())
    ensures DurationsOf(r.Final(), false).Total() == 7 > r.Last() - r.begin
  {
    r := Established();
    FiredIsLegal(r, ConnectStart, 6);
    r := Fired(r, ConnectStart, 6);
    FiredIsLegal(r, ConnectDone, 7);
    r := Fired(r, ConnectDone, 7);
  }

  /** A retry after a broken response, up to its handshake: cut off there, the handshake counts negatively. */
  lemma RetryCutOff() returns (r: RoundTrip)
    ensures r.Legal() && r.Ticking() && r.tls && r.events != [] && r.Last() == 9
    ensures r.Ending() == Progress(Shaking, true, false, false, true, Later)
    ensures r.Final() == Trace(true, 1, 1, 8, 5, 6, 0, 9, 4)
    ensures DurationsOf(r.Final(), true).tls == -5
  {
    r := Established();
    FiredIsLegal(r, FirstResponseByte, 6);
    r := Fired(r, FirstResponseByte, 6);
    FiredIsLegal(r, ConnectStart, 7);
    r := Fired(r, ConnectStart, 7);
    FiredIsLegal(r, ConnectDone, 8);
    r := Fired(r, ConnectDone, 8);
    FiredIsLegal(r, HandshakeStart, 9);
    r := Fired(r, HandshakeStart, 9);
  }

  /** A retry that gets a connection but no response, after the first attempt broke within its response. */
  lemma RetryUnanswered() returns (r: RoundTrip)
    ensures r.Legal() && r.Ticking() && Backwards(r.Ending(), true) && DurationsOf(r.Final(), true).processing == -5
  {
    r := RetryCutOff();
    FiredIsLegal(r, HandshakeDone, 10);
    r := Fired(r, HandshakeDone, 10);
    FiredIsLegal(r, GotConn, 11);
    r := Fired(r, GotConn, 11);
  }

  /** A retry that resolves a name again and does not get to connect. */
  lemma RetryUnconnected() returns (r: RoundTrip)
    ensures r.Legal() && r.Ticking() && Backwards(r.Ending(), true) && DurationsOf(r.Final(), true).connect == -6
  {
    r := Established();
    FiredIsLegal(r, ConnectStart, 6);
    r := Fired(r, ConnectStart, 6);
    FiredIsLegal(r, DNSStart, 7);
    r := Fired(r, DNSStart, 7);
    FiredIsLegal(r, DNSDone, 8);
    r := Fired(r, DNSDone, 8);
  }

  /**
   A redial that fails in its handshake after a broken response, and a GOST dial that just begins: the
   old response and the new connection are both on record, and count 197 within a time of 104.
   */
  lemma SecondRetryCountsTwice() returns (r: RoundTrip)
    ensures r.Legal() && r.Ticking() && CountsTwice(r.Final(), r.Ending()) && !r.Ending().late
    ensures DurationsOf(r.Final(), true).Total() == 197 && r.Last() - r.begin == 104
  {
    r := Established();
    FiredIsLegal(r, FirstResponseByte, 100);
    r := Fired(r, FirstResponseByte, 100);
    FiredIsLegal(r, ConnectStart, 101);
    r := Fired(r, ConnectStart, 101);
    FiredIsLegal(r, ConnectDone, 102);
    r := Fired(r, ConnectDone, 102);
    FiredIsLegal(r, HandshakeStart, 103);
    r := Fired(r, HandshakeStart, 103);
    FiredIsLegal(r, HandshakeDone, 104);
    r := Fired(r, HandshakeDone, 104);
    FiredIsLegal(r, ConnectStart, 105);
    r := Fired(r, ConnectStart, 105);
  }
}
