/**
 The query/response dialogue of the TCP and Unix probers: an interpreter for scripts of
 expect, expect_bytes, send and starttls entries over a chunked connection.
 */
module Dialogue {
  import opened Wrappers
  import opened LineScanner

  /** Where the groups of a match lie in the line. */
  type Match = seq<int>

  /** A compiled regular expression: how it matches a line, and how it expands a template. */
  datatype Regexp = Regexp(find: Bytes -> Option<Match>, expand: (Bytes, Bytes, Match) -> Bytes)

  datatype Label = Label(name: string, value: Bytes)

  datatype QueryResponse = QueryResponse(
    pattern: Option<Regexp>, expectBytes: Bytes, labels: Option<seq<Label>>, send: Bytes, startTLS: bool)

  /** How the n-th TLS upgrade goes, and what the encrypted connection then delivers. */
  datatype Upgrade = Upgrade(configOk: bool, handshakeOk: bool, conn: Conn)

  /** The names and values of the labelled metric. */
  type Info = seq<(string, Bytes)>

  /**
   The outcomes the peer and the network decide, and which labels the metric registry accepts: it
   refuses repeated names and values that are not valid UTF-8.
   */
  datatype World = World(writeOk: nat -> bool, upgrade: nat -> Upgrade, accepts: Info -> bool)

  datatype Verdict = Running | Passed | Failed | Panicked

  /** What the probe reports: verdict, bytes sent, the two failure gauges and the registered metrics. */
  datatype Report = Report(
    verdict: Verdict, sent: seq<Bytes>, regexFailed: bool, bytesFailed: bool,
    info: Option<Info>, tlsMetrics: bool)

  datatype Session = Session(report: Report, conn: Conn, scanner: Scanner, upgrades: nat) {
    predicate Live() {
      report.verdict.Running? && scanner.Ok()
    }

    function Stop(v: Verdict): Session {
      this.(report := report.(verdict := v))
    }

    /** The bytes that no step has examined yet, in stream order. */
    function Rest(): Bytes {
      Unread(scanner, conn)
    }
  }

  // ----- the steps of one entry -----

  /** Scan lines until one matches. */
  function SkipTo(s: Scanner, c: Conn, re: Regexp): (r: (Scanner, Conn, Option<(Bytes, Match)>))
    requires s.Ok()
    ensures r.0.Ok() && r.1.ending == c.ending
    decreases |Unread(s, c)|
  {
    var (s', c', line) := Scan(s, c);
    if line.None? then (s', c', None)
    else
      var m := re.find(line.value);
      if m.Some? then (s', c', Some((line.value, m.value))) else SkipTo(s', c', re)
  }

  predicate Broken(s: Scanner) {
    s.err.Some? && s.err.value != Ended(Eof)
  }

  function InfoOf(labels: seq<Label>, re: Regexp, line: Bytes, m: Match): Info {
    seq(|labels|, i requires 0 <= i < |labels| => (labels[i].name, re.expand(labels[i].value, line, m)))
  }

  /** The effect of a matching line on the report. A second or a refused probe_expect_info panics. */
  function Matched(o: Report, qr: QueryResponse, line: Bytes, m: Match, w: World): Report
    requires qr.pattern.Some?
  {
    var o := o.(regexFailed := false);
    if qr.labels.None? then o
    else
      var info := InfoOf(qr.labels.value, qr.pattern.value, line, m);
      if o.info.Some? || !w.accepts(info) then o.(verdict := Panicked) else o.(info := Some(info))
  }

  /** The expect part: the session afterwards and the text to send. */
  function Expect(s: Session, qr: QueryResponse, w: World): (r: (Session, Bytes))
    requires s.Live()
    ensures !r.0.report.verdict.Passed?
  {
    if qr.pattern.None? then (s, qr.send)
    else
      var (scanner, conn, found) := SkipTo(s.scanner, s.conn, qr.pattern.value);
      var s := s.(scanner := scanner, conn := conn);
      if Broken(scanner) then (s.Stop(Failed), [])
      else if found.None? then (s.(report := s.report.(verdict := Failed, regexFailed := true)), [])
      else
        var (line, m) := found.value;
        (s.(report := Matched(s.report, qr, line, m, w)), qr.pattern.value.expand(qr.send, line, m))
  }

  /** The expect_bytes part: one read, directly from the connection. */
  function ExpectBytes(s: Session, expected: Bytes): (r: Session)
    requires s.Live()
    ensures !r.report.verdict.Passed?
  {
    if expected == [] then s
    else
      var (conn, data) := Read(s.conn, |expected|);
      var s := s.(conn := conn);
      if |data| < |expected| then s.Stop(Failed)
      else if data != expected then s.(report := s.report.(verdict := Failed, bytesFailed := true))
      else s.(report := s.report.(bytesFailed := false))
  }

  function Deliver(o: Report, text: Bytes, w: World): Report {
    if text == [] then o
    else if w.writeOk(|o.sent|) then o.(sent := o.sent + [text + [LF]])
    else o.(verdict := Failed)
  }

  /** The starttls part: a new connection and a new scanner. The certificate metrics can be registered once. */
  function StartTLS(s: Session, w: World): Session {
    var up := w.upgrade(s.upgrades);
    if !up.configOk || !up.handshakeOk then s.Stop(Failed)
    else
      var s := s.(conn := up.conn, scanner := NEW_SCANNER, upgrades := s.upgrades + 1);
      if s.report.tlsMetrics then s.Stop(Panicked) else s.(report := s.report.(tlsMetrics := true))
  }

  function Step(s: Session, qr: QueryResponse, w: World): (r: Session)
    requires s.Live()
    ensures !r.report.verdict.Passed? && (r.report.verdict.Running? ==> r.Live())
  {
    var (s, send) := Expect(s, qr, w);
    if !s.report.verdict.Running? then s
    else
      var s := ExpectBytes(s, qr.expectBytes);
      if !s.report.verdict.Running? then s else SendAndUpgrade(s, send, qr.startTLS, w)
  }

  function SendAndUpgrade(s: Session, send: Bytes, startTLS: bool, w: World): (r: Session)
    ensures s.report.verdict.Running? ==> !r.report.verdict.Passed?
  {
    var s := s.(report := Deliver(s.report, send, w));
    if !s.report.verdict.Running? || !startTLS then s else StartTLS(s, w)
  }

  function Steps(script: seq<QueryResponse>, s: Session, w: World): (r: Session)
    requires s.Live()
    ensures !r.report.verdict.Passed? && (r.report.verdict.Running? ==> r.Live())
  {
    if script == [] then s
    else
      var s' := Step(s, script[0], w);
      if s'.report.verdict.Running? then Steps(script[1..], s', w) else s'
  }

  /** A script that runs to its end passes. */
  function Run(script: seq<QueryResponse>, s: Session, w: World): Report
    requires s.Live()
  {
    var s' := Steps(script, s, w);
    if s'.report.verdict.Running? then s'.report.(verdict := Passed) else s'.report
  }

  /** The entries that register the labelled metric when they match. */
  function Labelled(script: seq<QueryResponse>): nat {
    if script == [] then 0
    else (if script[0].pattern.Some? && script[0].labels.Some? then 1 else 0) + Labelled(script[1..])
  }

  function Begin(conn: Conn, useTLS: bool): Session {
    Session(Report(Running, [], false, false, None, useTLS), conn, NEW_SCANNER, 0)
  }

  /** The read loop of an expect entry. */
  method ReadUntilMatch(scanner0: Scanner, conn0: Conn, re: Regexp)
    returns (scanner: Scanner, conn: Conn, found: Option<(Bytes, Match)>)
    requires scanner0.Ok()
    ensures (scanner, conn, found) == SkipTo(scanner0, conn0, re)
  {
    scanner, conn, found := scanner0, conn0, None;
    while true
      invariant scanner.Ok() && found.None?
      invariant SkipTo(scanner0, conn0, re) == SkipTo(scanner, conn, re)
      decreases |Unread(scanner, conn)|
    {
      var (s, c, line) := Scan(scanner, conn);
      scanner, conn := s, c;
      if line.None? {
        return;
      }
      var m := re.find(line.value);
      if m.Some? {
        found := Some((line.value, m.value));
        return;
      }
    }
  }

  method ProcessExpect(qr: QueryResponse, s0: Session, w: World) returns (s: Session, send: Bytes)
    requires s0.Live()
    ensures (s, send) == Expect(s0, qr, w)
  {
    s, send := s0, qr.send;
    if qr.pattern.Some? {
      var re := qr.pattern.value;
      var scanner, conn, found := ReadUntilMatch(s.scanner, s.conn, re);
      s := s.(scanner := scanner, conn := conn);
      if Broken(scanner) {
        return s.Stop(Failed), [];
      }
      if found.None? {
        return s.(report := s.report.(verdict := Failed, regexFailed := true)), [];
      }
      s := s.(report := Matched(s.report, qr, found.value.0, found.value.1, w));
      send := re.expand(send, found.value.0, found.value.1);
    }
  }

  method ProcessExpectBytes(expected: Bytes, s0: Session) returns (s: Session)
    requires s0.Live()
    ensures s == ExpectBytes(s0, expected)
  {
    s := s0;
    if expected != [] {
      var (conn, data) := Read(s.conn, |expected|);
      s := s.(conn := conn);
      if |data| < |expected| {
        return s.Stop(Failed);
      }
      if data != expected {
        return s.(report := s.report.(verdict := Failed, bytesFailed := true));
      }
      s := s.(report := s.report.(bytesFailed := false));
    }
  }

  /** One entry of the script. */
  method ProcessEntry(qr: QueryResponse, s0: Session, w: World) returns (s: Session)
    requires s0.Live()
    ensures s == Step(s0, qr, w)
  {
    var send;
    s, send := ProcessExpect(qr, s0, w);
    if !s.report.verdict.Running? {
      return;
    }
    s := ProcessExpectBytes(qr.expectBytes, s);
    if !s.report.verdict.Running? {
      return;
    }
    if send != [] {
      if !w.writeOk(|s.report.sent|) {
        return s.Stop(Failed);
      }
      s := s.(report := s.report.(sent := s.report.sent + [send + [LF]]));
    }
    if qr.startTLS {
      s := ProcessStartTLS(s, w);
    }
  }

  /** The starttls part: configuration, handshake, new connection and scanner, certificate metrics. */
  method ProcessStartTLS(s0: Session, w: World) returns (s: Session)
    ensures s == StartTLS(s0, w)
  {
    s := s0;
    var up := w.upgrade(s.upgrades);
    if !up.configOk {
      return s.Stop(Failed);
    }
    if !up.handshakeOk {
      return s.Stop(Failed);
    }
    s := s.(conn := up.conn, scanner := NEW_SCANNER, upgrades := s.upgrades + 1);
    if s.report.tlsMetrics {
      return s.Stop(Panicked);
    }
    s := s.(report := s.report.(tlsMetrics := true));
  }

  /** probeQueryResponses: the script loop. */
  method ProbeQueryResponses(script: seq<QueryResponse>, conn: Conn, deadlineOk: bool, useTLS: bool, w: World)
    returns (o: Report)
    ensures o == if deadlineOk then Run(script, Begin(conn, useTLS), w) else Begin(conn, false).Stop(Failed).report
  {
    if !deadlineOk {
      return Begin(conn, false).Stop(Failed).report;
    }
    var s := Begin(conn, useTLS);
    for i := 0 to |script|
      invariant s.Live()
      invariant Run(script, Begin(conn, useTLS), w) == Run(script[i..], s, w)
    {
      assert script[i..][1..] == script[i + 1..];
      s := ProcessEntry(script[i], s, w);
      if !s.report.verdict.Running? {
        return s.report;
      }
    }
    return s.report.(verdict := Passed);
  }

  // ----- what the registry refuses -----

  /** The same world with a registry that accepts all labels. */
  function Trusting(w: World): World {
    w.(accepts := (info: Info) => true)
  }

  /** The labels registered since `before` are refused. */
  predicate Refused(before: Report, after: Report, w: World) {
    before.info.None? && after.info.Some? && !w.accepts(after.info.value)
  }

  lemma ExpectRegistry(qr: QueryResponse, s: Session, w: World)
    requires s.Live()
    ensures var (a, send) := Expect(s, qr, Trusting(w));
            && (s.report.info.Some? ==> a.report.info == s.report.info)
            && if Refused(s.report, a.report, w) then Expect(s, qr, w).0.report.verdict.Panicked?
               else Expect(s, qr, w) == (a, send)
  {
    if qr.pattern.Some? {
      var (_, _, found) := SkipTo(s.scanner, s.conn, qr.pattern.value);
      if found.Some? {
        MatchedRegistry(s.report, qr, found.value.0, found.value.1, w);
      }
    }
  }

  lemma MatchedRegistry(o: Report, qr: QueryResponse, line: Bytes, m: Match, w: World)
    requires qr.pattern.Some? && o.verdict.Running?
    ensures var a := Matched(o, qr, line, m, Trusting(w));
            && (o.info.Some? ==> a.info == o.info)
            && if Refused(o, a, w) then Matched(o, qr, line, m, w).verdict.Panicked?
               else Matched(o, qr, line, m, w) == a
  {
  }

  lemma BytesKeepInfo(s: Session, expected: Bytes)
    requires s.Live()
    ensures ExpectBytes(s, expected).report.info == s.report.info
  {
  }

  /** Sending and upgrading neither asks the registry for labels nor changes them. */
  lemma SendRegistry(s: Session, send: Bytes, startTLS: bool, w: World)
    ensures SendAndUpgrade(s, send, startTLS, w).report.info == s.report.info
    ensures SendAndUpgrade(s, send, startTLS, w) == SendAndUpgrade(s, send, startTLS, Trusting(w))
  {
  }

  lemma StepRegistry(qr: QueryResponse, s: Session, w: World)
    requires s.Live()
    ensures var a := Step(s, qr, Trusting(w));
            && (s.report.info.Some? ==> a.report.info == s.report.info)
            && if Refused(s.report, a.report, w) then Step(s, qr, w).report.verdict.Panicked?
               else Step(s, qr, w) == a
  {
    ExpectRegistry(qr, s, w);
    var (a, send) := Expect(s, qr, Trusting(w));
    if a.report.verdict.Running? {
      BytesKeepInfo(a, qr.expectBytes);
      SendRegistry(ExpectBytes(a, qr.expectBytes), send, qr.startTLS, w);
    }
  }

  lemma {:induction false} StepsRegistry(script: seq<QueryResponse>, s: Session, w: World)
    requires s.Live()
    ensures var a := Steps(script, s, Trusting(w));
            && (s.report.info.Some? ==> a.report.info == s.report.info)
            && if Refused(s.report, a.report, w) then Steps(script, s, w).report.verdict.Panicked?
               else Steps(script, s, w) == a
  {
    if script != [] {
      StepRegistry(script[0], s, w);
      var a := Step(s, script[0], Trusting(w));
      if a.report.verdict.Running? {
        StepsRegistry(script[1..], a, w);
      }
    }
  }

  /**
   For every script: a run is the one with a registry that accepts all labels, or panics where its
   labels are refused.
   */
  lemma RegistryDecides(script: seq<QueryResponse>, s: Session, w: World)
    requires s.Live()
    ensures var all := Run(script, s, Trusting(w));
            if Refused(s.report, all, w) then Run(script, s, w).verdict.Panicked? else Run(script, s, w) == all
  {
    StepsRegistry(script, s, w);
  }
}
