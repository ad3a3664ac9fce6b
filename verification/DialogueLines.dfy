/**
 Scripts of expect and send entries: their reports depend on the byte stream and its ending
 only, and the greedy search for matching lines is complete.
 */
module DialogueLines {
  import opened Wrappers
  import opened LineScanner
  import opened Dialogue

  datatype Found = Found(line: Bytes, m: Match, rest: Bytes, atEnd: bool) | NoMatch | LineTooLong

  /** The first matching line of a plain byte stream. */
  function FindLine(u: Bytes, re: Regexp): Found
    decreases |u|
  {
    match NextLine(u)
    case Line(text, rest) =>
      var m := re.find(text);
      if m.Some? then Found(text, m.value, rest, false) else FindLine(rest, re)
    case Last(text) =>
      var m := re.find(text);
      if m.Some? then Found(text, m.value, [], true) else NoMatch
    case End => NoMatch
    case Overlong => LineTooLong
  }

  /** One expect or send entry on a plain byte stream: the report and the rest of the stream. */
  function LineStep(qr: QueryResponse, u: Bytes, ending: Ending, o: Report, w: World): (Report, Bytes) {
    if qr.pattern.None? then (Deliver(o, qr.send, w), u)
    else
      match FindLine(u, qr.pattern.value)
      case Found(line, m, rest, atEnd) =>
        // A line cut off by a read error is scanned, but the error then fails the probe.
        if atEnd && ending.ReadError? then (o.(verdict := Failed), rest)
        else
          var o' := Matched(o, qr, line, m, w);
          (if o'.verdict.Running? then Deliver(o', qr.pattern.value.expand(qr.send, line, m), w) else o', rest)
      case NoMatch =>
        (if ending.ReadError? then o.(verdict := Failed) else o.(verdict := Failed, regexFailed := true), [])
      case LineTooLong => (o.(verdict := Failed), [])
  }

  function LineRun(script: seq<QueryResponse>, u: Bytes, ending: Ending, o: Report, w: World): Report {
    if script == [] then o.(verdict := Passed)
    else
      var (o', rest) := LineStep(script[0], u, ending, o, w);
      if o'.verdict.Running? then LineRun(script[1..], rest, ending, o', w) else o'
  }

  predicate LineOnly(script: seq<QueryResponse>) {
    forall i :: 0 <= i < |script| ==> script[i].expectBytes == [] && !script[i].startTLS
  }

  /** The scan loop finds what the plain search finds and leaves the same bytes unread. */
  predicate Finds(f: Found, r: (Scanner, Conn, Option<(Bytes, Match)>)) {
    match f
    case Found(line, m, rest, atEnd) =>
      r.2 == Some((line, m)) && Usable(r.0, r.1) && Unread(r.0, r.1) == rest && r.0.err.Some? == atEnd
    case NoMatch => r.2 == None && Usable(r.0, r.1) && r.0.err.Some?
    case LineTooLong => r.2 == None && r.0.err == Some(TooLong)
  }

  lemma {:induction false} SkipToRefinesFindLine(s: Scanner, c: Conn, re: Regexp)
    requires Usable(s, c)
    ensures Finds(FindLine(Unread(s, c), re), SkipTo(s, c, re))
    decreases |Unread(s, c)|
  {
    ScanRefinesNextLine(s, c);
    var (s', c', line) := Scan(s, c);
    if line.Some? && re.find(line.value).None? {
      SkipToRefinesFindLine(s', c', re);
    }
  }

  lemma StepRefinesLineStep(qr: QueryResponse, s: Session, w: World)
    requires s.Live() && Usable(s.scanner, s.conn) && qr.expectBytes == [] && !qr.startTLS
    ensures var s' := Step(s, qr, w);
            var (o, rest) := LineStep(qr, s.Rest(), s.conn.ending, s.report, w);
            && s'.report == o && s'.conn.ending == s.conn.ending
            && (o.verdict.Running? ==> Usable(s'.scanner, s'.conn) && s'.Rest() == rest)
  {
    if qr.pattern.Some? {
      SkipToRefinesFindLine(s.scanner, s.conn, qr.pattern.value);
    }
  }

  /** The interpreter on a chunked connection refines the one on the plain stream. */
  lemma {:induction false} RunRefinesLineRun(script: seq<QueryResponse>, s: Session, w: World)
    requires s.Live() && Usable(s.scanner, s.conn) && LineOnly(script)
    ensures Run(script, s, w) == LineRun(script, s.Rest(), s.conn.ending, s.report, w)
  {
    if script != [] {
      StepRefinesLineStep(script[0], s, w);
      var s' := Step(s, script[0], w);
      if s'.report.verdict.Running? {
        RunRefinesLineRun(script[1..], s', w);
      }
    }
  }

  /** Verdict, sent bytes, gauges and metrics do not depend on how the stream is chunked. */
  lemma ChunkingIrrelevant(script: seq<QueryResponse>, c1: Conn, c2: Conn, useTLS: bool, w: World)
    requires LineOnly(script) && Flatten(c1.chunks) == Flatten(c2.chunks) && c1.ending == c2.ending
    ensures Run(script, Begin(c1, useTLS), w) == Run(script, Begin(c2, useTLS), w)
  {
    RunRefinesLineRun(script, Begin(c1, useTLS), w);
    RunRefinesLineRun(script, Begin(c2, useTLS), w);
  }

  // ----- completeness of the greedy search -----

  /** The lines a probe can match and still pass: those before an overlong line, without one cut off by an error. */
  function PlainLines(u: Bytes, ending: Ending): seq<Bytes>
    decreases |u|
  {
    match NextLine(u)
    case Line(text, rest) => [text] + PlainLines(rest, ending)
    case Last(text) => if ending.Eof? then [text] else []
    case End => []
    case Overlong => []
  }

  function Patterns(script: seq<QueryResponse>): seq<Regexp> {
    if script == [] then []
    else (if script[0].pattern.Some? then [script[0].pattern.value] else []) + Patterns(script[1..])
  }

  /** `at` gives each pattern a matching line, in strictly increasing order from line `from`. */
  ghost predicate Assigns(res: seq<Regexp>, lines: seq<Bytes>, from: nat, at: seq<nat>) {
    && |at| == |res|
    && (forall i :: 0 <= i < |at| ==> from <= at[i] < |lines| && res[i].find(lines[at[i]]).Some?)
    && (forall i, j :: 0 <= i < j < |at| ==> at[i] < at[j])
  }

  predicate Greedy(res: seq<Regexp>, lines: seq<Bytes>, from: nat)
    decreases |lines| - from
  {
    if res == [] then true
    else if |lines| <= from then false
    else Greedy(if res[0].find(lines[from]).Some? then res[1..] else res, lines, from + 1)
  }

  lemma {:induction false} GreedySound(res: seq<Regexp>, lines: seq<Bytes>, from: nat) returns (at: seq<nat>)
    requires Greedy(res, lines, from)
    ensures Assigns(res, lines, from, at)
    decreases |lines| - from
  {
    if res == [] {
      at := [];
    } else if res[0].find(lines[from]).Some? {
      at := GreedySound(res[1..], lines, from + 1);
      at := [from] + at;
    } else {
      at := GreedySound(res, lines, from + 1);
    }
  }

  lemma {:induction false} GreedyComplete(res: seq<Regexp>, lines: seq<Bytes>, from: nat, at: seq<nat>)
    requires Assigns(res, lines, from, at)
    ensures Greedy(res, lines, from)
    decreases |lines| - from
  {
    if res != [] {
      assert from <= at[0] < |lines|;
      if res[0].find(lines[from]).Some? {
        GreedyComplete(res[1..], lines, from + 1, at[1..]);
      } else {
        GreedyComplete(res, lines, from + 1, at);
      }
    }
  }

  /** The plain search agrees with the greedy one: it stops at the first matching line, just before line `k`. */
  lemma {:induction false} FindLineGreedy(u: Bytes, ending: Ending, res: seq<Regexp>, lines: seq<Bytes>, from: nat)
    returns (k: nat)
    requires res != [] && from <= |lines| && lines[from..] == PlainLines(u, ending)
    ensures match FindLine(u, res[0])
            case Found(line, m, rest, atEnd) =>
              if atEnd && ending.ReadError? then !Greedy(res, lines, from)
              else
                && from < k <= |lines| && lines[k..] == PlainLines(rest, ending)
                && Greedy(res, lines, from) == Greedy(res[1..], lines, k)
            case _ => !Greedy(res, lines, from)
    decreases |u|
  {
    k := from + 1;
    var l := NextLine(u);
    assert PlainLines(u, ending) == [] ==> |lines| <= from;
    if l.Line? {
      assert lines[from] == lines[from..][0] == l.text;
      assert lines[from + 1..] == lines[from..][1..] == PlainLines(l.rest, ending);
      if res[0].find(l.text).None? {
        k := FindLineGreedy(l.rest, ending, res, lines, from + 1);
      }
    } else if l.Last? && ending.Eof? {
      assert |lines[from..]| == 1 && lines[from] == lines[from..][0] == l.text;
      assert PlainLines([], ending) == [];
    }
  }

  /** The labelled metric is registered at most once, counting a registration before. */
  predicate RegistersOnce(script: seq<QueryResponse>, o: Report) {
    Labelled(script) + (if o.info.Some? then 1 else 0) <= 1
  }

  /** Every write succeeds and all labels are accepted. */
  ghost predicate Ideal(w: World) {
    (forall n :: w.writeOk(n)) && forall info :: w.accepts(info)
  }

  /** One expect entry: it fails if the greedy search fails, and otherwise leaves the rest of that search. */
  lemma LineStepGreedy(qr: QueryResponse, u: Bytes, ending: Ending, o: Report, w: World,
                       res: seq<Regexp>, lines: seq<Bytes>, from: nat) returns (k: nat)
    requires o.verdict.Running? && qr.pattern.Some? && res != [] && res[0] == qr.pattern.value
    requires (qr.labels.Some? ==> o.info.None?) && Ideal(w)
    requires from <= |lines| && lines[from..] == PlainLines(u, ending)
    ensures var (o', rest) := LineStep(qr, u, ending, o, w);
            if o'.verdict.Running?
            then from < k <= |lines| && lines[k..] == PlainLines(rest, ending)
              && Greedy(res, lines, from) == Greedy(res[1..], lines, k)
              && o'.info.Some? == (o.info.Some? || qr.labels.Some?)
            else o'.verdict.Failed? && !Greedy(res, lines, from)
  {
    k := FindLineGreedy(u, ending, res, lines, from);
    LineStepOnFound(qr, u, ending, o, w);
  }

  lemma LineStepOnFound(qr: QueryResponse, u: Bytes, ending: Ending, o: Report, w: World)
    requires o.verdict.Running? && qr.pattern.Some?
    requires (qr.labels.Some? ==> o.info.None?) && Ideal(w)
    ensures var (o', rest) := LineStep(qr, u, ending, o, w);
            match FindLine(u, qr.pattern.value)
            case Found(_, _, rest', atEnd) =>
              if atEnd && ending.ReadError? then o'.verdict.Failed?
              else o'.verdict.Running? && rest == rest' && o'.info.Some? == (o.info.Some? || qr.labels.Some?)
            case _ => o'.verdict.Failed?
  {
  }

  /** A match of a second labelled entry panics. */
  lemma SecondLabelFails(qr: QueryResponse, u: Bytes, ending: Ending, o: Report, w: World)
    requires o.verdict.Running? && qr.pattern.Some? && qr.labels.Some? && o.info.Some?
    ensures var v := LineStep(qr, u, ending, o, w).0.verdict; v.Failed? || v.Panicked?
  {
  }

  lemma {:induction false} LineRunGreedy(
    script: seq<QueryResponse>, u: Bytes, ending: Ending, o: Report, w: World, lines: seq<Bytes>, from: nat)
    requires o.verdict.Running? && Ideal(w)
    requires from <= |lines| && lines[from..] == PlainLines(u, ending)
    ensures LineRun(script, u, ending, o, w).verdict.Passed? <==>
              Greedy(Patterns(script), lines, from) && RegistersOnce(script, o)
  {
    if script != [] {
      var (o', rest) := LineStep(script[0], u, ending, o, w);
      var res := Patterns(script);
      if script[0].pattern.None? {
        assert res == Patterns(script[1..]) && o'.verdict.Running? && rest == u;
        assert RegistersOnce(script[1..], o') == RegistersOnce(script, o);
        LineRunGreedy(script[1..], rest, ending, o', w, lines, from);
      } else if script[0].labels.Some? && o.info.Some? {
        SecondLabelFails(script[0], u, ending, o, w);
      } else {
        assert res[1..] == Patterns(script[1..]);
        var k := LineStepGreedy(script[0], u, ending, o, w, res, lines, from);
        if o'.verdict.Running? {
          assert RegistersOnce(script[1..], o') == RegistersOnce(script, o);
          LineRunGreedy(script[1..], rest, ending, o', w, lines, k);
        }
      }
    }
  }

  // ----- failing writes -----

  /** The same world, in which every write succeeds. */
  function AllWritten(w: World): World {
    w.(writeOk := (n: nat) => true)
  }

  lemma LineStepWrites(qr: QueryResponse, u: Bytes, ending: Ending, o: Report, w: World)
    requires o.verdict.Running?
    ensures var (o1, rest1) := LineStep(qr, u, ending, o, w);
            var (o2, rest2) := LineStep(qr, u, ending, o, AllWritten(w));
            && !o1.verdict.Passed? && |o.sent| <= |o2.sent| <= |o.sent| + 1 && rest1 == rest2
            && if |o2.sent| == |o.sent| || w.writeOk(|o.sent|) then o1 == o2 else o1.verdict.Failed?
  {
    if qr.pattern.None? {
      DeliverWrites(o, qr.send, w);
    } else {
      match FindLine(u, qr.pattern.value)
      case Found(line, m, _, _) =>
        var o' := Matched(o, qr, line, m, w);
        assert o' == Matched(o, qr, line, m, AllWritten(w)) && o'.sent == o.sent && !o'.verdict.Passed?;
        if o'.verdict.Running? {
          DeliverWrites(o', qr.pattern.value.expand(qr.send, line, m), w);
        }
      case _ =>
    }
  }

  lemma DeliverWrites(o: Report, text: Bytes, w: World)
    requires o.verdict.Running?
    ensures var o1, o2 := Deliver(o, text, w), Deliver(o, text, AllWritten(w));
            && !o1.verdict.Passed? && |o.sent| <= |o2.sent| <= |o.sent| + 1
            && if |o2.sent| == |o.sent| || w.writeOk(|o.sent|) then o1 == o2 else o1.verdict.Failed?
  {
  }

  lemma {:induction false} SentGrows(script: seq<QueryResponse>, u: Bytes, ending: Ending, o: Report, w: World)
    requires o.verdict.Running?
    ensures |o.sent| <= |LineRun(script, u, ending, o, AllWritten(w)).sent|
  {
    if script != [] {
      LineStepWrites(script[0], u, ending, o, w);
      var (o', rest) := LineStep(script[0], u, ending, o, AllWritten(w));
      if o'.verdict.Running? {
        SentGrows(script[1..], rest, ending, o', w);
      }
    }
  }

  /** Failing writes spoil a run exactly if one of the texts it has to send cannot be written. */
  lemma {:induction false} LineRunWrites(script: seq<QueryResponse>, u: Bytes, ending: Ending, o: Report, w: World)
    requires o.verdict.Running?
    ensures var all := LineRun(script, u, ending, o, AllWritten(w));
            if all.verdict.Passed? && (forall n :: |o.sent| <= n < |all.sent| ==> w.writeOk(n))
            then LineRun(script, u, ending, o, w) == all else !LineRun(script, u, ending, o, w).verdict.Passed?
  {
    if script != [] {
      LineStepWrites(script[0], u, ending, o, w);
      var (o', rest) := LineStep(script[0], u, ending, o, AllWritten(w));
      if o'.verdict.Running? {
        SentGrows(script[1..], rest, ending, o', w);
        LineRunWrites(script[1..], rest, ending, o', w);
      }
    }
  }

  /**
   A script of expects and sends passes exactly when its patterns can be assigned to matching
   lines in strictly increasing order (skipping to the first match never loses a solution), it has at
   most one labelled entry, all the texts it has to send can be written, and the labels it expands are
   accepted.
   */
  lemma PassesIffAssignable(script: seq<QueryResponse>, conn: Conn, useTLS: bool, w: World)
    requires LineOnly(script)
    ensures var s := Begin(conn, useTLS);
            var lines := PlainLines(Flatten(conn.chunks), conn.ending);
            var all := Run(script, s, AllWritten(Trusting(w)));
            Run(script, s, w).verdict.Passed? <==>
              && (exists at :: Assigns(Patterns(script), lines, 0, at))
              && Labelled(script) <= 1
              && (forall n :: 0 <= n < |all.sent| ==> w.writeOk(n))
              && (all.info.Some? ==> w.accepts(all.info.value))
  {
    var s := Begin(conn, useTLS);
    var lines := PlainLines(Flatten(conn.chunks), conn.ending);
    IdealPassesIff(script, conn, useTLS, AllWritten(Trusting(w)), lines);
    RegistryDecides(script, s, w);
    RunWrites(script, conn, useTLS, Trusting(w));
  }

  lemma RunWrites(script: seq<QueryResponse>, conn: Conn, useTLS: bool, w: World)
    requires LineOnly(script)
    ensures var s := Begin(conn, useTLS);
            var all := Run(script, s, AllWritten(w));
            if all.verdict.Passed? && (forall n :: 0 <= n < |all.sent| ==> w.writeOk(n))
            then Run(script, s, w) == all else !Run(script, s, w).verdict.Passed?
  {
    var s := Begin(conn, useTLS);
    RunRefinesLineRun(script, s, w);
    RunRefinesLineRun(script, s, AllWritten(w));
    LineRunWrites(script, s.Rest(), conn.ending, s.report, w);
  }

  lemma IdealPassesIff(script: seq<QueryResponse>, conn: Conn, useTLS: bool, w: World, lines: seq<Bytes>)
    requires LineOnly(script) && Ideal(w) && lines == PlainLines(Flatten(conn.chunks), conn.ending)
    ensures Run(script, Begin(conn, useTLS), w).verdict.Passed? <==>
              (exists at :: Assigns(Patterns(script), lines, 0, at)) && Labelled(script) <= 1
  {
    var s := Begin(conn, useTLS);
    RunRefinesLineRun(script, s, w);
    assert s.Rest() == Flatten(conn.chunks);
    LineRunGreedy(script, s.Rest(), conn.ending, s.report, w, lines, 0);
    if Greedy(Patterns(script), lines, 0) {
      var at := GreedySound(Patterns(script), lines, 0);
    }
    forall at | Assigns(Patterns(script), lines, 0, at) ensures Greedy(Patterns(script), lines, 0) {
      GreedyComplete(Patterns(script), lines, 0, at);
    }
  }

  // ----- what a passing probe sends and registers -----

  /** `k` is the first line from `from` on that the pattern matches. */
  ghost predicate FirstMatch(re: Regexp, lines: seq<Bytes>, from: nat, k: nat) {
    && from <= k < |lines| && re.find(lines[k]).Some?
    && forall j :: from <= j < k ==> re.find(lines[j]).None?
  }

  lemma FirstOfLines(lines: seq<Bytes>, from: nat, text: Bytes, more: seq<Bytes>)
    requires from <= |lines| && lines[from..] == [text] + more
    ensures from < |lines| && lines[from] == text && lines[from + 1..] == more
  {
    assert lines[from] == lines[from..][0] && lines[from + 1..] == lines[from..][1..];
  }

  lemma FirstMatchEarlier(re: Regexp, lines: seq<Bytes>, from: nat, k: nat)
    requires from < |lines| && re.find(lines[from]).None? && FirstMatch(re, lines, from + 1, k)
    ensures FirstMatch(re, lines, from, k)
  {
  }

  /** The first matching line of the plain stream, by its position. */
  lemma {:induction false} FindLineAt(u: Bytes, ending: Ending, re: Regexp, lines: seq<Bytes>, from: nat, f: Found)
    returns (k: nat)
    requires from <= |lines| && lines[from..] == PlainLines(u, ending)
    requires f == FindLine(u, re) && f.Found? && !(f.atEnd && ending.ReadError?)
    ensures FirstMatch(re, lines, from, k) && lines[k] == f.line && re.find(f.line) == Some(f.m)
    ensures lines[k + 1..] == PlainLines(f.rest, ending)
    decreases |u|
  {
    k := from;
    match NextLine(u)
    case Line(text, rest) =>
      FirstOfLines(lines, from, text, PlainLines(rest, ending));
      if re.find(text).None? {
        k := FindLineAt(rest, ending, re, lines, from + 1, f);
        FirstMatchEarlier(re, lines, from, k);
      }
    case Last(text) =>
      assert PlainLines([], ending) == [];
      FirstOfLines(lines, from, text, []);
  }

  /** A text on the wire, or nothing if it is empty. */
  function Sent(text: Bytes): seq<Bytes> {
    if text == [] then [] else [text + [LF]]
  }

  /** The names and expanded values of one entry's labels. */
  ghost predicate Expands(info: Info, labels: seq<Label>, re: Regexp, line: Bytes) {
    && |info| == |labels| && re.find(line).Some?
    && forall j :: 0 <= j < |labels| ==>
         info[j].0 == labels[j].name && info[j].1 == re.expand(labels[j].value, line, re.find(line).value)
  }

  /**
   What a script sends and registers when each pattern takes the first line that matches it: every text is
   expanded by the line of its entry, and so are the labels of the labelled entry.
   */
  ghost predicate Reports(
    script: seq<QueryResponse>, lines: seq<Bytes>, from: nat, texts: seq<Bytes>, info: Option<Info>)
    decreases |script|, 1
  {
    if script == [] then texts == [] && info.None?
    else if script[0].pattern.None? then
      var text := Sent(script[0].send);
      text <= texts && Reports(script[1..], lines, from, texts[|text|..], info)
    else
      exists k :: ReportsAt(script, lines, from, k, texts, info)
  }

  /** The first entry takes line `k`. */
  ghost predicate ReportsAt(
    script: seq<QueryResponse>, lines: seq<Bytes>, from: nat, k: nat, texts: seq<Bytes>, info: Option<Info>)
    requires script != [] && script[0].pattern.Some?
    decreases |script|, 0
  {
    var re, labels := script[0].pattern.value, script[0].labels;
    && FirstMatch(re, lines, from, k)
    && var text := Sent(re.expand(script[0].send, lines[k], re.find(lines[k]).value));
    && text <= texts
    && (labels.Some? ==> info.Some? && Expands(info.value, labels.value, re, lines[k]))
    && Reports(script[1..], lines, k + 1, texts[|text|..], if labels.Some? then None else info)
  }

  /** One expect entry of a run that goes on: the line it takes, the text it sends, the labels it registers. */
  lemma LineStepReports(
    qr: QueryResponse, u: Bytes, ending: Ending, o: Report, w: World, lines: seq<Bytes>, from: nat)
    returns (k: nat, text: seq<Bytes>)
    requires o.verdict.Running? && LineStep(qr, u, ending, o, w).0.verdict.Running?
    requires qr.pattern.Some? && from <= |lines| && lines[from..] == PlainLines(u, ending)
    ensures var (o', rest) := LineStep(qr, u, ending, o, w);
            var re := qr.pattern.value;
            && FirstMatch(re, lines, from, k) && lines[k + 1..] == PlainLines(rest, ending)
            && text == Sent(re.expand(qr.send, lines[k], re.find(lines[k]).value)) && o'.sent == o.sent + text
            && if qr.labels.None? then o'.info == o.info
               else o.info.None? && o'.info.Some? && Expands(o'.info.value, qr.labels.value, re, lines[k])
  {
    var f := FindLine(u, qr.pattern.value);
    k := FindLineAt(u, ending, qr.pattern.value, lines, from, f);
    var expanded := qr.pattern.value.expand(qr.send, f.line, f.m);
    text := Sent(expanded);
    var matched := Matched(o, qr, f.line, f.m, w);
    assert matched.verdict.Running? && LineStep(qr, u, ending, o, w) == (Deliver(matched, expanded, w), f.rest);
    MatchedReports(qr, f.line, f.m, o, w, matched);
    DeliverReports(matched, expanded, w);
  }

  lemma MatchedReports(qr: QueryResponse, line: Bytes, m: Match, o: Report, w: World, o': Report)
    requires qr.pattern.Some? && o.verdict.Running? && o' == Matched(o, qr, line, m, w) && o'.verdict.Running?
    requires qr.pattern.value.find(line) == Some(m)
    ensures o'.sent == o.sent
    ensures if qr.labels.None? then o'.info == o.info
            else o.info.None? && o'.info.Some? && Expands(o'.info.value, qr.labels.value, qr.pattern.value, line)
  {
  }

  lemma DeliverReports(o: Report, text: Bytes, w: World)
    requires o.verdict.Running? && Deliver(o, text, w).verdict.Running?
    ensures Deliver(o, text, w).sent == o.sent + Sent(text) && Deliver(o, text, w).info == o.info
  {
  }

  /** What is registered after the report `o`. */
  function Since(o: Report, info: Option<Info>): Option<Info> {
    if o.info.None? then info else None
  }

  lemma {:induction false} ReportsSend(
    script: seq<QueryResponse>, lines: seq<Bytes>, from: nat, more: seq<Bytes>, info: Option<Info>)
    requires script != [] && script[0].pattern.None? && Reports(script[1..], lines, from, more, info)
    ensures Reports(script, lines, from, Sent(script[0].send) + more, info)
  {
    var text := Sent(script[0].send);
    assert (text + more)[|text|..] == more;
  }

  lemma {:induction false} ReportsExpect(
    script: seq<QueryResponse>, lines: seq<Bytes>, from: nat, k: nat,
    text: seq<Bytes>, more: seq<Bytes>, info: Option<Info>)
    requires script != [] && script[0].pattern.Some? && FirstMatch(script[0].pattern.value, lines, from, k)
    requires var re, labels := script[0].pattern.value, script[0].labels;
             && text == Sent(re.expand(script[0].send, lines[k], re.find(lines[k]).value))
             && (labels.Some? ==> info.Some? && Expands(info.value, labels.value, re, lines[k]))
             && Reports(script[1..], lines, k + 1, more, if labels.Some? then None else info)
    ensures Reports(script, lines, from, text + more, info)
  {
    assert (text + more)[|text|..] == more;
    assert ReportsAt(script, lines, from, k, text + more, info);
  }

  /** The first entry of a passing script, and the rest of it. */
  lemma LineRunGoesOn(script: seq<QueryResponse>, u: Bytes, ending: Ending, o: Report, w: World, all: Report)
    returns (o': Report, rest: Bytes)
    requires o.verdict.Running? && script != [] && all == LineRun(script, u, ending, o, w) && all.verdict.Passed?
    ensures (o', rest) == LineStep(script[0], u, ending, o, w) && o'.verdict.Running?
    ensures all == LineRun(script[1..], rest, ending, o', w)
    ensures script[0].pattern.None? ==> rest == u && o'.sent == o.sent + Sent(script[0].send) && o'.info == o.info
  {
    var step := LineStep(script[0], u, ending, o, w);
    o', rest := step.0, step.1;
    LineStepWrites(script[0], u, ending, o, w);
  }

  /** What the first entry of a passing script has done before the rest of it. */
  lemma PassingEntry(
    script: seq<QueryResponse>, u: Bytes, ending: Ending, o: Report, w: World,
    lines: seq<Bytes>, from: nat, all: Report)
    returns (o': Report, rest: Bytes, next: nat, text: seq<Bytes>)
    requires o.verdict.Running? && script != [] && all == LineRun(script, u, ending, o, w) && all.verdict.Passed?
    requires from <= |lines| && lines[from..] == PlainLines(u, ending)
    ensures o'.verdict.Running? && all == LineRun(script[1..], rest, ending, o', w)
    ensures next <= |lines| && lines[next..] == PlainLines(rest, ending) && o'.sent == o.sent + text
    ensures Does(script[0], lines, from, next, text, o.info, o'.info)
  {
    o', rest := LineRunGoesOn(script, u, ending, o, w, all);
    if script[0].pattern.None? {
      next, text := from, Sent(script[0].send);
    } else {
      next, text := LineStepReports(script[0], u, ending, o, w, lines, from);
      next := next + 1;
    }
  }

  /** The lines an entry takes, the text it sends, and how it changes what is registered. */
  ghost predicate Does(
    qr: QueryResponse, lines: seq<Bytes>, from: nat, next: nat, text: seq<Bytes>, was: Option<Info>, now: Option<Info>)
  {
    if qr.pattern.None? then next == from && text == Sent(qr.send) && now == was
    else
      var re, k := qr.pattern.value, next - 1;
      && from < next && FirstMatch(re, lines, from, k)
      && text == Sent(re.expand(qr.send, lines[k], re.find(lines[k]).value))
      && if qr.labels.None? then now == was
         else was.None? && now.Some? && Expands(now.value, qr.labels.value, re, lines[k])
  }

  lemma {:induction false} ReportsFirst(
    script: seq<QueryResponse>, lines: seq<Bytes>, from: nat, next: nat, text: seq<Bytes>, more: seq<Bytes>,
    o: Report, o': Report, all: Report)
    requires script != [] && Does(script[0], lines, from, next, text, o.info, o'.info)
    requires Reports(script[1..], lines, next, more, Since(o', all.info)) && (o'.info.Some? ==> all.info == o'.info)
    ensures Reports(script, lines, from, text + more, Since(o, all.info)) && (o.info.Some? ==> all.info == o.info)
  {
    if script[0].pattern.None? {
      ReportsSend(script, lines, from, more, Since(o, all.info));
    } else {
      ReportsExpect(script, lines, from, next - 1, text, more, Since(o, all.info));
    }
  }

  lemma {:induction false} LineRunReports(
    script: seq<QueryResponse>, u: Bytes, ending: Ending, o: Report, w: World,
    lines: seq<Bytes>, from: nat, all: Report)
    returns (texts: seq<Bytes>)
    requires o.verdict.Running? && all == LineRun(script, u, ending, o, w) && all.verdict.Passed?
    requires from <= |lines| && lines[from..] == PlainLines(u, ending)
    ensures all.sent == o.sent + texts && (o.info.Some? ==> all.info == o.info)
    ensures Reports(script, lines, from, texts, Since(o, all.info))
  {
    texts := [];
    if script != [] {
      var o', rest, next, text := PassingEntry(script, u, ending, o, w, lines, from, all);
      var more := LineRunReports(script[1..], rest, ending, o', w, lines, next, all);
      ReportsFirst(script, lines, from, next, text, more, o, o', all);
      texts := text + more;
    }
  }

  /**
   What a passing script of expects and sends reports, for any chunks: every pattern takes the first line
   that matches it, the texts sent are those of the script in order, expanded by these lines and each
   followed by one line feed, and the labels registered are expanded likewise.
   */
  lemma PassingReport(script: seq<QueryResponse>, conn: Conn, useTLS: bool, w: World)
    requires LineOnly(script) && Run(script, Begin(conn, useTLS), w).verdict.Passed?
    ensures var lines := PlainLines(Flatten(conn.chunks), conn.ending);
            var all := Run(script, Begin(conn, useTLS), w);
            Reports(script, lines, 0, all.sent, all.info)
  {
    var s := Begin(conn, useTLS);
    var all := Run(script, s, w);
    RunRefinesLineRun(script, s, w);
    assert s.Rest() == Flatten(conn.chunks);
    var lines := PlainLines(s.Rest(), conn.ending);
    var texts := LineRunReports(script, s.Rest(), conn.ending, s.report, w, lines, 0, all);
    assert all.sent == texts;
  }
}
