/**
 Scripts with expect_bytes and starttls: which bytes each step examines, what the scanner's
 read-ahead hides from expect_bytes, and that a TLS upgrade forgets all plaintext.
 */
module DialogueBytes {
  import opened Wrappers
  import opened LineScanner
  import opened Dialogue

  // ----- TLS upgrades -----

  /** A point of comparison: what two sessions had sent there, and whether their failure gauges agreed. */
  datatype Common = Common(x: seq<Bytes>, y: seq<Bytes>, gauges: bool) {
    /** The same texts were sent since. */
    predicate SameSince(a: seq<Bytes>, b: seq<Bytes>) {
      x <= a && y <= b && |x| == |y| && a[|x|..] == b[|y|..]
    }
  }

  /** Two sessions that agree on everything a later step can look at. */
  predicate Parallel(a: Session, b: Session, k: Common) {
    && a.conn == b.conn && a.scanner == b.scanner && a.upgrades == b.upgrades
    && ParallelReports(a.report, b.report, k)
  }

  /** The same verdict, registrations and texts sent since `k`, and the same gauges if they agreed there. */
  predicate ParallelReports(a: Report, b: Report, k: Common) {
    && a.verdict == b.verdict && a.info.Some? == b.info.Some? && a.tlsMetrics == b.tlsMetrics
    && k.SameSince(a.sent, b.sent)
    && (k.gauges ==> a.regexFailed == b.regexFailed && a.bytesFailed == b.bytesFailed)
  }

  lemma ParallelMatched(qr: QueryResponse, line: Bytes, m: Match, a: Report, b: Report, w: World, k: Common)
    requires qr.pattern.Some? && ParallelReports(a, b, k)
    ensures ParallelReports(Matched(a, qr, line, m, w), Matched(b, qr, line, m, w), k)
  {
    assert Matched(a, qr, line, m, w).sent == a.sent && Matched(b, qr, line, m, w).sent == b.sent;
  }

  lemma ParallelExpect(qr: QueryResponse, a: Session, b: Session, w: World, k: Common)
    requires a.Live() && b.Live() && Parallel(a, b, k)
    ensures Parallel(Expect(a, qr, w).0, Expect(b, qr, w).0, k) && Expect(a, qr, w).1 == Expect(b, qr, w).1
  {
    if qr.pattern.Some? {
      var (scanner, _, found) := SkipTo(a.scanner, a.conn, qr.pattern.value);
      if !Broken(scanner) && found.Some? {
        ParallelMatched(qr, found.value.0, found.value.1, a.report, b.report, w, k);
      }
    }
  }

  lemma ParallelExpectBytes(expected: Bytes, a: Session, b: Session, k: Common)
    requires a.Live() && b.Live() && Parallel(a, b, k)
    ensures Parallel(ExpectBytes(a, expected), ExpectBytes(b, expected), k)
  {
  }

  lemma ParallelDeliver(text: Bytes, a: Report, b: Report, w: World, k: Common)
    requires ParallelReports(a, b, k)
    ensures ParallelReports(Deliver(a, text, w), Deliver(b, text, w), k)
  {
    assert |a.sent| == |b.sent|;
    if text != [] && w.writeOk(|a.sent|) {
      SentSince(a.sent, k.x, text + [LF]);
      SentSince(b.sent, k.y, text + [LF]);
    }
  }

  lemma SentSince(sent: seq<Bytes>, x: seq<Bytes>, text: Bytes)
    requires x <= sent
    ensures x <= sent + [text] && (sent + [text])[|x|..] == sent[|x|..] + [text]
  {
  }

  lemma ParallelSendAndUpgrade(text: Bytes, startTLS: bool, a: Session, b: Session, w: World, k: Common)
    requires Parallel(a, b, k)
    ensures Parallel(SendAndUpgrade(a, text, startTLS, w), SendAndUpgrade(b, text, startTLS, w), k)
  {
    ParallelDeliver(text, a.report, b.report, w, k);
    var a', b' := a.(report := Deliver(a.report, text, w)), b.(report := Deliver(b.report, text, w));
    if a'.report.verdict.Running? && startTLS {
      ParallelStartTLS(a', b', w, k);
    }
  }

  lemma ParallelStartTLS(a: Session, b: Session, w: World, k: Common)
    requires Parallel(a, b, k)
    ensures Parallel(StartTLS(a, w), StartTLS(b, w), k)
  {
  }

  lemma ParallelStep(qr: QueryResponse, a: Session, b: Session, w: World, k: Common)
    requires a.Live() && b.Live() && Parallel(a, b, k)
    ensures Parallel(Step(a, qr, w), Step(b, qr, w), k)
  {
    ParallelExpect(qr, a, b, w, k);
    var (a1, send) := Expect(a, qr, w);
    var (b1, _) := Expect(b, qr, w);
    if a1.report.verdict.Running? {
      ParallelExpectBytes(qr.expectBytes, a1, b1, k);
      var a2, b2 := ExpectBytes(a1, qr.expectBytes), ExpectBytes(b1, qr.expectBytes);
      if a2.report.verdict.Running? {
        ParallelSendAndUpgrade(send, qr.startTLS, a2, b2, w, k);
      }
    }
  }

  lemma {:induction false} ParallelSteps(script: seq<QueryResponse>, a: Session, b: Session, w: World, k: Common)
    requires a.Live() && b.Live() && Parallel(a, b, k)
    ensures Parallel(Steps(script, a, w), Steps(script, b, w), k)
  {
    if script != [] {
      ParallelStep(script[0], a, b, w, k);
      var a', b' := Step(a, script[0], w), Step(b, script[0], w);
      if a'.report.verdict.Running? {
        ParallelSteps(script[1..], a', b', w, k);
      }
    }
  }

  lemma {:induction false} StepsConcat(pre: seq<QueryResponse>, post: seq<QueryResponse>, s: Session, w: World)
    requires s.Live()
    ensures var s' := Steps(pre, s, w);
            Steps(pre + post, s, w) == if s'.report.verdict.Running? then Steps(post, s', w) else s'
  {
    if pre == [] {
      assert pre + post == post;
    } else {
      assert (pre + post)[1..] == pre[1..] + post;
      var s1 := Step(s, pre[0], w);
      if s1.report.verdict.Running? {
        StepsConcat(pre[1..], post, s1, w);
      }
    }
  }

  function Compared(a: Report, b: Report): Common {
    Common(a.sent, b.sent, a.regexFailed == b.regexFailed && a.bytesFailed == b.bytesFailed)
  }

  /**
   No byte received before a TLS upgrade influences a later step: two dialogues that complete
   the same upgrade, having sent equally many texts and registered the same metrics, continue
   with the same verdict, texts and gauges, whatever plaintext (read or read ahead) came before.
   */
  lemma UpgradeForgetsPlaintext(
    pre: seq<QueryResponse>, up: QueryResponse, post: seq<QueryResponse>, s1: Session, s2: Session, w: World)
    requires s1.Live() && s2.Live() && up.startTLS
    requires var p1, p2 := Steps(pre + [up], s1, w), Steps(pre + [up], s2, w);
             && p1.report.verdict.Running? && p2.report.verdict.Running? && p1.upgrades == p2.upgrades
             && |p1.report.sent| == |p2.report.sent| && p1.report.info.Some? == p2.report.info.Some?
    ensures var p1, p2 := Steps(pre + [up], s1, w), Steps(pre + [up], s2, w);
            var o1, o2 := Run(pre + [up] + post, s1, w), Run(pre + [up] + post, s2, w);
            ParallelReports(o1, o2, Compared(p1.report, p2.report))
  {
    var p1, p2 := Steps(pre + [up], s1, w), Steps(pre + [up], s2, w);
    UpgradedState(pre, up, s1, w);
    UpgradedState(pre, up, s2, w);
    ParallelSteps(post, p1, p2, w, Compared(p1.report, p2.report));
    StepsConcat(pre + [up], post, s1, w);
    StepsConcat(pre + [up], post, s2, w);
  }

  /** A dialogue that is still running has not set a failure gauge, so the gauges of two runs agree. */
  lemma {:induction false} GaugesUnset(script: seq<QueryResponse>, s: Session, w: World)
    requires s.Live() && !s.report.regexFailed && !s.report.bytesFailed
    ensures var o := Steps(script, s, w).report; o.verdict.Running? ==> !o.regexFailed && !o.bytesFailed
  {
    if script != [] {
      var s' := Step(s, script[0], w);
      StepKeepsGauges(script[0], s, w);
      if s'.report.verdict.Running? {
        GaugesUnset(script[1..], s', w);
      }
    }
  }

  lemma StepKeepsGauges(qr: QueryResponse, s: Session, w: World)
    requires s.Live() && !s.report.regexFailed && !s.report.bytesFailed
    ensures var o := Step(s, qr, w).report; o.verdict.Running? ==> !o.regexFailed && !o.bytesFailed
  {
    var (s1, send) := Expect(s, qr, w);
    assert s1.report.verdict.Running? ==> !s1.report.regexFailed && !s1.report.bytesFailed;
    if s1.report.verdict.Running? {
      BytesKeepGauges(qr.expectBytes, s1);
      SendKeepsGauges(ExpectBytes(s1, qr.expectBytes), send, qr.startTLS, w);
    }
  }

  lemma BytesKeepGauges(expected: Bytes, s: Session)
    requires s.Live() && !s.report.regexFailed && !s.report.bytesFailed
    ensures var o := ExpectBytes(s, expected).report; o.verdict.Running? ==> !o.regexFailed && !o.bytesFailed
  {
  }

  lemma SendKeepsGauges(s: Session, send: Bytes, startTLS: bool, w: World)
    ensures var o := SendAndUpgrade(s, send, startTLS, w).report;
            o.regexFailed == s.report.regexFailed && o.bytesFailed == s.report.bytesFailed
  {
  }

  lemma UpgradedStep(up: QueryResponse, s: Session, w: World)
    requires s.Live() && up.startTLS && Step(s, up, w).report.verdict.Running?
    ensures var p := Step(s, up, w);
            && 0 < p.upgrades && p.conn == w.upgrade(p.upgrades - 1).conn
            && p.scanner == NEW_SCANNER && p.report.tlsMetrics
  {
    var (s1, send) := Expect(s, up, w);
    if s1.report.verdict.Running? {
      var s2 := ExpectBytes(s1, up.expectBytes);
      if s2.report.verdict.Running? {
        UpgradedSession(s2, send, w);
      }
    }
  }

  lemma UpgradedSession(s: Session, send: Bytes, w: World)
    requires s.report.verdict.Running? && SendAndUpgrade(s, send, true, w).report.verdict.Running?
    ensures var p := SendAndUpgrade(s, send, true, w);
            && 0 < p.upgrades && p.conn == w.upgrade(p.upgrades - 1).conn
            && p.scanner == NEW_SCANNER && p.report.tlsMetrics
  {
  }

  /** Right after an upgrade the connection and the scanner are those of the upgrade. */
  lemma UpgradedState(pre: seq<QueryResponse>, up: QueryResponse, s: Session, w: World)
    requires s.Live() && up.startTLS && Steps(pre + [up], s, w).report.verdict.Running?
    ensures var p := Steps(pre + [up], s, w);
            && 0 < p.upgrades && p.conn == w.upgrade(p.upgrades - 1).conn
            && p.scanner == NEW_SCANNER && p.report.tlsMetrics
  {
    StepsConcat(pre, [up], s, w);
    var q := Steps(pre, s, w);
    OneStep(up, q, w);
    UpgradedStep(up, q, w);
  }

  lemma OneStep(qr: QueryResponse, s: Session, w: World)
    requires s.Live()
    ensures Steps([qr], s, w) == Step(s, qr, w)
  {
    assert [qr][1..] == [];
  }

  // ----- expect_bytes -----

  /**
   expect_bytes examines the bytes that lie behind the read-ahead, in one read: it succeeds exactly
   if the next chunk covers them and they are the expected ones, and leaves the read-ahead spliced
   to what follows them.
   */
  lemma ExpectBytesExamines(s: Session, expected: Bytes)
    requires s.Live() && expected != []
    ensures var s' := ExpectBytes(s, expected);
            var skipped, u := |s.scanner.pending|, s.Rest();
            && (s'.report.verdict.Running? <==>
                  && s.conn.chunks != [] && |expected| <= |s.conn.chunks[0]|
                  && u[skipped..skipped + |expected|] == expected)
            && (s'.report.verdict.Running? ==> s'.Rest() == u[..skipped] + u[skipped + |expected|..])
  {
    var (conn, data) := Read(s.conn, |expected|);
    var u, skipped := s.Rest(), |s.scanner.pending|;
    assert u[skipped..] == Flatten(s.conn.chunks) == data + Flatten(conn.chunks);
    assert u[skipped..skipped + |data|] == data && u[skipped + |data|..] == Flatten(conn.chunks);
  }

  predicate NoExpect(script: seq<QueryResponse>) {
    forall i :: 0 <= i < |script| ==> script[i].pattern.None?
  }

  /** Without an expect on the current connection there is no read-ahead, so expect_bytes sees the next unread byte. */
  lemma {:induction false} NoReadAheadWithoutExpect(script: seq<QueryResponse>, s: Session, w: World)
    requires s.Live() && NoExpect(script) && s.scanner == NEW_SCANNER
    ensures Steps(script, s, w).scanner == NEW_SCANNER
  {
    if script != [] {
      var s' := Step(s, script[0], w);
      if s'.report.verdict.Running? {
        NoReadAheadWithoutExpect(script[1..], s', w);
      }
    }
  }

  /**
   Over whole runs: with no expect since the beginning or since the last upgrade, expect_bytes examines
   exactly the next unread bytes. It succeeds if and only if they are the expected ones and one chunk
   holds them all, and consumes just these.
   */
  lemma ExpectBytesSeesNext(
    pre: seq<QueryResponse>, mid: seq<QueryResponse>, expected: Bytes, conn: Conn, useTLS: bool, w: World)
    requires pre == [] || pre[|pre| - 1].startTLS
    requires NoExpect(mid) && expected != []
    requires Steps(pre + mid, Begin(conn, useTLS), w).report.verdict.Running?
    ensures var s := Steps(pre + mid, Begin(conn, useTLS), w);
            var s' := ExpectBytes(s, expected);
            && (s'.report.verdict.Running? <==>
                  expected <= s.Rest() && s.conn.chunks != [] && |expected| <= |s.conn.chunks[0]|)
            && (s'.report.verdict.Running? ==> s.Rest() == expected + s'.Rest())
  {
    var s0 := Begin(conn, useTLS);
    StepsConcat(pre, mid, s0, w);
    var p := Steps(pre, s0, w);
    if pre != [] {
      var n := |pre| - 1;
      assert pre == pre[..n] + [pre[n]];
      UpgradedState(pre[..n], pre[n], s0, w);
    }
    NoReadAheadWithoutExpect(mid, p, w);
    NextUnread(Steps(mid, p, w), expected);
  }

  lemma NextUnread(s: Session, expected: Bytes)
    requires s.Live() && s.scanner.pending == [] && expected != []
    ensures var s' := ExpectBytes(s, expected);
            && (s'.report.verdict.Running? <==>
                  expected <= s.Rest() && s.conn.chunks != [] && |expected| <= |s.conn.chunks[0]|)
            && (s'.report.verdict.Running? ==> s.Rest() == expected + s'.Rest())
  {
    ExpectBytesExamines(s, expected);
    var u, n := s.Rest(), |expected|;
    if n <= |u| {
      assert u[0..n] == u[..n] && u == u[..n] + u[n..];
    }
  }

  function Expected(script: seq<QueryResponse>): Bytes {
    if script == [] then [] else script[0].expectBytes + Expected(script[1..])
  }

  /** Where the `i`-th expected text begins in the stream. */
  function Offset(script: seq<QueryResponse>, i: nat): nat
    requires i <= |script|
  {
    if i == 0 then 0 else |script[0].expectBytes| + Offset(script[1..], i - 1)
  }

  /** How many texts a script without patterns sends. */
  function Sends(script: seq<QueryResponse>): nat {
    if script == [] then 0 else (if script[0].send == [] then 0 else 1) + Sends(script[1..])
  }

  predicate BytesOnly(script: seq<QueryResponse>) {
    NoExpect(script) && forall i :: 0 <= i < |script| ==> !script[i].startTLS
  }

  /** Each expected text comes out of one read. */
  predicate Aligned(script: seq<QueryResponse>, c: Conn) {
    script == [] ||
    if script[0].expectBytes == [] then Aligned(script[1..], c)
    else
      var (c', data) := Read(c, |script[0].expectBytes|);
      data == script[0].expectBytes && Aligned(script[1..], c')
  }

  ghost predicate WritesOk(w: World, from: nat, count: nat) {
    forall n :: from <= n < from + count ==> w.writeOk(n)
  }

  lemma {:induction false} BytesPassIffAligned(script: seq<QueryResponse>, s: Session, w: World)
    requires s.Live() && BytesOnly(script)
    ensures Run(script, s, w).verdict.Passed? <==>
              Aligned(script, s.conn) && WritesOk(w, |s.report.sent|, Sends(script))
  {
    if script != [] {
      var s' := RunBytes(script, s, w);
      if s'.report.verdict.Running? {
        BytesPassIffAligned(script[1..], s', w);
      }
    }
  }

  /** One step of such a run: it goes on exactly if the read brings the text and the write succeeds. */
  lemma RunBytes(script: seq<QueryResponse>, s: Session, w: World) returns (s': Session)
    requires s.Live() && BytesOnly(script) && script != []
    ensures var expected, send, sent := script[0].expectBytes, script[0].send, s.report.sent;
            && (s'.report.verdict.Running? <==>
                  && (expected == [] || Read(s.conn, |expected|).1 == expected)
                  && (send == [] || w.writeOk(|sent|)))
            && if s'.report.verdict.Running?
               then
                 && s'.Live() && Run(script, s, w) == Run(script[1..], s', w)
                 && s'.conn == (if expected == [] then s.conn else Read(s.conn, |expected|).0)
                 && |s'.report.sent| == |sent| + (if send == [] then 0 else 1)
               else !Run(script, s, w).verdict.Passed?
  {
    s' := Step(s, script[0], w);
  }

  /** Some chunk ends at byte `b` of the stream. */
  predicate Boundary(chunks: seq<Chunk>, b: nat) {
    b == 0 || (chunks != [] && |chunks[0]| <= b && Boundary(chunks[1..], b - |chunks[0]|))
  }

  /** No chunk ends within a text. */
  ghost predicate Uncrossed(script: seq<QueryResponse>, chunks: seq<Chunk>) {
    forall i, b :: 0 <= i < |script| && Offset(script, i) < b < Offset(script, i + 1) ==> !Boundary(chunks, b)
  }

  /** Reading within the first chunk moves the boundaries. */
  lemma ReadMovesBoundaries(c: Conn, n: nat, b: nat)
    requires c.chunks != [] && 0 < n <= |c.chunks[0]| && n < b
    ensures Boundary(c.chunks, b) <==> Boundary(Read(c, n).0.chunks, b - n)
  {
    var first := c.chunks[0];
    if n < |first| {
      assert Read(c, n).0.chunks[1..] == c.chunks[1..];
    }
  }

  lemma UncrossedStep(script: seq<QueryResponse>, c: Conn)
    requires script != [] && c.chunks != [] && 0 < |script[0].expectBytes| <= |c.chunks[0]|
    ensures Uncrossed(script, c.chunks) <==> Uncrossed(script[1..], Read(c, |script[0].expectBytes|).0.chunks)
  {
    var n, rest := |script[0].expectBytes|, script[1..];
    var c' := Read(c, n).0;
    if Uncrossed(script, c.chunks) {
      forall i, b | 0 <= i < |rest| && Offset(rest, i) < b < Offset(rest, i + 1) ensures !Boundary(c'.chunks, b) {
        assert Offset(script, i + 1) == n + Offset(rest, i) && Offset(script, i + 2) == n + Offset(rest, i + 1);
        ReadMovesBoundaries(c, n, n + b);
      }
    }
    if Uncrossed(rest, c'.chunks) {
      forall i, b | 0 <= i < |script| && Offset(script, i) < b < Offset(script, i + 1)
        ensures !Boundary(c.chunks, b)
      {
        if 0 < i {
          assert Offset(script, i) == n + Offset(rest, i - 1) && Offset(script, i + 1) == n + Offset(rest, i);
          ReadMovesBoundaries(c, n, b);
        }
      }
    }
  }

  lemma UncrossedSkip(script: seq<QueryResponse>, chunks: seq<Chunk>)
    requires script != [] && script[0].expectBytes == []
    ensures Uncrossed(script, chunks) <==> Uncrossed(script[1..], chunks)
  {
    var rest := script[1..];
    if Uncrossed(script, chunks) {
      forall i, b | 0 <= i < |rest| && Offset(rest, i) < b < Offset(rest, i + 1) ensures !Boundary(chunks, b) {
        assert Offset(script, i + 1) == Offset(rest, i) && Offset(script, i + 2) == Offset(rest, i + 1);
      }
    }
    if Uncrossed(rest, chunks) {
      forall i, b | 0 <= i < |script| && Offset(script, i) < b < Offset(script, i + 1) ensures !Boundary(chunks, b) {
        assert Offset(script, i + 1) == Offset(rest, i) && (0 < i ==> Offset(script, i) == Offset(rest, i - 1));
      }
    }
  }

  /** The reads succeed exactly if the stream begins with the expected texts and no chunk ends within one. */
  lemma {:induction false} AlignedIff(script: seq<QueryResponse>, c: Conn)
    ensures Aligned(script, c) <==> Expected(script) <= Flatten(c.chunks) && Uncrossed(script, c.chunks)
  {
    if script != [] {
      var first, more, u := script[0].expectBytes, Expected(script[1..]), Flatten(c.chunks);
      if first == [] {
        assert Expected(script) == more;
        UncrossedSkip(script, c.chunks);
        AlignedIff(script[1..], c);
      } else if c.chunks != [] && |c.chunks[0]| < |first| {
        assert Offset(script, 0) < |c.chunks[0]| < Offset(script, 0 + 1) && Boundary(c.chunks, |c.chunks[0]|);
      } else if c.chunks != [] {
        var (c', data) := Read(c, |first|);
        assert data == u[..|first|] && Flatten(c'.chunks) == u[|first|..];
        UncrossedStep(script, c);
        AlignedIff(script[1..], c');
        assert first + more <= u <==> first == u[..|first|] && more <= u[|first|..];
      }
    }
  }

  lemma {:induction false} OffsetWithin(script: seq<QueryResponse>, i: nat)
    requires i <= |script|
    ensures Offset(script, i) <= |Expected(script)|
  {
    if 0 < i {
      OffsetWithin(script[1..], i - 1);
    }
  }

  /** If one chunk holds all that is expected, only the stream matters. */
  lemma AlignedInOneChunk(script: seq<QueryResponse>, c: Conn)
    requires c.chunks != [] && |Expected(script)| <= |c.chunks[0]|
    ensures Aligned(script, c) <==> Expected(script) <= Flatten(c.chunks)
  {
    AlignedIff(script, c);
    forall i, b | 0 <= i < |script| && Offset(script, i) < b < Offset(script, i + 1) ensures !Boundary(c.chunks, b) {
      OffsetWithin(script, i + 1);
    }
  }

  /**
   A script of expect_bytes and send entries passes exactly if the stream begins with the expected
   texts, no chunk ends within one of them, and all its writes succeed.
   */
  lemma BytesPassIff(script: seq<QueryResponse>, conn: Conn, useTLS: bool, w: World)
    requires BytesOnly(script)
    ensures Run(script, Begin(conn, useTLS), w).verdict.Passed? <==>
              && Expected(script) <= Flatten(conn.chunks) && Uncrossed(script, conn.chunks)
              && WritesOk(w, 0, Sends(script))
  {
    BytesPassIffAligned(script, Begin(conn, useTLS), w);
    AlignedIff(script, conn);
  }

  // ----- what the read-ahead costs -----

  lemma {:induction false} ScanKeepsDrained(s: Scanner, c: Conn)
    requires s.Ok() && c.chunks == []
    ensures Scan(s, c).1.chunks == []
    decreases s.err.None?
  {
    if LineEnd(s.pending) == |s.pending| && s.err.None? && !s.MakeRoom().Full() {
      ScanKeepsDrained(Refill(s.MakeRoom(), c).0, c);
    }
  }

  lemma {:induction false} SkipToKeepsDrained(s: Scanner, c: Conn, re: Regexp)
    requires s.Ok() && c.chunks == []
    ensures SkipTo(s, c, re).1.chunks == []
    decreases |Unread(s, c)|
  {
    ScanKeepsDrained(s, c);
    var (s', c', line) := Scan(s, c);
    if line.Some? && re.find(line.value).None? {
      SkipToKeepsDrained(s', c', re);
    }
  }

  /** Nothing is left to read, or one small chunk that the scanner has not begun to read. */
  predicate OneChunk(s: Session) {
    || s.conn.chunks == []
    || (|s.conn.chunks| == 1 && |s.conn.chunks[0]| <= START_BUFFER && s.scanner == NEW_SCANNER)
  }

  /** The first scan takes a small chunk whole. */
  lemma FirstScanDrains(c: Conn)
    requires |c.chunks| == 1 && |c.chunks[0]| <= START_BUFFER
    ensures Scan(NEW_SCANNER, c).1.chunks == []
  {
    assert c.chunks[1..] == [];
    var room := NEW_SCANNER.MakeRoom();
    var (s', c') := Refill(room, c);
    assert c'.chunks == [];
    ScanKeepsDrained(s', c');
  }

  lemma ExpectDrains(qr: QueryResponse, s: Session, w: World)
    requires s.Live() && OneChunk(s) && qr.pattern.Some?
    ensures Expect(s, qr, w).0.conn.chunks == []
  {
    if s.conn.chunks == [] {
      SkipToKeepsDrained(s.scanner, s.conn, qr.pattern.value);
    } else {
      FirstSkipDrains(s.conn, qr.pattern.value);
    }
  }

  lemma FirstSkipDrains(c: Conn, re: Regexp)
    requires |c.chunks| == 1 && |c.chunks[0]| <= START_BUFFER
    ensures SkipTo(NEW_SCANNER, c, re).1.chunks == []
  {
    FirstScanDrains(c);
    var (s', c', line) := Scan(NEW_SCANNER, c);
    if line.Some? && re.find(line.value).None? {
      SkipToKeepsDrained(s', c', re);
    }
  }

  lemma BytesKeepOneChunk(expected: Bytes, s: Session)
    requires s.Live() && OneChunk(s)
    ensures var s' := ExpectBytes(s, expected);
            s'.report.verdict.Running? ==> OneChunk(s') && (s.conn.chunks == [] ==> s' == s && expected == [])
  {
    if expected != [] && s.conn.chunks != [] {
      assert s.conn.chunks[1..] == [];
    }
  }

  /** A step keeps the single chunk, or drains it; once it is drained no expect_bytes succeeds. */
  lemma StepDrains(qr: QueryResponse, s: Session, w: World)
    requires s.Live() && OneChunk(s) && !qr.startTLS
    ensures var s' := Step(s, qr, w);
            s'.report.verdict.Running? ==>
              && OneChunk(s')
              && (s.conn.chunks == [] || qr.pattern.Some? ==> s'.conn.chunks == [] && qr.expectBytes == [])
  {
    if qr.pattern.Some? {
      ExpectDrains(qr, s, w);
    }
    var (s1, _) := Expect(s, qr, w);
    if s1.report.verdict.Running? {
      BytesKeepOneChunk(qr.expectBytes, s1);
    }
  }

  predicate NoUpgrade(script: seq<QueryResponse>) {
    forall i :: 0 <= i < |script| ==> !script[i].startTLS
  }

  /** One step of a run on a single chunk. */
  lemma RunDrains(script: seq<QueryResponse>, s: Session, w: World) returns (s': Session)
    requires s.Live() && OneChunk(s) && NoUpgrade(script) && script != []
    ensures if s'.report.verdict.Running?
            then
              && s'.Live() && OneChunk(s') && Run(script, s, w) == Run(script[1..], s', w)
              && (s.conn.chunks == [] || script[0].pattern.Some? ==>
                    s'.conn.chunks == [] && script[0].expectBytes == [])
            else !Run(script, s, w).verdict.Passed?
  {
    s' := Step(s, script[0], w);
    StepDrains(script[0], s, w);
  }

  lemma {:induction false} DrainedStarves(script: seq<QueryResponse>, at: nat, s: Session, w: World)
    requires s.Live() && s.conn.chunks == [] && NoUpgrade(script)
    requires at < |script| && script[at].expectBytes != []
    ensures !Run(script, s, w).verdict.Passed?
  {
    var s' := RunDrains(script, s, w);
    if s'.report.verdict.Running? {
      DrainedStarves(script[1..], at - 1, s', w);
    }
  }

  /**
   If everything the peer sends arrives in one chunk of at most 4096 bytes, a script with an expect
   entry never gets past an expect_bytes at or after it, whatever the bytes are: the scanner has
   taken them all.
   */
  lemma {:induction false} ExpectStarvesExpectBytes(
    script: seq<QueryResponse>, k: nat, at: nat, s: Session, w: World)
    requires s.Live() && OneChunk(s) && NoUpgrade(script)
    requires k <= at < |script| && script[k].pattern.Some? && script[at].expectBytes != []
    ensures !Run(script, s, w).verdict.Passed?
  {
    if k == 0 {
      FirstExpectStarves(script, at, s, w);
    } else {
      var s' := RunDrains(script, s, w);
      if s'.report.verdict.Running? {
        assert script[1..][k - 1] == script[k] && script[1..][at - 1] == script[at];
        ExpectStarvesExpectBytes(script[1..], k - 1, at - 1, s', w);
      }
    }
  }

  lemma FirstExpectStarves(script: seq<QueryResponse>, at: nat, s: Session, w: World)
    requires s.Live() && OneChunk(s) && NoUpgrade(script)
    requires at < |script| && script[0].pattern.Some? && script[at].expectBytes != []
    ensures !Run(script, s, w).verdict.Passed?
  {
    var s' := RunDrains(script, s, w);
    if s'.report.verdict.Running? {
      DrainedStarves(script[1..], at - 1, s', w);
    }
  }

  /**
   The bound is exact, and so is what a longer chunk leaves: if its first line matches, expect_bytes sees
   the bytes behind the buffer that was needed for that line.
   */
  lemma {:induction false} LongerChunkPasses(
    first: QueryResponse, second: QueryResponse, chunk: Chunk, ending: Ending, useTLS: bool, w: World, i: nat, n: nat)
    requires i == LineEnd(chunk) < MAX_TOKEN && n == BufferFor(i, START_BUFFER) < |chunk|
    requires first.pattern.Some? && first.pattern.value.find(DropCR(chunk[..i])).Some? && first.labels.None?
    requires first.expectBytes == [] && !first.startTLS
    requires second.pattern.None? && second.expectBytes == chunk[n..] && !second.startTLS
    requires forall k :: w.writeOk(k)
    ensures Run([first, second], Begin(Conn([chunk], ending), useTLS), w).verdict.Passed?
  {
    var s := Begin(Conn([chunk], ending), useTLS);
    FirstScanTakes(chunk, ending, i, n);
    var s1 := MatchingStep(first, s, DropCR(chunk[..i]), Conn([chunk[n..]], ending), w);
    LastTextStep(second, s1, w);
    TwoSteps(first, second, s, s1, w);
  }

  lemma TwoSteps(a: QueryResponse, b: QueryResponse, s: Session, s': Session, w: World)
    requires s.Live() && s' == Step(s, a, w) && s'.Live() && Step(s', b, w).report.verdict.Running?
    ensures Run([a, b], s, w).verdict.Passed?
  {
    assert [a, b][1..] == [b];
    OneStep(b, s', w);
  }

  /** An expect entry whose first line matches. */
  lemma MatchingStep(qr: QueryResponse, s: Session, line: Bytes, left: Conn, w: World) returns (s': Session)
    requires s.Live() && qr.pattern.Some? && qr.labels.None? && qr.expectBytes == [] && !qr.startTLS
    requires var r := Scan(s.scanner, s.conn); r.0.err.None? && r.1 == left && r.2 == Some(line)
    requires qr.pattern.value.find(line).Some? && forall n :: w.writeOk(n)
    ensures s' == Step(s, qr, w) && s'.Live() && s'.conn == left
  {
    s' := Step(s, qr, w);
  }

  /** An expect_bytes entry for which exactly the expected bytes are left. */
  lemma LastTextStep(qr: QueryResponse, s: Session, w: World)
    requires s.Live() && qr.pattern.None? && qr.expectBytes != [] && !qr.startTLS
    requires s.conn.chunks == [qr.expectBytes] && forall n :: w.writeOk(n)
    ensures Step(s, qr, w).report.verdict.Running?
  {
  }

  /** The buffer that holds a line of `i` bytes and its end: the given one, doubled as often as it takes. */
  function BufferFor(i: nat, size: nat): (n: nat)
    requires 0 < size <= MAX_TOKEN
    ensures size <= n <= MAX_TOKEN
    decreases MAX_TOKEN - size
  {
    if i < size || size == MAX_TOKEN then size
    else BufferFor(i, if 2 * size < MAX_TOKEN then 2 * size else MAX_TOKEN)
  }

  /** Scanning one large chunk, of which the buffer already holds the beginning. */
  lemma {:induction false} ScanTakes(chunk: Bytes, ending: Ending, size: nat, i: nat, s: Scanner, c: Conn)
    requires 0 < size <= MAX_TOKEN && i == LineEnd(chunk) < MAX_TOKEN && BufferFor(i, size) < |chunk|
    requires s == Scanner(chunk[..size], 0, size, None) && c == Conn([chunk[size..]], ending)
    ensures var r := Scan(s, c);
            && r.0.err.None? && r.1 == Conn([chunk[BufferFor(i, size)..]], ending)
            && r.2 == Some(DropCR(chunk[..i]))
    decreases MAX_TOKEN - size
  {
    assert chunk == chunk[..size] + chunk[size..];
    LineEndConcat(chunk[..size], chunk[size..]);
    if i < size {
      assert LineEnd(s.pending) == i && s.pending[..i] == chunk[..i];
    } else {
      var doubled := if 2 * size < MAX_TOKEN then 2 * size else MAX_TOKEN;
      var (s', c') := Refill(s.MakeRoom(), c);
      RefillTakes(chunk, ending, size, doubled, s', c');
      ScanTakes(chunk, ending, doubled, i, s', c');
    }
  }

  lemma RefillTakes(chunk: Bytes, ending: Ending, size: nat, next: nat, s': Scanner, c': Conn)
    requires size < next <= MAX_TOKEN && next < |chunk|
    requires (s', c') == Refill(Scanner(chunk[..size], 0, next, None), Conn([chunk[size..]], ending))
    ensures s' == Scanner(chunk[..next], 0, next, None) && c' == Conn([chunk[next..]], ending)
  {
    assert [chunk[size..]][1..] == [] && chunk[size..][next - size..] == chunk[next..];
    assert chunk[..size] + chunk[size..][..next - size] == chunk[..next];
  }

  lemma {:induction false} FirstScanTakes(chunk: Chunk, ending: Ending, i: nat, n: nat)
    requires i == LineEnd(chunk) < MAX_TOKEN && n == BufferFor(i, START_BUFFER) < |chunk|
    ensures var r := Scan(NEW_SCANNER, Conn([chunk], ending));
            r.0.err.None? && r.1 == Conn([chunk[n..]], ending) && r.2 == Some(DropCR(chunk[..i]))
  {
    var c := Conn([chunk], ending);
    assert chunk[0..] == chunk && chunk[..0] == [];
    var (s', c') := Refill(NEW_SCANNER.MakeRoom(), c);
    RefillTakes(chunk, ending, 0, START_BUFFER, s', c');
    ScanTakes(chunk, ending, START_BUFFER, i, s', c');
  }

  // ----- when upgrades succeed -----

  function Upgrading(script: seq<QueryResponse>): nat {
    if script == [] then 0 else (if script[0].startTLS then 1 else 0) + Upgrading(script[1..])
  }

  /** The upgrades from `from` on find their configuration and complete their handshake. */
  ghost predicate UpgradesOk(w: World, from: nat, count: nat) {
    forall n :: from <= n < from + count ==> w.upgrade(n).configOk && w.upgrade(n).handshakeOk
  }

  function Metrics(o: Report): nat { if o.tlsMetrics then 1 else 0 }

  lemma SendUpgrades(s: Session, send: Bytes, startTLS: bool, w: World)
    requires s.report.verdict.Running?
    ensures var s' := SendAndUpgrade(s, send, startTLS, w);
            s'.report.verdict.Running? ==>
              && s'.upgrades == s.upgrades + (if startTLS then 1 else 0)
              && Metrics(s'.report) == Metrics(s.report) + (if startTLS then 1 else 0)
              && UpgradesOk(w, s.upgrades, if startTLS then 1 else 0)
  {
  }

  /** An entry that goes on has upgraded exactly if it should, for the first time, and successfully. */
  lemma StepUpgrades(qr: QueryResponse, s: Session, w: World)
    requires s.Live()
    ensures var s' := Step(s, qr, w);
            s'.report.verdict.Running? ==>
              && s'.upgrades == s.upgrades + (if qr.startTLS then 1 else 0)
              && Metrics(s'.report) == Metrics(s.report) + (if qr.startTLS then 1 else 0)
              && UpgradesOk(w, s.upgrades, if qr.startTLS then 1 else 0)
  {
    var (s1, send) := Expect(s, qr, w);
    assert s1.upgrades == s.upgrades && s1.report.tlsMetrics == s.report.tlsMetrics;
    if s1.report.verdict.Running? {
      var s2 := ExpectBytes(s1, qr.expectBytes);
      assert s2.upgrades == s.upgrades && s2.report.tlsMetrics == s.report.tlsMetrics;
      if s2.report.verdict.Running? {
        SendUpgrades(s2, send, qr.startTLS, w);
      }
    }
  }

  /**
   Whatever else a script does, it passes only if it upgrades at most once, never on a connection that
   began with TLS, and that upgrade has a configuration and completes its handshake.
   */
  lemma {:induction false} PassedUpgrades(script: seq<QueryResponse>, s: Session, w: World)
    requires s.Live() && Run(script, s, w).verdict.Passed?
    ensures Upgrading(script) + Metrics(s.report) <= 1 && UpgradesOk(w, s.upgrades, Upgrading(script))
  {
    if script != [] {
      var s' := RunUpgrades(script, s, w);
      PassedUpgrades(script[1..], s', w);
    }
  }

  lemma RunUpgrades(script: seq<QueryResponse>, s: Session, w: World) returns (s': Session)
    requires s.Live() && script != [] && Run(script, s, w).verdict.Passed?
    ensures var one := if script[0].startTLS then 1 else 0;
            && s'.Live() && Run(script[1..], s', w).verdict.Passed?
            && s'.upgrades == s.upgrades + one && Metrics(s'.report) == Metrics(s.report) + one
            && UpgradesOk(w, s.upgrades, one)
  {
    s' := Step(s, script[0], w);
    StepUpgrades(script[0], s, w);
  }

  /** Scripts that only send and upgrade. */
  predicate SendsOnly(script: seq<QueryResponse>) {
    NoExpect(script) && forall i :: 0 <= i < |script| ==> script[i].expectBytes == []
  }

  /** One step of such a run: it goes on exactly if its write and its upgrade succeed. */
  lemma RunSends(script: seq<QueryResponse>, s: Session, w: World) returns (s': Session)
    requires s.Live() && SendsOnly(script) && script != []
    ensures var send, one := script[0].send, if script[0].startTLS then 1 else 0;
            && (s'.report.verdict.Running? <==>
                  && (send == [] || w.writeOk(|s.report.sent|))
                  && UpgradesOk(w, s.upgrades, one) && Metrics(s.report) + one <= 1)
            && if s'.report.verdict.Running?
               then
                 && s'.Live() && Run(script, s, w) == Run(script[1..], s', w)
                 && |s'.report.sent| == |s.report.sent| + (if send == [] then 0 else 1)
                 && s'.upgrades == s.upgrades + one && Metrics(s'.report) == Metrics(s.report) + one
               else !Run(script, s, w).verdict.Passed?
  {
    s' := Step(s, script[0], w);
    assert script[0].startTLS ==>
        (UpgradesOk(w, s.upgrades, 1) <==> w.upgrade(s.upgrades).configOk && w.upgrade(s.upgrades).handshakeOk);
  }

  /** Such a script passes exactly if its writes succeed, it upgrades at most once, and that upgrade succeeds. */
  lemma {:induction false} SendsPassIff(script: seq<QueryResponse>, s: Session, w: World)
    requires s.Live() && SendsOnly(script)
    ensures Run(script, s, w).verdict.Passed? <==>
              && WritesOk(w, |s.report.sent|, Sends(script))
              && (Upgrading(script) == 0 || Upgrading(script) + Metrics(s.report) <= 1)
              && UpgradesOk(w, s.upgrades, Upgrading(script))
  {
    if script != [] {
      var s' := RunSends(script, s, w);
      if s'.report.verdict.Running? {
        SendsPassIff(script[1..], s', w);
      }
    }
  }

  /**
   From the beginning of a probe: without an upgrade only the writes matter; with one, the connection must
   be plain and the upgrade must have its configuration and complete its handshake; two never pass.
   */
  lemma UpgradePassesIff(script: seq<QueryResponse>, conn: Conn, useTLS: bool, w: World)
    requires SendsOnly(script)
    ensures Run(script, Begin(conn, useTLS), w).verdict.Passed? <==>
              && WritesOk(w, 0, Sends(script))
              && (|| Upgrading(script) == 0
                  || (Upgrading(script) == 1 && !useTLS && w.upgrade(0).configOk && w.upgrade(0).handshakeOk))
  {
    SendsPassIff(script, Begin(conn, useTLS), w);
    assert UpgradesOk(w, 0, 1) <==> w.upgrade(0).configOk && w.upgrade(0).handshakeOk;
  }

  // ----- metric registration -----

  /** At most one labelled and one upgrading entry, counting registrations before. */
  predicate RegistersOnce(script: seq<QueryResponse>, o: Report) {
    && Labelled(script) + (if o.info.Some? then 1 else 0) <= 1
    && Upgrading(script) + (if o.tlsMetrics then 1 else 0) <= 1
  }

  /** Then no metric is registered twice. */
  lemma {:induction false} NeverRegistersTwice(script: seq<QueryResponse>, s: Session, w: World)
    requires s.Live() && RegistersOnce(script, s.report)
    ensures !Run(script, s, Trusting(w)).verdict.Panicked?
  {
    if script != [] {
      StepRegisters(script[0], s, w);
      var s' := Step(s, script[0], Trusting(w));
      if s'.report.verdict.Running? {
        NeverRegistersTwice(script[1..], s', w);
      }
    }
  }

  /** Such a run panics exactly if the registry refuses the labels that it expands. */
  lemma PanicsIff(script: seq<QueryResponse>, s: Session, w: World)
    requires s.Live() && RegistersOnce(script, s.report)
    ensures Run(script, s, w).verdict.Panicked? <==> Refused(s.report, Run(script, s, Trusting(w)), w)
  {
    NeverRegistersTwice(script, s, w);
    RegistryDecides(script, s, w);
  }

  /** What one entry registers, when nothing is registered twice or refused. */
  lemma StepRegisters(qr: QueryResponse, s: Session, w: World)
    requires s.Live()
    requires qr.pattern.Some? && qr.labels.Some? ==> s.report.info.None?
    requires qr.startTLS ==> !s.report.tlsMetrics
    ensures var o := Step(s, qr, Trusting(w)).report;
            && !o.verdict.Panicked?
            && (o.info.Some? ==> s.report.info.Some? || (qr.pattern.Some? && qr.labels.Some?))
            && (o.tlsMetrics ==> s.report.tlsMetrics || qr.startTLS)
  {
    ExpectRegisters(qr, s, w);
    var (s1, send) := Expect(s, qr, Trusting(w));
    if s1.report.verdict.Running? {
      BytesRegisterNothing(qr.expectBytes, s1);
      var s2 := ExpectBytes(s1, qr.expectBytes);
      if s2.report.verdict.Running? {
        UpgradeRegisters(s2, send, qr.startTLS, Trusting(w));
      }
    }
  }

  lemma ExpectRegisters(qr: QueryResponse, s: Session, w: World)
    requires s.Live()
    requires qr.pattern.Some? && qr.labels.Some? ==> s.report.info.None?
    ensures var o := Expect(s, qr, Trusting(w)).0.report;
            && !o.verdict.Panicked? && o.tlsMetrics == s.report.tlsMetrics
            && (o.info.Some? ==> s.report.info.Some? || (qr.pattern.Some? && qr.labels.Some?))
  {
  }

  lemma BytesRegisterNothing(expected: Bytes, s: Session)
    requires s.Live()
    ensures var o := ExpectBytes(s, expected).report;
            !o.verdict.Panicked? && o.tlsMetrics == s.report.tlsMetrics && o.info == s.report.info
  {
  }

  lemma UpgradeRegisters(s: Session, send: Bytes, startTLS: bool, w: World)
    requires s.report.verdict.Running? && (startTLS ==> !s.report.tlsMetrics)
    ensures var o := SendAndUpgrade(s, send, startTLS, w).report;
            !o.verdict.Panicked? && o.info == s.report.info && (o.tlsMetrics ==> s.report.tlsMetrics || startTLS)
  {
  }
}
