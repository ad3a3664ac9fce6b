/**
 The GOST TLS backend: when it is tried, what its dialer opens, closes and reports, and what
 happens to the request body and to the TLS state on the way.
 */
module GostFallback {
  import opened Wrappers
  import opened HttpTrace

  // ----- when GOST is tried -----

  /** A round-trip error: whether it wraps a certificate verification error, and its text. */
  datatype Error = Error(certificate: bool, text: string)

  const MARKERS := [
    "unsupported protocol", "protocol version not supported", "unsupported versions",
    "unconfigured cipher suite", "no cipher suite supported", "handshake failure", "illegal parameter"]

  function LowerChar(c: char): char { if 'A' <= c <= 'Z' then c - 'A' + 'a' else c }

  function Lower(s: string): string {
    seq(|s|, i requires 0 <= i < |s| => LowerChar(s[i]))
  }

  predicate Contains(s: string, m: string) {
    m <= s || (s != [] && Contains(s[1..], m))
  }

  predicate ShouldTryGOST(e: Error) {
    !e.certificate && exists k :: 0 <= k < |MARKERS| && Contains(Lower(e.text), MARKERS[k])
  }

  /** shouldTryGOST: look for the markers one after the other. */
  method ClassifyError(e: Error) returns (retry: bool)
    ensures retry == ShouldTryGOST(e)
  {
    if e.certificate {
      return false;
    }
    for k := 0 to |MARKERS|
      invariant forall j :: 0 <= j < k ==> !Contains(Lower(e.text), MARKERS[j])
    {
      if Contains(Lower(e.text), MARKERS[k]) {
        return true;
      }
    }
    return false;
  }

  /** The same letter in either case; `d` itself is not upper-case. */
  predicate SameLetter(c: char, d: char) {
    c == d || ('A' <= c <= 'Z' && c as int + 32 == d as int)
  }

  /** The marker stands at position `i` of the text, in any letter case. */
  predicate StandsAt(m: string, text: string, i: nat) {
    i + |m| <= |text| && forall j :: 0 <= j < |m| ==> SameLetter(text[i + j], m[j])
  }

  predicate LowerCase(m: string) {
    forall j :: 0 <= j < |m| ==> !('A' <= m[j] <= 'Z')
  }

  lemma MarkersLowerCase(k: nat)
    requires k < |MARKERS|
    ensures LowerCase(MARKERS[k])
  {
  }

  lemma {:induction false} ContainsIff(s: string, m: string)
    ensures Contains(s, m) <==> exists i :: 0 <= i <= |s| && m <= s[i..]
  {
    if m <= s {
      assert s[0..] == s;
    } else if s != [] {
      ContainsIff(s[1..], m);
      if Contains(s[1..], m) {
        var i :| 0 <= i <= |s[1..]| && m <= s[1..][i..];
        assert s[i + 1..] == s[1..][i..];
      }
      forall i | 0 <= i <= |s| && m <= s[i..] ensures Contains(s[1..], m) {
        assert i != 0 by { assert s[0..] == s; }
        assert s[1..][i - 1..] == s[i..];
      }
    }
  }

  lemma PrefixOfLower(text: string, m: string, i: nat)
    requires LowerCase(m) && i <= |text|
    ensures m <= Lower(text)[i..] <==> StandsAt(m, text, i)
  {
    var t := Lower(text)[i..];
    if StandsAt(m, text, i) {
      forall j | 0 <= j < |m| ensures t[j] == m[j] {
        assert SameLetter(text[i + j], m[j]);
      }
    }
    if m <= t {
      forall j | 0 <= j < |m| ensures SameLetter(text[i + j], m[j]) {
        assert t[j] == m[j] == LowerChar(text[i + j]);
      }
    }
  }

  lemma LowerContainsIff(text: string, m: string)
    requires LowerCase(m)
    ensures Contains(Lower(text), m) <==> exists i :: StandsAt(m, text, i)
  {
    ContainsIff(Lower(text), m);
    forall i: nat | i <= |text| ensures m <= Lower(text)[i..] <==> StandsAt(m, text, i) {
      PrefixOfLower(text, m, i);
    }
  }

  /** GOST is tried exactly if it is no certificate error and a marker stands in the text, in any letter case. */
  lemma TriedIff(e: Error)
    ensures ShouldTryGOST(e) <==> !e.certificate && exists k, i :: 0 <= k < |MARKERS| && StandsAt(MARKERS[k], e.text, i)
  {
    forall k | 0 <= k < |MARKERS|
      ensures Contains(Lower(e.text), MARKERS[k]) <==> exists i :: StandsAt(MARKERS[k], e.text, i)
    {
      MarkersLowerCase(k);
      LowerContainsIff(e.text, MARKERS[k]);
    }
  }

  lemma {:induction false} ContainsWithin(pre: string, s: string, post: string, m: string)
    requires Contains(s, m)
    ensures Contains(pre + s + post, m)
  {
    if pre != [] {
      ContainsWithin(pre[1..], s, post, m);
      assert (pre + s + post)[1..] == pre[1..] + s + post;
    } else if m <= s {
      assert pre + s + post == s + post;
    } else {
      ContainsWithin(pre, s[1..], post, m);
      assert (pre + s + post)[1..] == pre + s[1..] + post;
    }
  }

  lemma LowerWithin(pre: string, s: string, post: string)
    ensures Lower(pre + s + post) == Lower(pre) + Lower(s) + Lower(post)
  {
  }

  /** Wrapping an error in more text, as callers do, never changes that GOST is tried. */
  lemma WrappedErrorStillTried(e: Error, pre: string, post: string)
    requires ShouldTryGOST(e)
    ensures ShouldTryGOST(e.(text := pre + e.text + post))
  {
    var k :| 0 <= k < |MARKERS| && Contains(Lower(e.text), MARKERS[k]);
    var m := MARKERS[k];
    calc ==> {
      Contains(Lower(e.text), m);
      { ContainsWithin(Lower(pre), Lower(e.text), Lower(post), m); }
      Contains(Lower(pre) + Lower(e.text) + Lower(post), m);
      { LowerWithin(pre, e.text, post); }
      Contains(Lower(pre + e.text + post), m);
    }
  }

  // ----- the dialer -----

  /** A foreign resource: whether it was opened and how often it was closed. */
  datatype Handle = Handle(acquired: bool, closes: nat) {
    predicate Held() { acquired && closes == 0 }

    predicate Released() { closes == if acquired then 1 else 0 }
  }

  const UNOPENED := Handle(false, 0)
  const OPENED := Handle(true, 0)

  function Closed(h: Handle): Handle { h.(closes := h.closes + 1) }

  /** How each foreign call goes. */
  datatype DialOutcome = DialOutcome(
    connects: bool, contextCreated: bool, contextOk: bool, clientOk: bool,
    needsServerName: bool, serverNameOk: bool, handshakeOk: bool, hostnameOk: bool)

  /** What the operating system's dialer reports on its own: at most one resolution, then connection attempts. */
  predicate NetHooks(hs: seq<Hook>) {
    var attempts := if |hs| >= 2 && hs[0].DNSStart? then hs[2..] else hs;
    && (|hs| >= 2 && hs[0].DNSStart? ==> hs[1].DNSDone?)
    && forall i :: 0 <= i < |attempts| ==> attempts[i].ConnectStart? || attempts[i].ConnectDone?
  }

  /**
   newGOSTTLSDialer: on success the connection owns the socket, the context and the TLS session;
   on every failure each of them that was opened has been closed exactly once.
   */
  method DialTLS(o: DialOutcome, net: seq<Hook>)
    returns (ok: bool, raw: Handle, ctx: Handle, conn: Handle, hooks: seq<Hook>)
    ensures ok ==> raw.Held() && ctx.Held() && conn.Held()
    ensures !ok ==> raw.Released() && ctx.Released() && conn.Released()
    ensures ok <==>
              && o.connects && o.contextCreated && o.contextOk && o.clientOk
              && (o.needsServerName ==> o.serverNameOk) && o.handshakeOk && o.hostnameOk
    ensures hooks == [ConnectStart] + net + [ConnectDone] ||
            hooks == [ConnectStart] + net + [ConnectDone] + [HandshakeStart, HandshakeDone]
    ensures ok ==> |hooks| == |net| + 4
  {
    raw, ctx, conn := UNOPENED, UNOPENED, UNOPENED;
    hooks := [ConnectStart] + net + [ConnectDone];
    if !o.connects {
      return false, raw, ctx, conn, hooks;
    }
    raw := OPENED;
    if !o.contextCreated {
      raw := Closed(raw);
      return false, raw, ctx, conn, hooks;
    }
    ctx := OPENED;
    if !o.contextOk {
      ctx := Closed(ctx);
      raw := Closed(raw);
      return false, raw, ctx, conn, hooks;
    }
    if !o.clientOk {
      ctx := Closed(ctx);
      raw := Closed(raw);
      return false, raw, ctx, conn, hooks;
    }
    conn := OPENED;
    if o.needsServerName && !o.serverNameOk {
      // Closing the TLS session closes the socket below it.
      conn, raw := Closed(conn), Closed(raw);
      ctx := Closed(ctx);
      return false, raw, ctx, conn, hooks;
    }
    hooks := hooks + [HandshakeStart, HandshakeDone];
    if !o.handshakeOk || !o.hostnameOk {
      conn, raw := Closed(conn), Closed(raw);
      ctx := Closed(ctx);
      return false, raw, ctx, conn, hooks;
    }
    ok := true;
  }

  /** Follow a hook sequence through the round-trip phases. */
  function Advance(p: Progress, hooks: seq<Hook>): Option<Progress>
    decreases |hooks|
  {
    if hooks == [] then Some(p)
    else
      var q := Next(p, hooks[0], true);
      if q.None? then None else Advance(q.value, hooks[1..])
  }

  lemma {:induction false} AdvanceConcat(p: Progress, a: seq<Hook>, b: seq<Hook>)
    ensures Advance(p, a + b) == if Advance(p, a).None? then None else Advance(Advance(p, a).value, b)
    decreases |a|
  {
    if a == [] {
      assert a + b == b;
    } else {
      assert (a + b)[1..] == a[1..] + b;
      if Next(p, a[0], true).Some? {
        AdvanceConcat(Next(p, a[0], true).value, a[1..], b);
      }
    }
  }

  predicate ReadyToDial(p: Progress) {
    p.phase.Dialing? || p.phase.Resolved?
  }

  /** What dialing leaves alone. */
  predicate Alike(p: Progress, q: Progress) {
    q.stale == p.stale && q.answer == p.answer
  }

  lemma {:induction false} AttemptsAdvance(p: Progress, hs: seq<Hook>)
    requires ReadyToDial(p) && forall i :: 0 <= i < |hs| ==> hs[i].ConnectStart? || hs[i].ConnectDone?
    ensures var q := Advance(p, hs); q.Some? && ReadyToDial(q.value) && Alike(p, q.value)
    decreases |hs|
  {
    if hs != [] {
      AttemptsAdvance(Next(p, hs[0], true).value, hs[1..]);
    }
  }

  lemma NetAdvances(p: Progress, net: seq<Hook>)
    requires p.phase.Dialing? && NetHooks(net)
    ensures var q := Advance(p, net); q.Some? && ReadyToDial(q.value) && Alike(p, q.value)
  {
    if |net| >= 2 && net[0].DNSStart? {
      assert net[1..][1..] == net[2..];
      AttemptsAdvance(p.(phase := Resolved, unconnected := true), net[2..]);
    } else {
      AttemptsAdvance(p, net);
    }
  }

  /** Where a standard attempt can have failed, with an error that the GOST backend is tried for. */
  predicate CanFail(p: Progress) {
    || p.phase.Fresh? || p.phase.Resolved? || p.phase.Dialing?
    || p.phase.Shaken? || p.phase.Connected? || p.phase.Answering?
  }

  /** What is on record after a retry that has connected, and perhaps shaken hands. */
  predicate Redialed(p: Progress, q: Option<Progress>, shakes: bool) {
    && q.Some? && !q.value.unconnected && q.value.late == !shakes
    && q.value.phase == (if shakes then Shaken else Dialing(true))
    && q.value.stale == p.HasConn() && q.value.answer == p.answer
    && (shakes ==> q.value.beside == p.HasConn())
  }

  function Handshake(shakes: bool): seq<Hook> {
    if shakes then [HandshakeStart, HandshakeDone] else []
  }

  /** The end of a dial. */
  lemma DialEnds(p: Progress, hooks: seq<Hook>, q: Progress, shakes: bool)
    requires Advance(p, hooks) == Some(q) && ReadyToDial(q) && q.stale == p.HasConn() && q.answer == p.answer
    ensures Redialed(p, Advance(p, hooks + [ConnectDone] + Handshake(shakes)), shakes)
  {
    AdvanceConcat(p, hooks, [ConnectDone]);
    var up := q.(phase := Dialing(true), unconnected := false, late := true);
    assert Advance(q, [ConnectDone]) == Some(up);
    AdvanceConcat(p, hooks + [ConnectDone], Handshake(shakes));
    if shakes {
      var shaking := up.(phase := Shaking, late := false, beside := up.stale);
      assert Handshake(true)[1..] == [HandshakeDone] && Handshake(true)[1..][1..] == [];
      assert Advance(shaking, Handshake(true)[1..]) == Some(shaking.(phase := Shaken));
      assert Advance(up, Handshake(true)) == Some(shaking.(phase := Shaken));
    }
  }

  /**
   The hooks of a GOST dial fit the trace of the failed standard attempt, wherever that failed (while
   dialing, in the handshake of its first or of a later connection, before or within the response), and
   whatever resolutions and attempts the operating system reports. They leave the retry connected or
   shaken; an abandoned connection and its response byte stay on record.
   */
  lemma DialContinuesTrace(p: Progress, net: seq<Hook>, shakes: bool)
    requires CanFail(p) && NetHooks(net)
    ensures Redialed(p, Advance(p, [ConnectStart] + net + [ConnectDone] + Handshake(shakes)), shakes)
  {
    var p1 := Next(p, ConnectStart, true).value;
    assert Advance(p, [ConnectStart]) == Some(p1);
    NetAdvances(p1, net);
    AdvanceConcat(p, [ConnectStart], net);
    DialEnds(p, [ConnectStart] + net, Advance(p1, net).value, shakes);
  }

  /**
   So do the hooks behind a plain proxy, where net/http dials the proxy without the TLS dialer: the
   lookup of its name, if it has one, comes first.
   */
  lemma ProxyDialContinuesTrace(p: Progress, lookup: bool, attempts: seq<Hook>, shakes: bool)
    requires CanFail(p) && forall i :: 0 <= i < |attempts| ==> attempts[i].ConnectStart? || attempts[i].ConnectDone?
    ensures var dial := (if lookup then [DNSStart, DNSDone] else []) + [ConnectStart] + attempts;
            Redialed(p, Advance(p, dial + [ConnectDone] + Handshake(shakes)), shakes)
  {
    var before := if lookup then [DNSStart, DNSDone] else [];
    var p1 := p;
    if lookup {
      var resolving := Next(p, DNSStart, true).value;
      p1 := resolving.(phase := Resolved, unconnected := true);
      assert before[1..] == [DNSDone] && before[1..][1..] == [];
      assert Advance(resolving, before[1..]) == Some(p1);
    }
    assert Advance(p, before) == Some(p1);
    var p2 := Next(p1, ConnectStart, true).value;
    assert Advance(p1, [ConnectStart]) == Some(p2);
    AdvanceConcat(p, before, [ConnectStart]);
    AttemptsAdvance(p2, attempts);
    AdvanceConcat(p, before + [ConnectStart], attempts);
    DialEnds(p, before + [ConnectStart] + attempts, Advance(p2, attempts).value, shakes);
  }

  // ----- the request body across both attempts -----

  class RequestBody {
    const content: Bytes
    /** A body file is really closed; an inline body has a Close that does nothing. */
    const isFile: bool
    var pos: nat
    var closed: bool

    ghost predicate Valid()
      reads this
    {
      pos <= |content|
    }

    constructor (content: Bytes, isFile: bool)
      ensures Valid() && this.content == content && this.isFile == isFile && pos == 0 && !closed
    {
      this.content, this.isFile, pos, closed := content, isFile, 0, false;
    }

    /** Read up to `n` bytes; reading a closed file fails. */
    method Read(n: nat) returns (data: Option<Bytes>)
      requires Valid()
      modifies this`pos
      ensures Valid()
      ensures closed ==> data == None && pos == old(pos)
      ensures !closed ==>
                && pos == (if old(pos) + n <= |content| then old(pos) + n else |content|)
                && data == Some(content[old(pos)..pos])
    {
      if closed {
        return None;
      }
      var end := if pos + n <= |content| then pos + n else |content|;
      data := Some(content[pos..end]);
      pos := end;
    }

    method Close()
      modifies this`closed
      ensures closed == (old(closed) || isFile)
    {
      closed := closed || isFile;
    }
  }

  /**
   The first attempt fails after having read `consumed` bytes of the body and closes it; the retry
   sends the rest. The whole configured body arrives exactly if it is inline and nothing was consumed.
   */
  method RetryWithBody(content: Bytes, isFile: bool, consumed: nat) returns (sent: Option<Bytes>)
    ensures sent == Some(content) <==> !isFile && (consumed == 0 || content == [])
    ensures sent.None? <==> isFile
  {
    var body := new RequestBody(content, isFile);
    var _ := body.Read(consumed);
    body.Close();
    sent := body.Read(|content|);
    assert content[0..|content|] == content;
    assert sent.Some? ==> |sent.value| == |content| - (if consumed <= |content| then consumed else |content|);
  }

  // ----- the TLS state that a response carries -----

  type TlsState = nat

  class TlsStateBox {
    var state: TlsState

    constructor ()
      ensures state == 0
    {
      state := 0;
    }

    method Set(s: TlsState)
      modifies this
      ensures state == s
    {
      state := s;
    }
  }

  /** How a request reaches its target: directly, or through a proxy over http or https. */
  datatype Route = Direct | PlainProxy | TlsProxy

  /** One round trip on the GOST backend: its route, the TLS dial, and whether an answer comes. */
  datatype Trip = Trip(route: Route, dialed: Option<TlsState>, answered: bool) {
    /** The TLS dialer connects to the target or to an https proxy, never to a plain one. */
    predicate Dials() {
      !route.PlainProxy? && dialed.Some?
    }

    /** The state in the box after the dial. */
    function Leaves(box: TlsState): TlsState {
      if Dials() then dialed.value else box
    }

    function Stamp(box: TlsState): Option<TlsState> {
      if answered && (route.PlainProxy? || Dials()) then Some(Leaves(box)) else None
    }
  }

  /** The state with which each answer is stamped: that of the last successful dial. */
  function Stamps(trips: seq<Trip>, box: TlsState): seq<Option<TlsState>> {
    if trips == [] then [] else [trips[0].Stamp(box)] + Stamps(trips[1..], trips[0].Leaves(box))
  }

  method RoundTrips(trips: seq<Trip>) returns (stamps: seq<Option<TlsState>>)
    ensures stamps == Stamps(trips, 0)
  {
    var box := new TlsStateBox();
    stamps := [];
    for i := 0 to |trips|
      invariant stamps + Stamps(trips[i..], box.state) == Stamps(trips, 0)
    {
      var t := trips[i];
      ghost var was := box.state;
      if !t.route.PlainProxy? && t.dialed.Some? {
        box.Set(t.dialed.value);
      }
      var stamp := if t.answered && (t.route.PlainProxy? || t.dialed.Some?) then Some(box.state) else None;
      assert stamp == t.Stamp(was) && box.state == t.Leaves(was);
      assert trips[i..][0] == t && trips[i..][1..] == trips[i + 1..];
      stamps := stamps + [stamp];
    }
  }

  /**
   Over every sequence of round trips, an answer over the TLS dialer carries the state of the
   connection that was dialed for it (to the target, or to an https proxy); behind a plain proxy it
   carries that of the last one dialed before, or none at all.
   */
  lemma {:induction false} StampsAreOwn(trips: seq<Trip>, box: TlsState, i: nat)
    requires i < |trips|
    ensures |Stamps(trips, box)| == |trips|
    ensures var t, stamp := trips[i], Stamps(trips, box)[i];
            && (!t.route.PlainProxy? ==> stamp == if t.answered then t.dialed else None)
            && (t.route.PlainProxy? ==> stamp == if t.answered then Some(LastDialed(trips[..i], box)) else None)
  {
    var rest := trips[1..];
    if i == 0 {
      if rest != [] {
        StampsAreOwn(rest, trips[0].Leaves(box), 0);
      }
    } else {
      StampsAreOwn(rest, trips[0].Leaves(box), i - 1);
      assert trips[..i][1..] == rest[..i - 1];
    }
  }

  function LastDialed(trips: seq<Trip>, box: TlsState): TlsState {
    if trips == [] then box else LastDialed(trips[1..], trips[0].Leaves(box))
  }
}
