/**
 Concurrent ICMP probes over a network that loses, duplicates and reorders packets, as a
 transition system. Every probe sees every packet in the air.
 */
module IcmpNetwork {
  import opened Wrappers
  import opened IcmpEcho

  /** A message in the air, and the probe whose request it is or answers (foreign traffic has none). */
  datatype Message = Message(source: string, bytes: Bytes, origin: Option<nat>)

  datatype Phase = Drawn | Waiting | Accepted(reply: Message) | TimedOut

  datatype Probe = Probe(socket: Socket, dst: string, id: U16, number: U16, data: Bytes, phase: Phase) {
    function Answer(ck: Checksum): Bytes {
      Expected(socket, id, number, data, ck)
    }

    predicate Takes(m: Message, ck: Checksum) {
      m.source == dst && Masked(socket, m.bytes) == Answer(ck)
    }
  }

  /** Probes are numbered in the order in which they draw their sequence numbers. */
  datatype State = State(counter: U16, probes: seq<Probe>, air: set<Message>)

  datatype Step =
    | Draw(socket: Socket, dst: string, id: U16, data: Bytes)
    | Send(k: nat, source: string, wireId: U16)
    | Reply(request: Message, family: Family, source: string, checksum: (Byte, Byte))
    | Foreign(bytes: Bytes, source: string)
    | Drop(m: Message)
    | Receive(k: nat, m: Message)
    | Expire(k: nat)

  function NextNumber(counter: U16): U16 { (counter + 1) % 65536 }

  /** A request on the wire. On unprivileged Linux sockets the kernel chooses the identifier. */
  function Request(p: Probe, wireId: U16, ck: Checksum): Bytes {
    var id := if p.socket.IdUnknown() then wireId else p.id;
    Marshal(p.socket.family, EchoType(p.socket.family), id, p.number, p.data, ck)
  }

  /** An echo reply returns the identifier, number and payload of the request under a new type and checksum. */
  function Reflect(request: Bytes, f: Family, checksum: (Byte, Byte)): Bytes
    requires 8 <= |request|
  {
    request[0 := ReplyType(f)][2 := checksum.0][3 := checksum.1]
  }

  /** One step; a step that is not possible in a state changes nothing. */
  function Apply(s: State, step: Step, ck: Checksum): State {
    match step
    case Draw(socket, dst, id, data) =>
      var number := NextNumber(s.counter);
      s.(counter := number, probes := s.probes + [Probe(socket, dst, id, number, data, Drawn)])
    case Send(k, source, wireId) =>
      if k < |s.probes| && s.probes[k].phase.Drawn? then
        s.(probes := s.probes[k := s.probes[k].(phase := Waiting)],
           air := s.air + {Message(source, Request(s.probes[k], wireId, ck), Some(k))})
      else s
    case Reply(request, family, source, checksum) =>
      if request in s.air && 8 <= |request.bytes| then
        s.(air := s.air + {Message(source, Reflect(request.bytes, family, checksum), request.origin)})
      else s
    case Foreign(bytes, source) => s.(air := s.air + {Message(source, bytes, None)})
    case Drop(m) => s.(air := s.air - {m})
    case Receive(k, m) =>
      if k < |s.probes| && s.probes[k].phase.Waiting? && m in s.air && s.probes[k].Takes(m, ck) then
        s.(probes := s.probes[k := s.probes[k].(phase := Accepted(m))])
      else s
    case Expire(k) =>
      if k < |s.probes| && s.probes[k].phase.Waiting? then
        s.(probes := s.probes[k := s.probes[k].(phase := TimedOut)])
      else s
  }

  function Exec(s: State, steps: seq<Step>, ck: Checksum): State
    decreases |steps|
  {
    if steps == [] then s else Exec(Apply(s, steps[0], ck), steps[1..], ck)
  }

  function Initial(start: U16): State { State(start, [], {}) }

  /** The number drawn by the k-th probe. */
  function Number(start: U16, k: nat): U16 { (start + k + 1) % 65536 }

  /** What every step keeps. */
  ghost predicate Inv(s: State, start: U16, ck: Checksum) {
    && s.counter == (start + |s.probes|) % 65536
    && (forall k :: 0 <= k < |s.probes| ==> s.probes[k].number == Number(start, k))
    && (forall m :: m in s.air ==> Traceable(m, s, start))
    && (forall k :: 0 <= k < |s.probes| && s.probes[k].phase.Accepted? ==>
          s.probes[k].Takes(s.probes[k].phase.reply, ck) && Traceable(s.probes[k].phase.reply, s, start))
  }

  /** A request, or an answer to one, carries the number of the probe that sent it. */
  ghost predicate Traceable(m: Message, s: State, start: U16) {
    m.origin.Some? ==> m.origin.value < |s.probes| && CarriesNumber(m.bytes, Number(start, m.origin.value))
  }

  lemma RequestCarriesNumber(p: Probe, wireId: U16, ck: Checksum)
    ensures CarriesNumber(Request(p, wireId, ck), p.number)
  {
  }

  lemma StepKeepsInv(s: State, step: Step, start: U16, ck: Checksum)
    requires Inv(s, start, ck)
    ensures Inv(Apply(s, step, ck), start, ck)
  {
    match step
    case Draw(_, _, _, _) =>
    case Send(k, source, wireId) => SendKeepsInv(s, k, source, wireId, start, ck);
    case Reply(_, _, _, _) =>
    case Foreign(_, _) =>
    case Drop(_) =>
    case Receive(k, m) => ReceiveKeepsInv(s, k, m, start, ck);
    case Expire(_) =>
  }

  lemma ReceiveKeepsInv(s: State, k: nat, m: Message, start: U16, ck: Checksum)
    requires Inv(s, start, ck)
    ensures Inv(Apply(s, Receive(k, m), ck), start, ck)
  {
  }

  lemma SendKeepsInv(s: State, k: nat, source: string, wireId: U16, start: U16, ck: Checksum)
    requires Inv(s, start, ck)
    ensures Inv(Apply(s, Send(k, source, wireId), ck), start, ck)
  {
    if k < |s.probes| {
      RequestCarriesNumber(s.probes[k], wireId, ck);
    }
  }

  lemma {:induction false} RunKeepsInv(s: State, steps: seq<Step>, start: U16, ck: Checksum)
    requires Inv(s, start, ck)
    ensures Inv(Exec(s, steps, ck), start, ck)
    decreases |steps|
  {
    if steps != [] {
      StepKeepsInv(s, steps[0], start, ck);
      RunKeepsInv(Apply(s, steps[0], ck), steps[1..], start, ck);
    }
  }

  /** Once a probe has accepted a reply or timed out, nothing that happens later changes it. */
  lemma {:induction false} DecidedForGood(s: State, steps: seq<Step>, k: nat, ck: Checksum)
    requires k < |s.probes| && (s.probes[k].phase.Accepted? || s.probes[k].phase.TimedOut?)
    ensures var s' := Exec(s, steps, ck); k < |s'.probes| && s'.probes[k] == s.probes[k]
    decreases |steps|
  {
    if steps != [] {
      var next := Apply(s, steps[0], ck);
      assert next.probes[k] == s.probes[k];
      DecidedForGood(next, steps[1..], k, ck);
    }
  }

  /** A probe that times out while waiting never accepts a reply, whatever arrives later. */
  lemma TimedOutForGood(s: State, steps: seq<Step>, k: nat, ck: Checksum)
    requires k < |s.probes| && s.probes[k].phase.Waiting?
    ensures var s' := Exec(s, [Expire(k)] + steps, ck); k < |s'.probes| && s'.probes[k].phase.TimedOut?
  {
    var next := Apply(s, Expire(k), ck);
    assert ([Expire(k)] + steps)[1..] == steps;
    DecidedForGood(next, steps, k, ck);
  }

  /** A waiting probe accepts any packet that looks right, from whoever it comes. */
  lemma ForeignAcceptedIff(s: State, k: nat, bytes: Bytes, source: string, ck: Checksum)
    requires k < |s.probes| && s.probes[k].phase.Waiting?
    ensures var m := Message(source, bytes, None);
            var s' := Apply(Apply(s, Foreign(bytes, source), ck), Receive(k, m), ck);
            s'.probes[k].phase == Accepted(m) <==> s.probes[k].Takes(m, ck)
  {
  }

  /** In every interleaving a probe accepts only an echo reply from its target with its own number and payload. */
  lemma AcceptsOwnNumber(start: U16, steps: seq<Step>, ck: Checksum, k: nat)
    requires var s := Exec(Initial(start), steps, ck); k < |s.probes| && s.probes[k].phase.Accepted?
    ensures var p := Exec(Initial(start), steps, ck).probes[k];
            var m := p.phase.reply;
            && p.number == Number(start, k) && m.source == p.dst && CarriesNumber(m.bytes, p.number)
            && m.bytes[0] == ReplyType(p.socket.family) && m.bytes[8..] == p.data
  {
    RunKeepsInv(Initial(start), steps, start, ck);
    var p := Exec(Initial(start), steps, ck).probes[k];
    AcceptedIff(p.socket, p.id, p.number, p.data, ck, p.phase.reply.bytes);
  }

  /** Two draws share a number exactly when they are a multiple of 65536 apart. */
  lemma SameNumberIff(start: U16, j: nat, k: nat)
    ensures Number(start, j) == Number(start, k) <==> (j - k) % 65536 == 0
  {
  }

  /** No message of a probe drawn 65536 or more draws from the given one is in the air. */
  ghost predicate Near(s: State, k: nat) {
    forall m :: m in s.air && m.origin.Some? ==> -65536 < m.origin.value - k < 65536
  }

  /** Whenever a probe receives, the messages in the air are near it. */
  ghost predicate NearRun(s: State, steps: seq<Step>, ck: Checksum)
    decreases |steps|
  {
    steps == [] ||
    ((steps[0].Receive? ==> Near(s, steps[0].k)) && NearRun(Apply(s, steps[0], ck), steps[1..], ck))
  }

  /** Every accepted reply that answers a probe at all answers the one that accepted it. */
  ghost predicate Uncrossed(s: State) {
    forall k :: 0 <= k < |s.probes| && s.probes[k].phase.Accepted? && s.probes[k].phase.reply.origin.Some?
                ==> s.probes[k].phase.reply.origin.value == k
  }

  lemma ReceiveUncrossed(s: State, k: nat, m: Message, start: U16, ck: Checksum)
    requires Inv(s, start, ck) && Near(s, k) && k < |s.probes|
    requires m in s.air && s.probes[k].Takes(m, ck) && m.origin.Some?
    ensures m.origin.value == k
  {
    var p := s.probes[k];
    AcceptedIff(p.socket, p.id, p.number, p.data, ck, m.bytes);
    SameNumberIff(start, m.origin.value, k);
  }

  lemma StepStaysUncrossed(s: State, step: Step, start: U16, ck: Checksum)
    requires Inv(s, start, ck) && Uncrossed(s) && (step.Receive? ==> Near(s, step.k))
    ensures Uncrossed(Apply(s, step, ck))
  {
    if step.Receive? && step.k < |s.probes| && step.m in s.air && step.m.origin.Some? {
      if s.probes[step.k].Takes(step.m, ck) {
        ReceiveUncrossed(s, step.k, step.m, start, ck);
      }
    }
  }

  lemma {:induction false} StepsStayUncrossed(s: State, steps: seq<Step>, start: U16, ck: Checksum)
    requires Inv(s, start, ck) && Uncrossed(s) && NearRun(s, steps, ck)
    ensures Uncrossed(Exec(s, steps, ck))
    decreases |steps|
  {
    if steps != [] {
      StepStaysUncrossed(s, steps[0], start, ck);
      StepKeepsInv(s, steps[0], start, ck);
      StepsStayUncrossed(Apply(s, steps[0], ck), steps[1..], start, ck);
    }
  }

  /**
   No probe accepts the reply to another probe's request, in any run in which all messages that
   can still arrive when it reads belong to probes fewer than 65536 draws away, even if the
   identifier and the checksum are masked.
   */
  lemma NeverCrossed(start: U16, steps: seq<Step>, ck: Checksum)
    requires NearRun(Initial(start), steps, ck)
    ensures Uncrossed(Exec(Initial(start), steps, ck))
  {
    StepsStayUncrossed(Initial(start), steps, start, ck);
  }

  /** The genuine reply to a request: reflected, with a correct checksum where there is one to check. */
  predicate Genuine(p: Probe, wireId: U16, checksum: (Byte, Byte), ck: Checksum) {
    p.socket.ChecksumIgnored() || Checked(Reflect(Request(p, wireId, ck), p.socket.family, checksum), ck)
  }

  /**
   The distance is exact: of two probes alike in socket, target, identifier and payload, one takes
   the genuine reply to the other exactly if their draws are a multiple of 65536 apart.
   */
  lemma CrossedIff(start: U16, j: nat, k: nat, p: Probe, q: Probe, wireId: U16, checksum: (Byte, Byte), ck: Checksum)
    requires p.number == Number(start, j) && q == p.(number := Number(start, k))
    requires Genuine(p, wireId, checksum, ck)
    ensures q.Takes(Message(p.dst, Reflect(Request(p, wireId, ck), p.socket.family, checksum), Some(j)), ck)
            <==> (j - k) % 65536 == 0
  {
    var m := Reflect(Request(p, wireId, ck), p.socket.family, checksum);
    assert m[8..] == p.data;
    AcceptedIff(q.socket, q.id, q.number, q.data, ck, m);
    SameNumberIff(start, j, k);
  }

  /** A probe takes the reflection of its own request exactly if its checksum is right or not looked at. */
  lemma TakesOwnReplyIff(p: Probe, wireId: U16, checksum: (Byte, Byte), origin: Option<nat>, ck: Checksum)
    ensures p.Takes(Message(p.dst, Reflect(Request(p, wireId, ck), p.socket.family, checksum), origin), ck)
            <==> Genuine(p, wireId, checksum, ck)
  {
    var m := Reflect(Request(p, wireId, ck), p.socket.family, checksum);
    assert m[8..] == p.data;
    AcceptedIff(p.socket, p.id, p.number, p.data, ck, m);
  }

  /** There always is such a reply. */
  lemma GenuineReply(p: Probe, wireId: U16, ck: Checksum) returns (checksum: (Byte, Byte))
    ensures Genuine(p, wireId, checksum, ck)
  {
    var m := Reflect(Request(p, wireId, ck), p.socket.family, (0, 0));
    checksum := ck(m);
    assert Reflect(Request(p, wireId, ck), p.socket.family, checksum)[2 := 0][3 := 0] == m;
  }

  // ----- a run in which replies cross -----

  lemma {:induction false} ExecConcat(s: State, a: seq<Step>, b: seq<Step>, ck: Checksum)
    ensures Exec(s, a + b, ck) == Exec(Exec(s, a, ck), b, ck)
    decreases |a|
  {
    if a == [] {
      assert a + b == b;
    } else {
      assert (a + b)[1..] == a[1..] + b;
      ExecConcat(Apply(s, a[0], ck), a[1..], b, ck);
    }
  }

  function Draws(draw: Step, n: nat): seq<Step> {
    seq(n, i => draw)
  }

  /** After `n` equal draws there are `n` more probes, alike but for their numbers. */
  lemma {:induction false} DrawMany(s: State, draw: Step, n: nat, ck: Checksum)
    requires draw.Draw?
    ensures var s' := Exec(s, Draws(draw, n), ck);
            && |s'.probes| == |s.probes| + n && s.probes <= s'.probes
            && forall k :: |s.probes| <= k < |s'.probes| ==>
                 s'.probes[k] == Probe(draw.socket, draw.dst, draw.id, s'.probes[k].number, draw.data, Drawn)
    decreases n
  {
    if 0 < n {
      var next := Apply(s, draw, ck);
      assert Draws(draw, n)[0] == draw && Draws(draw, n)[1..] == Draws(draw, n - 1);
      DrawMany(next, draw, n - 1, ck);
      assert next.probes[|s.probes|] == Exec(s, Draws(draw, n), ck).probes[|s.probes|];
    }
  }

  /** Send two requests, answer the second, and let the first probe read the answer. */
  function Crossing(
    j: nat, k: nat, request: Message, reply: Message, wireId: U16, f: Family, checksum: (Byte, Byte)): seq<Step>
  {
    [Send(k, request.source, wireId), Send(j, request.source, wireId),
     Reply(request, f, reply.source, checksum), Receive(k, reply)]
  }

  lemma CrossingAccepted(
    s: State, j: nat, k: nat, request: Message, reply: Message,
    wireId: U16, f: Family, checksum: (Byte, Byte), ck: Checksum)
    requires k < j < |s.probes| && s.probes[k].phase.Drawn? && s.probes[j].phase.Drawn?
    requires request == Message(request.source, Request(s.probes[j], wireId, ck), Some(j))
    requires reply == Message(s.probes[j].dst, Reflect(request.bytes, f, checksum), Some(j))
    requires s.probes[k].Takes(reply, ck)
    ensures var s' := Exec(s, Crossing(j, k, request, reply, wireId, f, checksum), ck);
            |s'.probes| == |s.probes| && s'.probes[k].phase == Accepted(reply)
  {
    var steps := Crossing(j, k, request, reply, wireId, f, checksum);
    var s1 := Apply(s, steps[0], ck);
    var s2 := Apply(s1, steps[1], ck);
    var s3 := Apply(s2, steps[2], ck);
    var s4 := Apply(s3, steps[3], ck);
    assert s2.probes[k].phase.Waiting? && request in s2.air;
    assert reply in s3.air && s3.probes[k] == s.probes[k].(phase := Waiting);
    ExecFour(s, steps, ck);
  }

  lemma ExecFour(s: State, steps: seq<Step>, ck: Checksum)
    requires |steps| == 4
    ensures Exec(s, steps, ck) == Apply(Apply(Apply(Apply(s, steps[0], ck), steps[1], ck), steps[2], ck), steps[3], ck)
  {
    assert steps[1..][1..] == steps[2..] && steps[2..][1..] == steps[3..] && steps[3..][1..] == [];
    var s1 := Apply(s, steps[0], ck);
    var s2 := Apply(s1, steps[1], ck);
    var s3 := Apply(s2, steps[2], ck);
    assert Exec(s3, steps[3..], ck) == Apply(s3, steps[3], ck);
    assert Exec(s2, steps[2..], ck) == Exec(s3, steps[3..], ck);
    assert Exec(s1, steps[1..], ck) == Exec(s2, steps[2..], ck);
  }

  /**
   The bound of `NeverCrossed` is exact: from every start of the counter there is a run in which probe
   `k` accepts the genuine reply to the request of probe `k + 65536`.
   */
  lemma CrossingRun(start: U16, k: nat, draw: Step, source: string, wireId: U16, ck: Checksum)
    returns (steps: seq<Step>)
    requires draw.Draw?
    ensures var s := Exec(Initial(start), steps, ck);
            k < |s.probes| && s.probes[k].phase.Accepted? && s.probes[k].phase.reply.origin == Some(k + 65536)
  {
    var j, draws := k + 65536, Draws(draw, k + 65537);
    var s := Exec(Initial(start), draws, ck);
    DrawMany(Initial(start), draw, k + 65537, ck);
    RunKeepsInv(Initial(start), draws, start, ck);
    var p, q := s.probes[j], s.probes[k];
    var f := draw.socket.family;
    var checksum := GenuineReply(p, wireId, ck);
    var request := Message(source, Request(p, wireId, ck), Some(j));
    var reply := Message(p.dst, Reflect(request.bytes, f, checksum), Some(j));
    CrossedIff(start, j, k, p, q, wireId, checksum, ck);
    CrossingAccepted(s, j, k, request, reply, wireId, f, checksum, ck);
    steps := draws + Crossing(j, k, request, reply, wireId, f, checksum);
    ExecConcat(Initial(start), draws, Crossing(j, k, request, reply, wireId, f, checksum), ck);
  }
}
