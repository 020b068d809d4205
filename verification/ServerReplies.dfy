/** What a client receives as a reply is what was sent as the reply to its request. */
module ServerReplies {
  import opened Prelude
  import opened Protocol
  import opened Server
  import opened ServerInvariants

  /** `m` is the first reply sent under the key, kept as it is but for its id. */
  ghost predicate FirstReply(sent: seq<Envelope>, key: RequestId, original: RequestId, m: Message) {
    exists i :: 0 <= i < |sent| && IsReplyTo(sent[i], key) && SameReply(sent[i].message, m, original)
                && forall j :: 0 <= j < i ==> !IsReplyTo(sent[j], key)
  }

  lemma FirstStays(sent: seq<Envelope>, e: Envelope, key: RequestId, original: RequestId, m: Message)
    requires FirstReply(sent, key, original, m)
    ensures FirstReply(sent + [e], key, original, m)
  {
    var i :| 0 <= i < |sent| && IsReplyTo(sent[i], key) && SameReply(sent[i].message, m, original)
             && forall j :: 0 <= j < i ==> !IsReplyTo(sent[j], key);
    assert (sent + [e])[i] == sent[i];
  }

  /** The reply belongs to an accepted request: it is the first one sent for it. */
  ghost predicate Genuine(sent: seq<Envelope>, accepted: seq<Route>, n: nat, m: Message) {
    n < |accepted| && FirstReply(sent, Key(accepted[n]), accepted[n].original, m)
  }

  ghost predicate LogsGenuine(writers: map<ConnectionId, Writer>, sent: seq<Envelope>, accepted: seq<Route>) {
    forall c, k :: c in writers && 0 <= k < |writers[c].log| && writers[c].log[k].origin.Reply? ==>
      Genuine(sent, accepted, writers[c].log[k].origin.ordinal, writers[c].log[k].message)
  }

  ghost predicate FlightGenuine(pc: RouterPc, sent: seq<Envelope>, accepted: seq<Route>) {
    pc.Writing? && pc.origin.Reply? ==> Genuine(sent, accepted, pc.origin.ordinal, pc.envelope.message)
  }

  /** The outgoing queue is the end of what was sent; a routed request has no reply in what was taken before. */
  ghost predicate QueueGenuine(sent: seq<Envelope>, outgoing: seq<Envelope>, accepted: seq<Route>,
                               routes: map<RequestId, Route>)
  {
    && |outgoing| <= |sent| && sent[|sent| - |outgoing|..] == outgoing
    && (forall i, k :: 0 <= i < |sent| && IsReplyTo(sent[i], k) ==> IsKey(accepted, k))
    && (forall i, k :: 0 <= i < |sent| - |outgoing| && k in routes ==> !IsReplyTo(sent[i], k))
  }

  ghost predicate ReplyInv(s: State) {
    && QueueGenuine(s.past.sent, s.outgoing, s.past.accepted, s.proc.routes)
    && FlightGenuine(s.rt.pc, s.past.sent, s.past.accepted)
    && LogsGenuine(s.net.writers, s.past.sent, s.past.accepted)
  }

  lemma GenuineStays(sent: seq<Envelope>, accepted: seq<Route>, n: nat, m: Message, e: Envelope, r: Route)
    requires Genuine(sent, accepted, n, m)
    ensures Genuine(sent + [e], accepted, n, m) && Genuine(sent, accepted + [r], n, m)
  {
    FirstStays(sent, e, Key(accepted[n]), accepted[n].original, m);
  }

  // ---------- sending ----------

  lemma SendQueue(sent: seq<Envelope>, outgoing: seq<Envelope>, accepted: seq<Route>, routes: map<RequestId, Route>,
                  e: Envelope)
    requires QueueGenuine(sent, outgoing, accepted, routes)
    requires forall k :: IsReplyTo(e, k) ==> IsKey(accepted, k)
    ensures QueueGenuine(sent + [e], outgoing + [e], accepted, routes)
  {
    var more := sent + [e];
    assert more[|more| - |outgoing + [e]|..] == sent[|sent| - |outgoing|..] + [e];
    forall i, k | 0 <= i < |more| && IsReplyTo(more[i], k)
      ensures IsKey(accepted, k)
    {
      if i < |sent| {
        assert more[i] == sent[i];
      }
    }
  }

  lemma SendLogs(writers: map<ConnectionId, Writer>, sent: seq<Envelope>, accepted: seq<Route>, e: Envelope)
    requires LogsGenuine(writers, sent, accepted)
    ensures LogsGenuine(writers, sent + [e], accepted)
  {
    forall c, k | c in writers && 0 <= k < |writers[c].log| && writers[c].log[k].origin.Reply?
      ensures Genuine(sent + [e], accepted, writers[c].log[k].origin.ordinal, writers[c].log[k].message)
    {
      var x := writers[c].log[k];
      GenuineStays(sent, accepted, x.origin.ordinal, x.message, e, accepted[x.origin.ordinal]);
    }
  }

  lemma ReplySend(s: State, e: Envelope)
    requires ReplyInv(s) && forall k :: IsReplyTo(e, k) ==> IsKey(s.past.accepted, k)
    ensures ReplyInv(Send(s, e))
  {
    SendQueue(s.past.sent, s.outgoing, s.past.accepted, s.proc.routes, e);
    SendLogs(s.net.writers, s.past.sent, s.past.accepted, e);
    if s.rt.pc.Writing? && s.rt.pc.origin.Reply? {
      var n := s.rt.pc.origin.ordinal;
      GenuineStays(s.past.sent, s.past.accepted, n, s.rt.pc.envelope.message, e, s.past.accepted[n]);
    }
  }

  // ---------- accepting ----------

  lemma AcceptQueue(sent: seq<Envelope>, outgoing: seq<Envelope>, accepted: seq<Route>, routes: map<RequestId, Route>,
                    r: Route)
    requires QueueGenuine(sent, outgoing, accepted, routes) && r.ordinal == |accepted|
    requires forall n :: 0 <= n < |accepted| ==> accepted[n].ordinal == n
    ensures QueueGenuine(sent, outgoing, accepted + [r], routes[Key(r) := r])
  {
    forall i, k | 0 <= i < |sent| && IsReplyTo(sent[i], k)
      ensures k != Key(r) && IsKey(accepted + [r], k)
    {
      assert IsKey(accepted, k);
      OldKey(accepted, r, k);
    }
    forall i | 0 <= i < |sent| - |outgoing|
      ensures !IsReplyTo(sent[i], Key(r))
    {
      if IsReplyTo(sent[i], Key(r)) {
        OldKey(accepted, r, Key(r));
      }
    }
  }

  lemma OldKey(accepted: seq<Route>, r: Route, k: RequestId)
    requires IsKey(accepted, k) && r.ordinal == |accepted|
    requires forall n :: 0 <= n < |accepted| ==> accepted[n].ordinal == n
    ensures k != Key(r) && IsKey(accepted + [r], k)
  {
    var n :| 0 <= n < |accepted| && Key(accepted[n]) == k;
    assert (accepted + [r])[n] == accepted[n];
    if k == Key(r) {
      KeysDistinct(accepted[n], r);
    }
  }

  lemma AcceptLogs(writers: map<ConnectionId, Writer>, sent: seq<Envelope>, accepted: seq<Route>, r: Route)
    requires LogsGenuine(writers, sent, accepted)
    ensures LogsGenuine(writers, sent, accepted + [r])
  {
  }

  lemma ReplyAccept(s: State, t: State, r: Route)
    requires ReplyInv(s) && RoutingInv(s) && r.ordinal == |s.past.accepted|
    requires t.past.accepted == s.past.accepted + [r] && t.proc.routes == s.proc.routes[Key(r) := r]
    requires t.past.sent == s.past.sent && t.outgoing == s.outgoing && t.rt == s.rt && t.net == s.net
    ensures ReplyInv(t)
  {
    AcceptQueue(s.past.sent, s.outgoing, s.past.accepted, s.proc.routes, r);
    AcceptLogs(s.net.writers, s.past.sent, s.past.accepted, r);
  }

  // ---------- taking and writing ----------

  lemma TakeQueue(sent: seq<Envelope>, outgoing: seq<Envelope>, accepted: seq<Route>, routes: map<RequestId, Route>)
    requires QueueGenuine(sent, outgoing, accepted, routes) && outgoing != []
    ensures QueueGenuine(sent, outgoing[1..], accepted, Rewrite(routes, outgoing[0]).1)
    ensures sent[|sent| - |outgoing|] == outgoing[0]
  {
    var e := outgoing[0];
    RewriteLaw(routes, e);
    assert sent[|sent| - |outgoing|..][0] == e;
    assert sent[|sent| - |outgoing[1..]|..] == sent[|sent| - |outgoing|..][1..];
  }

  lemma TakeFlight(sent: seq<Envelope>, outgoing: seq<Envelope>, accepted: seq<Route>, routes: map<RequestId, Route>)
    requires QueueGenuine(sent, outgoing, accepted, routes) && outgoing != [] && OriginOf(routes, outgoing[0]).Reply?
    requires forall k :: k in routes ==> routes[k].ordinal < |accepted| && accepted[routes[k].ordinal] == routes[k]
    requires forall k :: k in routes ==> Key(routes[k]) == k
    ensures var out := Rewrite(routes, outgoing[0]).0;
            out.Some? && Genuine(sent, accepted, OriginOf(routes, outgoing[0]).ordinal, out.value.message)
  {
    var e := outgoing[0];
    var k := e.message.id;
    RewriteLaw(routes, e);
    TakeQueue(sent, outgoing, accepted, routes);
    assert IsReplyTo(e, k) && k in routes;
    var m :| SameReply(e.message, m, routes[k].original)
             && Rewrite(routes, e) == (Some(ToConnection(routes[k].connection, m)), routes - {k});
    var i := |sent| - |outgoing|;
    assert IsReplyTo(sent[i], k) && forall j :: 0 <= j < i ==> !IsReplyTo(sent[j], k);
    assert FirstReply(sent, k, routes[k].original, m);
  }

  lemma ReplyTake(s: State)
    requires ReplyInv(s) && RoutingInv(s) && s.outgoing != []
    ensures ReplyInv(DoRouterTake(s))
  {
    TakeQueue(s.past.sent, s.outgoing, s.past.accepted, s.proc.routes);
    if OriginOf(s.proc.routes, s.outgoing[0]).Reply? {
      TakeFlight(s.past.sent, s.outgoing, s.past.accepted, s.proc.routes);
    }
  }

  lemma WriteLogs(writers: map<ConnectionId, Writer>, targets: set<ConnectionId>, e: Entry, sent: seq<Envelope>,
                  accepted: seq<Route>)
    requires LogsGenuine(writers, sent, accepted)
    requires e.origin.Reply? ==> Genuine(sent, accepted, e.origin.ordinal, e.message)
    ensures LogsGenuine(WriteAll(writers, targets, e), sent, accepted)
  {
  }

  lemma ReplyWrite(s: State, failures: seq<ConnectionId>)
    requires ReplyInv(s) && s.rt.pc.Writing?
    ensures ReplyInv(DoRouterWrite(s, failures))
  {
    var Writing(e, origin) := s.rt.pc;
    WriteLogs(s.net.writers, Targets(s, e), Entry(e.message, origin), s.past.sent, s.past.accepted);
  }

  lemma ReplyReceive(s: State, c: ConnectionId, m: ClientMessage)
    requires ReplyInv(s) && CanReceive(s, c, m)
    ensures ReplyInv(DoReceive(s, c, m))
  {
  }

  // ---------- all steps ----------

  ghost predicate RepliesSame(s: State, t: State) {
    && t.past.sent == s.past.sent && t.outgoing == s.outgoing && t.past.accepted == s.past.accepted
    && (forall k :: k in t.proc.routes ==> k in s.proc.routes)
    && (t.rt.pc == s.rt.pc || !t.rt.pc.Writing?)
    && t.net.writers.Keys == s.net.writers.Keys
    && (forall c :: c in s.net.writers ==> t.net.writers[c].log == s.net.writers[c].log)
  }

  lemma ReplyFrame(s: State, t: State)
    requires ReplyInv(s) && RepliesSame(s, t)
    ensures ReplyInv(t)
  {
  }

  lemma ReplyTakeEvent(s: State, handler: seq<Action>)
    requires ReplyInv(s) && RoutingInv(s) && CanTakeEvent(s, handler)
    ensures ReplyInv(DoTakeEvent(s, handler))
  {
    var t := DoTakeEvent(s, handler);
    match s.events[0]
    case Incoming(c, ClientRequest(id, _)) =>
      if c in s.proc.sessions {
        ReplyAccept(s, t, Accept(s, c, id));
      } else {
        ReplyFrame(s, t);
      }
    case _ => ReplyFrame(s, t);
  }

  lemma ReplyAct(s: State)
    requires ReplyInv(s) && RoutingInv(s) && CanAct(s)
    ensures ReplyInv(DoAct(s))
  {
    var c, actions := s.proc.pc.connection, s.proc.pc.actions;
    if actions != [] && actions[0].Emit? {
      assert EmitOk(actions[0].envelope, s.past.accepted, Inits(s));
      ReplyEmit(s, c, actions);
    } else {
      ReplyFrame(s, DoAct(s));
    }
  }

  lemma ReplyEmit(s: State, c: ConnectionId, actions: seq<Action>)
    requires ReplyInv(s) && s.proc.pc == Acting(c, actions) && CanAct(s) && actions != [] && actions[0].Emit?
    requires forall k :: IsReplyTo(actions[0].envelope, k) ==> IsKey(s.past.accepted, k)
    ensures ReplyInv(DoAct(s))
  {
    var t := Goto(s, Acting(c, actions[1..]));
    ReplyFrame(s, t);
    ReplySend(t, actions[0].envelope);
  }

  lemma RouterRepliesSame(s: State, step: Step)
    requires Enabled(s, step) && IsRouterStep(step) && !step.RouterTake? && !step.RouterWrite?
    ensures RepliesSame(s, Apply(s, step))
  {
  }

  lemma OtherRepliesSame(s: State, step: Step)
    requires Enabled(s, step) && !IsRouterStep(step)
    requires !step.Open? && !step.Receive? && !step.TakeEvent? && !step.Act? && !step.TaskEmit?
    ensures RepliesSame(s, Apply(s, step))
  {
  }

  lemma ReplyOther(s: State, step: Step)
    requires ReplyInv(s) && Enabled(s, step) && !step.RouterTake? && !step.RouterWrite?
    requires !step.Open? && !step.Receive? && !step.TakeEvent? && !step.Act? && !step.TaskEmit?
    ensures ReplyInv(Apply(s, step))
  {
    if IsRouterStep(step) {
      RouterRepliesSame(s, step);
    } else {
      OtherRepliesSame(s, step);
    }
    ReplyFrame(s, Apply(s, step));
  }

  lemma ReplyKept(s: State, step: Step)
    requires ReplyInv(s) && RoutingInv(s) && Enabled(s, step)
    ensures ReplyInv(Apply(s, step))
  {
    match step
    case Open =>
    case Receive(c, m) => ReplyReceive(s, c, m);
    case TakeEvent(handler) => ReplyTakeEvent(s, handler);
    case Act => ReplyAct(s);
    case TaskEmit(e) => ReplySend(s, e);
    case RouterTake => ReplyTake(s);
    case RouterWrite(failures) => ReplyWrite(s, failures);
    case _ => ReplyOther(s, step);
  }
}
