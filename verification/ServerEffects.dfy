/** What reaches whom, and what is done for whom, over all runs of the app server. */
module ServerEffects {
  import opened Prelude
  import opened Protocol
  import opened Server
  import opened ServerInvariants
  import opened ServerIntake
  import opened ServerEarly
  import opened ServerTheorems
  import opened ServerReplies
  import opened ServerSessions
  import opened ServerHolding

  // ---------- the second invariant ----------

  ghost predicate More(s: State) {
    ReplyInv(s) && SessionInv(s) && HeldInv(s) && ModeInv(s) && GoodbyeInv(s) && LostInv(s)
  }

  lemma InitMore(mode: Mode, warnings: nat)
    ensures More(Init(mode, warnings))
  {
  }

  lemma ModeKept(s: State, step: Step)
    requires ModeInv(s) && Enabled(s, step)
    ensures ModeInv(Apply(s, step))
  {
    if IsRouterStep(step) {
      ModeRouter(s, step);
    } else {
      ModeOthers(s, step);
    }
  }

  lemma InvParts(s: State)
    requires Inv(s)
    ensures LifeInv(s) && RoutingInv(s) && GateInv(s) && NewsInv(s)
  {
  }

  lemma MoreKept(s: State, step: Step)
    requires LifeInv(s) && RoutingInv(s) && GateInv(s) && NewsInv(s) && More(s) && Enabled(s, step)
    ensures More(Apply(s, step))
  {
    ReplyKept(s, step);
    SessionKept(s, step);
    HeldKept(s, step);
    ModeKept(s, step);
    GoodbyeKept(s, step);
    LostKept(s, step);
  }

  lemma {:induction false} RunKeepsMore(s: State, steps: seq<Step>)
    requires Inv(s) && More(s) && Runs(s, steps)
    ensures More(Exec(s, steps))
    decreases |steps|
  {
    if steps != [] {
      InvParts(s);
      InvKept(s, steps[0]);
      MoreKept(s, steps[0]);
      RunKeepsMore(Apply(s, steps[0]), steps[1..]);
    }
  }

  lemma ReachableMore(s: State)
    requires Reachable(s)
    ensures More(s) && LifeInv(s) && RoutingInv(s) && GateInv(s)
  {
    var mode, warnings: nat, steps :| Runs(Init(mode, warnings), steps) && Exec(Init(mode, warnings), steps) == s;
    InitInv(mode, warnings);
    InitMore(mode, warnings);
    RunKeepsMore(Init(mode, warnings), steps);
    ReachableInv(s);
  }

  // ---------- replies ----------

  /**
   * Every reply a client receives to request `n` is the first one sent under that request's internal id: a success
   * stays a success and a failure a failure, with its body, and only the id becomes the one the client chose.
   */
  lemma ReplyIsTheOneSent(s: State, c: ConnectionId, k: nat)
    requires Reachable(s) && c in s.net.writers && k < |s.net.writers[c].log| && s.net.writers[c].log[k].origin.Reply?
    ensures var entry := s.net.writers[c].log[k];
            var n := entry.origin.ordinal;
            && n < |s.past.accepted|
            && FirstReply(s.past.sent, Key(s.past.accepted[n]), s.past.accepted[n].original, entry.message)
  {
    ReachableMore(s);
  }

  // ---------- requests ----------

  lemma IdleSession(s: State, c: ConnectionId)
    requires Reachable(s) && s.proc.pc.Idle? && c in s.proc.sessions
    ensures s.proc.sessions[c].initialized <==> c in s.past.initLog
  {
    ReachableMore(s);
  }

  predicate NextIs(s: State, c: ConnectionId, id: RequestId, kind: RequestKind) {
    s.events != [] && s.events[0] == Incoming(c, ClientRequest(id, kind)) && c in s.proc.sessions
  }

  /** After its `initialize`, a connection's ordinary request is answered by exactly its handler. */
  lemma HandlerRuns(s: State, handler: seq<Action>, c: ConnectionId, id: RequestId)
    requires Reachable(s) && CanTakeEvent(s, handler) && NextIs(s, c, id, Regular) && c in s.past.initLog
    ensures DoTakeEvent(s, handler).proc.pc == Acting(c, handler)
  {
    IdleSession(s, c);
  }

  /** Before it, and for anything else out of place, the request gets one error under its own key and no more. */
  lemma GateAnswers(s: State, handler: seq<Action>, c: ConnectionId, id: RequestId, kind: RequestKind)
    requires Reachable(s) && CanTakeEvent(s, handler) && NextIs(s, c, id, kind)
    requires kind.Invalid? || (kind.Regular? && c !in s.past.initLog) || (kind.Initialize? && c in s.past.initLog)
    ensures var text := if kind.Invalid? then "Invalid request"
                        else if kind.Regular? then "Not initialized" else "Already initialized";
            DoTakeEvent(s, handler).proc.pc
            == Acting(c, [Emit(Broadcast(Error(InternalId(c, |s.past.accepted|), text)))])
  {
    IdleSession(s, c);
  }

  /** A first `initialize` gets one success under its key, and the warnings go to that connection afterwards. */
  lemma FirstInitialize(s: State, handler: seq<Action>, c: ConnectionId, id: RequestId, verbs: set<string>)
    requires Reachable(s) && CanTakeEvent(s, handler) && NextIs(s, c, id, Initialize(verbs)) && c !in s.past.initLog
    ensures var pc := DoTakeEvent(s, handler).proc.pc;
            && pc.Acting? && pc.connection == c && |pc.actions| == 3 + s.warnings
            && pc.actions[1] == Emit(Broadcast(Response(InternalId(c, |s.past.accepted|), "userAgent")))
            && (forall i :: 0 <= i < |pc.actions| && i != 1 && pc.actions[i].Emit? ==>
                  i >= 3 && pc.actions[i].envelope == ToConnection(c, Notification("configWarning")))
            && (forall i :: 3 <= i < |pc.actions| ==> pc.actions[i].Emit?)
            && pc.actions[2].MarkInitialized?
  {
    IdleSession(s, c);
  }

  /** What a handler does takes effect: what it sends is queued last, and a listener is a listener from then on. */
  lemma ActionsTakeEffect(s: State)
    requires CanAct(s) && s.proc.pc.actions != []
    ensures var action, t := s.proc.pc.actions[0], DoAct(s);
            && t.proc.pc == Acting(s.proc.pc.connection, s.proc.pc.actions[1..])
            && (action.Emit? ==> t.outgoing == s.outgoing + [action.envelope] && t.proc.listeners == s.proc.listeners)
            && (action.Subscribe? ==>
                  t.outgoing == s.outgoing && t.proc.listeners == s.proc.listeners + {s.proc.pc.connection})
            && (!action.Emit? && !action.Subscribe? ==>
                  t.outgoing == s.outgoing && t.proc.listeners == s.proc.listeners)
  {
  }

  /**
   * A session is what the connection's own `initialize` asked for: whenever the processor is idle it is initialised
   * exactly if an `initialize` has been taken, with the opt-outs the first one listed, and the router sees the same.
   */
  lemma SessionAsRequested(s: State, c: ConnectionId)
    requires Reachable(s)
    ensures s.proc.pc.Idle? && c in s.proc.sessions ==>
              var wanted := Requested(s.past.taken, c);
              && (wanted.Some? <==> c in s.past.initLog)
              && s.proc.sessions[c] == (if wanted.Some? then Session(true, wanted.value) else Session(false, {}))
    ensures c in s.past.initLog ==>
              && Requested(s.past.taken, c).Some?
              && c in s.flags && s.flags[c] == Session(true, Requested(s.past.taken, c).value)
  {
    ReachableMore(s);
    if s.proc.pc.Idle? && c in s.proc.sessions {
      assert AfterActions(s.proc.sessions[c], Pending(s.proc.pc, c)) == Wanted(Requested(s.past.taken, c));
    }
  }

  // ---------- who receives what ----------

  /** The connection's own `initialize` listed the verb of this notification. */
  predicate OptedOut(s: State, c: ConnectionId, m: Message) {
    m.Notification? && Requested(s.past.taken, c).Some? && m.verb in Requested(s.past.taken, c).value
  }

  /** A write appends one copy if the connection is meant and can take it, and fails if it is meant and gone. */
  ghost predicate Received(s: State, t: State, failures: seq<ConnectionId>, c: ConnectionId, meant: bool, entry: Entry)
    requires c in s.net.writers
  {
    var w := s.net.writers[c];
    var full := |w.log| - w.drained >= 128;
    && c in t.net.writers
    && t.net.writers[c] == (if meant && w.open && !full then w.(log := w.log + [entry]) else w)
    && (c in failures <==> meant && (!w.open || (s.mode.WebSocket? && full)))
    && (c in t.rt.outbound <==> c in s.rt.outbound && c !in failures)
  }

  lemma FlagsAsRequested(s: State, c: ConnectionId)
    requires SessionInv(s) && GateInv(s) && MemberInv(s) && c in s.rt.outbound
    ensures c in s.flags && (s.flags[c].initialized <==> c in s.past.initLog)
    ensures c in s.past.initLog ==> Requested(s.past.taken, c) == Some(s.flags[c].optedOut)
  {
  }

  lemma WriteReceived(s: State, failures: seq<ConnectionId>, e: Envelope, origin: Origin, c: ConnectionId)
    requires s.rt.pc == Writing(e, origin) && CanRouterWrite(s, failures) && c in s.net.writers
    ensures Received(s, DoRouterWrite(s, failures), failures, c, c in Targets(s, e), Entry(e.message, origin))
  {
    assert c in failures <==> c in Failing(s, e);
  }

  lemma BroadcastTarget(s: State, m: Message, c: ConnectionId)
    requires SessionInv(s) && GateInv(s) && MemberInv(s) && c in s.net.writers
    ensures c in Targets(s, Broadcast(m)) <==> c in s.rt.outbound && c in s.past.initLog && !OptedOut(s, c, m)
  {
    if c in s.rt.outbound {
      FlagsAsRequested(s, c);
    }
  }

  lemma AddressedTarget(s: State, d: ConnectionId, m: Message, c: ConnectionId)
    requires SessionInv(s) && GateInv(s) && MemberInv(s) && c in s.net.writers
    requires m.Notification? ==> d in s.past.initLog
    ensures c in Targets(s, ToConnection(d, m)) <==> c == d && c in s.rt.outbound && !OptedOut(s, c, m)
  {
    if c in s.rt.outbound {
      FlagsAsRequested(s, c);
    }
  }

  lemma AddressedIsInitialized(s: State, d: ConnectionId, m: Message, origin: Origin)
    requires RoutingInv(s) && s.rt.pc == Writing(ToConnection(d, m), origin) && m.Notification?
    ensures d in s.past.initLog
  {
    assert FlightInv(s.rt.pc, s.past.accepted, s.past.rewritten, s.past.delivered, Inits(s));
  }

  /**
   * A broadcast goes, once, to each connection the router holds whose `initialize` has succeeded and did not list it,
   * and to nobody else; exactly those that cannot take it and are not to be waited for are disconnected.
   */
  lemma BroadcastReaches(s: State, failures: seq<ConnectionId>, m: Message, origin: Origin, c: ConnectionId)
    requires Reachable(s) && s.rt.pc == Writing(Broadcast(m), origin) && CanRouterWrite(s, failures)
    requires c in s.net.writers
    ensures var meant := c in s.rt.outbound && c in s.past.initLog && !OptedOut(s, c, m);
            Received(s, DoRouterWrite(s, failures), failures, c, meant, Entry(m, origin))
  {
    ReachableMore(s);
    BroadcastTarget(s, m, c);
    WriteReceived(s, failures, Broadcast(m), origin, c);
  }

  /**
   * An addressed message goes, once, to its connection if the router holds it, unless it is a notification that
   * connection did not want.
   */
  lemma AddressedReaches(s: State, failures: seq<ConnectionId>, d: ConnectionId, m: Message, origin: Origin,
                         c: ConnectionId)
    requires Reachable(s) && s.rt.pc == Writing(ToConnection(d, m), origin) && CanRouterWrite(s, failures)
    requires c in s.net.writers
    ensures var meant := c == d && c in s.rt.outbound && !OptedOut(s, c, m);
            Received(s, DoRouterWrite(s, failures), failures, c, meant, Entry(m, origin))
  {
    ReachableMore(s);
    if m.Notification? {
      AddressedIsInitialized(s, d, m, origin);
    }
    AddressedTarget(s, d, m, c);
    WriteReceived(s, failures, ToConnection(d, m), origin, c);
  }

  // ---------- opening and closing ----------

  /** In every run, the control queue leads the router to exactly the connections that are open and have not failed. */
  lemma HeldExactly(s: State)
    requires Reachable(s)
    ensures HeldAfter(s.rt.outbound, s.control)
         == s.past.registered - s.past.closed - Purging(s.proc.pc) - s.past.failed
  {
    ReachableMore(s);
  }

  /** A websocket server neither waits for replies when a connection closes nor ever exits. */
  lemma WebSocketStaysUp(s: State)
    requires Reachable(s) && s.mode.WebSocket?
    ensures !s.proc.pc.DrainWait? && !s.proc.pc.Exited?
  {
    ReachableMore(s);
  }

  /** A connection whose reader is gone has told the processor so, unless that had exited. */
  lemma GoodbyeIsSaid(s: State, c: ConnectionId)
    requires Reachable(s) && c in s.net.writers && c !in s.net.readers
    ensures Closed(c) in s.past.taken + s.events || s.proc.pc.Exited?
  {
    ReachableMore(s);
  }

  /** A lost message is the last one read of its connection. */
  lemma LossEndsReading(s: State, c: ConnectionId, i: nat)
    requires Reachable(s) && c in s.net.intake && i < |s.net.intake[c]| && s.net.intake[c][i].outcome.Lost?
    ensures i == |s.net.intake[c]| - 1 && (c in s.net.readers ==> s.net.readers[c].Finishing?)
  {
    ReachableMore(s);
    assert ReadingEnds(s.net.intake[c], IsReading(s, c));
  }
}
