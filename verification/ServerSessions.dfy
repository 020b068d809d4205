/** A connection's session is what its own `initialize` asked for. */
module ServerSessions {
  import opened Prelude
  import opened Protocol
  import opened Server
  import opened ServerInvariants

  /** The opt-outs listed by the first `initialize` of the connection among the events taken. */
  function Requested(taken: seq<Event>, c: ConnectionId): Option<set<string>> {
    if taken == [] then None
    else
      var before := Requested(taken[..|taken| - 1], c);
      match taken[|taken| - 1]
      case Incoming(d, ClientRequest(_, Initialize(verbs))) => if before.None? && d == c then Some(verbs) else before
      case _ => before
  }

  /** The session a connection is to have: untouched before its `initialize`, and what that asked for after it. */
  function Wanted(requested: Option<set<string>>): Session {
    if requested.Some? then Session(true, requested.value) else Session(false, {})
  }

  /** What the actions make of a session. */
  function AfterActions(session: Session, actions: seq<Action>): Session
    decreases |actions|
  {
    if actions == [] then session
    else
      var next := match actions[0]
                  case SetOptOut(verbs) => session.(optedOut := verbs)
                  case MarkInitialized => session.(initialized := true)
                  case _ => session;
      AfterActions(next, actions[1..])
  }

  predicate Plain(actions: seq<Action>) { forall a :: a in actions ==> a.Emit? || a.Subscribe? }

  /** Once the session is marked, nothing is left that changes it. */
  predicate Orderly(actions: seq<Action>)
    decreases |actions|
  {
    actions == [] || (if actions[0].MarkInitialized? then Plain(actions[1..]) else Orderly(actions[1..]))
  }

  function Pending(pc: ProcessorPc, c: ConnectionId): seq<Action> {
    if pc.Acting? && pc.connection == c then pc.actions else []
  }

  ghost predicate SessionInv(s: State) {
    && (forall c :: c !in s.past.registered ==> Requested(s.past.taken, c).None?)
    && (forall c :: c in s.proc.sessions ==>
          AfterActions(s.proc.sessions[c], Pending(s.proc.pc, c)) == Wanted(Requested(s.past.taken, c)))
    && (forall c :: c in s.past.initLog ==>
          c in s.flags && Requested(s.past.taken, c).Some? && s.flags[c] == Wanted(Requested(s.past.taken, c)))
    && (s.proc.pc.Acting? ==>
          Orderly(s.proc.pc.actions) && (s.proc.pc.connection in s.past.initLog ==> Plain(s.proc.pc.actions)))
  }

  lemma {:induction false} PlainKeeps(session: Session, actions: seq<Action>)
    requires Plain(actions)
    ensures AfterActions(session, actions) == session && Orderly(actions)
    decreases |actions|
  {
    if actions != [] {
      assert actions[0] in actions;
      PlainKeeps(session, actions[1..]);
    }
  }

  lemma RequestedPush(taken: seq<Event>, e: Event, c: ConnectionId)
    ensures Requested(taken + [e], c) ==
            match e
            case Incoming(d, ClientRequest(_, Initialize(verbs))) =>
              if Requested(taken, c).None? && d == c then Some(verbs) else Requested(taken, c)
            case _ => Requested(taken, c)
  {
    assert (taken + [e])[..|taken|] == taken;
  }

  /** What is planned for a request turns the session into what it is to be after that request. */
  lemma PlanSession(s: State, c: ConnectionId, key: RequestId, kind: RequestKind, handler: seq<Action>)
    requires c in s.proc.sessions && Plain(handler)
    ensures var plan := Plan(s, c, key, kind, handler);
            && Orderly(plan) && (s.proc.sessions[c].initialized ==> Plain(plan))
            && AfterActions(s.proc.sessions[c], plan)
               == if kind.Initialize? && !s.proc.sessions[c].initialized then Session(true, kind.optOut)
                  else s.proc.sessions[c]
  {
    var plan, session := Plan(s, c, key, kind, handler), s.proc.sessions[c];
    if kind.Initialize? && !session.initialized {
      var w, verbs := Warnings(c, s.warnings), kind.optOut;
      PlainKeeps(Session(true, verbs), w);
      var one, two := plan[1..], plan[1..][1..];
      assert one[0] == plan[1] && two[0] == plan[2] && two[1..] == w;
      assert AfterActions(Session(false, verbs), two) == AfterActions(Session(true, verbs), two[1..]);
      assert AfterActions(Session(false, verbs), one) == AfterActions(Session(false, verbs), two);
    } else {
      PlainKeeps(session, plan);
    }
  }

  lemma SessionRequest(s: State, t: State, c: ConnectionId, id: RequestId, kind: RequestKind, handler: seq<Action>,
                       actions: seq<Action>)
    requires SessionInv(s) && GateInv(s) && MemberInv(s) && s.proc.pc.Idle? && c in s.proc.sessions
    requires t.past.taken == s.past.taken + [Incoming(c, ClientRequest(id, kind))] && t.proc.pc == Acting(c, actions)
    requires t.proc.sessions == s.proc.sessions && t.flags == s.flags && t.past.initLog == s.past.initLog
    requires t.past.registered == s.past.registered
    requires Orderly(actions) && (s.proc.sessions[c].initialized ==> Plain(actions))
    requires AfterActions(s.proc.sessions[c], actions)
          == if kind.Initialize? && !s.proc.sessions[c].initialized then Session(true, kind.optOut)
             else s.proc.sessions[c]
    ensures SessionInv(t)
  {
    forall d
      ensures Requested(t.past.taken, d) == if kind.Initialize? && d == c && Requested(s.past.taken, c).None?
                                            then Some(kind.optOut) else Requested(s.past.taken, d)
    {
      RequestedPush(s.past.taken, Incoming(c, ClientRequest(id, kind)), d);
    }
    assert AfterActions(s.proc.sessions[c], []) == Wanted(Requested(s.past.taken, c));
    forall d | d in t.proc.sessions
      ensures AfterActions(t.proc.sessions[d], Pending(t.proc.pc, d)) == Wanted(Requested(t.past.taken, d))
    {
      assert AfterActions(s.proc.sessions[d], []) == Wanted(Requested(s.past.taken, d));
    }
  }

  lemma SessionTakeEvent(s: State, handler: seq<Action>)
    requires SessionInv(s) && GateInv(s) && LifeInv(s) && CanTakeEvent(s, handler)
    ensures SessionInv(DoTakeEvent(s, handler))
  {
    var t := DoTakeEvent(s, handler);
    match s.events[0]
    case Incoming(c, ClientRequest(id, kind)) =>
      assert c in s.past.registered;
      if c in s.proc.sessions {
        assert Plain(handler);
        PlanSession(Dequeue(s), c, Key(Accept(s, c, id)), kind, handler);
        SessionRequest(s, t, c, id, kind, handler, t.proc.pc.actions);
      } else {
        SessionUnknown(s, t, s.events[0]);
      }
    case _ => SessionUnknown(s, t, s.events[0]);
  }

  /** An event that plans nothing. */
  lemma SessionUnknown(s: State, t: State, e: Event)
    requires SessionInv(s) && !s.proc.pc.Acting? && !t.proc.pc.Acting? && t.past.taken == s.past.taken + [e]
    requires t.proc.sessions == s.proc.sessions && t.flags == s.flags && t.past.initLog == s.past.initLog
    requires t.past.registered == s.past.registered
    requires e.Incoming? && e.message.ClientRequest? ==>
               e.connection !in s.proc.sessions && e.connection in s.past.registered
    ensures SessionInv(t)
  {
    forall d
      ensures Requested(s.past.taken, d).Some? ==> Requested(t.past.taken, d) == Requested(s.past.taken, d)
      ensures d in s.proc.sessions || d !in s.past.registered ==>
                Requested(t.past.taken, d) == Requested(s.past.taken, d)
    {
      RequestedPush(s.past.taken, e, d);
    }
    forall d | d in t.proc.sessions
      ensures AfterActions(t.proc.sessions[d], Pending(t.proc.pc, d)) == Wanted(Requested(t.past.taken, d))
    {
      assert AfterActions(s.proc.sessions[d], Pending(s.proc.pc, d)) == Wanted(Requested(s.past.taken, d));
    }
  }

  ghost predicate SessionsSame(s: State, t: State) {
    && t.proc.sessions == s.proc.sessions && t.flags == s.flags && t.past.initLog == s.past.initLog
    && t.past.registered == s.past.registered && t.past.taken == s.past.taken
    && (t.proc.pc == s.proc.pc || (!t.proc.pc.Acting? && !s.proc.pc.Acting?))
  }

  lemma SessionFrame(s: State, t: State)
    requires SessionInv(s) && SessionsSame(s, t)
    ensures SessionInv(t)
  {
    forall d | d in t.proc.sessions
      ensures AfterActions(t.proc.sessions[d], Pending(t.proc.pc, d)) == Wanted(Requested(t.past.taken, d))
    {
      assert AfterActions(s.proc.sessions[d], Pending(s.proc.pc, d)) == Wanted(Requested(s.past.taken, d));
    }
  }

  /** One action done: the session has changed as it says, and the rest is still to do. */
  lemma SessionAction(s: State, t: State, c: ConnectionId, actions: seq<Action>, was: Session, now: Session)
    requires SessionInv(s) && GateInv(s) && s.proc.pc == Acting(c, actions) && actions != []
    requires c in s.proc.sessions && s.proc.sessions[c] == was
    requires t.proc.pc == Acting(c, actions[1..])
    requires t.past.taken == s.past.taken && t.past.registered == s.past.registered
    requires t.proc.sessions == s.proc.sessions[c := now] && t.flags == s.flags[c := now]
    requires now == match actions[0]
                    case SetOptOut(verbs) => was.(optedOut := verbs)
                    case MarkInitialized => was.(initialized := true)
                    case _ => was
    requires t.past.initLog == s.past.initLog + if actions[0].MarkInitialized? then [c] else []
    ensures SessionInv(t)
  {
    var r := Requested(s.past.taken, c);
    assert AfterActions(was, actions) == Wanted(r);
    assert actions[0] in actions;
    assert Pending(t.proc.pc, c) == actions[1..] && AfterActions(now, actions[1..]) == Wanted(r);
    if actions[0].MarkInitialized? {
      PlainKeeps(now, actions[1..]);
    }
    forall d | d in t.proc.sessions
      ensures AfterActions(t.proc.sessions[d], Pending(t.proc.pc, d)) == Wanted(Requested(t.past.taken, d))
    {
      assert d != c ==> AfterActions(s.proc.sessions[d], Pending(s.proc.pc, d)) == Wanted(Requested(s.past.taken, d));
    }
    forall d | d in t.past.initLog
      ensures d in t.flags && Requested(t.past.taken, d).Some? && t.flags[d] == Wanted(Requested(t.past.taken, d))
    {
      if d == c && c in s.past.initLog {
        assert now == was;
      }
    }
  }

  lemma SessionAct(s: State)
    requires SessionInv(s) && GateInv(s) && MemberInv(s) && CanAct(s)
    ensures SessionInv(DoAct(s))
  {
    var c, actions := s.proc.pc.connection, s.proc.pc.actions;
    var t := DoAct(s);
    if actions == [] {
      forall d | d in t.proc.sessions
        ensures AfterActions(t.proc.sessions[d], []) == Wanted(Requested(t.past.taken, d))
      {
        assert AfterActions(s.proc.sessions[d], Pending(s.proc.pc, d)) == Wanted(Requested(s.past.taken, d));
      }
    } else {
      assert t.proc.sessions == s.proc.sessions[c := t.proc.sessions[c]];
      assert t.flags == s.flags[c := t.proc.sessions[c]];
      SessionAction(s, t, c, actions, s.proc.sessions[c], t.proc.sessions[c]);
    }
  }

  lemma SessionRegister(s: State)
    requires SessionInv(s) && GateInv(s) && QueueInv(s) && s.proc.pc.SendOpened?
    ensures SessionInv(DoRegister(s))
  {
    var t, c := DoRegister(s), s.proc.pc.connection;
    assert c !in Inits(s);
    forall d | d in t.proc.sessions
      ensures AfterActions(t.proc.sessions[d], Pending(t.proc.pc, d)) == Wanted(Requested(t.past.taken, d))
    {
      assert d != c ==> AfterActions(s.proc.sessions[d], Pending(s.proc.pc, d)) == Wanted(Requested(s.past.taken, d));
    }
  }

  lemma SessionPurge(s: State)
    requires SessionInv(s) && s.proc.pc.Purge?
    ensures SessionInv(DoPurge(s))
  {
    var t := DoPurge(s);
    forall d | d in t.proc.sessions
      ensures AfterActions(t.proc.sessions[d], Pending(t.proc.pc, d)) == Wanted(Requested(t.past.taken, d))
    {
      assert AfterActions(s.proc.sessions[d], Pending(s.proc.pc, d)) == Wanted(Requested(s.past.taken, d));
    }
  }

  lemma RouterSessionsSame(s: State, step: Step)
    requires Enabled(s, step) && IsRouterStep(step)
    ensures SessionsSame(s, Apply(s, step))
  {
  }

  lemma OtherSessionsSame(s: State, step: Step)
    requires Enabled(s, step) && !IsRouterStep(step)
    requires !step.TakeEvent? && !step.Act? && !step.RegisterConnection? && !step.PurgeConnection?
    ensures SessionsSame(s, Apply(s, step))
  {
  }

  lemma SessionOther(s: State, step: Step)
    requires SessionInv(s) && Enabled(s, step)
    requires !step.TakeEvent? && !step.Act? && !step.RegisterConnection? && !step.PurgeConnection?
    ensures SessionInv(Apply(s, step))
  {
    if IsRouterStep(step) {
      RouterSessionsSame(s, step);
    } else {
      OtherSessionsSame(s, step);
    }
    SessionFrame(s, Apply(s, step));
  }

  lemma SessionKept(s: State, step: Step)
    requires SessionInv(s) && GateInv(s) && LifeInv(s) && Enabled(s, step)
    ensures SessionInv(Apply(s, step))
  {
    match step
    case TakeEvent(handler) => SessionTakeEvent(s, handler);
    case Act => SessionAct(s);
    case RegisterConnection => SessionRegister(s);
    case PurgeConnection => SessionPurge(s);
    case _ => SessionOther(s, step);
  }
}
