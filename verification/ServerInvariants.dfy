/** What every step of the app server keeps. */
module ServerInvariants {
  import opened Prelude
  import opened Protocol
  import opened Server

  function Members(log: seq<ConnectionId>): set<ConnectionId> { set c | c in log }

  /** The connections whose `initialize` has succeeded. */
  function Inits(s: State): set<ConnectionId> { Members(s.past.initLog) }

  // ---------- connection lifecycle ----------

  /** In queue order, a connection is announced before anything else is heard of it, and only once. */
  predicate WellAnnounced(events: seq<Event>, known: set<ConnectionId>)
    decreases |events|
  {
    events == []
    || (if events[0].Opened? then
          events[0].connection !in known && WellAnnounced(events[1..], known + {events[0].connection})
        else events[0].connection in known && WellAnnounced(events[1..], known))
  }

  function Announced(events: seq<Event>, known: set<ConnectionId>): set<ConnectionId>
    decreases |events|
  {
    if events == [] then known
    else Announced(events[1..], if events[0].Opened? then known + {events[0].connection} else known)
  }

  lemma {:induction false} Enqueue(events: seq<Event>, known: set<ConnectionId>, e: Event)
    requires WellAnnounced(events, known)
    requires e.Opened? <==> e.connection !in Announced(events, known)
    ensures WellAnnounced(events + [e], known)
    ensures Announced(events + [e], known) == Announced(events, known) + {e.connection}
    decreases |events|
  {
    if events == [] {
      assert (events + [e])[1..] == [];
    } else {
      assert (events + [e])[1..] == events[1..] + [e];
      Enqueue(events[1..], if events[0].Opened? then known + {events[0].connection} else known, e);
    }
  }

  lemma {:induction false} AnnouncedGrows(events: seq<Event>, known: set<ConnectionId>)
    ensures known <= Announced(events, known)
    decreases |events|
  {
    if events != [] {
      AnnouncedGrows(events[1..], if events[0].Opened? then known + {events[0].connection} else known);
    }
  }

  /** Connections whose announcement the processor has taken off the queue. */
  function Known(s: State): set<ConnectionId> {
    s.past.registered + if s.proc.pc.SendOpened? then {s.proc.pc.connection} else {}
  }

  predicate Closing(pc: ProcessorPc, c: ConnectionId) {
    pc == DrainWait(c) || pc == SendClosed(c) || pc == Purge(c)
  }

  ghost predicate QueueInv(s: State) {
    && WellAnnounced(s.events, Known(s))
    && Announced(s.events, Known(s)) == s.net.writers.Keys
    && (s.proc.pc.SendOpened? ==> s.proc.pc.connection !in s.past.registered)
    && s.net.writers.Keys == s.net.intake.Keys
    && s.net.readers.Keys <= s.net.writers.Keys
    && (forall c :: c in s.net.writers ==> c < s.net.nextConnection)
    && (s.mode.Stdio? ==> s.net.nextConnection <= 1)
  }

  ghost predicate MemberInv(s: State) {
    && s.past.registered <= s.flags.Keys
    && s.past.registered <= s.net.writers.Keys
    && s.proc.sessions.Keys <= s.past.registered
    && s.past.closed <= s.past.registered
    && s.past.closed !! s.proc.sessions.Keys
    && s.rt.outbound <= s.past.registered
    && (forall c :: c in s.rt.pendingClosed ==> c in s.past.registered)
    && (forall e :: e in s.control ==> e.connection in s.past.registered)
    && (forall c :: Closing(s.proc.pc, c) ==> c in s.past.registered)
    && (s.proc.pc.Acting? ==> s.proc.pc.connection in s.proc.sessions)
  }

  ghost predicate LifeInv(s: State) { QueueInv(s) && MemberInv(s) }

  lemma LifeOpen(s: State)
    requires LifeInv(s) && Enabled(s, Open)
    ensures LifeInv(DoOpen(s))
  {
    Enqueue(s.events, Known(s), Opened(s.net.nextConnection));
  }

  lemma LifeReceive(s: State, c: ConnectionId, m: ClientMessage)
    requires LifeInv(s) && CanReceive(s, c, m)
    ensures LifeInv(DoReceive(s, c, m))
  {
    if ReceiveOutcome(s, c, m).Queued? {
      Enqueue(s.events, Known(s), Incoming(c, m));
    }
  }

  lemma LifeConnection(s: State, c: ConnectionId)
    requires LifeInv(s)
    ensures Enabled(s, EndOfInput(c)) ==> LifeInv(DoEndOfInput(s, c))
    ensures Enabled(s, AnnounceClose(c)) ==> LifeInv(DoAnnounceClose(s, c))
    ensures Enabled(s, Drain(c)) ==> LifeInv(DoDrain(s, c))
    ensures Enabled(s, CloseWriter(c)) ==> LifeInv(DoCloseWriter(s, c))
  {
    if c in s.net.writers {
      Enqueue(s.events, Known(s), Closed(c));
    }
  }

  lemma LifeTakeEvent(s: State, handler: seq<Action>)
    requires LifeInv(s) && CanTakeEvent(s, handler)
    ensures LifeInv(DoTakeEvent(s, handler))
  {
    AnnouncedGrows(s.events[1..], Known(s));
    assert Known(s) == s.past.registered;
  }

  lemma LifePerform(s: State, c: ConnectionId, action: Action)
    requires LifeInv(s) && c in s.proc.sessions
    ensures LifeInv(Perform(s, c, action))
  {
    assert Known(Perform(s, c, action)) == Known(s);
  }

  lemma LifeAct(s: State)
    requires LifeInv(s) && CanAct(s)
    ensures LifeInv(DoAct(s))
  {
    var c, actions := s.proc.pc.connection, s.proc.pc.actions;
    var pc := if actions == [] then Idle else Acting(c, actions[1..]);
    var t := Goto(s, pc);
    assert Known(t) == Known(s);
    assert LifeInv(t);
    if actions != [] {
      LifePerform(t, c, actions[0]);
    }
  }

  lemma LifeRegister(s: State)
    requires LifeInv(s) && s.proc.pc.SendOpened?
    ensures LifeInv(DoRegister(s))
  {
    AnnouncedGrows(s.events, Known(s));
    assert Known(DoRegister(s)) == Known(s);
  }

  lemma LifeClose(s: State)
    requires LifeInv(s)
    ensures s.proc.pc.DrainWait? ==> LifeInv(Goto(s, SendClosed(s.proc.pc.connection)))
    ensures s.proc.pc.SendClosed? ==> LifeInv(DoRequestClose(s))
    ensures s.proc.pc.Purge? ==> LifeInv(DoPurge(s))
  {
    if s.proc.pc.DrainWait? || s.proc.pc.SendClosed? || s.proc.pc.Purge? {
      assert Closing(s.proc.pc, s.proc.pc.connection);
    }
  }

  lemma LifeRouter(s: State)
    requires LifeInv(s)
    ensures s.control != [] ==> LifeInv(DoRouterControl(s))
    ensures s.outgoing != [] ==> LifeInv(DoRouterTake(s))
    ensures forall pc :: LifeInv(s.(rt := s.rt.(pc := pc)))
  {
  }

  lemma LifeWrite(s: State, failures: seq<ConnectionId>)
    requires LifeInv(s) && CanRouterWrite(s, failures)
    ensures LifeInv(DoRouterWrite(s, failures))
  {
    assert forall c :: c in failures ==> c in Failing(s, s.rt.pc.envelope);
  }

  lemma LifeFlush(s: State)
    requires LifeInv(s)
    ensures LifeInv(DoRouterFlush(s))
  {
    if s.rt.pendingClosed != [] {
      Enqueue(s.events, Known(s), Closed(s.rt.pendingClosed[0]));
    }
  }

  // ---------- accounting of accepted requests ----------

  /** Every accepted request is routed, or its reply was taken out by the router, or a close purged it: exactly one. */
  ghost predicate Accounting(accepted: seq<Route>, routes: map<RequestId, Route>, rewritten: set<nat>, purged: set<nat>)
  {
    && (forall n :: 0 <= n < |accepted| ==> accepted[n].ordinal == n)
    && (forall k :: k in routes ==>
          routes[k].ordinal < |accepted| && accepted[routes[k].ordinal] == routes[k] && Key(routes[k]) == k)
    && (forall n :: n in rewritten || n in purged ==> n < |accepted|)
    && rewritten !! purged
    && (forall n :: 0 <= n < |accepted| ==> (Key(accepted[n]) in routes <==> n !in rewritten && n !in purged))
  }

  lemma KeysDistinct(a: Route, b: Route)
    requires Key(a) == Key(b)
    ensures a.connection == b.connection && a.ordinal == b.ordinal
  {
    InternalIdInjective(a.connection, a.ordinal, b.connection, b.ordinal);
  }

  lemma AccountAccept(accepted: seq<Route>, routes: map<RequestId, Route>, rewritten: set<nat>, purged: set<nat>,
                      r: Route)
    requires Accounting(accepted, routes, rewritten, purged) && r.ordinal == |accepted|
    ensures Accounting(accepted + [r], routes[Key(r) := r], rewritten, purged)
  {
    forall n | 0 <= n < |accepted|
      ensures Key(accepted[n]) != Key(r)
    {
      if Key(accepted[n]) == Key(r) {
        KeysDistinct(accepted[n], r);
      }
    }
  }

  lemma AccountRewrite(accepted: seq<Route>, routes: map<RequestId, Route>, rewritten: set<nat>, purged: set<nat>,
                       k: RequestId)
    requires Accounting(accepted, routes, rewritten, purged) && k in routes
    ensures Accounting(accepted, routes - {k}, rewritten + {routes[k].ordinal}, purged)
  {
    var r := routes[k];
    forall n | 0 <= n < |accepted| && n != r.ordinal
      ensures Key(accepted[n]) != k
    {
      if Key(accepted[n]) == k {
        KeysDistinct(accepted[n], r);
      }
    }
  }

  lemma RoutedUnderOwnKey(accepted: seq<Route>, routes: map<RequestId, Route>, rewritten: set<nat>, purged: set<nat>,
                          n: nat)
    requires Accounting(accepted, routes, rewritten, purged) && n < |accepted| && Key(accepted[n]) in routes
    ensures routes[Key(accepted[n])] == accepted[n]
  {
    KeysDistinct(accepted[n], routes[Key(accepted[n])]);
  }

  lemma AccountPurge(accepted: seq<Route>, routes: map<RequestId, Route>, rewritten: set<nat>, purged: set<nat>,
                     c: ConnectionId)
    requires Accounting(accepted, routes, rewritten, purged)
    ensures Accounting(accepted, Retain(routes, c), rewritten, purged + OrdinalsOf(routes, c))
  {
    forall n | 0 <= n < |accepted|
      ensures n in OrdinalsOf(routes, c) <==> Key(accepted[n]) in routes && accepted[n].connection == c
    {
      if Key(accepted[n]) in routes {
        RoutedUnderOwnKey(accepted, routes, rewritten, purged, n);
      }
      forall k | k in routes && routes[k].ordinal == n
        ensures k == Key(accepted[n])
      {
      }
    }
    var kept, gone := Retain(routes, c), OrdinalsOf(routes, c);
    forall n | 0 <= n < |accepted|
      ensures Key(accepted[n]) in kept <==> n !in rewritten && n !in purged + gone
    {
      if Key(accepted[n]) in routes {
        RoutedUnderOwnKey(accepted, routes, rewritten, purged, n);
      }
    }
  }

  // ---------- envelopes and writer queues ----------

  /** What may still be emitted by the handler the processor is running. */
  predicate ActionsOk(actions: seq<Action>, c: ConnectionId, accepted: seq<Route>, inits: set<ConnectionId>)
    decreases |actions|
  {
    actions == []
    || match actions[0]
       case Emit(e) => EmitOk(e, accepted, inits) && ActionsOk(actions[1..], c, accepted, inits)
       case SetOptOut(_) => ActionsOk(actions[1..], c, accepted, inits)
       case MarkInitialized => c !in inits && ActionsOk(actions[1..], c, accepted, inits + {c})
       case Subscribe => c in inits && ActionsOk(actions[1..], c, accepted, inits)
  }

  ghost predicate SentInv(outgoing: seq<Envelope>, pc: ProcessorPc, accepted: seq<Route>, inits: set<ConnectionId>) {
    && (forall e :: e in outgoing ==> EmitOk(e, accepted, inits))
    && (pc.Acting? ==> ActionsOk(pc.actions, pc.connection, accepted, inits))
  }

  /** The envelope between rewrite and write: a reply is addressed to the request's owner under the owner's id. */
  ghost predicate FlightInv(pc: RouterPc, accepted: seq<Route>, rewritten: set<nat>, delivered: map<nat,
                            (ConnectionId, nat)>,
                            inits: set<ConnectionId>)
  {
    pc.Writing? ==>
      var e := pc.envelope;
      match pc.origin
      case Reply(n) =>
        && n < |accepted| && n in rewritten && n !in delivered
        && e.message.IsReply() && e.ToConnection?
        && e.connection == accepted[n].connection && e.message.id == accepted[n].original
      case Plain => !e.message.IsReply() && (e.ToConnection? ==> e.connection in inits)
      case Overload => false
  }

  predicate EntryOk(c: ConnectionId, k: nat, e: Entry, accepted: seq<Route>, delivered: map<nat, (ConnectionId, nat)>,
                    inits: set<ConnectionId>)
  {
    match e.origin
    case Reply(n) =>
      && e.message.IsReply() && n < |accepted|
      && c == accepted[n].connection && e.message.id == accepted[n].original
      && n in delivered && delivered[n] == (c, k)
    case Overload => e.message.Error?
    case Plain => !e.message.IsReply() && c in inits
  }

  ghost predicate LogInv(writers: map<ConnectionId, Writer>, accepted: seq<Route>, rewritten: set<nat>,
                         delivered: map<nat, (ConnectionId, nat)>, inits: set<ConnectionId>)
  {
    && (forall c, k :: c in writers && 0 <= k < |writers[c].log| ==>
          EntryOk(c, k, writers[c].log[k], accepted, delivered, inits))
    && (forall n :: n in delivered ==>
          && n in rewritten && delivered[n].0 in writers && delivered[n].1 < |writers[delivered[n].0].log|
          && writers[delivered[n].0].log[delivered[n].1].origin == Reply(n))
  }

  ghost predicate RoutingInv(s: State) {
    && Accounting(s.past.accepted, s.proc.routes, s.past.rewritten, s.past.purged)
    && SentInv(s.outgoing, s.proc.pc, s.past.accepted, Inits(s))
    && FlightInv(s.rt.pc, s.past.accepted, s.past.rewritten, s.past.delivered, Inits(s))
    && LogInv(s.net.writers, s.past.accepted, s.past.rewritten, s.past.delivered, Inits(s))
  }

  // ---------- the initialization gate ----------

  /** The router sees exactly the session's flags; a session is initialized at most once. */
  ghost predicate GateInv(s: State) {
    && (forall c :: c in s.proc.sessions ==> c in s.flags && s.flags[c] == s.proc.sessions[c])
    && (forall c :: c in s.flags && s.flags[c].initialized ==> c in s.past.initLog)
    && (forall c :: c in s.past.initLog && c in s.proc.sessions ==> s.proc.sessions[c].initialized)
    && s.proc.listeners <= Inits(s)
    && Inits(s) <= s.past.registered
    && Distinct(s.past.initLog)
  }

  lemma {:induction false} HandlerActions(actions: seq<Action>, c: ConnectionId, accepted: seq<Route>,
                                          listeners: set<ConnectionId>, inits: set<ConnectionId>)
    requires HandlerOk(actions, c, accepted, listeners) && listeners <= inits && c in inits
    ensures ActionsOk(actions, c, accepted, inits)
    decreases |actions|
  {
    if actions != [] {
      assert actions[0] in actions;
      HandlerActions(actions[1..], c, accepted, listeners, inits);
    }
  }

  lemma {:induction false} WarningActions(c: ConnectionId, count: nat, accepted: seq<Route>, inits: set<ConnectionId>)
    requires c in inits
    ensures ActionsOk(Warnings(c, count), c, accepted, inits)
  {
    if count > 0 {
      assert Warnings(c, count)[1..] == Warnings(c, count - 1);
      WarningActions(c, count - 1, accepted, inits);
    }
  }

  lemma PlanActions(s: State, c: ConnectionId, route: Route, kind: RequestKind, handler: seq<Action>,
                    accepted: seq<Route>)
    requires GateInv(s) && c in s.proc.sessions
    requires route in accepted && HandlerOk(handler, c, accepted, s.proc.listeners)
    ensures ActionsOk(Plan(s, c, Key(route), kind, handler), c, accepted, Inits(s))
  {
    assert IsKey(accepted, Key(route));
    var ok := s.proc.sessions[c].initialized;
    if kind.Initialize? && !ok {
      var plan, w := Plan(s, c, Key(route), kind, handler), Warnings(c, s.warnings);
      WarningActions(c, s.warnings, accepted, Inits(s) + {c});
      assert plan[1..][1..][1..] == w;
    } else if kind.Regular? && ok {
      HandlerActions(handler, c, accepted, s.proc.listeners, Inits(s));
    }
  }

  // ---------- routing is kept ----------

  lemma PushEntry(writers: map<ConnectionId, Writer>, accepted: seq<Route>, rewritten: set<nat>,
                  delivered: map<nat, (ConnectionId, nat)>, inits: set<ConnectionId>, targets: set<ConnectionId>,
                  e: Entry)
    requires LogInv(writers, accepted, rewritten, delivered, inits)
    requires e.origin.Plain? && !e.message.IsReply() && targets <= inits
    ensures LogInv(WriteAll(writers, targets, e), accepted, rewritten, delivered, inits)
  {
  }

  lemma PushReply(writers: map<ConnectionId, Writer>, accepted: seq<Route>, rewritten: set<nat>,
                  delivered: map<nat, (ConnectionId, nat)>, inits: set<ConnectionId>, n: nat, m: Message)
    requires LogInv(writers, accepted, rewritten, delivered, inits)
    requires n < |accepted| && n in rewritten && n !in delivered && m.IsReply() && m.id == accepted[n].original
    requires accepted[n].connection in writers && writers[accepted[n].connection].Accepts()
    ensures var c := accepted[n].connection;
            var more := delivered[n := (c, |writers[c].log|)];
            LogInv(WriteAll(writers, {c}, Entry(m, Reply(n))), accepted, rewritten, more, inits)
  {
  }

  lemma RoutingTake(s: State)
    requires RoutingInv(s) && s.outgoing != []
    ensures RoutingInv(DoRouterTake(s))
  {
    var e := s.outgoing[0];
    var t := DoRouterTake(s);
    assert Inits(t) == Inits(s);
    assert EmitOk(e, s.past.accepted, Inits(s));
    assert forall x :: x in t.outgoing ==> x in s.outgoing;
    if e.message.IsReply() {
      var n :| 0 <= n < |s.past.accepted| && Key(s.past.accepted[n]) == e.message.id;
      KeyIsInternal(s.past.accepted[n]);
      if e.message.id in s.proc.routes {
        AccountRewrite(s.past.accepted, s.proc.routes, s.past.rewritten, s.past.purged, e.message.id);
      }
    }
  }

  lemma RoutingWrite(s: State, failures: seq<ConnectionId>)
    requires RoutingInv(s) && GateInv(s) && s.rt.pc.Writing?
    ensures RoutingInv(DoRouterWrite(s, failures))
  {
    var Writing(e, origin) := s.rt.pc;
    var t := DoRouterWrite(s, failures);
    var targets := Targets(s, e);
    assert Inits(t) == Inits(s);
    if origin.Plain? {
      PushEntry(s.net.writers, s.past.accepted, s.past.rewritten, s.past.delivered, Inits(s), targets,
                Entry(e.message, origin));
    } else if e.connection in targets && s.net.writers[e.connection].Accepts() {
      assert targets == {e.connection};
      PushReply(s.net.writers, s.past.accepted, s.past.rewritten, s.past.delivered, Inits(s), origin.ordinal,
                e.message);
    } else {
      assert t.net.writers == s.net.writers;
    }
  }

  lemma RoutingTakeEvent(s: State, handler: seq<Action>)
    requires RoutingInv(s) && GateInv(s) && CanTakeEvent(s, handler)
    ensures RoutingInv(DoTakeEvent(s, handler))
  {
    var t := DoTakeEvent(s, handler);
    assert Inits(t) == Inits(s);
    if t.past.accepted != s.past.accepted {
      var c, id := s.events[0].connection, s.events[0].message.id;
      var route := Accept(s, c, id);
      AccountAccept(s.past.accepted, s.proc.routes, s.past.rewritten, s.past.purged, route);
      PlanActions(Dequeue(s), c, route, s.events[0].message.kind, handler, t.past.accepted);
      RoutingGrows(s, route);
    }
  }

  /** A longer list of accepted requests invalidates nothing said about the shorter one. */
  lemma RoutingGrows(s: State, route: Route)
    requires RoutingInv(s)
    ensures var accepted := s.past.accepted + [route];
            && (forall e :: e in s.outgoing ==> EmitOk(e, accepted, Inits(s)))
            && FlightInv(s.rt.pc, accepted, s.past.rewritten, s.past.delivered, Inits(s))
            && LogInv(s.net.writers, accepted, s.past.rewritten, s.past.delivered, Inits(s))
  {
    var accepted := s.past.accepted + [route];
    forall e | e in s.outgoing
      ensures EmitOk(e, accepted, Inits(s))
    {
      if e.message.IsReply() {
        var n :| 0 <= n < |s.past.accepted| && Key(s.past.accepted[n]) == e.message.id;
        assert accepted[n] == s.past.accepted[n];
      }
    }
    forall c, k | c in s.net.writers && 0 <= k < |s.net.writers[c].log|
      ensures EntryOk(c, k, s.net.writers[c].log[k], accepted, s.past.delivered, Inits(s))
    {
      assert EntryOk(c, k, s.net.writers[c].log[k], s.past.accepted, s.past.delivered, Inits(s));
    }
  }

  lemma RoutingAct(s: State)
    requires RoutingInv(s) && CanAct(s)
    ensures RoutingInv(DoAct(s))
  {
    var t := DoAct(s);
    var c, actions := s.proc.pc.connection, s.proc.pc.actions;
    if actions != [] && actions[0].MarkInitialized? {
      assert Inits(t) == Inits(s) + {c};
      forall d, k | d in t.net.writers && 0 <= k < |t.net.writers[d].log|
        ensures EntryOk(d, k, t.net.writers[d].log[k], t.past.accepted, t.past.delivered, Inits(t))
      {
        assert EntryOk(d, k, s.net.writers[d].log[k], s.past.accepted, s.past.delivered, Inits(s));
      }
    } else {
      assert Inits(t) == Inits(s);
    }
  }

  lemma RoutingReceive(s: State, c: ConnectionId, m: ClientMessage)
    requires RoutingInv(s) && CanReceive(s, c, m)
    ensures RoutingInv(DoReceive(s, c, m))
  {
    assert Inits(DoReceive(s, c, m)) == Inits(s);
  }

  lemma RoutingWriter(s: State, c: ConnectionId)
    requires RoutingInv(s) && c in s.net.writers
    ensures RoutingInv(DoDrain(s, c)) && RoutingInv(DoCloseWriter(s, c))
  {
    assert Inits(DoDrain(s, c)) == Inits(s) == Inits(DoCloseWriter(s, c));
  }

  lemma RoutingOpen(s: State)
    requires RoutingInv(s) && s.net.nextConnection !in s.net.writers
    ensures RoutingInv(DoOpen(s))
  {
    assert Inits(DoOpen(s)) == Inits(s);
  }

  lemma RoutingPurge(s: State)
    requires RoutingInv(s) && s.proc.pc.Purge?
    ensures RoutingInv(DoPurge(s))
  {
    assert Inits(DoPurge(s)) == Inits(s);
    AccountPurge(s.past.accepted, s.proc.routes, s.past.rewritten, s.past.purged, s.proc.pc.connection);
  }

  lemma RoutingEmit(s: State, e: Envelope)
    requires RoutingInv(s) && GateInv(s) && Enabled(s, TaskEmit(e))
    ensures RoutingInv(s.(outgoing := s.outgoing + [e]))
  {
    assert Inits(s.(outgoing := s.outgoing + [e])) == Inits(s);
  }
}
