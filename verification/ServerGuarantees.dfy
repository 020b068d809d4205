/** What clients of the app server can rely on, over all runs. */
module ServerGuarantees {
  import opened Prelude
  import opened Protocol
  import opened Server
  import opened ServerInvariants
  import opened ServerShutdown
  import opened ServerIntake
  import opened ServerEarly
  import opened ServerTheorems

  // ---------- replies ----------

  /** The entry refuses or answers a request of `c` itself, under the id `c` gave it. */
  predicate AnswersOwnRequest(c: ConnectionId, e: Entry, accepted: seq<Route>) {
    e.message.IsReply()
    && (e.origin.Overload?
        || (e.origin.Reply? && e.origin.ordinal < |accepted|
            && accepted[e.origin.ordinal] == Route(c, e.message.id, e.origin.ordinal)))
  }

  /**
   * Every reply in a writer queue is an overload refusal or answers a request of that very connection, under the id
   * the client chose; no request is answered twice; no reply is ever broadcast.
   */
  lemma RepliesReachTheirOwner(s: State)
    requires Reachable(s)
    ensures forall c, k ::
              c in s.net.writers && 0 <= k < |s.net.writers[c].log| && s.net.writers[c].log[k].message.IsReply() ==>
              AnswersOwnRequest(c, s.net.writers[c].log[k], s.past.accepted)
    ensures forall c, k, d, j ::
              && c in s.net.writers && 0 <= k < |s.net.writers[c].log|
              && d in s.net.writers && 0 <= j < |s.net.writers[d].log|
              && s.net.writers[c].log[k].origin.Reply?
              && s.net.writers[c].log[k].origin == s.net.writers[d].log[j].origin
              ==> c == d && k == j
    ensures s.rt.pc.Writing? && s.rt.pc.envelope.Broadcast? ==> !s.rt.pc.envelope.message.IsReply()
  {
    ReachableRouting(s);
    assert LogInv(s.net.writers, s.past.accepted, s.past.rewritten, s.past.delivered, Inits(s));
    forall c, k | c in s.net.writers && 0 <= k < |s.net.writers[c].log|
      ensures EntryOk(c, k, s.net.writers[c].log[k], s.past.accepted, s.past.delivered, Inits(s))
    {
    }
  }

  lemma AccountingShrinks(accepted: seq<Route>, routes: map<RequestId, Route>, rewritten: set<nat>, purged: set<nat>)
    requires Accounting(accepted, routes, rewritten, purged) && accepted != []
    ensures var n := |accepted| - 1;
            Accounting(accepted[..n], routes - {Key(accepted[n])}, rewritten - {n}, purged - {n})
  {
    var n := |accepted| - 1;
    var k := Key(accepted[n]);
    forall m | 0 <= m < n
      ensures Key(accepted[m]) != k
    {
      if Key(accepted[m]) == k {
        KeysDistinct(accepted[m], accepted[n]);
      }
    }
    forall j | j in routes && j != k
      ensures routes[j].ordinal != n
    {
    }
  }

  lemma {:induction false} AccountingCounts(accepted: seq<Route>, routes: map<RequestId, Route>, rewritten: set<nat>,
                                            purged: set<nat>)
    requires Accounting(accepted, routes, rewritten, purged)
    ensures |accepted| == |routes| + |rewritten| + |purged|
    decreases |accepted|
  {
    if accepted == [] {
      assert routes.Keys == {} && rewritten == {} && purged == {};
    } else {
      var n := |accepted| - 1;
      var k := Key(accepted[n]);
      AccountingShrinks(accepted, routes, rewritten, purged);
      AccountingCounts(accepted[..n], routes - {k}, rewritten - {n}, purged - {n});
      assert (routes - {k}).Keys == routes.Keys - {k};
      assert |rewritten - {n}| == |rewritten| - if n in rewritten then 1 else 0;
      assert |purged - {n}| == |purged| - if n in purged then 1 else 0;
      assert |routes.Keys - {k}| == |routes.Keys| - if k in routes then 1 else 0;
    }
  }

  /** Accepted requests = still routed + taken out by the router + purged by a close; the three are disjoint. */
  lemma RequestsConserved(s: State)
    requires Reachable(s)
    ensures |s.past.accepted| == |s.proc.routes| + |s.past.rewritten| + |s.past.purged|
    ensures s.past.rewritten !! s.past.purged
    ensures forall n :: 0 <= n < |s.past.accepted| ==>
              (Key(s.past.accepted[n]) in s.proc.routes <==> n !in s.past.rewritten && n !in s.past.purged)
  {
    ReachableInv(s);
    AccountingCounts(s.past.accepted, s.proc.routes, s.past.rewritten, s.past.purged);
  }

  lemma ClosedGrows(s: State, step: Step)
    requires Enabled(s, step)
    ensures s.past.closed <= Apply(s, step).past.closed
  {
  }

  /** Once a close has purged a connection, no later state routes a request of it, however often it is closed again. */
  lemma {:induction false} ClosedForGood(s: State, c: ConnectionId, steps: seq<Step>)
    requires Inv(s) && c in s.past.closed && Runs(s, steps)
    ensures c in Exec(s, steps).past.closed && !HasRoute(Exec(s, steps).proc.routes, c)
    decreases |steps|
  {
    if steps != [] {
      InvKept(s, steps[0]);
      ClosedGrows(s, steps[0]);
      ClosedForGood(Apply(s, steps[0]), c, steps[1..]);
    } else {
      assert MemberInv(s) && HoldInv(s);
    }
  }

  // ---------- stdio shutdown ----------

  lemma StdioReplyHandedOver(s: State, n: nat)
    requires LifeInv(s) && RoutingInv(s) && HoldInv(s) && StdioInv(s) && s.mode.Stdio? && n < |s.past.accepted|
    requires LetGo(s, s.past.accepted[n].connection)
    ensures var c := s.past.accepted[n].connection;
            n in s.past.delivered || n in s.past.early || (c in s.net.writers && !s.net.writers[c].open)
  {
    var c := s.past.accepted[n].connection;
    if c !in s.past.failed {
      if Key(s.past.accepted[n]) in s.proc.routes {
        RoutedUnderOwnKey(s.past.accepted, s.proc.routes, s.past.rewritten, s.past.purged, n);
        assert false;
      }
      assert n in s.past.rewritten;
    }
  }

  /** The router has stopped, or no longer holds the connection. */
  predicate LetGo(s: State, c: ConnectionId) {
    s.rt.pc.Stopped? || (c in s.past.registered && c !in s.rt.outbound && ControlOpened(c) !in s.control)
  }

  /** The reply to request `n` is or was in its owner's queue, under the id the owner chose. */
  ghost predicate HandedOver(s: State, n: nat)
    requires n < |s.past.accepted|
  {
    var c := s.past.accepted[n].connection;
    c in s.net.writers
    && exists k :: 0 <= k < |s.net.writers[c].log| && s.net.writers[c].log[k].origin == Reply(n)
                   && s.net.writers[c].log[k].message.IsReply()
                   && s.net.writers[c].log[k].message.id == s.past.accepted[n].original
  }

  lemma DeliveredIsHandedOver(s: State, n: nat)
    requires RoutingInv(s) && n < |s.past.accepted|
    ensures n in s.past.delivered <==> HandedOver(s, n)
  {
    if n in s.past.delivered {
      var (d, k) := s.past.delivered[n];
      assert EntryOk(d, k, s.net.writers[d].log[k], s.past.accepted, s.past.delivered, Inits(s));
    }
    var c := s.past.accepted[n].connection;
    if c in s.net.writers {
      forall k | 0 <= k < |s.net.writers[c].log| && s.net.writers[c].log[k].origin == Reply(n)
        ensures n in s.past.delivered
      {
        assert EntryOk(c, k, s.net.writers[c].log[k], s.past.accepted, s.past.delivered, Inits(s));
      }
    }
  }

  /** A reply taken before the router was told of its owner never reaches a queue, in any run and either mode. */
  lemma EarlyIsLost(s: State, n: nat)
    requires Reachable(s) && n in s.past.early
    ensures n < |s.past.accepted| && !HandedOver(s, n)
  {
    ReachableInv(s);
    DeliveredIsHandedOver(s, n);
  }

  /** Only before the router is first told of a connection can a reply to it be taken early: later on, never again. */
  lemma {:induction false} ToldForGood(s: State, steps: seq<Step>, c: ConnectionId)
    requires Inv(s) && !Untold(s, c) && Runs(s, steps)
    ensures !Untold(Exec(s, steps), c)
    ensures forall n :: n in Exec(s, steps).past.early && n !in s.past.early ==>
              n < |Exec(s, steps).past.accepted| && Exec(s, steps).past.accepted[n].connection != c
    decreases |steps|
  {
    if steps != [] {
      var t := Apply(s, steps[0]);
      InvKept(s, steps[0]);
      ToldStays(s, steps[0], c);
      ToldForGood(t, steps[1..], c);
      forall n | n in Exec(s, steps).past.early && n !in s.past.early && n in t.past.early
        ensures n < |Exec(s, steps).past.accepted| && Exec(s, steps).past.accepted[n].connection != c
      {
        NewEarlyIsUntold(s, steps[0], n);
        AcceptedStays(t, steps[1..]);
      }
    }
  }

  /** A reply that is taken early belongs to a connection the router has yet to be told of. */
  lemma NewEarlyIsUntold(s: State, step: Step, n: nat)
    requires Inv(s) && Enabled(s, step) && n in Apply(s, step).past.early && n !in s.past.early
    ensures n < |s.past.accepted| && n < |Apply(s, step).past.accepted|
    ensures Apply(s, step).past.accepted[n] == s.past.accepted[n] && Untold(s, s.past.accepted[n].connection)
  {
    EarlyRecorded(s, step, n);
  }

  lemma {:induction false} AcceptedStays(s: State, steps: seq<Step>)
    requires Runs(s, steps)
    ensures s.past.accepted <= Exec(s, steps).past.accepted
    decreases |steps|
  {
    if steps != [] {
      AcceptedGrows(s, steps[0]);
      AcceptedStays(Apply(s, steps[0]), steps[1..]);
    }
  }

  lemma AcceptedGrows(s: State, step: Step)
    requires Enabled(s, step)
    ensures s.past.accepted <= Apply(s, step).past.accepted
  {
    if !IsRouterStep(step) {
      RouterUntouched(s, step);
    }
  }

  /**
   * What a client can see: once it has been sent anything but an overload refusal, the router has been told of it, and
   * from then on no reply to it is taken early, so none is lost that way.
   */
  lemma HeardMeansTold(s: State, c: ConnectionId, k: nat, steps: seq<Step>)
    requires Reachable(s) && c in s.net.writers && k < |s.net.writers[c].log|
    requires !s.net.writers[c].log[k].origin.Overload?
    requires Runs(s, steps)
    ensures !Untold(s, c)
    ensures forall n :: n in Exec(s, steps).past.early && n !in s.past.early ==>
              n < |Exec(s, steps).past.accepted| && Exec(s, steps).past.accepted[n].connection != c
  {
    ReachableInv(s);
    assert s.net.writers[c].log[k] in s.net.writers[c].log;
    ToldForGood(s, steps, c);
  }

  /**
   * With stdio, once the router has let a connection go: unless its writer has been closed, the reply to each request
   * accepted from it has been handed over, except exactly the replies taken before the router was told of the
   * connection.
   */
  lemma StdioShutdownLosesOnlyEarlyReplies(s: State, n: nat)
    requires Reachable(s) && s.mode.Stdio? && n < |s.past.accepted| && LetGo(s, s.past.accepted[n].connection)
    ensures var c := s.past.accepted[n].connection;
            c in s.net.writers && (s.net.writers[c].open ==> (HandedOver(s, n) <==> n !in s.past.early))
  {
    ReachableInv(s);
    StdioReplyHandedOver(s, n);
    DeliveredIsHandedOver(s, n);
  }

  // ---------- initialization ----------

  /**
   * Before its `initialize` succeeds, a connection is only ever sent replies to its own requests and overload
   * errors.
   */
  lemma GateHolds(s: State, c: ConnectionId)
    requires Reachable(s) && c in s.net.writers
    ensures c !in s.past.initLog ==> forall k :: 0 <= k < |s.net.writers[c].log| ==>
              AnswersOwnRequest(c, s.net.writers[c].log[k], s.past.accepted)
    ensures Distinct(s.past.initLog)
    ensures c in s.proc.sessions ==>
              && c in s.flags && s.flags[c] == s.proc.sessions[c]
              && (s.proc.sessions[c].initialized <==> c in s.past.initLog)
    ensures c in s.proc.listeners ==> c in s.past.initLog
  {
    ReachableRouting(s);
    assert c in s.proc.listeners ==> c in Inits(s);
    forall k | 0 <= k < |s.net.writers[c].log|
      ensures EntryOk(c, k, s.net.writers[c].log[k], s.past.accepted, s.past.delivered, Inits(s))
    {
    }
  }

  lemma NotYetInitialized(s: State, c: ConnectionId)
    requires Reachable(s) && c !in s.past.initLog
    ensures c in s.proc.sessions ==> !s.proc.sessions[c].initialized
  {
    ReachableInv(s);
  }

  lemma SameWithoutHandler(s: State, handler: seq<Action>, other: seq<Action>)
    requires CanTakeEvent(s, handler) && CanTakeEvent(s, other)
    requires var c := s.events[0].connection; c in s.proc.sessions ==> !s.proc.sessions[c].initialized
    ensures DoTakeEvent(s, handler) == DoTakeEvent(s, other)
  {
  }

  /**
   * Until its `initialize` succeeds no handler runs for a connection: whatever a handler would do makes no
   * difference.
   */
  lemma NoHandlerBeforeInitialize(s: State, handler: seq<Action>, other: seq<Action>)
    requires Reachable(s) && CanTakeEvent(s, handler) && CanTakeEvent(s, other)
    requires s.events[0].connection !in s.past.initLog
    ensures DoTakeEvent(s, handler) == DoTakeEvent(s, other)
  {
    NotYetInitialized(s, s.events[0].connection);
    SameWithoutHandler(s, handler, other);
  }

  // ---------- load ----------

  /** Under any load: nothing but requests is ever refused, and queues never exceed their capacity. */
  lemma IntakeFaithful(s: State, c: ConnectionId)
    requires Reachable(s) && c in s.net.writers
    ensures c in s.net.intake
    ensures IncomingOf(c, s.past.taken + s.events) == QueuedOf(s.net.intake[c])
    ensures OverloadsOf(s.net.writers[c].log) == OverloadsFor(RefusedOf(s.net.intake[c]))
    ensures forall x :: x in s.net.intake[c] && x.message.ClientOther? && !s.proc.pc.Exited? ==> x.outcome.Queued?
    ensures |s.events| <= 128 && |s.outgoing| <= 128 && |s.control| <= 128
    ensures 0 <= |s.net.writers[c].log| - s.net.writers[c].drained <= 128
  {
    ReachableInv(s);
    assert IntakeOk(c, History(s), s.net.intake[c], s.net.writers[c].log, s.proc.pc.Exited?);
  }

  /**
   * The router's disconnect notices leave its backlog in the order the failures were seen, none lost, and each of them
   * is, in that order, among the closing events ever queued for the processor.
   */
  lemma NoticesInOrder(s: State)
    requires Reachable(s)
    ensures s.past.disconnects == s.past.notices + s.rt.pendingClosed
    ensures Within(s.past.notices, ClosingsOf(s.past.taken + s.events))
  {
    ReachableInv(s);
  }

  /** A broadcast write appends one copy to each willing target; exactly the failing targets leave the router's map. */
  lemma WriteEffect(s: State, failures: seq<ConnectionId>, c: ConnectionId)
    requires CanRouterWrite(s, failures) && c in s.net.writers
    ensures var Writing(e, origin) := s.rt.pc;
            var t := DoRouterWrite(s, failures);
            && (c in Targets(s, e) && c !in failures ==>
                  t.net.writers[c] == s.net.writers[c].Push(Entry(e.message, origin)))
            && (c !in Targets(s, e) || c in failures ==> t.net.writers[c] == s.net.writers[c])
            && (c in t.rt.outbound <==> c in s.rt.outbound && c !in failures)
  {
    assert c in failures <==> c in Failing(s, s.rt.pc.envelope);
  }

  /** Whatever the state of peer `d`, the others receive the same. */
  lemma SlowPeerIsIsolated(s: State, d: ConnectionId, w: Writer, fs: seq<ConnectionId>, gs: seq<ConnectionId>,
                           c: ConnectionId)
    requires d in s.net.writers && c in s.net.writers && c != d
    requires CanRouterWrite(s, fs)
    requires CanRouterWrite(s.(net := s.net.(writers := s.net.writers[d := w])), gs)
    ensures var t := s.(net := s.net.(writers := s.net.writers[d := w]));
            && DoRouterWrite(t, gs).net.writers[c] == DoRouterWrite(s, fs).net.writers[c]
            && (c in gs <==> c in fs)
  {
    var t := s.(net := s.net.(writers := s.net.writers[d := w]));
    var e := s.rt.pc.envelope;
    assert Targets(t, e) == Targets(s, e);
    assert c in fs <==> c in Failing(s, e);
    assert c in gs <==> c in Failing(t, e);
  }
}
