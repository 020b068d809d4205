/** The processor and the router never wait for each other in a circle. */
module ServerProgress {
  import opened Prelude
  import opened Protocol
  import opened Server
  import opened ServerInvariants
  import opened ServerShutdown
  import opened ServerTheorems

  predicate WaitsForRoom(s: State) {
    || ((s.proc.pc.SendOpened? || s.proc.pc.SendClosed?) && !Room(s.control))
    || (s.proc.pc.Acting? && s.proc.pc.actions != [] && s.proc.pc.actions[0].Emit? && !Room(s.outgoing))
  }

  predicate WaitsForRoutes(s: State) { s.proc.pc.DrainWait? && HasRoute(s.proc.routes, s.proc.pc.connection) }

  predicate Replied(outgoing: seq<Envelope>, k: RequestId) {
    exists i :: 0 <= i < |outgoing| && IsReplyTo(outgoing[i], k)
  }

  /** Every routed request of `c` has its reply queued: no handler still owes one. */
  ghost predicate AllReplied(s: State, c: ConnectionId) {
    forall k :: k in s.proc.routes && s.proc.routes[k].connection == c ==> Replied(s.outgoing, k)
  }

  /** The steps the router takes on its own, and the stdout writer's. None of them waits for the processor. */
  predicate Service(mode: Mode, step: Step) {
    || step.RouterControl? || step.RouterPoll? || step.RouterWake? || step.RouterTake? || step.RouterWrite?
    || step.RouterFlush? || (step.Drain? && mode.Stdio?)
  }

  lemma Enumerate(items: set<ConnectionId>) returns (order: seq<ConnectionId>)
    ensures Distinct(order) && (set c | c in order) == items
  {
    if items == {} {
      order := [];
    } else {
      var c :| c in items;
      var rest := Enumerate(items - {c});
      order := [c] + rest;
      forall d: ConnectionId
        ensures d in order <==> d in items
      {
        assert d in rest <==> d in (set x | x in rest);
        assert d in rest <==> d in items - {c};
        assert order[0] == c && order[1..] == rest;
      }
    }
  }

  /** Whenever the router has something to do, a router or stdout-writer step is enabled. */
  lemma ServiceEnabled(s: State) returns (step: Step)
    requires !s.rt.pc.Stopped?
    requires s.control != [] || s.outgoing != [] || !s.rt.pc.Polled?
    ensures Service(s.mode, step) && Enabled(s, step)
  {
    match s.rt.pc
    case Select => step := if s.control != [] then RouterControl else RouterPoll;
    case Polled => step := if s.control != [] then RouterWake else RouterTake;
    case Flush => step := RouterFlush;
    case Writing(e, _) =>
      if c :| c in Targets(s, e) && WriteBlocks(s.mode, s.net.writers[c]) {
        step := Drain(c);
      } else {
        var failures := Enumerate(Failing(s, e));
        step := RouterWrite(failures);
      }
  }

  /**
   * In no reachable state are the two tasks blocked on each other: when the processor waits for room, or waits for
   * routes all of whose replies are queued, a router or stdout-writer step is enabled.
   */
  lemma NoMutualWait(s: State)
    requires Reachable(s)
    requires WaitsForRoom(s) || (WaitsForRoutes(s) && AllReplied(s, s.proc.pc.connection))
    ensures exists step :: Service(s.mode, step) && Enabled(s, step)
  {
    ReachableInv(s);
    var step := ServiceEnabled(s);
  }

  // ---------- waiting is finite ----------

  /** The router looks at the control queue again exactly when there is something in it. */
  function Phase(pc: RouterPc, idle: bool): nat {
    match pc
    case Writing(_, _) => 4
    case Flush => 2
    case Select => if idle then 1 else 0
    case Polled => if idle then 0 else 1
    case Stopped => 0
  }

  /** What the stdout writer has yet to drain. */
  function Backlog(s: State): nat {
    if s.mode.Stdio? && 0 in s.net.writers && s.net.writers[0].drained <= |s.net.writers[0].log|
    then |s.net.writers[0].log| - s.net.writers[0].drained else 0
  }

  function Rank(s: State): nat {
    4 * |s.control| + 6 * |s.outgoing| + Phase(s.rt.pc, s.control == [])
    + |s.rt.pendingClosed| + |s.rt.outbound| + Backlog(s)
  }

  lemma {:induction false} DistinctCount(order: seq<ConnectionId>, items: set<ConnectionId>)
    requires Distinct(order) && (set c | c in order) == items
    ensures |order| == |items|
  {
    if order == [] {
      assert items == {};
    } else {
      var rest := order[1..];
      assert (set c | c in rest) == items - {order[0]};
      DistinctCount(rest, items - {order[0]});
    }
  }

  lemma WriteBacklog(s: State, failures: seq<ConnectionId>)
    requires CanRouterWrite(s, failures)
    ensures Backlog(DoRouterWrite(s, failures)) <= Backlog(s) + 1
  {
  }

  lemma WriteRank(s: State, failures: seq<ConnectionId>)
    requires CanRouterWrite(s, failures)
    ensures Rank(DoRouterWrite(s, failures)) < Rank(s)
  {
    WriteBacklog(s, failures);
    var failing := Failing(s, s.rt.pc.envelope);
    DistinctCount(failures, failing);
    assert failing <= s.rt.outbound;
    assert s.rt.outbound == (s.rt.outbound - failing) + failing;
    assert |s.rt.outbound| == |s.rt.outbound - failing| + |failing|;
  }

  lemma ControlRank(s: State)
    requires s.rt.pc.Select? && s.control != []
    ensures Rank(DoRouterControl(s)) < Rank(s)
  {
    var c := s.control[0].connection;
    assert |s.rt.outbound + {c}| <= |s.rt.outbound| + 1;
    assert |s.rt.outbound - {c}| <= |s.rt.outbound|;
  }

  lemma TakeRank(s: State)
    requires s.rt.pc.Polled? && s.outgoing != []
    ensures Rank(DoRouterTake(s)) < Rank(s)
  {
  }

  lemma FlushRank(s: State)
    requires s.rt.pc.Flush?
    ensures Rank(DoRouterFlush(s)) < Rank(s)
  {
  }

  lemma DrainRank(s: State, c: ConnectionId)
    requires QueueInv(s) && s.mode.Stdio? && Enabled(s, Drain(c))
    ensures Rank(DoDrain(s, c)) < Rank(s)
  {
    assert c == 0;
  }

  lemma LookRank(s: State)
    ensures Enabled(s, RouterPoll) ==> Rank(Apply(s, RouterPoll)) < Rank(s)
    ensures Enabled(s, RouterWake) ==> Rank(Apply(s, RouterWake)) < Rank(s)
  {
  }

  lemma ServiceRank(s: State, step: Step)
    requires QueueInv(s) && Enabled(s, step) && Service(s.mode, step)
    ensures Rank(Apply(s, step)) < Rank(s)
  {
    match step
    case RouterWrite(failures) => WriteRank(s, failures);
    case RouterControl => ControlRank(s);
    case RouterTake => TakeRank(s);
    case RouterFlush => FlushRank(s);
    case Drain(c) => DrainRank(s, c);
    case RouterPoll => LookRank(s);
    case RouterWake => LookRank(s);
  }

  lemma ServiceKeepsProcessor(s: State, step: Step)
    requires Enabled(s, step) && Service(s.mode, step)
    ensures Apply(s, step).proc.pc == s.proc.pc && Apply(s, step).mode == s.mode
  {
  }

  /** A run of service steps only is no longer than the rank it starts from. */
  lemma {:induction false} ServiceRunBounded(s: State, steps: seq<Step>)
    requires LifeInv(s) && Runs(s, steps)
    requires forall step :: step in steps ==> Service(s.mode, step)
    ensures |steps| <= Rank(s)
    decreases |steps|
  {
    if steps != [] {
      var t := Apply(s, steps[0]);
      LifeKept(s, steps[0]);
      ServiceRank(s, steps[0]);
      ServiceKeepsProcessor(s, steps[0]);
      ServiceRunBounded(t, steps[1..]);
    }
  }

  lemma RepliesStay(s: State, step: Step, c: ConnectionId)
    requires AllReplied(s, c) && Enabled(s, step) && Service(s.mode, step)
    ensures AllReplied(Apply(s, step), c)
  {
    var t := Apply(s, step);
    forall k | k in t.proc.routes && t.proc.routes[k].connection == c
      ensures Replied(t.outgoing, k)
    {
      assert k in s.proc.routes;
      var i :| 0 <= i < |s.outgoing| && IsReplyTo(s.outgoing[i], k);
      if step.RouterTake? {
        assert i != 0;
        assert t.outgoing[i - 1] == s.outgoing[i];
      } else {
        assert t.outgoing == s.outgoing;
      }
    }
  }

  predicate Waits(s: State) { WaitsForRoom(s) || WaitsForRoutes(s) }

  /** Left to themselves, the router and the stdout writer end every such wait after finitely many steps. */
  lemma {:induction false} WaitEnds(s: State) returns (steps: seq<Step>)
    requires LifeInv(s) && HoldInv(s) && !s.proc.pc.Exited?
    requires WaitsForRoutes(s) ==> AllReplied(s, s.proc.pc.connection)
    ensures Runs(s, steps) && !Waits(Exec(s, steps)) && Exec(s, steps).proc.pc == s.proc.pc
    ensures forall step :: step in steps ==> Service(s.mode, step)
    ensures |steps| <= Rank(s)
    decreases Rank(s)
  {
    if !Waits(s) {
      steps := [];
    } else {
      var step := ServiceEnabled(s);
      var t := Apply(s, step);
      LifeKept(s, step);
      HoldKept(s, step);
      ServiceRank(s, step);
      ServiceKeepsProcessor(s, step);
      if WaitsForRoutes(s) {
        RepliesStay(s, step, s.proc.pc.connection);
      }
      var rest := WaitEnds(t);
      steps := [step] + rest;
      assert steps[1..] == rest;
    }
  }

  lemma {:induction false} ServiceRunKeeps(s: State, steps: seq<Step>)
    requires LifeInv(s) && HoldInv(s) && Runs(s, steps)
    requires forall step :: step in steps ==> Service(s.mode, step)
    requires WaitsForRoutes(s) ==> AllReplied(s, s.proc.pc.connection)
    ensures var t := Exec(s, steps);
            && LifeInv(t) && HoldInv(t) && t.mode == s.mode && t.proc.pc == s.proc.pc
            && (WaitsForRoutes(t) ==> AllReplied(t, t.proc.pc.connection))
    decreases |steps|
  {
    if steps != [] {
      var t := Apply(s, steps[0]);
      assert steps[0] in steps && forall step :: step in steps[1..] ==> step in steps;
      LifeKept(s, steps[0]);
      HoldKept(s, steps[0]);
      ServiceKeepsProcessor(s, steps[0]);
      if WaitsForRoutes(s) {
        RepliesStay(s, steps[0], s.proc.pc.connection);
      } else {
        NoNewRoutes(s, steps[0]);
      }
      ServiceRunKeeps(t, steps[1..]);
    }
  }

  lemma NoNewRoutes(s: State, step: Step)
    requires Enabled(s, step) && Service(s.mode, step)
    ensures var t := Apply(s, step);
            forall k :: k in t.proc.routes ==> k in s.proc.routes && t.proc.routes[k] == s.proc.routes[k]
  {
  }

  /** When the router and the stdout writer can do nothing more, the processor is not waiting for them. */
  lemma NothingLeftToDo(s: State)
    requires HoldInv(s) && !s.proc.pc.Exited?
    requires WaitsForRoutes(s) ==> AllReplied(s, s.proc.pc.connection)
    requires forall step :: Service(s.mode, step) ==> !Enabled(s, step)
    ensures !Waits(s)
  {
    if s.control != [] || s.outgoing != [] || !s.rt.pc.Polled? {
      var step := ServiceEnabled(s);
      assert false;
    }
  }

  /**
   * In every run: whatever the router and the stdout writer do on their own, they stop after boundedly many steps, and
   * when they can do no more the processor's wait is over.
   */
  lemma EveryWaitEnds(s: State, steps: seq<Step>)
    requires Reachable(s) && !s.proc.pc.Exited? && Runs(s, steps)
    requires WaitsForRoutes(s) ==> AllReplied(s, s.proc.pc.connection)
    requires forall step :: step in steps ==> Service(s.mode, step)
    ensures |steps| <= Rank(s)
    ensures (forall step :: Service(s.mode, step) ==> !Enabled(Exec(s, steps), step)) ==> !Waits(Exec(s, steps))
  {
    ReachableInv(s);
    ServiceRunBounded(s, steps);
    ServiceRunKeeps(s, steps);
    if forall step :: Service(s.mode, step) ==> !Enabled(Exec(s, steps), step) {
      NothingLeftToDo(Exec(s, steps));
    }
  }

  // ---------- the route-drain wait ----------

  lemma UnrepliedStays(s: State, step: Step, k: RequestId)
    requires Enabled(s, step) && Service(s.mode, step) && k in s.proc.routes && !Replied(s.outgoing, k)
    ensures var t := Apply(s, step);
            k in t.proc.routes && t.proc.routes[k] == s.proc.routes[k] && !Replied(t.outgoing, k)
  {
    var t := Apply(s, step);
    if step.RouterTake? {
      forall i | 0 <= i < |t.outgoing|
        ensures t.outgoing[i] == s.outgoing[i + 1]
      {
      }
      assert !IsReplyTo(s.outgoing[0], k);
    } else {
      assert t.outgoing == s.outgoing;
    }
  }

  lemma {:induction false} UnrepliedForEver(s: State, steps: seq<Step>, k: RequestId)
    requires Runs(s, steps) && (forall step :: step in steps ==> Service(s.mode, step))
    requires k in s.proc.routes && !Replied(s.outgoing, k)
    ensures var t := Exec(s, steps);
            k in t.proc.routes && t.proc.routes[k] == s.proc.routes[k] && t.proc.pc == s.proc.pc
    decreases |steps|
  {
    if steps != [] {
      assert steps[0] in steps && forall step :: step in steps[1..] ==> step in steps;
      UnrepliedStays(s, steps[0], k);
      ServiceKeepsProcessor(s, steps[0]);
      UnrepliedForEver(Apply(s, steps[0]), steps[1..], k);
    }
  }

  /**
   * The router and the stdout writer end the route-drain wait by themselves exactly when every awaited reply is
   * queued.
   */
  lemma DrainWaitEndsIff(s: State)
    requires Reachable(s) && WaitsForRoutes(s)
    ensures AllReplied(s, s.proc.pc.connection)
       <==> exists steps :: Runs(s, steps) && (forall step :: step in steps ==> Service(s.mode, step))
                            && !WaitsForRoutes(Exec(s, steps))
  {
    if AllReplied(s, s.proc.pc.connection) {
      ReachableInv(s);
      var steps := WaitEnds(s);
    } else {
      forall steps | Runs(s, steps) && forall step :: step in steps ==> Service(s.mode, step)
        ensures WaitsForRoutes(Exec(s, steps))
      {
        StillWaiting(s, steps);
      }
    }
  }

  lemma StillWaiting(s: State, steps: seq<Step>)
    requires WaitsForRoutes(s) && !AllReplied(s, s.proc.pc.connection)
    requires Runs(s, steps) && forall step :: step in steps ==> Service(s.mode, step)
    ensures WaitsForRoutes(Exec(s, steps))
  {
    var k :| k in s.proc.routes && s.proc.routes[k].connection == s.proc.pc.connection && !Replied(s.outgoing, k);
    UnrepliedForEver(s, steps, k);
  }
}
