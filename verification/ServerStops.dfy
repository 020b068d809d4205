/** A stdio server whose input has ended comes to a stop. */
module ServerStops {
  import opened Prelude
  import opened Protocol
  import opened Server
  import opened ServerInvariants
  import opened ServerShutdown
  import opened ServerTheorems
  import opened ServerProgress

  /** The processor's own steps, the router's, and the stdout writer's. */
  predicate Winding(mode: Mode, step: Step) { Service(mode, step) || IsProcessorStep(step) || step.RouterStop? }

  // ---------- work still to be done ----------

  function EventWeight(e: Event, warnings: nat): nat {
    match e
    case Opened(_) => 60
    case Closed(_) => 30
    case Incoming(_, ClientOther(_)) => 1
    case Incoming(_, ClientRequest(_, _)) => 8 * (warnings + 3) + 2
  }

  function EventsWeight(events: seq<Event>, warnings: nat): nat {
    if events == [] then 0 else EventWeight(events[0], warnings) + EventsWeight(events[1..], warnings)
  }

  function ControlWeight(e: Control): nat { if e.ControlOpened? then 45 else 5 }

  function ControlsWeight(control: seq<Control>): nat {
    if control == [] then 0 else ControlWeight(control[0]) + ControlsWeight(control[1..])
  }

  function PcWeight(pc: ProcessorPc): nat {
    match pc
    case Idle => 0
    case Acting(_, actions) => 1 + 8 * |actions|
    case SendOpened(_) => 50
    case DrainWait(_) => 25
    case SendClosed(_) => 20
    case Purge(_) => 10
    case Exited => 0
  }

  /** Every step of winding down does some of this work; what it hands on weighs less than what it takes. */
  function Work(s: State): nat {
    EventsWeight(s.events, s.warnings) + ControlsWeight(s.control) + PcWeight(s.proc.pc) + 6 * |s.outgoing|
    + Phase(s.rt.pc, s.control == []) + 31 * |s.rt.pendingClosed| + 33 * |s.rt.outbound| + Backlog(s)
  }

  lemma {:induction false} EventsPush(events: seq<Event>, e: Event, warnings: nat)
    ensures EventsWeight(events + [e], warnings) == EventsWeight(events, warnings) + EventWeight(e, warnings)
  {
    if events == [] {
      assert (events + [e])[1..] == [];
    } else {
      assert (events + [e])[1..] == events[1..] + [e];
      EventsPush(events[1..], e, warnings);
    }
  }

  lemma {:induction false} ControlsPush(control: seq<Control>, e: Control)
    ensures ControlsWeight(control + [e]) == ControlsWeight(control) + ControlWeight(e)
  {
    if control == [] {
      assert (control + [e])[1..] == [];
    } else {
      assert (control + [e])[1..] == control[1..] + [e];
      ControlsPush(control[1..], e);
    }
  }

  lemma WriteWork(s: State, failures: seq<ConnectionId>)
    requires CanRouterWrite(s, failures)
    ensures Work(DoRouterWrite(s, failures)) < Work(s)
  {
    WriteBacklog(s, failures);
    var failing := Failing(s, s.rt.pc.envelope);
    DistinctCount(failures, failing);
    assert failing <= s.rt.outbound;
    assert s.rt.outbound == (s.rt.outbound - failing) + failing;
    assert |s.rt.outbound| == |s.rt.outbound - failing| + |failing|;
  }

  lemma ControlWork(s: State)
    requires s.rt.pc.Select? && s.control != []
    ensures Work(DoRouterControl(s)) < Work(s)
  {
    var c := s.control[0].connection;
    assert |s.rt.outbound + {c}| <= |s.rt.outbound| + 1;
    assert |s.rt.outbound - {c}| <= |s.rt.outbound|;
  }

  lemma FlushWork(s: State)
    requires s.rt.pc.Flush?
    ensures Work(DoRouterFlush(s)) < Work(s)
  {
    if s.rt.pendingClosed != [] {
      EventsPush(s.events, Closed(s.rt.pendingClosed[0]), s.warnings);
    }
  }

  lemma TakeWork(s: State)
    requires s.rt.pc.Polled? && s.outgoing != []
    ensures Work(DoRouterTake(s)) < Work(s)
  {
  }

  lemma LookWork(s: State)
    ensures Enabled(s, RouterPoll) ==> Work(Apply(s, RouterPoll)) < Work(s)
    ensures Enabled(s, RouterWake) ==> Work(Apply(s, RouterWake)) < Work(s)
  {
  }

  lemma DrainWork(s: State, c: ConnectionId)
    requires QueueInv(s) && s.mode.Stdio? && Enabled(s, Drain(c))
    ensures Work(DoDrain(s, c)) < Work(s)
  {
    assert c == 0;
  }

  lemma ServiceWork(s: State, step: Step)
    requires QueueInv(s) && s.mode.Stdio? && Enabled(s, step) && Service(s.mode, step)
    ensures Work(Apply(s, step)) < Work(s)
  {
    match step
    case RouterWrite(failures) => WriteWork(s, failures);
    case RouterControl => ControlWork(s);
    case RouterTake => TakeWork(s);
    case RouterFlush => FlushWork(s);
    case Drain(c) => DrainWork(s, c);
    case _ => LookWork(s);
  }

  lemma TakeEventWork(s: State, handler: seq<Action>)
    requires s.mode.Stdio? && CanTakeEvent(s, handler) && |handler| <= 1
    ensures Work(DoTakeEvent(s, handler)) < Work(s)
  {
  }

  lemma GotoWork(s: State, pc: ProcessorPc)
    ensures Work(Goto(s, pc)) + PcWeight(s.proc.pc) == Work(s) + PcWeight(pc)
  {
  }

  lemma PerformWork(s: State, c: ConnectionId, action: Action)
    ensures Work(Perform(s, c, action)) <= Work(s) + 6
  {
  }

  lemma ActWork(s: State)
    requires CanAct(s)
    ensures Work(DoAct(s)) < Work(s)
  {
    var c, actions := s.proc.pc.connection, s.proc.pc.actions;
    if actions == [] {
      GotoWork(s, Idle);
    } else {
      GotoWork(s, Acting(c, actions[1..]));
      PerformWork(Goto(s, Acting(c, actions[1..])), c, actions[0]);
    }
  }

  lemma RegisterWork(s: State)
    requires s.proc.pc.SendOpened?
    ensures Work(DoRegister(s)) < Work(s)
  {
    ControlsPush(s.control, ControlOpened(s.proc.pc.connection));
  }

  lemma CloseWork(s: State)
    ensures s.proc.pc.DrainWait? ==> Work(Goto(s, SendClosed(s.proc.pc.connection))) < Work(s)
    ensures s.proc.pc.SendClosed? ==> Work(DoRequestClose(s)) < Work(s)
    ensures s.proc.pc.Purge? ==> Work(DoPurge(s)) < Work(s)
  {
    if s.proc.pc.SendClosed? {
      ControlsPush(s.control, ControlClosed(s.proc.pc.connection));
    }
  }

  // ---------- what stays true on the way ----------

  /** The reply is queued, or the handler at work is about to queue it. */
  predicate Promised(outgoing: seq<Envelope>, pc: ProcessorPc, k: RequestId) {
    || (exists e :: e in outgoing && IsReplyTo(e, k))
    || (pc.Acting? && exists a :: a in pc.actions && a.Emit? && IsReplyTo(a.envelope, k))
  }

  ghost predicate AllPromised(s: State) { forall k :: k in s.proc.routes ==> Promised(s.outgoing, s.proc.pc, k) }

  /** The processor has exited, is closing the connection, or will come to a closing event. */
  ghost predicate EndInSight(s: State) {
    || s.proc.pc.Exited? || s.proc.pc.DrainWait? || s.proc.pc.SendClosed? || s.proc.pc.Purge?
    || exists c :: Closed(c) in s.events
  }

  lemma ServicePromises(s: State, step: Step)
    requires AllPromised(s) && Enabled(s, step) && Service(s.mode, step)
    ensures AllPromised(Apply(s, step))
  {
    ServiceKeepsProcessor(s, step);
    NoNewRoutes(s, step);
    var t := Apply(s, step);
    forall k | k in t.proc.routes
      ensures Promised(t.outgoing, t.proc.pc, k)
    {
      assert Promised(s.outgoing, s.proc.pc, k);
      if e :| e in s.outgoing && IsReplyTo(e, k) {
        if step.RouterTake? {
          assert s.outgoing == [s.outgoing[0]] + s.outgoing[1..];
          assert !IsReplyTo(s.outgoing[0], k);
        }
        assert e in t.outgoing;
      }
    }
  }

  lemma ActPromises(s: State)
    requires AllPromised(s) && CanAct(s)
    ensures AllPromised(DoAct(s))
  {
    var t := DoAct(s);
    var actions := s.proc.pc.actions;
    assert t.proc.routes == s.proc.routes;
    forall k | k in s.proc.routes
      ensures Promised(t.outgoing, t.proc.pc, k)
    {
      assert Promised(s.outgoing, s.proc.pc, k);
      if e :| e in s.outgoing && IsReplyTo(e, k) {
        assert e in t.outgoing;
      } else {
        var a :| a in actions && a.Emit? && IsReplyTo(a.envelope, k);
        assert actions == [actions[0]] + actions[1..];
        if a == actions[0] {
          assert a.envelope in t.outgoing;
        }
      }
    }
  }

  /** A handler that answers its request and does nothing else. */
  function Answer(key: RequestId): seq<Action> { [Emit(Broadcast(Response(key, "")))] }

  lemma PlanAnswers(s: State, c: ConnectionId, key: RequestId, kind: RequestKind)
    requires c in s.proc.sessions
    ensures exists a :: a in Plan(s, c, key, kind, Answer(key)) && a.Emit? && IsReplyTo(a.envelope, key)
  {
    var plan := Plan(s, c, key, kind, Answer(key));
    if kind.Initialize? && !s.proc.sessions[c].initialized {
      assert plan[1] == Emit(Broadcast(Response(key, "userAgent")));
    } else {
      assert plan[0] in plan;
    }
  }

  lemma TakeRequest(s: State, c: ConnectionId, id: RequestId, kind: RequestKind) returns (handler: seq<Action>)
    requires s.proc.pc.Idle? && s.events != [] && s.events[0] == Incoming(c, ClientRequest(id, kind))
    requires AllPromised(s)
    ensures |handler| == 1 && CanTakeEvent(s, handler) && AllPromised(DoTakeEvent(s, handler))
  {
    var route := Accept(s, c, id);
    var accepted := s.past.accepted + [route];
    handler := Answer(Key(route));
    assert Key(accepted[|s.past.accepted|]) == Key(route);
    assert IsKey(accepted, Key(route));
    assert CanTakeEvent(s, handler);
    var t := DoTakeEvent(s, handler);
    if c in s.proc.sessions {
      PlanAnswers(Dequeue(s), c, Key(route), kind);
    }
    forall k | k in t.proc.routes
      ensures Promised(t.outgoing, t.proc.pc, k)
    {
      if k in s.proc.routes && k != Key(route) {
        assert Promised(s.outgoing, s.proc.pc, k);
      }
    }
  }

  /** The next event can be taken, and every request routed after that has its reply promised. */
  lemma TakeNext(s: State) returns (handler: seq<Action>)
    requires s.proc.pc.Idle? && s.events != [] && AllPromised(s)
    ensures |handler| <= 1 && CanTakeEvent(s, handler) && AllPromised(DoTakeEvent(s, handler))
  {
    match s.events[0]
    case Incoming(c, ClientRequest(id, kind)) => handler := TakeRequest(s, c, id, kind);
    case _ =>
      handler := [];
      assert forall k :: k in s.proc.routes ==> Promised(s.outgoing, s.proc.pc, k);
  }

  lemma TakeKeepsEnd(s: State, handler: seq<Action>)
    requires s.mode.Stdio? && CanTakeEvent(s, handler) && EndInSight(s)
    ensures EndInSight(DoTakeEvent(s, handler))
  {
    var c :| Closed(c) in s.events;
    assert s.events == [s.events[0]] + s.events[1..];
    if s.events[0] != Closed(c) && !s.events[0].Closed? {
      assert Closed(c) in DoTakeEvent(s, handler).events;
    }
  }

  lemma ServiceKeepsEnd(s: State, step: Step)
    requires EndInSight(s) && Enabled(s, step) && Service(s.mode, step)
    ensures EndInSight(Apply(s, step))
  {
    ServiceKeepsProcessor(s, step);
    ServiceKeepsEvents(s, step);
  }

  lemma ServiceKeepsEvents(s: State, step: Step)
    requires Enabled(s, step) && Service(s.mode, step)
    ensures s.events <= Apply(s, step).events
  {
  }

  lemma PurgeExits(s: State)
    requires LifeInv(s) && s.mode.Stdio? && s.proc.pc.Purge?
    ensures DoPurge(s).proc.pc.Exited?
  {
    var c := s.proc.pc.connection;
    assert Closing(s.proc.pc, c);
    assert c == 0;
    assert s.proc.sessions - {c} == map[];
  }

  // ---------- one step, and all of them ----------

  ghost predicate OnTheWay(s: State) { s.mode.Stdio? && EndInSight(s) && AllPromised(s) }

  ghost predicate Ready(s: State) { Reachable(s) && OnTheWay(s) }

  /** One step nearer: less work, or stopped. */
  ghost predicate Nearer(s: State, step: Step) {
    && Winding(s.mode, step) && Enabled(s, step)
    && EndInSight(Apply(s, step)) && AllPromised(Apply(s, step)) && Apply(s, step).mode == s.mode
    && (Work(Apply(s, step)) < Work(s) || Apply(s, step).rt.pc.Stopped?)
  }

  lemma Serve(s: State) returns (step: Step)
    requires Ready(s) && !s.rt.pc.Stopped? && (s.control != [] || s.outgoing != [] || !s.rt.pc.Polled?)
    ensures Nearer(s, step)
  {
    step := ServiceEnabled(s);
    ReachableLife(s);
    ServiceWork(s, step);
    ServicePromises(s, step);
    ServiceKeepsEnd(s, step);
    ServiceKeepsProcessor(s, step);
  }

  lemma TakeOne(s: State) returns (step: Step)
    requires OnTheWay(s) && s.proc.pc.Idle?
    ensures Nearer(s, step)
  {
    var handler := TakeNext(s);
    step := TakeEvent(handler);
    TakeEventWork(s, handler);
    TakeKeepsEnd(s, handler);
  }

  lemma ActNearer(s: State)
    requires OnTheWay(s) && CanAct(s)
    ensures Nearer(s, Act)
  {
    ActWork(s);
    ActPromises(s);
  }

  lemma SamePromises(s: State, t: State)
    requires AllPromised(s) && !s.proc.pc.Acting? && t.outgoing == s.outgoing
    requires forall k :: k in t.proc.routes ==> k in s.proc.routes
    ensures AllPromised(t)
  {
    forall k | k in t.proc.routes
      ensures Promised(t.outgoing, t.proc.pc, k)
    {
      assert Promised(s.outgoing, s.proc.pc, k);
    }
  }

  lemma RegisterNearer(s: State)
    requires OnTheWay(s) && Enabled(s, RegisterConnection)
    ensures Nearer(s, RegisterConnection)
  {
    RegisterWork(s);
    SamePromises(s, DoRegister(s));
  }

  lemma RoutesNearer(s: State)
    requires OnTheWay(s) && Enabled(s, RoutesDrained)
    ensures Nearer(s, RoutesDrained)
  {
    CloseWork(s);
    SamePromises(s, Goto(s, SendClosed(s.proc.pc.connection)));
  }

  lemma RequestNearer(s: State)
    requires OnTheWay(s) && Enabled(s, RequestClose)
    ensures Nearer(s, RequestClose)
  {
    CloseWork(s);
    SamePromises(s, DoRequestClose(s));
  }

  lemma PurgeNearer(s: State)
    requires OnTheWay(s) && LifeInv(s) && s.proc.pc.Purge?
    ensures Nearer(s, PurgeConnection)
  {
    CloseWork(s);
    PurgeExits(s);
    SamePromises(s, DoPurge(s));
  }

  lemma WaitedReplyIsQueued(s: State)
    requires AllPromised(s) && s.proc.pc.DrainWait? && HasRoute(s.proc.routes, s.proc.pc.connection)
    ensures s.outgoing != []
  {
    var k :| k in s.proc.routes && s.proc.routes[k].connection == s.proc.pc.connection;
    assert Promised(s.outgoing, s.proc.pc, k);
  }

  lemma ActOne(s: State) returns (step: Step)
    requires Ready(s) && s.proc.pc.Acting?
    ensures Nearer(s, step)
  {
    if CanAct(s) {
      step := Act;
      ActNearer(s);
    } else {
      NotStopped(s);
      step := Serve(s);
    }
  }

  lemma NotStopped(s: State)
    requires Reachable(s) && !s.proc.pc.Exited?
    ensures !s.rt.pc.Stopped?
  {
    ReachableInv(s);
  }

  lemma ReachableLife(s: State)
    requires Reachable(s)
    ensures LifeInv(s)
  {
    ReachableInv(s);
  }

  lemma RegisterOne(s: State) returns (step: Step)
    requires Ready(s) && s.proc.pc.SendOpened?
    ensures Nearer(s, step)
  {
    if Room(s.control) {
      step := RegisterConnection;
      RegisterNearer(s);
    } else {
      NotStopped(s);
      step := Serve(s);
    }
  }

  lemma CloseOne(s: State) returns (step: Step)
    requires Ready(s) && (s.proc.pc.DrainWait? || s.proc.pc.SendClosed? || s.proc.pc.Purge?)
    ensures Nearer(s, step)
  {
    if Enabled(s, RoutesDrained) {
      step := RoutesDrained;
      RoutesNearer(s);
    } else if Enabled(s, RequestClose) {
      step := RequestClose;
      RequestNearer(s);
    } else if s.proc.pc.Purge? {
      step := PurgeConnection;
      ReachableLife(s);
      PurgeNearer(s);
    } else {
      if s.proc.pc.DrainWait? {
        WaitedReplyIsQueued(s);
      }
      NotStopped(s);
      step := Serve(s);
    }
  }

  lemma StopNearer(s: State)
    requires OnTheWay(s) && CanRouterStop(s)
    ensures Nearer(s, RouterStop)
  {
    SamePromises(s, Apply(s, RouterStop));
  }

  lemma StopOne(s: State) returns (step: Step)
    requires Ready(s) && s.proc.pc.Exited? && !s.rt.pc.Stopped?
    ensures Nearer(s, step)
  {
    if CanRouterStop(s) {
      step := RouterStop;
      StopNearer(s);
    } else {
      step := Serve(s);
    }
  }

  lemma OneStep(s: State) returns (step: Step)
    requires Ready(s) && !s.rt.pc.Stopped?
    ensures Nearer(s, step)
  {
    match s.proc.pc
    case Idle => step := TakeOne(s);
    case Acting(_, _) => step := ActOne(s);
    case SendOpened(_) => step := RegisterOne(s);
    case Exited => step := StopOne(s);
    case _ => step := CloseOne(s);
  }

  lemma StaysReady(s: State, step: Step)
    requires Ready(s) && Nearer(s, step)
    ensures Ready(Apply(s, step))
  {
    ReachOne(s, step);
  }

  lemma StepFirst(s: State, step: Step, rest: seq<Step>)
    requires Enabled(s, step) && Runs(Apply(s, step), rest)
    ensures Runs(s, [step] + rest) && Exec(s, [step] + rest) == Exec(Apply(s, step), rest)
  {
    assert ([step] + rest)[1..] == rest;
  }

  lemma {:induction false} WindDown(s: State) returns (steps: seq<Step>)
    requires Ready(s)
    ensures Runs(s, steps) && Exec(s, steps).rt.pc.Stopped?
    ensures |steps| <= Work(s) + 1 && forall step :: step in steps ==> Winding(Stdio, step)
    decreases if s.rt.pc.Stopped? then 0 else 1, Work(s)
  {
    if s.rt.pc.Stopped? {
      steps := [];
    } else {
      var step := OneStep(s);
      StaysReady(s, step);
      var rest := [];
      if !Apply(s, step).rt.pc.Stopped? {
        rest := WindDown(Apply(s, step));
      }
      steps := [step] + rest;
      StepFirst(s, step, rest);
    }
  }

  /**
   * From every state of a stdio server in which the end of input has been announced and no request is without a reply
   * queued or about to be, the processor, the router and the stdout writer can bring the server to a stop by
   * themselves, within a number of steps that can be read off the state.
   */
  lemma ShutdownCompletes(s: State)
    requires Reachable(s) && s.mode.Stdio? && EndInSight(s) && AllPromised(s)
    ensures exists steps :: Runs(s, steps) && Exec(s, steps).rt.pc.Stopped? && |steps| <= Work(s) + 1
                            && forall step :: step in steps ==> Winding(Stdio, step)
  {
    var steps := WindDown(s);
  }
}
