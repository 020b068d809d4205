/** Whole-run theorems about the app server. */
module ServerTheorems {
  import opened Prelude
  import opened Protocol
  import opened Server
  import opened ServerInvariants
  import opened ServerShutdown
  import opened ServerIntake
  import opened ServerEarly

  lemma LifeKept(s: State, step: Step)
    requires LifeInv(s) && Enabled(s, step)
    ensures LifeInv(Apply(s, step))
  {
    match step
    case Open => LifeOpen(s);
    case Receive(c, m) => LifeReceive(s, c, m);
    case EndOfInput(c) => LifeConnection(s, c);
    case AnnounceClose(c) => LifeConnection(s, c);
    case Drain(c) => LifeConnection(s, c);
    case CloseWriter(c) => LifeConnection(s, c);
    case TakeEvent(handler) => LifeTakeEvent(s, handler);
    case Act => LifeAct(s);
    case RegisterConnection => LifeRegister(s);
    case RoutesDrained => LifeClose(s);
    case RequestClose => LifeClose(s);
    case PurgeConnection => LifeClose(s);
    case TaskEmit(e) =>
    case RouterWrite(failures) => LifeWrite(s, failures);
    case RouterFlush => LifeFlush(s);
    case _ => LifeRouter(s);
  }

  lemma GateUntouched(s: State, step: Step)
    requires Enabled(s, step) && !step.Act? && !step.RegisterConnection? && !step.PurgeConnection?
    ensures var t := Apply(s, step);
            && t.proc.sessions == s.proc.sessions && t.flags == s.flags && t.proc.listeners == s.proc.listeners
            && t.past.initLog == s.past.initLog && t.past.registered == s.past.registered
  {
  }

  lemma GateFrame(s: State, t: State)
    requires GateInv(s)
    requires t.proc.sessions == s.proc.sessions && t.flags == s.flags && t.proc.listeners == s.proc.listeners
    requires t.past.initLog == s.past.initLog && t.past.registered == s.past.registered
    ensures GateInv(t)
  {
  }

  lemma GateKept(s: State, step: Step)
    requires LifeInv(s) && RoutingInv(s) && GateInv(s) && Enabled(s, step)
    ensures GateInv(Apply(s, step))
  {
    match step
    case Act => GateAct(s);
    case RegisterConnection => GateRegister(s);
    case PurgeConnection => GatePurge(s);
    case _ =>
      GateUntouched(s, step);
      GateFrame(s, Apply(s, step));
  }

  lemma RoutingKept(s: State, step: Step)
    requires LifeInv(s) && RoutingInv(s) && GateInv(s) && Enabled(s, step)
    ensures RoutingInv(Apply(s, step))
  {
    match step
    case Open => RoutingOpen(s);
    case Receive(c, m) => RoutingReceive(s, c, m);
    case Drain(c) => RoutingWriter(s, c);
    case CloseWriter(c) => RoutingWriter(s, c);
    case TakeEvent(handler) => RoutingTakeEvent(s, handler);
    case Act => RoutingAct(s);
    case PurgeConnection => RoutingPurge(s);
    case TaskEmit(e) => RoutingEmit(s, e);
    case RouterTake => RoutingTake(s);
    case RouterWrite(failures) => RoutingWrite(s, failures);
    case _ =>
  }

  lemma CapacityRouter(s: State, step: Step)
    requires CapacityInv(s) && Enabled(s, step) && IsRouterStep(step)
    ensures CapacityInv(Apply(s, step))
  {
  }

  lemma CapacityOthers(s: State, step: Step)
    requires CapacityInv(s) && Enabled(s, step) && !IsRouterStep(step)
    ensures CapacityInv(Apply(s, step))
  {
  }

  lemma CapacityKept(s: State, step: Step)
    requires CapacityInv(s) && Enabled(s, step)
    ensures CapacityInv(Apply(s, step))
  {
    if IsRouterStep(step) {
      CapacityRouter(s, step);
    } else {
      CapacityOthers(s, step);
    }
  }

  lemma HoldKept(s: State, step: Step)
    requires HoldInv(s) && Enabled(s, step)
    ensures HoldInv(Apply(s, step))
  {
    match step
    case TakeEvent(handler) => HoldTakeEvent(s, handler);
    case Act => HoldProcessor(s);
    case RegisterConnection => HoldProcessor(s);
    case RoutesDrained => HoldProcessor(s);
    case RequestClose => HoldProcessor(s);
    case PurgeConnection => HoldProcessor(s);
    case RouterControl => HoldControl(s);
    case RouterTake => HoldRouter(s, []);
    case RouterWrite(failures) => HoldRouter(s, failures);
    case RouterFlush => HoldRouter(s, []);
    case _ =>
  }

  lemma StdioKept(s: State, step: Step)
    requires LifeInv(s) && RoutingInv(s) && HoldInv(s) && StdioInv(s) && Enabled(s, step)
    ensures StdioInv(Apply(s, step))
  {
    match step
    case Open => StdioConnection(s, 0);
    case Receive(c, m) => StdioReceive(s, c, m);
    case Drain(c) => StdioConnection(s, c);
    case CloseWriter(c) => StdioConnection(s, c);
    case TakeEvent(handler) => StdioTakeEvent(s, handler);
    case Act => StdioAct(s);
    case RegisterConnection => StdioRegister(s);
    case RoutesDrained => StdioClose(s);
    case RequestClose => StdioClose(s);
    case PurgeConnection => StdioClose(s);
    case RouterControl => StdioRouter(s);
    case RouterTake => StdioTake(s);
    case RouterWrite(failures) => StdioWrite(s, failures);
    case RouterFlush => StdioRouter(s);
    case _ =>
  }

  lemma IntakeUntouched(s: State, step: Step)
    requires Enabled(s, step) && !step.Open? && !step.Receive? && !step.AnnounceClose? && !step.RouterFlush?
    requires !step.RouterWrite?
    ensures var t := Apply(s, step);
            && t.net.intake == s.net.intake && t.net.writers.Keys == s.net.writers.Keys
            && (forall c :: c in s.net.writers ==> t.net.writers[c].log == s.net.writers[c].log)
            && History(t) == History(s) && (s.proc.pc.Exited? ==> t.proc.pc.Exited?)
  {
    if step.TakeEvent? {
      HistoryPop(s.past.taken, s.events);
    }
  }

  lemma IntakeFrame(s: State, t: State)
    requires IntakeInv(s)
    requires t.net.intake == s.net.intake && t.net.writers.Keys == s.net.writers.Keys
    requires forall c :: c in s.net.writers ==> t.net.writers[c].log == s.net.writers[c].log
    requires History(t) == History(s) && (s.proc.pc.Exited? ==> t.proc.pc.Exited?)
    ensures IntakeInv(t)
  {
    forall c | c in t.net.intake
      ensures IntakeOk(c, History(t), t.net.intake[c], t.net.writers[c].log, t.proc.pc.Exited?)
    {
      assert IntakeOk(c, History(s), s.net.intake[c], s.net.writers[c].log, s.proc.pc.Exited?);
    }
  }

  lemma IntakeOther(s: State, step: Step)
    requires IntakeInv(s) && Enabled(s, step)
    requires !step.Open? && !step.Receive? && !step.AnnounceClose? && !step.RouterFlush? && !step.RouterWrite?
    ensures IntakeInv(Apply(s, step))
  {
    IntakeUntouched(s, step);
    IntakeFrame(s, Apply(s, step));
  }

  lemma IntakeOpen(s: State)
    requires LifeInv(s) && IntakeInv(s) && Enabled(s, Open)
    ensures IntakeInv(DoOpen(s))
  {
    NetOpen(s.net, History(s), s.net.nextConnection, DoOpen(s).net);
    HistoryPush(s, Opened(s.net.nextConnection));
  }

  lemma IntakeClosed(s: State, c: ConnectionId)
    requires LifeInv(s) && IntakeInv(s) && Enabled(s, AnnounceClose(c))
    ensures IntakeInv(DoAnnounceClose(s, c))
  {
    NetEvent(s.net, History(s), s.proc.pc.Exited?, Closed(c));
    HistoryPush(s, Closed(c));
  }

  lemma IntakeFlush(s: State)
    requires LifeInv(s) && IntakeInv(s) && Enabled(s, RouterFlush)
    ensures IntakeInv(DoRouterFlush(s))
  {
    if s.rt.pendingClosed != [] {
      NetEvent(s.net, History(s), s.proc.pc.Exited?, Closed(s.rt.pendingClosed[0]));
      HistoryPush(s, Closed(s.rt.pendingClosed[0]));
    }
  }

  lemma IntakeKept(s: State, step: Step)
    requires LifeInv(s) && RoutingInv(s) && IntakeInv(s) && Enabled(s, step)
    ensures IntakeInv(Apply(s, step))
  {
    match step
    case Open => IntakeOpen(s);
    case Receive(c, m) => IntakeReceive(s, c, m);
    case AnnounceClose(c) => IntakeClosed(s, c);
    case RouterWrite(failures) => IntakeWrite(s, failures);
    case RouterFlush => IntakeFlush(s);
    case _ => IntakeOther(s, step);
  }

  // ---------- the inductive invariant and its runs ----------

  ghost predicate Inv(s: State) {
    && LifeInv(s) && RoutingInv(s) && GateInv(s) && CapacityInv(s)
    && HoldInv(s) && NewsInv(s) && EarlyInv(s) && SilentInv(s) && StdioInv(s) && IntakeInv(s) && NoticeInv(s)
  }

  lemma InitRouting(mode: Mode, warnings: nat)
    ensures var s := Init(mode, warnings); LifeInv(s) && RoutingInv(s) && GateInv(s) && CapacityInv(s)
  {
  }

  lemma InitShutdown(mode: Mode, warnings: nat)
    ensures var s := Init(mode, warnings); HoldInv(s) && NewsInv(s) && EarlyInv(s) && SilentInv(s) && StdioInv(s)
  {
  }

  lemma InitIntake(mode: Mode, warnings: nat)
    ensures var s := Init(mode, warnings); IntakeInv(s) && NoticeInv(s)
  {
  }

  lemma InitInv(mode: Mode, warnings: nat)
    ensures Inv(Init(mode, warnings))
  {
    InitRouting(mode, warnings);
    InitShutdown(mode, warnings);
    InitIntake(mode, warnings);
  }

  /** No step of any task, in whatever interleaving, breaks the invariant. */
  lemma InvKept(s: State, step: Step)
    requires Inv(s) && Enabled(s, step)
    ensures Inv(Apply(s, step))
  {
    LifeKept(s, step);
    RoutingKept(s, step);
    GateKept(s, step);
    CapacityKept(s, step);
    HoldKept(s, step);
    NewsKept(s, step);
    EarlyKept(s, step);
    SilentKept(s, step);
    StdioKept(s, step);
    IntakeKept(s, step);
    NoticeKept(s, step);
  }

  lemma {:induction false} RunKeepsInv(s: State, steps: seq<Step>)
    requires Inv(s) && Runs(s, steps)
    ensures Inv(Exec(s, steps))
    decreases |steps|
  {
    if steps != [] {
      InvKept(s, steps[0]);
      RunKeepsInv(Apply(s, steps[0]), steps[1..]);
    }
  }

  lemma ReachableInv(s: State)
    requires Reachable(s)
    ensures Inv(s)
  {
    var mode, warnings: nat, steps :|
      Runs(Init(mode, warnings), steps) && Exec(Init(mode, warnings), steps) == s;
    InitInv(mode, warnings);
    RunKeepsInv(Init(mode, warnings), steps);
  }

  /** The part of the invariant that speaks of routes, writer queues and the gate. */
  lemma ReachableRouting(s: State)
    requires Reachable(s)
    ensures RoutingInv(s) && GateInv(s)
  {
    ReachableInv(s);
  }

  lemma {:induction false} ExecOne(s: State, steps: seq<Step>, step: Step)
    requires Runs(s, steps) && Enabled(Exec(s, steps), step)
    ensures Runs(s, steps + [step]) && Exec(s, steps + [step]) == Apply(Exec(s, steps), step)
    decreases |steps|
  {
    if steps == [] {
      assert (steps + [step])[1..] == [];
    } else {
      assert (steps + [step])[0] == steps[0] && (steps + [step])[1..] == steps[1..] + [step];
      ExecOne(Apply(s, steps[0]), steps[1..], step);
    }
  }

  lemma ReachOne(s: State, step: Step)
    requires Reachable(s) && Enabled(s, step)
    ensures Reachable(Apply(s, step))
  {
    var mode, warnings: nat, steps :| Runs(Init(mode, warnings), steps) && Exec(Init(mode, warnings), steps) == s;
    ExecOne(Init(mode, warnings), steps, step);
  }
}
