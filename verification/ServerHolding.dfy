/** Which connections the router ends up holding, and what the mode and the readers promise. */
module ServerHolding {
  import opened Prelude
  import opened Protocol
  import opened Server
  import opened ServerInvariants
  import opened ServerIntake
  import opened ServerEarly

  /** What the router will hold once it has worked off the control queue. */
  function HeldAfter(outbound: set<ConnectionId>, control: seq<Control>): set<ConnectionId>
    decreases |control|
  {
    if control == [] then outbound
    else
      var c := control[0].connection;
      HeldAfter(if control[0].ControlOpened? then outbound + {c} else outbound - {c}, control[1..])
  }

  function Purging(pc: ProcessorPc): set<ConnectionId> { if pc.Purge? then {pc.connection} else {} }

  /** With the control queue worked off, the router holds exactly what is registered and neither closed nor failed. */
  ghost predicate HeldInv(s: State) {
    HeldAfter(s.rt.outbound, s.control)
    == s.past.registered - s.past.closed - Purging(s.proc.pc) - s.past.failed
  }

  lemma {:induction false} HeldPush(outbound: set<ConnectionId>, control: seq<Control>, e: Control)
    ensures HeldAfter(outbound, control + [e]) ==
            if e.ControlOpened? then HeldAfter(outbound, control) + {e.connection}
            else HeldAfter(outbound, control) - {e.connection}
    decreases |control|
  {
    if control == [] {
      assert (control + [e])[1..] == [];
    } else {
      assert (control + [e])[0] == control[0] && (control + [e])[1..] == control[1..] + [e];
      var c := control[0].connection;
      HeldPush(if control[0].ControlOpened? then outbound + {c} else outbound - {c}, control[1..], e);
    }
  }

  lemma {:induction false} HeldLess(outbound: set<ConnectionId>, control: seq<Control>, gone: set<ConnectionId>)
    requires forall c :: c in gone ==> ControlOpened(c) !in control
    ensures HeldAfter(outbound - gone, control) == HeldAfter(outbound, control) - gone
    decreases |control|
  {
    if control != [] {
      var c := control[0].connection;
      var next := if control[0].ControlOpened? then outbound + {c} else outbound - {c};
      assert control[0] in control && forall e :: e in control[1..] ==> e in control;
      HeldLess(next, control[1..], gone);
      assert next - gone == if control[0].ControlOpened? then (outbound - gone) + {c} else (outbound - gone) - {c};
    }
  }

  lemma HeldRegister(s: State)
    requires HeldInv(s) && NewsInv(s) && LifeInv(s) && s.proc.pc.SendOpened?
    ensures HeldInv(DoRegister(s))
  {
    HeldPush(s.rt.outbound, s.control, ControlOpened(s.proc.pc.connection));
  }

  lemma HeldRequestClose(s: State)
    requires HeldInv(s) && s.proc.pc.SendClosed?
    ensures HeldInv(DoRequestClose(s))
  {
    HeldPush(s.rt.outbound, s.control, ControlClosed(s.proc.pc.connection));
  }

  lemma HeldWrite(s: State, failures: seq<ConnectionId>)
    requires HeldInv(s) && NewsInv(s) && CanRouterWrite(s, failures)
    ensures HeldInv(DoRouterWrite(s, failures))
  {
    HeldLess(s.rt.outbound, s.control, Failing(s, s.rt.pc.envelope));
  }

  ghost predicate HoldingSame(s: State, t: State) {
    && t.rt.outbound == s.rt.outbound && t.control == s.control && Purging(t.proc.pc) == Purging(s.proc.pc)
    && t.past.registered == s.past.registered && t.past.closed == s.past.closed && t.past.failed == s.past.failed
  }

  lemma RouterHoldingSame(s: State, step: Step)
    requires Enabled(s, step) && IsRouterStep(step) && !step.RouterControl? && !step.RouterWrite?
    ensures HoldingSame(s, Apply(s, step))
  {
  }

  lemma OtherHoldingSame(s: State, step: Step)
    requires Enabled(s, step) && !IsRouterStep(step)
    requires !step.RegisterConnection? && !step.RequestClose? && !step.PurgeConnection?
    ensures HoldingSame(s, Apply(s, step))
  {
  }

  lemma HeldKept(s: State, step: Step)
    requires HeldInv(s) && NewsInv(s) && LifeInv(s) && Enabled(s, step)
    ensures HeldInv(Apply(s, step))
  {
    match step
    case RegisterConnection => HeldRegister(s);
    case RequestClose => HeldRequestClose(s);
    case PurgeConnection =>
    case RouterControl =>
    case RouterWrite(failures) => HeldWrite(s, failures);
    case _ => HeldOther(s, step);
  }

  lemma HeldOther(s: State, step: Step)
    requires HeldInv(s) && Enabled(s, step) && !step.RouterControl? && !step.RouterWrite?
    requires !step.RegisterConnection? && !step.RequestClose? && !step.PurgeConnection?
    ensures HeldInv(Apply(s, step))
  {
    if IsRouterStep(step) {
      RouterHoldingSame(s, step);
    } else {
      OtherHoldingSame(s, step);
    }
  }

  // ---------- the mode ----------

  /** Only a stdio server waits for replies before it closes, and only it ever exits. */
  ghost predicate ModeInv(s: State) { s.mode.WebSocket? ==> !s.proc.pc.DrainWait? && !s.proc.pc.Exited? }

  lemma ModeRouter(s: State, step: Step)
    requires ModeInv(s) && Enabled(s, step) && IsRouterStep(step)
    ensures ModeInv(Apply(s, step))
  {
  }

  lemma ModeOthers(s: State, step: Step)
    requires ModeInv(s) && Enabled(s, step) && !IsRouterStep(step)
    ensures ModeInv(Apply(s, step))
  {
  }

  // ---------- the readers ----------

  /** A connection whose reader is gone has announced that it closes, while there was a processor to tell. */
  ghost predicate GoodbyeInv(s: State) {
    forall c :: c in s.net.writers && c !in s.net.readers ==> Closed(c) in History(s) || s.proc.pc.Exited?
  }

  /** Nothing ever queued is forgotten, and the processor does not come back. */
  ghost predicate Remembers(s: State, t: State) {
    && (forall e :: e in History(s) ==> e in History(t))
    && (s.proc.pc.Exited? ==> t.proc.pc.Exited?)
    && t.net.writers.Keys == s.net.writers.Keys && t.net.readers.Keys == s.net.readers.Keys
  }

  lemma GoodbyeFrame(s: State, t: State)
    requires GoodbyeInv(s) && Remembers(s, t)
    ensures GoodbyeInv(t)
  {
  }

  lemma RouterRemembers(s: State, step: Step)
    requires Enabled(s, step) && IsRouterStep(step)
    ensures Remembers(s, Apply(s, step))
  {
  }

  lemma OthersRemember(s: State, step: Step)
    requires Enabled(s, step) && !IsRouterStep(step) && !step.Open? && !step.AnnounceClose?
    ensures Remembers(s, Apply(s, step))
  {
    if step.TakeEvent? {
      HistoryPop(s.past.taken, s.events);
    }
  }

  lemma GoodbyeKept(s: State, step: Step)
    requires GoodbyeInv(s) && Enabled(s, step)
    ensures GoodbyeInv(Apply(s, step))
  {
    match step
    case Open => GoodbyeOpen(s);
    case AnnounceClose(c) => GoodbyeSaid(s, c);
    case _ => GoodbyeOther(s, step);
  }

  lemma GoodbyeOpen(s: State)
    requires GoodbyeInv(s)
    ensures GoodbyeInv(DoOpen(s))
  {
    HistoryPush(s, Opened(s.net.nextConnection));
  }

  lemma GoodbyeSaid(s: State, c: ConnectionId)
    requires GoodbyeInv(s)
    ensures GoodbyeInv(DoAnnounceClose(s, c))
  {
    HistoryPush(s, Closed(c));
  }

  lemma GoodbyeOther(s: State, step: Step)
    requires GoodbyeInv(s) && Enabled(s, step) && !step.Open? && !step.AnnounceClose?
    ensures GoodbyeInv(Apply(s, step))
  {
    if IsRouterStep(step) {
      RouterRemembers(s, step);
    } else {
      OthersRemember(s, step);
    }
    GoodbyeFrame(s, Apply(s, step));
  }

  /** Once a message of a connection is lost, nothing more of it is read. */
  predicate ReadingEnds(intake: seq<Intake>, reading: bool) {
    forall i :: 0 <= i < |intake| && intake[i].outcome.Lost? ==> i == |intake| - 1 && !reading
  }

  predicate IsReading(s: State, c: ConnectionId) { c in s.net.readers && s.net.readers[c].Reading? }

  ghost predicate LostInv(s: State) {
    forall c :: c in s.net.intake ==> ReadingEnds(s.net.intake[c], IsReading(s, c))
  }

  ghost predicate ReadsNoMore(s: State, t: State) {
    t.net.intake == s.net.intake && forall c :: IsReading(t, c) ==> IsReading(s, c)
  }

  lemma RouterReadsNoMore(s: State, step: Step)
    requires Enabled(s, step) && IsRouterStep(step)
    ensures ReadsNoMore(s, Apply(s, step))
  {
  }

  lemma OthersReadNoMore(s: State, step: Step)
    requires Enabled(s, step) && !IsRouterStep(step) && !step.Open? && !step.Receive?
    ensures ReadsNoMore(s, Apply(s, step))
  {
  }

  lemma LostReceive(s: State, c: ConnectionId, m: ClientMessage)
    requires LostInv(s) && CanReceive(s, c, m)
    ensures LostInv(DoReceive(s, c, m))
  {
    var t := DoReceive(s, c, m);
    forall d | d in t.net.intake
      ensures ReadingEnds(t.net.intake[d], IsReading(t, d))
    {
      assert ReadingEnds(s.net.intake[d], IsReading(s, d));
    }
  }

  lemma LostOpen(s: State)
    requires LostInv(s)
    ensures LostInv(DoOpen(s))
  {
    var t := DoOpen(s);
    forall d | d in t.net.intake
      ensures ReadingEnds(t.net.intake[d], IsReading(t, d))
    {
      assert d in s.net.intake ==> ReadingEnds(s.net.intake[d], IsReading(s, d));
    }
  }

  lemma LostKept(s: State, step: Step)
    requires LostInv(s) && Enabled(s, step)
    ensures LostInv(Apply(s, step))
  {
    match step
    case Open => LostOpen(s);
    case Receive(c, m) => LostReceive(s, c, m);
    case _ => LostOther(s, step);
  }

  lemma LostOther(s: State, step: Step)
    requires LostInv(s) && Enabled(s, step) && !step.Open? && !step.Receive?
    ensures LostInv(Apply(s, step))
  {
    var t := Apply(s, step);
    if IsRouterStep(step) {
      RouterReadsNoMore(s, step);
    } else {
      OthersReadNoMore(s, step);
    }
    forall d | d in t.net.intake
      ensures ReadingEnds(t.net.intake[d], IsReading(t, d))
    {
      assert ReadingEnds(s.net.intake[d], IsReading(s, d));
    }
  }
}
