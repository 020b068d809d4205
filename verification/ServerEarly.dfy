/** Replies the router takes before it has been told of their owner. */
module ServerEarly {
  import opened Prelude
  import opened Protocol
  import opened Server
  import opened ServerInvariants
  import opened ServerShutdown

  /** The router is told of a connection once; until then it neither holds the connection nor has seen it fail. */
  ghost predicate News(control: seq<Control>, outbound: set<ConnectionId>, failed: set<ConnectionId>,
                       registered: set<ConnectionId>)
  {
    && failed <= registered
    && (forall i, j :: 0 <= i < j < |control| && control[i].ControlOpened? ==> control[j] != control[i])
    && (forall c :: ControlOpened(c) in control ==> c !in outbound && c !in failed)
  }

  ghost predicate NewsInv(s: State) { News(s.control, s.rt.outbound, s.past.failed, s.past.registered) }

  /** A reply taken early is in nobody's queue, and cannot get into one while the router holds it. */
  ghost predicate EarlyInv(s: State) {
    forall n :: n in s.past.early ==>
      && n in s.past.rewritten && n < |s.past.accepted| && n !in s.past.delivered
      && s.past.accepted[n].connection in s.past.registered
      && (InFlight(s.rt.pc, n) ==> s.past.accepted[n].connection !in s.rt.outbound)
  }

  lemma NewsRegister(s: State)
    requires NewsInv(s) && LifeInv(s) && s.proc.pc.SendOpened?
    ensures NewsInv(DoRegister(s))
  {
  }

  lemma NewsControl(s: State)
    requires NewsInv(s) && s.control != []
    ensures NewsInv(DoRouterControl(s))
  {
    var rest := s.control[1..];
    assert forall i :: 0 <= i < |rest| ==> rest[i] == s.control[i + 1];
  }

  /** What only the router changes stays, and what is on record stays on record. */
  ghost predicate RouterSame(s: State, t: State) {
    && t.rt == s.rt && t.past.failed == s.past.failed
    && t.past.early == s.past.early && t.past.rewritten == s.past.rewritten && t.past.delivered == s.past.delivered
    && s.past.accepted <= t.past.accepted && s.past.registered <= t.past.registered
  }

  lemma ProcessorLeavesRouter(s: State, step: Step)
    requires Enabled(s, step) && IsProcessorStep(step)
    ensures RouterSame(s, Apply(s, step))
  {
  }

  lemma ConnectionsLeaveRouter(s: State, step: Step)
    requires Enabled(s, step) && !IsProcessorStep(step) && !IsRouterStep(step)
    ensures RouterSame(s, Apply(s, step))
  {
  }

  /** Only the router moves itself, and only it takes and delivers replies. */
  lemma RouterUntouched(s: State, step: Step)
    requires Enabled(s, step) && !IsRouterStep(step)
    ensures RouterSame(s, Apply(s, step))
  {
    if IsProcessorStep(step) {
      ProcessorLeavesRouter(s, step);
    } else {
      ConnectionsLeaveRouter(s, step);
    }
  }

  lemma NewsUntouched(s: State, step: Step)
    requires Enabled(s, step) && !step.RegisterConnection? && !step.RequestClose? && !step.RouterControl?
    requires !step.RouterWrite?
    ensures var t := Apply(s, step);
            t.control == s.control && t.rt.outbound == s.rt.outbound && t.past.failed == s.past.failed
            && t.past.registered == s.past.registered
  {
    if !IsRouterStep(step) {
      RouterUntouched(s, step);
    }
  }

  lemma NewsKept(s: State, step: Step)
    requires LifeInv(s) && NewsInv(s) && Enabled(s, step)
    ensures NewsInv(Apply(s, step))
  {
    match step
    case RegisterConnection => NewsRegister(s);
    case RouterControl => NewsControl(s);
    case RequestClose =>
    case RouterWrite(failures) =>
    case _ => NewsUntouched(s, step);
  }

  lemma EarlyTake(s: State)
    requires MemberInv(s) && NewsInv(s) && RoutingInv(s) && EarlyInv(s) && Enabled(s, RouterTake)
    ensures EarlyInv(DoRouterTake(s))
  {
  }

  lemma EarlyWrite(s: State, failures: seq<ConnectionId>)
    requires RoutingInv(s) && EarlyInv(s) && CanRouterWrite(s, failures)
    ensures EarlyInv(DoRouterWrite(s, failures))
  {
  }

  lemma EarlyUntouched(s: State, step: Step)
    requires Enabled(s, step) && !step.RouterTake? && !step.RouterWrite?
    ensures var t := Apply(s, step);
            && t.past.early == s.past.early && t.past.rewritten == s.past.rewritten
            && t.past.delivered == s.past.delivered
            && s.past.accepted <= t.past.accepted && s.past.registered <= t.past.registered
            && (t.rt.pc.Writing? ==> t.rt.pc == s.rt.pc && t.rt.outbound == s.rt.outbound)
  {
    if !IsRouterStep(step) {
      RouterUntouched(s, step);
    }
  }

  lemma EarlyKept(s: State, step: Step)
    requires MemberInv(s) && NewsInv(s) && RoutingInv(s) && EarlyInv(s) && Enabled(s, step)
    ensures EarlyInv(Apply(s, step))
  {
    match step
    case RouterTake => EarlyTake(s);
    case RouterWrite(failures) => EarlyWrite(s, failures);
    case _ => EarlyUntouched(s, step);
  }

  // ---------- what a connection hears before the router knows it ----------

  predicate OnlyRefusals(log: seq<Entry>) { forall e :: e in log ==> e.origin.Overload? }

  /** The router has yet to be told of the connection. */
  predicate Untold(s: State, c: ConnectionId) { c !in s.past.registered || ControlOpened(c) in s.control }

  ghost predicate SilentInv(s: State) {
    forall c :: c in s.net.writers && Untold(s, c) ==> OnlyRefusals(s.net.writers[c].log)
  }

  /** The writers are the same, or hold the same entries. */
  ghost predicate LogsSame(s: State, t: State) {
    && t.net.writers.Keys == s.net.writers.Keys
    && forall c :: c in s.net.writers ==> t.net.writers[c].log == s.net.writers[c].log
  }

  lemma RouterLeavesLogs(s: State, step: Step)
    requires Enabled(s, step) && IsRouterStep(step) && !step.RouterWrite?
    ensures LogsSame(s, Apply(s, step))
  {
  }

  lemma OthersLeaveLogs(s: State, step: Step)
    requires Enabled(s, step) && !IsRouterStep(step) && !step.Open? && !step.Receive?
    ensures LogsSame(s, Apply(s, step))
  {
  }

  lemma SilentFrame(s: State, t: State)
    requires SilentInv(s) && LogsSame(s, t) && forall c :: c in s.net.writers && Untold(t, c) ==> Untold(s, c)
    ensures SilentInv(t)
  {
  }

  lemma SilentReceive(s: State, c: ConnectionId, m: ClientMessage)
    requires SilentInv(s) && CanReceive(s, c, m)
    ensures SilentInv(DoReceive(s, c, m))
  {
  }

  lemma SilentWrite(s: State, failures: seq<ConnectionId>)
    requires SilentInv(s) && NewsInv(s) && MemberInv(s) && CanRouterWrite(s, failures)
    ensures SilentInv(DoRouterWrite(s, failures))
  {
  }

  /** Nobody becomes untold again. */
  lemma ToldStays(s: State, step: Step, c: ConnectionId)
    requires LifeInv(s) && Enabled(s, step) && !Untold(s, c)
    ensures !Untold(Apply(s, step), c)
  {
    if !step.RegisterConnection? && !step.RequestClose? && !step.RouterControl? && !step.RouterWrite? {
      NewsUntouched(s, step);
    }
  }

  lemma SilentKept(s: State, step: Step)
    requires LifeInv(s) && NewsInv(s) && SilentInv(s) && Enabled(s, step)
    ensures SilentInv(Apply(s, step))
  {
    match step
    case Open =>
    case Receive(c, m) => SilentReceive(s, c, m);
    case RouterWrite(failures) => SilentWrite(s, failures);
    case _ => SilentOther(s, step);
  }

  lemma SilentOther(s: State, step: Step)
    requires LifeInv(s) && SilentInv(s) && Enabled(s, step) && !step.Open? && !step.Receive? && !step.RouterWrite?
    ensures SilentInv(Apply(s, step))
  {
    if IsRouterStep(step) {
      RouterLeavesLogs(s, step);
    } else {
      OthersLeaveLogs(s, step);
    }
    forall c | c in s.net.writers && Untold(Apply(s, step), c)
      ensures Untold(s, c)
    {
      if !Untold(s, c) {
        ToldStays(s, step, c);
      }
    }
    SilentFrame(s, Apply(s, step));
  }

  // ---------- what the record of early replies records ----------

  /** The next envelope is the reply to request `n`, and its owner is still to be announced to the router. */
  predicate NextIsEarly(s: State, n: nat) {
    && s.outgoing != [] && IsEarly(s, s.outgoing[0])
    && OriginOf(s.proc.routes, s.outgoing[0]) == Reply(n)
  }

  /** Step `i` of the run takes the reply to request `n` early. */
  ghost predicate EarlyAt(s: State, steps: seq<Step>, i: nat, n: nat)
    requires Runs(s, steps)
  {
    i < |steps| && steps[i].RouterTake? && Runs(s, steps[..i]) && NextIsEarly(Exec(s, steps[..i]), n)
  }

  lemma EarlyRecorded(s: State, step: Step, n: nat)
    requires Enabled(s, step)
    ensures n in Apply(s, step).past.early <==> n in s.past.early || (step.RouterTake? && NextIsEarly(s, n))
  {
    if !step.RouterTake? && !step.RouterWrite? {
      EarlyUntouched(s, step);
    }
  }

  lemma EarlyAtShifts(s: State, steps: seq<Step>, i: nat, n: nat)
    requires Runs(s, steps) && 0 < i
    ensures EarlyAt(s, steps, i, n) <==> steps != [] && EarlyAt(Apply(s, steps[0]), steps[1..], i - 1, n)
  {
    if i < |steps| {
      assert steps[..i][0] == steps[0] && steps[..i][1..] == steps[1..][..i - 1];
    }
  }

  /** A request is on record as early exactly when some step of the run took its reply early. */
  lemma {:induction false} EarlyExactly(s: State, steps: seq<Step>, n: nat)
    requires Runs(s, steps)
    ensures n in Exec(s, steps).past.early <==> n in s.past.early || exists i: nat :: EarlyAt(s, steps, i, n)
    decreases |steps|
  {
    if steps != [] {
      var t := Apply(s, steps[0]);
      EarlyExactly(t, steps[1..], n);
      EarlyRecorded(s, steps[0], n);
      assert steps[..0] == [];
      assert EarlyAt(s, steps, 0, n) <==> steps[0].RouterTake? && NextIsEarly(s, n);
      forall i: nat | i > 0
        ensures EarlyAt(s, steps, i, n) <==> EarlyAt(t, steps[1..], i - 1, n)
      {
        EarlyAtShifts(s, steps, i, n);
      }
      if i: nat :| EarlyAt(t, steps[1..], i, n) {
        assert EarlyAt(s, steps, i + 1, n);
      }
    }
  }
}
