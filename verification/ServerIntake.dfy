/** No load makes a reader lose, reorder or doubly answer what a client sent. */
module ServerIntake {
  import opened Prelude
  import opened Protocol
  import opened Server
  import opened ServerInvariants

  /** The messages of connection `c` among the given events, oldest first. */
  function IncomingOf(c: ConnectionId, events: seq<Event>): seq<ClientMessage> {
    if events == [] then []
    else
      var e := events[|events| - 1];
      IncomingOf(c, events[..|events| - 1]) + if e.Incoming? && e.connection == c then [e.message] else []
  }

  function QueuedOf(intake: seq<Intake>): seq<ClientMessage> {
    if intake == [] then []
    else
      var x := intake[|intake| - 1];
      QueuedOf(intake[..|intake| - 1]) + if x.outcome.Queued? then [x.message] else []
  }

  function RefusedOf(intake: seq<Intake>): seq<ClientMessage> {
    if intake == [] then []
    else
      var x := intake[|intake| - 1];
      RefusedOf(intake[..|intake| - 1]) + if x.outcome.Refused? then [x.message] else []
  }

  /** The overload errors among the given entries, oldest first. */
  function OverloadsOf(log: seq<Entry>): seq<Message> {
    if log == [] then []
    else
      var e := log[|log| - 1];
      OverloadsOf(log[..|log| - 1]) + if e.origin.Overload? then [e.message] else []
  }

  function OverloadsFor(refused: seq<ClientMessage>): seq<Message> {
    if refused == [] then []
    else
      var m := refused[|refused| - 1];
      OverloadsFor(refused[..|refused| - 1])
      + if m.ClientRequest? then [Error(m.id, "Server overloaded; retry later.")] else []
  }

  /**
   * For one connection: what was queued is exactly what its reader decoded and the queue accepted, in order, and the
   * overload errors it was sent answer exactly its refused requests, in order.
   */
  ghost predicate IntakeOk(c: ConnectionId, events: seq<Event>, intake: seq<Intake>, log: seq<Entry>, exited: bool) {
    && IncomingOf(c, events) == QueuedOf(intake)
    && OverloadsOf(log) == OverloadsFor(RefusedOf(intake))
    && (forall x :: x in intake && x.message.ClientOther? ==> x.outcome.Queued? || (x.outcome.Lost? && exited))
  }

  /** `history` holds every event ever queued, taken by the processor or not. */
  ghost predicate IntakeNet(net: Net, history: seq<Event>, exited: bool) {
    && net.intake.Keys == net.writers.Keys
    && (forall e :: e in history ==> e.connection in net.intake)
    && (forall c :: c in net.intake ==> IntakeOk(c, history, net.intake[c], net.writers[c].log, exited))
  }

  function History(s: State): seq<Event> { s.past.taken + s.events }

  ghost predicate IntakeInv(s: State) { IntakeNet(s.net, History(s), s.proc.pc.Exited?) }

  lemma {:induction false} IncomingOfStranger(c: ConnectionId, events: seq<Event>)
    requires forall e :: e in events ==> e.connection != c
    ensures IncomingOf(c, events) == []
  {
    if events != [] {
      assert events[|events| - 1] in events;
      IncomingOfStranger(c, events[..|events| - 1]);
    }
  }

  lemma IncomingOfPush(c: ConnectionId, events: seq<Event>, e: Event)
    ensures IncomingOf(c, events + [e])
         == IncomingOf(c, events) + if e.Incoming? && e.connection == c then [e.message] else []
  {
    assert (events + [e])[..|events|] == events;
  }

  lemma OverloadsOfPush(log: seq<Entry>, e: Entry)
    ensures OverloadsOf(log + [e]) == OverloadsOf(log) + if e.origin.Overload? then [e.message] else []
  {
    assert (log + [e])[..|log|] == log;
  }

  lemma IntakePush(intake: seq<Intake>, x: Intake)
    ensures QueuedOf(intake + [x]) == QueuedOf(intake) + if x.outcome.Queued? then [x.message] else []
    ensures x.outcome.Refused? && x.message.ClientRequest? ==>
              OverloadsFor(RefusedOf(intake + [x]))
              == OverloadsFor(RefusedOf(intake)) + [Error(x.message.id, "Server overloaded; retry later.")]
    ensures !x.outcome.Refused? ==> RefusedOf(intake + [x]) == RefusedOf(intake)
  {
    assert (intake + [x])[..|intake|] == intake;
    var refused := RefusedOf(intake);
    assert (refused + [x.message])[..|refused|] == refused;
  }

  lemma HistoryPush(s: State, e: Event)
    ensures s.past.taken + (s.events + [e]) == History(s) + [e]
  {
  }

  lemma HistoryPop(taken: seq<Event>, events: seq<Event>)
    requires events != []
    ensures (taken + [events[0]]) + events[1..] == taken + events
  {
  }

  lemma NetEvent(net: Net, history: seq<Event>, exited: bool, e: Event)
    requires IntakeNet(net, history, exited) && e.connection in net.intake && !e.Incoming?
    ensures IntakeNet(net, history + [e], exited)
  {
    forall c | c in net.intake
      ensures IntakeOk(c, history + [e], net.intake[c], net.writers[c].log, exited)
    {
      IncomingOfPush(c, history, e);
    }
  }

  lemma QueuedOk(c: ConnectionId, history: seq<Event>, intake: seq<Intake>, log: seq<Entry>, m: ClientMessage)
    requires IntakeOk(c, history, intake, log, false)
    ensures IntakeOk(c, history + [Incoming(c, m)], intake + [Intake(m, Queued)], log, false)
  {
    IntakePush(intake, Intake(m, Queued));
    IncomingOfPush(c, history, Incoming(c, m));
  }

  lemma OtherOk(c: ConnectionId, d: ConnectionId, history: seq<Event>, intake: seq<Intake>, log: seq<Entry>,
                m: ClientMessage)
    requires IntakeOk(d, history, intake, log, false) && c != d
    ensures IntakeOk(d, history + [Incoming(c, m)], intake, log, false)
  {
    IncomingOfPush(d, history, Incoming(c, m));
  }

  lemma NetQueued(net: Net, history: seq<Event>, c: ConnectionId, m: ClientMessage)
    requires IntakeNet(net, history, false) && c in net.intake
    ensures var after := net.(intake := net.intake[c := net.intake[c] + [Intake(m, Queued)]]);
            IntakeNet(after, history + [Incoming(c, m)], false)
  {
    QueuedOk(c, history, net.intake[c], net.writers[c].log, m);
    forall d | d in net.intake && d != c
      ensures IntakeOk(d, history + [Incoming(c, m)], net.intake[d], net.writers[d].log, false)
    {
      OtherOk(c, d, history, net.intake[d], net.writers[d].log, m);
    }
  }

  lemma RefusedOk(c: ConnectionId, history: seq<Event>, intake: seq<Intake>, log: seq<Entry>, m: ClientMessage)
    requires IntakeOk(c, history, intake, log, false) && m.ClientRequest?
    ensures IntakeOk(c, history, intake + [Intake(m, Refused)], log + [OverloadEntry(m.id)], false)
  {
    IntakePush(intake, Intake(m, Refused));
    OverloadsOfPush(log, OverloadEntry(m.id));
  }

  lemma NetRefused(net: Net, history: seq<Event>, c: ConnectionId, m: ClientMessage)
    requires IntakeNet(net, history, false) && c in net.intake && m.ClientRequest?
    ensures IntakeNet(net.(intake := net.intake[c := net.intake[c] + [Intake(m, Refused)]],
                           writers := net.writers[c := net.writers[c].Push(OverloadEntry(m.id))]), history, false)
  {
    RefusedOk(c, history, net.intake[c], net.writers[c].log, m);
  }

  lemma NetPassed(net: Net, history: seq<Event>, exited: bool, c: ConnectionId, m: ClientMessage, outcome: Outcome)
    requires IntakeNet(net, history, exited) && c in net.intake
    requires outcome.Dropped? || outcome.Lost?
    requires m.ClientOther? ==> outcome.Lost? && exited
    ensures IntakeNet(net.(intake := net.intake[c := net.intake[c] + [Intake(m, outcome)]]), history, exited)
  {
    IntakePush(net.intake[c], Intake(m, outcome));
  }

  lemma NewcomerOk(c: ConnectionId, history: seq<Event>)
    requires forall e :: e in history ==> e.connection != c
    ensures IntakeOk(c, history + [Opened(c)], [], [], false)
  {
    IncomingOfStranger(c, history);
    IncomingOfPush(c, history, Opened(c));
  }

  lemma OthersOk(net: Net, history: seq<Event>, c: ConnectionId, d: ConnectionId)
    requires IntakeNet(net, history, false) && d in net.intake
    ensures IntakeOk(d, history + [Opened(c)], net.intake[d], net.writers[d].log, false)
  {
    IncomingOfPush(d, history, Opened(c));
  }

  lemma NetOpen(net: Net, history: seq<Event>, c: ConnectionId, after: Net)
    requires IntakeNet(net, history, false) && c !in net.writers
    requires after.intake == net.intake[c := []] && after.writers == net.writers[c := Writer([], 0, true)]
    ensures IntakeNet(after, history + [Opened(c)], false)
  {
    NewcomerOk(c, history);
    forall d | d in after.intake
      ensures IntakeOk(d, history + [Opened(c)], after.intake[d], after.writers[d].log, false)
    {
      if d != c {
        OthersOk(net, history, c, d);
      }
    }
  }

  lemma IntakeReceive(s: State, c: ConnectionId, m: ClientMessage)
    requires IntakeInv(s) && CanReceive(s, c, m)
    ensures IntakeInv(DoReceive(s, c, m))
  {
    var outcome := ReceiveOutcome(s, c, m);
    match outcome
    case Queued =>
      NetQueued(s.net, History(s), c, m);
      HistoryPush(s, Incoming(c, m));
    case Refused => NetRefused(s.net, History(s), c, m);
    case _ => NetPassed(s.net, History(s), s.proc.pc.Exited?, c, m, outcome);
  }

  lemma IntakeWrite(s: State, failures: seq<ConnectionId>)
    requires IntakeInv(s) && s.rt.pc.Writing? && !s.rt.pc.origin.Overload?
    ensures IntakeInv(DoRouterWrite(s, failures))
  {
    var t := DoRouterWrite(s, failures);
    var e := Entry(s.rt.pc.envelope.message, s.rt.pc.origin);
    forall c | c in s.net.writers
      ensures OverloadsOf(t.net.writers[c].log) == OverloadsOf(s.net.writers[c].log)
    {
      OverloadsOfPush(s.net.writers[c].log, e);
    }
  }

  // ---------- closing notices ----------

  /** The connections of the closing events, oldest first. */
  function ClosingsOf(events: seq<Event>): seq<ConnectionId> {
    if events == [] then []
    else
      var e := events[|events| - 1];
      ClosingsOf(events[..|events| - 1]) + if e.Closed? then [e.connection] else []
  }

  /** `a` is `b` with some elements left out. */
  predicate Within(a: seq<ConnectionId>, b: seq<ConnectionId>) {
    || a == []
    || (b != [] && Within(if a[|a| - 1] == b[|b| - 1] then a[..|a| - 1] else a, b[..|b| - 1]))
  }

  /** Every notice the router has sent is, in order, among the closing events queued so far. */
  ghost predicate NoticeInv(s: State) { Within(s.past.notices, ClosingsOf(History(s))) }

  lemma ClosingsPush(events: seq<Event>, e: Event)
    ensures ClosingsOf(events + [e]) == ClosingsOf(events) + if e.Closed? then [e.connection] else []
  {
    assert (events + [e])[..|events|] == events;
  }

  lemma {:induction false} WithinInit(a: seq<ConnectionId>, b: seq<ConnectionId>)
    requires a != [] && Within(a, b)
    ensures Within(a[..|a| - 1], b)
    decreases |b|, 0
  {
    var init, last := b[..|b| - 1], b[|b| - 1];
    if a[|a| - 1] != last {
      WithinInit(a, init);
    }
    WithinMore(a[..|a| - 1], init, last);
    assert init + [last] == b;
  }

  lemma {:induction false} WithinMore(a: seq<ConnectionId>, b: seq<ConnectionId>, c: ConnectionId)
    requires Within(a, b)
    ensures Within(a, b + [c])
    decreases |b|, 1
  {
    assert (b + [c])[..|b|] == b;
    if a != [] && a[|a| - 1] == c {
      WithinInit(a, b);
    }
  }

  lemma WithinPush(a: seq<ConnectionId>, b: seq<ConnectionId>, c: ConnectionId)
    requires Within(a, b)
    ensures Within(a, b + [c]) && Within(a + [c], b + [c])
  {
    WithinMore(a, b, c);
    assert (b + [c])[..|b|] == b && (a + [c])[..|a|] == a;
  }

  /** Other tasks may queue one more event; none is taken back. */
  lemma HistoryGrows(s: State, step: Step)
    requires Enabled(s, step) && !step.RouterFlush?
    ensures var t := Apply(s, step);
            && t.past.notices == s.past.notices
            && (History(t) == History(s) || exists e :: History(t) == History(s) + [e])
  {
    match step
    case Open => HistoryPush(s, Opened(s.net.nextConnection));
    case Receive(c, m) => HistoryPush(s, Incoming(c, m));
    case AnnounceClose(c) => HistoryPush(s, Closed(c));
    case TakeEvent(_) => HistoryPop(s.past.taken, s.events);
    case _ =>
  }

  lemma NoticePush(notices: seq<ConnectionId>, history: seq<Event>, e: Event)
    requires Within(notices, ClosingsOf(history))
    ensures Within(notices, ClosingsOf(history + [e]))
  {
    ClosingsPush(history, e);
    if e.Closed? {
      WithinPush(notices, ClosingsOf(history), e.connection);
    } else {
      assert ClosingsOf(history) + [] == ClosingsOf(history);
    }
  }

  lemma NoticesKeptBy(notices: seq<ConnectionId>, before: seq<Event>, after: seq<Event>)
    requires Within(notices, ClosingsOf(before))
    requires after == before || exists e :: after == before + [e]
    ensures Within(notices, ClosingsOf(after))
  {
    if e :| after == before + [e] {
      NoticePush(notices, before, e);
    }
  }

  lemma NoticeFlush(s: State)
    requires NoticeInv(s)
    ensures NoticeInv(DoRouterFlush(s))
  {
    if s.rt.pendingClosed != [] {
      var e := Closed(s.rt.pendingClosed[0]);
      HistoryPush(s, e);
      ClosingsPush(History(s), e);
      WithinPush(s.past.notices, ClosingsOf(History(s)), e.connection);
    }
  }

  lemma NoticeKept(s: State, step: Step)
    requires NoticeInv(s) && Enabled(s, step)
    ensures NoticeInv(Apply(s, step))
  {
    if step.RouterFlush? {
      NoticeFlush(s);
    } else {
      HistoryGrows(s, step);
      NoticesKeptBy(s.past.notices, History(s), History(Apply(s, step)));
    }
  }
}
