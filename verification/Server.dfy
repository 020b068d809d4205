/**
 * The app server as a labelled transition system. The processor task, the
 * outbound router task, the connection tasks and background handler tasks
 * interleave at their await points; every queue between them is bounded.
 */
module Server {
  import opened Prelude
  import opened Protocol

  const CHANNEL_CAPACITY := 128

  datatype Mode = Stdio | WebSocket

  // ---------- what the clients send ----------

  datatype RequestKind = Initialize(optOut: set<string>) | Regular | Invalid

  datatype ClientMessage =
    | ClientRequest(id: RequestId, kind: RequestKind)
    | ClientOther(text: string)

  datatype Event =
    | Opened(connection: ConnectionId)
    | Closed(connection: ConnectionId)
    | Incoming(connection: ConnectionId, message: ClientMessage)

  /** What became of a message a reader decoded. `Lost`: the channel it needed was closed. */
  datatype Outcome = Queued | Refused | Dropped | Lost

  datatype Intake = Intake(message: ClientMessage, outcome: Outcome)

  // ---------- what the server writes ----------

  /** Why a message is in a writer queue: a routed reply, any other envelope, or an overload refusal. */
  datatype Origin = Reply(ordinal: nat) | Plain | Overload

  datatype Entry = Entry(message: Message, origin: Origin)

  /** A connection's writer queue, with everything ever appended to it. */
  datatype Writer = Writer(log: seq<Entry>, drained: nat, open: bool) {
    predicate Full() { |log| - drained >= CHANNEL_CAPACITY }
    predicate Accepts() { open && !Full() }
    function Push(e: Entry): Writer { this.(log := log + [e]) }
  }

  // ---------- tasks ----------

  datatype Session = Session(initialized: bool, optedOut: set<string>)

  datatype Action = Emit(envelope: Envelope) | SetOptOut(verbs: set<string>) | MarkInitialized | Subscribe

  datatype Control = ControlOpened(connection: ConnectionId) | ControlClosed(connection: ConnectionId)

  /** Where the processor is suspended. */
  datatype ProcessorPc =
    | Idle
    | Acting(connection: ConnectionId, actions: seq<Action>)
    | SendOpened(connection: ConnectionId)
    | DrainWait(connection: ConnectionId)
    | SendClosed(connection: ConnectionId)
    | Purge(connection: ConnectionId)
    | Exited

  /**
   * Where the router is: about to look at the control queue, past an empty control queue and about to look at the
   * outgoing queue (or asleep there), holding one rewritten envelope, or flushing disconnect notices.
   */
  datatype RouterPc = Select | Polled | Writing(envelope: Envelope, origin: Origin) | Flush | Stopped

  datatype ReaderPc = Reading | Finishing

  /** The client side: connection tasks, their writer queues, and what their readers decoded. */
  datatype Net = Net(
    nextConnection: nat,
    readers: map<ConnectionId, ReaderPc>,
    writers: map<ConnectionId, Writer>,
    intake: map<ConnectionId, seq<Intake>>)

  datatype Processor = Processor(
    pc: ProcessorPc,
    sessions: map<ConnectionId, Session>,
    routes: map<RequestId, Route>,
    listeners: set<ConnectionId>)

  datatype Router = Router(pc: RouterPc, outbound: set<ConnectionId>, pendingClosed: seq<ConnectionId>)

  /** What has happened so far; no step depends on it. */
  datatype Past = Past(
    taken: seq<Event>,
    sent: seq<Envelope>,
    accepted: seq<Route>,
    rewritten: set<nat>,
    early: set<nat>,
    purged: set<nat>,
    delivered: map<nat, (ConnectionId, nat)>,
    initLog: seq<ConnectionId>,
    registered: set<ConnectionId>,
    closed: set<ConnectionId>,
    failed: set<ConnectionId>,
    disconnects: seq<ConnectionId>,
    notices: seq<ConnectionId>)

  datatype State = State(
    mode: Mode,
    warnings: nat,
    net: Net,
    events: seq<Event>,
    outgoing: seq<Envelope>,
    control: seq<Control>,
    proc: Processor,
    flags: map<ConnectionId, Session>,
    rt: Router,
    past: Past)

  /** Stdio uses connection 0; the websocket acceptor counts from 1. */
  function Init(mode: Mode, warnings: nat): State {
    State(mode, warnings, Net(if mode.Stdio? then 0 else 1, map[], map[], map[]), [], [], [],
          Processor(Idle, map[], map[], {}), map[], Router(Select, {}, []),
          Past([], [], [], {}, {}, {}, map[], [], {}, {}, {}, [], []))
  }

  datatype Step =
    | Open
    | Receive(connection: ConnectionId, message: ClientMessage)
    | EndOfInput(connection: ConnectionId)
    | AnnounceClose(connection: ConnectionId)
    | Drain(connection: ConnectionId)
    | CloseWriter(connection: ConnectionId)
    | TakeEvent(handler: seq<Action>)
    | Act
    | RegisterConnection
    | RoutesDrained
    | RequestClose
    | PurgeConnection
    | TaskEmit(envelope: Envelope)
    | RouterControl
    | RouterPoll
    | RouterWake
    | RouterTake
    | RouterWrite(failures: seq<ConnectionId>)
    | RouterFlush
    | RouterStop

  predicate IsRouterStep(step: Step) {
    || step.RouterControl? || step.RouterPoll? || step.RouterWake? || step.RouterTake? || step.RouterWrite?
    || step.RouterFlush? || step.RouterStop?
  }

  predicate IsProcessorStep(step: Step) {
    || step.TakeEvent? || step.Act? || step.RegisterConnection? || step.RoutesDrained? || step.RequestClose?
    || step.PurgeConnection?
  }

  // ---------- connection tasks ----------

  predicate Room<T>(queue: seq<T>) { |queue| < CHANNEL_CAPACITY }

  function DoOpen(s: State): State {
    var c := s.net.nextConnection;
    s.(events := s.events + [Opened(c)],
       net := Net(c + 1, s.net.readers[c := Reading], s.net.writers[c := Writer([], 0, true)], s.net.intake[c := []]))
  }

  /** `enqueue_incoming_message`: only a message that is not a request waits for room. */
  predicate CanReceive(s: State, c: ConnectionId, m: ClientMessage) {
    && c in s.net.readers && s.net.readers[c].Reading? && c in s.net.writers && c in s.net.intake
    && (m.ClientOther? ==> Room(s.events) || s.proc.pc.Exited?)
  }

  /** The fate of a message, from the state of the event queue and of the connection's writer. */
  function Fate(eventsOpen: bool, eventsRoom: bool, writerOpen: bool, writerFull: bool): Outcome {
    if !eventsOpen then Lost
    else if eventsRoom then Queued
    else if !writerOpen then Lost
    else if writerFull then Dropped
    else Refused
  }

  function ReceiveOutcome(s: State, c: ConnectionId, m: ClientMessage): Outcome
    requires CanReceive(s, c, m)
  {
    Fate(!s.proc.pc.Exited?, Room(s.events), s.net.writers[c].open, s.net.writers[c].Full())
  }

  function OverloadEntry(id: RequestId): Entry {
    Entry(Error(id, "Server overloaded; retry later."), Overload)
  }

  function DoReceive(s: State, c: ConnectionId, m: ClientMessage): State
    requires CanReceive(s, c, m)
  {
    var outcome := ReceiveOutcome(s, c, m);
    var net := s.net.(intake := s.net.intake[c := s.net.intake[c] + [Intake(m, outcome)]]);
    match outcome
    case Queued => s.(net := net, events := s.events + [Incoming(c, m)])
    case Refused => s.(net := net.(writers := s.net.writers[c := s.net.writers[c].Push(OverloadEntry(m.id))]))
    case Dropped => s.(net := net)
    case Lost => s.(net := net.(readers := s.net.readers[c := Finishing]))
  }

  function DoEndOfInput(s: State, c: ConnectionId): State {
    s.(net := s.net.(readers := s.net.readers[c := Finishing]))
  }

  /** The closing notice is sent once; when the processor is gone the send fails and is ignored. */
  function DoAnnounceClose(s: State, c: ConnectionId): State {
    s.(net := s.net.(readers := s.net.readers - {c}),
       events := if s.proc.pc.Exited? then s.events else s.events + [Closed(c)])
  }

  function DoDrain(s: State, c: ConnectionId): State
    requires c in s.net.writers
  {
    var w := s.net.writers[c];
    s.(net := s.net.(writers := s.net.writers[c := w.(drained := w.drained + 1)]))
  }

  function DoCloseWriter(s: State, c: ConnectionId): State
    requires c in s.net.writers
  {
    s.(net := s.net.(writers := s.net.writers[c := s.net.writers[c].(open := false)]))
  }

  // ---------- processor task ----------

  predicate IsKey(accepted: seq<Route>, id: RequestId) {
    exists n :: 0 <= n < |accepted| && Key(accepted[n]) == id
  }

  /** An envelope a task may hand over: replies name an accepted request, addressed messages go to `peers`. */
  predicate EmitOk(e: Envelope, accepted: seq<Route>, peers: set<ConnectionId>) {
    && (e.message.IsReply() ==> e.Broadcast? && IsKey(accepted, e.message.id))
    && (e.ToConnection? ==> e.connection in peers)
  }

  /** What the handler of an ordinary request of `c` may do before it returns. */
  predicate HandlerOk(actions: seq<Action>, c: ConnectionId, accepted: seq<Route>, listeners: set<ConnectionId>) {
    forall a :: a in actions ==> a.Subscribe? || (a.Emit? && EmitOk(a.envelope, accepted, listeners + {c}))
  }

  function Warnings(c: ConnectionId, count: nat): seq<Action> {
    seq(count, _ => Emit(ToConnection(c, Notification("configWarning"))))
  }

  /** `process_request`: the initialization gate in front of every handler. */
  function Plan(s: State, c: ConnectionId, key: RequestId, kind: RequestKind, handler: seq<Action>): seq<Action>
    requires c in s.proc.sessions
  {
    match kind
    case Initialize(verbs) =>
      if s.proc.sessions[c].initialized then [Emit(Broadcast(Error(key, "Already initialized")))]
      else [SetOptOut(verbs), Emit(Broadcast(Response(key, "userAgent"))), MarkInitialized] + Warnings(c, s.warnings)
    case Regular =>
      if s.proc.sessions[c].initialized then handler else [Emit(Broadcast(Error(key, "Not initialized")))]
    case Invalid => [Emit(Broadcast(Error(key, "Invalid request")))]
  }

  function Accept(s: State, c: ConnectionId, id: RequestId): Route { Route(c, id, |s.past.accepted|) }

  /** A handler may answer any request accepted so far, its own included. */
  predicate CanTakeEvent(s: State, handler: seq<Action>) {
    && s.proc.pc.Idle? && s.events != []
    && match s.events[0]
       case Incoming(c, ClientRequest(id, _)) =>
         HandlerOk(handler, c, s.past.accepted + [Accept(s, c, id)], s.proc.listeners)
       case _ => true
  }

  function DoRequest(s: State, c: ConnectionId, id: RequestId, kind: RequestKind, handler: seq<Action>): State
    requires c in s.proc.sessions
  {
    var route := Accept(s, c, id);
    s.(past := s.past.(accepted := s.past.accepted + [route]),
       proc := s.proc.(routes := s.proc.routes[Key(route) := route],
                       pc := Acting(c, Plan(s, c, Key(route), kind, handler))))
  }

  function Dequeue(s: State): State
    requires s.events != []
  {
    s.(events := s.events[1..], past := s.past.(taken := s.past.taken + [s.events[0]]))
  }

  function Goto(s: State, pc: ProcessorPc): State { s.(proc := s.proc.(pc := pc)) }

  function DoTakeEvent(s: State, handler: seq<Action>): State
    requires CanTakeEvent(s, handler)
  {
    var t := Dequeue(s);
    match s.events[0]
    case Opened(c) => Goto(t, SendOpened(c))
    case Closed(c) => Goto(t, if s.mode.Stdio? then DrainWait(c) else SendClosed(c))
    case Incoming(c, ClientOther(_)) => t
    case Incoming(c, ClientRequest(id, kind)) =>
      if c in s.proc.sessions then DoRequest(t, c, id, kind, handler) else t
  }

  predicate CanAct(s: State) {
    && s.proc.pc.Acting?
    && (s.proc.pc.actions != [] && s.proc.pc.actions[0].Emit? ==> Room(s.outgoing))
  }

  /** The session and the flags shared with the router are written with no await between them. */
  function SetSession(s: State, c: ConnectionId, v: Session): State {
    s.(proc := s.proc.(sessions := s.proc.sessions[c := v]), flags := s.flags[c := v])
  }

  function SessionOf(s: State, c: ConnectionId): Session {
    if c in s.proc.sessions then s.proc.sessions[c] else Session(false, {})
  }

  function Send(s: State, e: Envelope): State {
    s.(outgoing := s.outgoing + [e], past := s.past.(sent := s.past.sent + [e]))
  }

  function Perform(s: State, c: ConnectionId, action: Action): State {
    match action
    case Emit(e) => Send(s, e)
    case Subscribe => s.(proc := s.proc.(listeners := s.proc.listeners + {c}))
    case SetOptOut(verbs) => SetSession(s, c, SessionOf(s, c).(optedOut := verbs))
    case MarkInitialized =>
      SetSession(s, c, SessionOf(s, c).(initialized := true)).(past := s.past.(initLog := s.past.initLog + [c]))
  }

  function DoAct(s: State): State
    requires CanAct(s)
  {
    var c, actions := s.proc.pc.connection, s.proc.pc.actions;
    if actions == [] then Goto(s, Idle)
    else Perform(Goto(s, Acting(c, actions[1..])), c, actions[0])
  }

  function DoRegister(s: State): State
    requires s.proc.pc.SendOpened?
  {
    var c := s.proc.pc.connection;
    SetSession(Goto(s, Idle), c, Session(false, {})).(
      control := s.control + [ControlOpened(c)],
      past := s.past.(registered := s.past.registered + {c}))
  }

  predicate HasRoute(routes: map<RequestId, Route>, c: ConnectionId) {
    exists k :: k in routes && routes[k].connection == c
  }

  function DoRequestClose(s: State): State
    requires s.proc.pc.SendClosed?
  {
    var c := s.proc.pc.connection;
    Goto(s, Purge(c)).(control := s.control + [ControlClosed(c)])
  }

  function Retain(routes: map<RequestId, Route>, c: ConnectionId): map<RequestId, Route> {
    map k | k in routes && routes[k].connection != c :: routes[k]
  }

  function OrdinalsOf(routes: map<RequestId, Route>, c: ConnectionId): set<nat> {
    set k | k in routes && routes[k].connection == c :: routes[k].ordinal
  }

  function DoPurge(s: State): State
    requires s.proc.pc.Purge?
  {
    var c := s.proc.pc.connection;
    var sessions := s.proc.sessions - {c};
    s.(proc := s.proc.(sessions := sessions, routes := Retain(s.proc.routes, c),
                       pc := if s.mode.Stdio? && sessions == map[] then Exited else Idle),
       past := s.past.(purged := s.past.purged + OrdinalsOf(s.proc.routes, c), closed := s.past.closed + {c}))
  }

  // ---------- router task ----------

  function DoRouterControl(s: State): State
    requires s.control != []
  {
    var c := s.control[0].connection;
    s.(control := s.control[1..],
       rt := s.rt.(pc := Flush,
                   outbound := if s.control[0].ControlOpened? then s.rt.outbound + {c} else s.rt.outbound - {c}))
  }

  function OriginOf(routes: map<RequestId, Route>, e: Envelope): Origin {
    if e.Broadcast? && e.message.IsReply() && e.message.id in routes then Reply(routes[e.message.id].ordinal) else Plain
  }

  /** The reply leaves while the event that tells the router of its owner is still in the control queue. */
  predicate IsEarly(s: State, e: Envelope) {
    OriginOf(s.proc.routes, e).Reply? && ControlOpened(s.proc.routes[e.message.id].connection) in s.control
  }

  function RecordTake(s: State, e: Envelope): Past {
    var origin := OriginOf(s.proc.routes, e);
    if origin.Reply? then
      s.past.(rewritten := s.past.rewritten + {origin.ordinal},
              early := if IsEarly(s, e) then s.past.early + {origin.ordinal} else s.past.early)
    else s.past
  }

  /** Taking an envelope off the queue and rewriting it. The control queue is not looked at again. */
  function DoRouterTake(s: State): State
    requires s.outgoing != []
  {
    var e := s.outgoing[0];
    var (out, routes) := Rewrite(s.proc.routes, e);
    s.(outgoing := s.outgoing[1..], proc := s.proc.(routes := routes), past := RecordTake(s, e),
       rt := s.rt.(pc := if out.Some? then Writing(out.value, OriginOf(s.proc.routes, e)) else Select))
  }

  predicate Skips(flags: Session, m: Message) { m.Notification? && m.verb in flags.optedOut }

  /** The connections `route_outgoing_envelope` tries to write to. */
  function Targets(s: State, e: Envelope): set<ConnectionId> {
    set c | c in s.rt.outbound && c in s.flags && c in s.net.writers
            && !Skips(s.flags[c], e.message)
            && (if e.ToConnection? then c == e.connection else s.flags[c].initialized)
  }

  /** A stdio writer that is full is awaited; a full websocket writer counts as a failed write. */
  predicate WriteFails(mode: Mode, w: Writer) { !w.open || (mode.WebSocket? && w.Full()) }
  predicate WriteBlocks(mode: Mode, w: Writer) { mode.Stdio? && w.open && w.Full() }

  function Failing(s: State, e: Envelope): set<ConnectionId> {
    set c | c in Targets(s, e) && WriteFails(s.mode, s.net.writers[c])
  }

  predicate CanRouterWrite(s: State, failures: seq<ConnectionId>) {
    && s.rt.pc.Writing?
    && (forall c :: c in Targets(s, s.rt.pc.envelope) ==> !WriteBlocks(s.mode, s.net.writers[c]))
    && Distinct(failures)
    && (set c | c in failures) == Failing(s, s.rt.pc.envelope)
  }

  function WriteAll(writers: map<ConnectionId, Writer>, targets: set<ConnectionId>, e: Entry)
    : map<ConnectionId, Writer>
  {
    map c | c in writers :: if c in targets && writers[c].Accepts() then writers[c].Push(e) else writers[c]
  }

  /** The routed reply in flight, if this write hands it to its owner's queue, and where. */
  function Deliver(s: State): map<nat, (ConnectionId, nat)>
    requires s.rt.pc.Writing?
  {
    var Writing(e, origin) := s.rt.pc;
    if origin.Reply? && e.ToConnection? && e.connection in Targets(s, e) && s.net.writers[e.connection].Accepts()
    then s.past.delivered[origin.ordinal := (e.connection, |s.net.writers[e.connection].log|)]
    else s.past.delivered
  }

  function DoRouterWrite(s: State, failures: seq<ConnectionId>): State
    requires s.rt.pc.Writing?
  {
    var Writing(e, origin) := s.rt.pc;
    var failing := Failing(s, e);
    s.(net := s.net.(writers := WriteAll(s.net.writers, Targets(s, e), Entry(e.message, origin))),
       rt := Router(Flush, s.rt.outbound - failing, s.rt.pendingClosed + failures),
       past := s.past.(failed := s.past.failed + failing, disconnects := s.past.disconnects + failures,
                       delivered := Deliver(s)))
  }

  /** One round of the backlog loop: forward the oldest notice, or give up until the next iteration. */
  function DoRouterFlush(s: State): State {
    var pending := s.rt.pendingClosed;
    if pending == [] then s.(rt := s.rt.(pc := Select))
    else if s.proc.pc.Exited? then s.(rt := s.rt.(pc := Stopped))
    else if !Room(s.events) then s.(rt := s.rt.(pc := Select))
    else s.(events := s.events + [Closed(pending[0])], rt := s.rt.(pendingClosed := pending[1..]),
            past := s.past.(notices := s.past.notices + [pending[0]]))
  }

  /** The router leaves its loop once the processor has dropped its senders and the queue it looks at is empty. */
  predicate CanRouterStop(s: State) {
    && s.proc.pc.Exited?
    && ((s.rt.pc.Select? && s.control == []) || (s.rt.pc.Polled? && (s.control == [] || s.outgoing == [])))
  }

  // ---------- the whole system ----------

  predicate Enabled(s: State, step: Step) {
    match step
    case Open => Room(s.events) && !s.proc.pc.Exited? && (s.mode.Stdio? ==> s.net.nextConnection == 0)
    case Receive(c, m) => CanReceive(s, c, m)
    case EndOfInput(c) => c in s.net.readers && s.net.readers[c].Reading?
    case AnnounceClose(c) => c in s.net.readers && s.net.readers[c].Finishing? && (Room(s.events) || s.proc.pc.Exited?)
    case Drain(c) => c in s.net.writers && s.net.writers[c].open && s.net.writers[c].drained < |s.net.writers[c].log|
    case CloseWriter(c) => c in s.net.writers
    case TakeEvent(handler) => CanTakeEvent(s, handler)
    case Act => CanAct(s)
    case RegisterConnection => s.proc.pc.SendOpened? && Room(s.control)
    case RoutesDrained => s.proc.pc.DrainWait? && !HasRoute(s.proc.routes, s.proc.pc.connection)
    case RequestClose => s.proc.pc.SendClosed? && Room(s.control)
    case PurgeConnection => s.proc.pc.Purge?
    case TaskEmit(e) => Room(s.outgoing) && !s.rt.pc.Stopped? && EmitOk(e, s.past.accepted, s.proc.listeners)
    case RouterControl => s.rt.pc.Select? && s.control != []
    case RouterPoll => s.rt.pc.Select? && s.control == []
    case RouterWake => s.rt.pc.Polled? && s.control != []
    case RouterTake => s.rt.pc.Polled? && s.outgoing != []
    case RouterWrite(failures) => CanRouterWrite(s, failures)
    case RouterFlush => s.rt.pc.Flush?
    case RouterStop => CanRouterStop(s)
  }

  function Apply(s: State, step: Step): State
    requires Enabled(s, step)
  {
    match step
    case Open => DoOpen(s)
    case Receive(c, m) => DoReceive(s, c, m)
    case EndOfInput(c) => DoEndOfInput(s, c)
    case AnnounceClose(c) => DoAnnounceClose(s, c)
    case Drain(c) => DoDrain(s, c)
    case CloseWriter(c) => DoCloseWriter(s, c)
    case TakeEvent(handler) => DoTakeEvent(s, handler)
    case Act => DoAct(s)
    case RegisterConnection => DoRegister(s)
    case RoutesDrained => Goto(s, SendClosed(s.proc.pc.connection))
    case RequestClose => DoRequestClose(s)
    case PurgeConnection => DoPurge(s)
    case TaskEmit(e) => Send(s, e)
    case RouterControl => DoRouterControl(s)
    case RouterPoll => s.(rt := s.rt.(pc := Polled))
    case RouterWake => s.(rt := s.rt.(pc := Select))
    case RouterTake => DoRouterTake(s)
    case RouterWrite(failures) => DoRouterWrite(s, failures)
    case RouterFlush => DoRouterFlush(s)
    case RouterStop => s.(rt := s.rt.(pc := Stopped))
  }

  /** A finite run: every step is enabled where it is taken. */
  predicate Runs(s: State, steps: seq<Step>)
    decreases |steps|
  {
    steps == [] || (Enabled(s, steps[0]) && Runs(Apply(s, steps[0]), steps[1..]))
  }

  function Exec(s: State, steps: seq<Step>): State
    requires Runs(s, steps)
    decreases |steps|
  {
    if steps == [] then s else Exec(Apply(s, steps[0]), steps[1..])
  }

  /** The states of all runs of a freshly started server. */
  ghost predicate Reachable(s: State) {
    exists mode, warnings: nat, steps :: Runs(Init(mode, warnings), steps) && Exec(Init(mode, warnings), steps) == s
  }
}
