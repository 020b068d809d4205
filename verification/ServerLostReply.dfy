/** A run in which the router takes a reply before it is told of the reply's owner, and drops it. */
module ServerLostReply {
  import opened Prelude
  import opened Protocol
  import opened Server
  import opened ServerTheorems
  import opened ServerGuarantees

  lemma InitReachable(mode: Mode, warnings: nat)
    ensures Reachable(Init(mode, warnings))
  {
    assert Runs(Init(mode, warnings), []) && Exec(Init(mode, warnings), []) == Init(mode, warnings);
  }

  /** The router finds no control event. */
  lemma OpenedAndPolled() returns (s: State)
    ensures Reachable(s) && s.mode.Stdio? && s.rt == Router(Polled, {}, []) && s.flags == map[]
    ensures s.control == [] && s.events == [Opened(0)] && s.outgoing == []
    ensures s.past.accepted == [] && s.past.early == {}
    ensures s.proc == Processor(Idle, map[], map[], {})
    ensures s.net.readers == map[0 := Reading] && s.net.writers == map[0 := Writer([], 0, true)] && 0 in s.net.intake
  {
    var s0 := Init(Stdio, 0);
    InitReachable(Stdio, 0);
    ReachOne(s0, Open);
    var s1 := Apply(s0, Open);
    ReachOne(s1, RouterPoll);
    s := Apply(s1, RouterPoll);
  }

  /** Only then is connection 0 registered. */
  lemma RegisteredAfterPoll() returns (s: State)
    ensures Reachable(s) && s.mode.Stdio? && s.rt == Router(Polled, {}, [])
    ensures s.control == [ControlOpened(0)] && s.events == [] && s.outgoing == []
    ensures s.proc == Processor(Idle, map[0 := Session(false, {})], map[], {})
    ensures s.past.accepted == [] && s.past.early == {}
    ensures s.net.readers == map[0 := Reading] && s.net.writers == map[0 := Writer([], 0, true)] && 0 in s.net.intake
  {
    var s0 := OpenedAndPolled();
    ReachOne(s0, TakeEvent([]));
    var s1 := Apply(s0, TakeEvent([]));
    ReachOne(s1, RegisterConnection);
    s := Apply(s1, RegisterConnection);
  }

  /** The client's first request is accepted while the router still stands where it found no control event. */
  lemma AcceptedBeforeTold(id: RequestId) returns (s: State)
    ensures Reachable(s) && s.mode.Stdio? && s.rt == Router(Polled, {}, []) && s.control == [ControlOpened(0)]
    ensures s.past.accepted == [Route(0, id, 0)] && s.past.early == {} && s.outgoing == []
    ensures s.proc.routes == map[Key(Route(0, id, 0)) := Route(0, id, 0)]
    ensures s.proc.pc == Acting(0, [Emit(Broadcast(Error(Key(Route(0, id, 0)), "Not initialized")))])
    ensures s.net.writers == map[0 := Writer([], 0, true)]
  {
    var m := ClientRequest(id, Regular);
    var s0 := RegisteredAfterPoll();
    ReachOne(s0, Receive(0, m));
    var s1 := Apply(s0, Receive(0, m));
    assert s1.events == [Incoming(0, m)];
    ReachOne(s1, TakeEvent([]));
    s := Apply(s1, TakeEvent([]));
  }

  /** And it is answered. */
  lemma AnsweredBeforeTold(id: RequestId) returns (s: State)
    ensures Reachable(s) && s.mode.Stdio? && s.rt == Router(Polled, {}, []) && s.control == [ControlOpened(0)]
    ensures s.past.accepted == [Route(0, id, 0)] && s.past.early == {}
    ensures s.proc.routes == map[Key(Route(0, id, 0)) := Route(0, id, 0)] && s.proc.pc == Idle
    ensures s.outgoing == [Broadcast(Error(Key(Route(0, id, 0)), "Not initialized"))]
    ensures s.net.writers == map[0 := Writer([], 0, true)]
  {
    var s0 := AcceptedBeforeTold(id);
    ReachOne(s0, Act);
    var s1 := Apply(s0, Act);
    ReachOne(s1, Act);
    s := Apply(s1, Act);
  }

  lemma TakenEarly(id: RequestId) returns (s: State)
    ensures Reachable(s) && s.mode.Stdio? && s.control == [ControlOpened(0)] && s.outgoing == []
    ensures s.rt == Router(Writing(ToConnection(0, Error(id, "Not initialized")), Reply(0)), {}, [])
    ensures s.past.accepted == [Route(0, id, 0)] && 0 in s.past.early && s.proc.routes == map[] && s.proc.pc == Idle
    ensures s.net.writers == map[0 := Writer([], 0, true)]
  {
    var s0 := AnsweredBeforeTold(id);
    ReachOne(s0, RouterTake);
    s := Apply(s0, RouterTake);
  }

  lemma NobodyToWriteTo(s: State, e: Envelope)
    requires s.rt.outbound == {}
    ensures Targets(s, e) == {} && Failing(s, e) == {}
    ensures forall entry :: WriteAll(s.net.writers, Targets(s, e), entry) == s.net.writers
  {
    assert Targets(s, e) == {};
  }

  lemma DroppedByWrite(id: RequestId) returns (s: State)
    ensures Reachable(s) && s.mode.Stdio? && s.control == [ControlOpened(0)] && s.outgoing == []
    ensures s.rt == Router(Flush, {}, []) && s.proc.routes == map[] && s.proc.pc == Idle
    ensures s.past.accepted == [Route(0, id, 0)] && 0 in s.past.early
    ensures s.net.writers == map[0 := Writer([], 0, true)]
  {
    var s0 := TakenEarly(id);
    NobodyToWriteTo(s0, s0.rt.pc.envelope);
    ReachOne(s0, RouterWrite([]));
    s := Apply(s0, RouterWrite([]));
  }

  /**
   * The reply is lost although connection, writer and router are all well: the client's request is answered, nothing
   * is routed or queued any more, the router holds the connection, and its writer is open and was never written to.
   */
  lemma FirstReplyCanBeLost(id: RequestId) returns (s: State)
    ensures Reachable(s) && s.mode.Stdio? && s.past.accepted == [Route(0, id, 0)] && 0 in s.past.early
    ensures s.proc.routes == map[] && s.outgoing == [] && s.control == [] && s.proc.pc == Idle
    ensures 0 in s.rt.outbound && s.net.writers == map[0 := Writer([], 0, true)]
    ensures !HandedOver(s, 0)
  {
    var s0 := DroppedByWrite(id);
    ReachOne(s0, RouterFlush);
    var s1 := Apply(s0, RouterFlush);
    ReachOne(s1, RouterControl);
    s := Apply(s1, RouterControl);
  }
}
