/** The gate, capacity and shutdown invariants of the app server. */
module ServerShutdown {
  import opened Prelude
  import opened Protocol
  import opened Server
  import opened ServerInvariants

  // ---------- the initialization gate ----------

  lemma GateAct(s: State)
    requires GateInv(s) && MemberInv(s) && CanAct(s) && SentInv(s.outgoing, s.proc.pc, s.past.accepted, Inits(s))
    ensures GateInv(DoAct(s))
  {
    var t := DoAct(s);
    var c, actions := s.proc.pc.connection, s.proc.pc.actions;
    if actions != [] && actions[0].MarkInitialized? {
      assert Inits(t) == Inits(s) + {c};
      assert c !in Inits(s);
    } else {
      assert Inits(t) == Inits(s);
    }
  }

  lemma GateRegister(s: State)
    requires GateInv(s) && QueueInv(s) && s.proc.pc.SendOpened?
    ensures GateInv(DoRegister(s))
  {
    assert Inits(DoRegister(s)) == Inits(s);
    assert s.proc.pc.connection !in Inits(s);
  }

  lemma GatePurge(s: State)
    requires GateInv(s) && s.proc.pc.Purge?
    ensures GateInv(DoPurge(s))
  {
    assert Inits(DoPurge(s)) == Inits(s);
  }

  // ---------- bounded queues ----------

  ghost predicate CapacityInv(s: State) {
    && |s.events| <= CHANNEL_CAPACITY && |s.outgoing| <= CHANNEL_CAPACITY && |s.control| <= CHANNEL_CAPACITY
    && forall c :: c in s.net.writers ==>
         s.net.writers[c].drained <= |s.net.writers[c].log| <= s.net.writers[c].drained + CHANNEL_CAPACITY
  }

  // ---------- who still holds a connection ----------

  /**
   * A registered connection the router does not hold is one it has yet to learn of, one that failed, or one being
   * closed.
   */
  ghost predicate HoldInv(s: State) {
    && (forall c :: c in s.past.registered ==>
          || c in s.rt.outbound || ControlOpened(c) in s.control || c in s.past.failed
          || c in s.past.closed || s.proc.pc == Purge(c))
    && (forall c :: ControlClosed(c) in s.control ==> c in s.past.closed || s.proc.pc == Purge(c))
    && (forall k :: k in s.proc.routes ==> s.proc.routes[k].connection in s.proc.sessions)
    && (s.rt.pc.Stopped? ==> s.proc.pc.Exited?)
    && s.past.disconnects == s.past.notices + s.rt.pendingClosed
  }

  predicate InFlight(pc: RouterPc, n: nat) { pc.Writing? && pc.origin == Reply(n) }

  /**
   * With stdio, a reply taken out of the route table is delivered, in flight, was taken before the router knew its
   * owner, or its writer is closed.
   */
  ghost predicate StdioInv(s: State) {
    s.mode.Stdio? ==>
      && (forall k :: k in s.proc.routes ==>
            s.proc.pc != SendClosed(s.proc.routes[k].connection) && s.proc.pc != Purge(s.proc.routes[k].connection))
      && (s.rt.pc.Writing? && s.rt.pc.origin.Reply? && s.rt.pc.envelope.ToConnection? ==>
            s.rt.pc.envelope.connection in s.rt.outbound + s.past.failed || s.rt.pc.origin.ordinal in s.past.early)
      && (forall c :: c in s.past.failed ==> c in s.net.writers && !s.net.writers[c].open)
      && (forall n :: n in s.past.rewritten && n < |s.past.accepted| ==>
            || n in s.past.delivered || InFlight(s.rt.pc, n) || n in s.past.early
            || s.past.accepted[n].connection in s.past.failed)
      && s.past.purged == {}
      && (s.proc.pc.Exited? ==> s.proc.sessions == map[])
  }

  lemma HoldControl(s: State)
    requires HoldInv(s) && s.control != []
    ensures HoldInv(DoRouterControl(s))
  {
    assert s.control == [s.control[0]] + s.control[1..];
  }

  lemma HoldRouter(s: State, failures: seq<ConnectionId>)
    requires HoldInv(s)
    ensures s.outgoing != [] ==> HoldInv(DoRouterTake(s))
    ensures CanRouterWrite(s, failures) ==> HoldInv(DoRouterWrite(s, failures))
    ensures HoldInv(DoRouterFlush(s))
  {
    if s.rt.pendingClosed != [] {
      assert s.rt.pendingClosed == [s.rt.pendingClosed[0]] + s.rt.pendingClosed[1..];
    }
  }

  lemma HoldTakeEvent(s: State, handler: seq<Action>)
    requires HoldInv(s) && CanTakeEvent(s, handler)
    ensures HoldInv(DoTakeEvent(s, handler))
  {
  }

  lemma HoldProcessor(s: State)
    requires HoldInv(s)
    ensures CanAct(s) ==> HoldInv(DoAct(s))
    ensures s.proc.pc.SendOpened? ==> HoldInv(DoRegister(s))
    ensures s.proc.pc.DrainWait? ==> HoldInv(Goto(s, SendClosed(s.proc.pc.connection)))
    ensures s.proc.pc.SendClosed? ==> HoldInv(DoRequestClose(s))
    ensures s.proc.pc.Purge? ==> HoldInv(DoPurge(s))
  {
  }

  /**
   * The owner of a reply that leaves the route table is with the router, yet to be told to it, or its writer is
   * closed.
   */
  lemma OwnerIsHeld(s: State, id: RequestId)
    requires StdioInv(s) && HoldInv(s) && MemberInv(s) && s.mode.Stdio? && id in s.proc.routes
    ensures var c := s.proc.routes[id].connection; c in s.rt.outbound + s.past.failed || ControlOpened(c) in s.control
  {
    var c := s.proc.routes[id].connection;
    assert c in s.past.registered && c !in s.past.closed && s.proc.pc != Purge(c);
  }

  lemma StdioTakePlain(s: State)
    requires StdioInv(s) && Enabled(s, RouterTake) && !OriginOf(s.proc.routes, s.outgoing[0]).Reply?
    ensures StdioInv(DoRouterTake(s))
  {
  }

  lemma StdioTakeReply(s: State)
    requires StdioInv(s) && HoldInv(s) && MemberInv(s) && RoutingInv(s) && Enabled(s, RouterTake)
    requires OriginOf(s.proc.routes, s.outgoing[0]).Reply?
    ensures StdioInv(DoRouterTake(s))
  {
    if s.mode.Stdio? {
      OwnerIsHeld(s, s.outgoing[0].message.id);
    }
  }

  lemma StdioTake(s: State)
    requires StdioInv(s) && HoldInv(s) && MemberInv(s) && RoutingInv(s) && Enabled(s, RouterTake)
    ensures StdioInv(DoRouterTake(s))
  {
    if OriginOf(s.proc.routes, s.outgoing[0]).Reply? {
      StdioTakeReply(s);
    } else {
      StdioTakePlain(s);
    }
  }

  lemma StdioWrite(s: State, failures: seq<ConnectionId>)
    requires StdioInv(s) && HoldInv(s) && MemberInv(s) && RoutingInv(s) && CanRouterWrite(s, failures)
    ensures StdioInv(DoRouterWrite(s, failures))
  {
  }

  lemma StdioRouter(s: State)
    requires StdioInv(s) && HoldInv(s)
    ensures Enabled(s, RouterControl) ==> StdioInv(DoRouterControl(s))
    ensures s.rt.pc.Flush? ==> StdioInv(DoRouterFlush(s))
  {
  }

  lemma StdioTakeEvent(s: State, handler: seq<Action>)
    requires StdioInv(s) && CanTakeEvent(s, handler) && RoutingInv(s)
    ensures StdioInv(DoTakeEvent(s, handler))
  {
  }

  lemma StdioAct(s: State)
    requires StdioInv(s) && CanAct(s)
    ensures StdioInv(DoAct(s))
  {
  }

  lemma StdioRegister(s: State)
    requires StdioInv(s) && s.proc.pc.SendOpened?
    ensures StdioInv(DoRegister(s))
  {
  }

  lemma StdioClose(s: State)
    requires StdioInv(s)
    ensures Enabled(s, RoutesDrained) ==> StdioInv(Goto(s, SendClosed(s.proc.pc.connection)))
    ensures s.proc.pc.SendClosed? ==> StdioInv(DoRequestClose(s))
    ensures s.proc.pc.Purge? ==> StdioInv(DoPurge(s))
  {
  }

  lemma StdioReceive(s: State, c: ConnectionId, m: ClientMessage)
    requires StdioInv(s) && CanReceive(s, c, m)
    ensures StdioInv(DoReceive(s, c, m))
  {
  }

  lemma StdioConnection(s: State, c: ConnectionId)
    requires StdioInv(s)
    ensures s.net.nextConnection !in s.net.writers ==> StdioInv(DoOpen(s))
    ensures c in s.net.writers ==> StdioInv(DoDrain(s, c)) && StdioInv(DoCloseWriter(s, c))
  {
  }
}
