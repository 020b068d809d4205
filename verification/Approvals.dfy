/**
 * Server-to-client requests: the callback table of `OutgoingMessageSender`, and the approval tasks that turn a
 * client's answer, or its absence, into one decision.
 */
module Approvals {
  import opened Prelude
  import opened Protocol

  datatype WireDecision = Approved | ApprovedExecpolicyAmendment | ApprovedForSession | Denied | Abort

  datatype CoreDecision = CoreApproved | CoreApprovedForSession | CoreDenied | CoreAbort

  predicate Approves(d: CoreDecision) { d.CoreApproved? || d.CoreApprovedForSession? }

  /** A response body: one that decodes to a decision, or one that does not decode. */
  datatype Answer = Decided(decision: WireDecision) | Malformed

  predicate ApprovingAnswer(a: Answer) {
    a.Decided? && (a.decision.Approved? || a.decision.ApprovedExecpolicyAmendment? || a.decision.ApprovedForSession?)
  }

  function MapDecision(d: WireDecision): CoreDecision {
    match d
    case Approved => CoreApproved
    case ApprovedExecpolicyAmendment => CoreApproved
    case ApprovedForSession => CoreApprovedForSession
    case Denied => CoreDenied
    case Abort => CoreAbort
  }

  /** The receiving end of a request's one-shot channel. */
  datatype Slot = Waiting | Answered(answer: Answer) | Cancelled

  /** `on_exec_approval_response` and `on_patch_approval_response`: anything but a decoded answer is a denial. */
  function Decide(slot: Slot): CoreDecision
    requires !slot.Waiting?
  {
    match slot
    case Answered(Decided(d)) => MapDecision(d)
    case _ => CoreDenied
  }

  datatype Table = Table(next: nat, callbacks: map<RequestId, Option<ConnectionId>>, slots: map<RequestId, Slot>)

  /** `send_request_impl` up to its await: the callback is in the table before the envelope is queued. */
  function Ask(t: Table, owner: Option<ConnectionId>): Table {
    var id := IntegerId(t.next);
    Table(t.next + 1, t.callbacks[id := owner], t.slots[id := Waiting])
  }

  /**
   * `send_request_impl` after its await, if the envelope could not be queued: dropping a callback cancels its
   * receiver.
   */
  function Withdraw(t: Table, id: RequestId): Table {
    if id in t.callbacks then Table(t.next, t.callbacks - {id}, t.slots[id := Cancelled]) else t
  }

  /** Only the owner, or an unscoped caller, may settle an owned callback. */
  predicate Settles(t: Table, from: Option<ConnectionId>, id: RequestId) {
    id in t.callbacks && (t.callbacks[id].None? || from.None? || t.callbacks[id] == from)
  }

  function Settle(t: Table, from: Option<ConnectionId>, id: RequestId, slot: Slot): Table {
    if Settles(t, from, id) then Table(t.next, t.callbacks - {id}, t.slots[id := slot]) else t
  }

  /** `clear_callbacks_for_connection`: dropping a callback cancels its receiver. */
  function Clear(t: Table, c: ConnectionId): Table {
    Table(t.next,
          map id | id in t.callbacks && t.callbacks[id] != Some(c) :: t.callbacks[id],
          map id | id in t.slots :: if id in t.callbacks && t.callbacks[id] == Some(c) then Cancelled else t.slots[id])
  }

  /** The sender object, whose table every task updates under one lock. */
  class OutgoingMessageSender {
    var nextRequestId: nat
    var callbacks: map<RequestId, Option<ConnectionId>>
    var slots: map<RequestId, Slot>

    ghost function View(): Table
      reads this
    {
      Table(nextRequestId, callbacks, slots)
    }

    constructor ()
      ensures View() == Table(0, map[], map[])
    {
      nextRequestId, callbacks, slots := 0, map[], map[];
    }

    /** The part of sending a request that comes before its envelope is queued. */
    method SendRequest(owner: Option<ConnectionId>) returns (id: RequestId)
      modifies this
      ensures View() == Ask(old(View()), owner)
      ensures id == IntegerId(old(nextRequestId))
    {
      id := IntegerId(nextRequestId);
      nextRequestId := nextRequestId + 1;
      callbacks := callbacks[id := owner];
      slots := slots[id := Waiting];
    }

    /** The part that comes after it, if the envelope could not be queued. */
    method WithdrawRequest(id: RequestId)
      modifies this
      ensures View() == Withdraw(old(View()), id)
      ensures id !in callbacks
    {
      if id in callbacks {
        callbacks := callbacks - {id};
        slots := slots[id := Cancelled];
      }
    }

    method NotifyClientResponse(from: Option<ConnectionId>, id: RequestId, answer: Answer)
      modifies this
      ensures View() == Settle(old(View()), from, id, Answered(answer))
    {
      if id in callbacks && (callbacks[id].None? || from.None? || callbacks[id] == from) {
        callbacks := callbacks - {id};
        slots := slots[id := Answered(answer)];
      }
    }

    method NotifyClientError(from: Option<ConnectionId>, id: RequestId)
      modifies this
      ensures View() == Settle(old(View()), from, id, Cancelled)
    {
      if id in callbacks && (callbacks[id].None? || from.None? || callbacks[id] == from) {
        callbacks := callbacks - {id};
        slots := slots[id := Cancelled];
      }
    }

    method ClearCallbacks(c: ConnectionId)
      modifies this
      ensures View() == Clear(old(View()), c)
      ensures forall id :: id in callbacks ==> callbacks[id] != Some(c)
    {
      slots := map id | id in slots :: if id in callbacks && callbacks[id] == Some(c) then Cancelled else slots[id];
      callbacks := map id | id in callbacks && callbacks[id] != Some(c) :: callbacks[id];
    }
  }

  // ---------- runs ----------

  /** Everything that can happen to the table in the routed server, where each peer speaks for its own connection. */
  datatype Happening =
    | Asked(owner: ConnectionId)
    | Unqueued(id: RequestId)
    | Responded(from: ConnectionId, id: RequestId, answer: Answer)
    | Errored(from: ConnectionId, id: RequestId)
    | ClosedConnection(connection: ConnectionId)

  function After(t: Table, h: Happening): Table {
    match h
    case Asked(owner) => Ask(t, Some(owner))
    case Unqueued(id) => Withdraw(t, id)
    case Responded(from, id, answer) => Settle(t, Some(from), id, Answered(answer))
    case Errored(from, id) => Settle(t, Some(from), id, Cancelled)
    case ClosedConnection(c) => Clear(t, c)
  }

  /** The table after a whole run. */
  function Replay(run: seq<Happening>): Table {
    if run == [] then Table(0, map[], map[]) else After(Replay(run[..|run| - 1]), run[|run| - 1])
  }

  /** How many requests a run has asked. */
  function AskCount(run: seq<Happening>): nat {
    if run == [] then 0 else AskCount(run[..|run| - 1]) + if run[|run| - 1].Asked? then 1 else 0
  }

  /** One request seen alone: not asked yet, open for its owner, or settled. */
  datatype Story = Unasked | Open(owner: ConnectionId) | Over(slot: Slot)

  /** The life of request `n` told without any table: the first word of its owner, or of the owner's absence, counts. */
  function StoryOf(run: seq<Happening>, n: nat): Story {
    if run == [] then Unasked
    else
      var before := run[..|run| - 1];
      var h := run[|run| - 1];
      match StoryOf(before, n)
      case Over(slot) => Over(slot)
      case Unasked =>
        if h.Asked? && AskCount(before) == n then Open(h.owner) else Unasked
      case Open(owner) =>
        match h
        case Responded(from, id, answer) =>
          if from == owner && id == IntegerId(n) then Over(Answered(answer)) else Open(owner)
        case Errored(from, id) => if from == owner && id == IntegerId(n) then Over(Cancelled) else Open(owner)
        case ClosedConnection(c) => if c == owner then Over(Cancelled) else Open(owner)
        case Unqueued(id) => if id == IntegerId(n) then Over(Cancelled) else Open(owner)
        case Asked(_) => Open(owner)
  }

  /** What the table says about request `n`. */
  function Reading(t: Table, n: nat): Story {
    var id := IntegerId(n);
    if id in t.callbacks && t.callbacks[id].Some? then Open(t.callbacks[id].value)
    else if id in t.slots && !t.slots[id].Waiting? then Over(t.slots[id])
    else Unasked
  }

  ghost predicate TableInv(t: Table) {
    && (forall id :: id in t.slots ==> id.IntegerId? && 0 <= id.number < t.next)
    && (forall id :: id in t.callbacks ==> id in t.slots && t.slots[id].Waiting? && t.callbacks[id].Some?)
    && (forall id :: id in t.slots && t.slots[id].Waiting? ==> id in t.callbacks)
  }

  lemma StepReads(t: Table, run: seq<Happening>, h: Happening, n: nat)
    requires TableInv(t) && t.next == AskCount(run) && Reading(t, n) == StoryOf(run, n)
    ensures TableInv(After(t, h)) && After(t, h).next == AskCount(run + [h])
    ensures Reading(After(t, h), n) == StoryOf(run + [h], n)
  {
    assert (run + [h])[..|run|] == run;
  }

  lemma {:induction false} ReplayKeepsTable(run: seq<Happening>)
    ensures TableInv(Replay(run)) && Replay(run).next == AskCount(run)
  {
    if run != [] {
      ReplayKeepsTable(run[..|run| - 1]);
    }
  }

  /** The shared table tells every request's story exactly: requests do not influence one another. */
  lemma {:induction false} TableTellsEachStory(run: seq<Happening>, n: nat)
    ensures Reading(Replay(run), n) == StoryOf(run, n)
  {
    if run != [] {
      var before, h := run[..|run| - 1], run[|run| - 1];
      TableTellsEachStory(before, n);
      ReplayKeepsTable(before);
      StepReads(Replay(before), before, h, n);
      assert before + [h] == run;
    }
  }

  /** Someone's asking is the `n`-th of the run, addressed to `owner`. */
  ghost predicate AskedOf(run: seq<Happening>, n: nat, owner: ConnectionId) {
    exists i :: 0 <= i < |run| && run[i] == Asked(owner) && AskCount(run[..i]) == n
  }

  /** At place `j` of the run the connection that had been asked request `n` before answers it. */
  ghost predicate AnsweredAt(run: seq<Happening>, n: nat, owner: ConnectionId, j: nat, answer: Answer) {
    j < |run| && run[j] == Responded(owner, IntegerId(n), answer) && AskedOf(run[..j], n, owner)
  }

  lemma AskedOfGrows(run: seq<Happening>, h: Happening, n: nat, owner: ConnectionId)
    requires AskedOf(run, n, owner)
    ensures AskedOf(run + [h], n, owner)
  {
    var i :| 0 <= i < |run| && run[i] == Asked(owner) && AskCount(run[..i]) == n;
    assert (run + [h])[..i] == run[..i] && (run + [h])[i] == run[i];
  }

  /**
   * An open request has been asked of its owner; an answered one was first asked of a connection, then answered by
   * it.
   */
  lemma {:induction false} StoryHasCause(run: seq<Happening>, n: nat)
    ensures StoryOf(run, n).Open? ==> AskedOf(run, n, StoryOf(run, n).owner)
    ensures StoryOf(run, n).Over? && StoryOf(run, n).slot.Answered? ==>
              exists owner, j: nat :: AnsweredAt(run, n, owner, j, StoryOf(run, n).slot.answer)
  {
    if run != [] {
      var before, h := run[..|run| - 1], run[|run| - 1];
      StoryHasCause(before, n);
      var was := StoryOf(before, n);
      assert run == before + [h];
      if was.Open? {
        AskedOfGrows(before, h, n, was.owner);
        if StoryOf(run, n).Over? && StoryOf(run, n).slot.Answered? {
          assert AnsweredAt(run, n, was.owner, |before|, h.answer);
        }
      } else if was.Unasked? && h.Asked? && AskCount(before) == n {
        assert run[|before|] == Asked(h.owner) && run[..|before|] == before;
      } else if was.Over? && was.slot.Answered? {
        var owner, j: nat :| AnsweredAt(before, n, owner, j, was.slot.answer);
        assert run[..j] == before[..j];
        assert AnsweredAt(run, n, owner, j, was.slot.answer);
      }
    }
  }

  /** A settled request stays settled the same way, so its task submits one decision whatever happens next. */
  lemma {:induction false} SettledForGood(run: seq<Happening>, more: seq<Happening>, n: nat)
    requires StoryOf(run, n).Over?
    ensures StoryOf(run + more, n) == StoryOf(run, n)
  {
    if more == [] {
      assert run + more == run;
    } else {
      var all := run + more;
      assert all[..|all| - 1] == run + more[..|more| - 1];
      SettledForGood(run, more[..|more| - 1], n);
    }
  }

  /**
   * Approvals fail closed: over every run, the task of request `n` submits an approving decision only if a connection
   * was asked that request and that very connection, after being asked, answered it with an approving decision.
   */
  lemma ApprovalsFailClosed(run: seq<Happening>, n: nat)
    requires IntegerId(n) in Replay(run).slots && !Replay(run).slots[IntegerId(n)].Waiting?
    requires Approves(Decide(Replay(run).slots[IntegerId(n)]))
    ensures exists owner, j: nat, answer :: AnsweredAt(run, n, owner, j, answer) && ApprovingAnswer(answer)
  {
    TableTellsEachStory(run, n);
    ReplayKeepsTable(run);
    StoryHasCause(run, n);
    var slot := Replay(run).slots[IntegerId(n)];
    var owner, j: nat :| AnsweredAt(run, n, owner, j, slot.answer);
    assert ApprovingAnswer(slot.answer);
  }

  /** Conversely, an owner's approving answer to an open request is what gets submitted. */
  lemma OwnerDecides(run: seq<Happening>, n: nat, owner: ConnectionId, answer: Answer)
    requires StoryOf(run, n) == Open(owner)
    ensures var t := Replay(run + [Responded(owner, IntegerId(n), answer)]);
            && IntegerId(n) in t.slots && t.slots[IntegerId(n)] == Answered(answer)
            && (Approves(Decide(t.slots[IntegerId(n)])) <==> ApprovingAnswer(answer))
  {
    var h := Responded(owner, IntegerId(n), answer);
    assert (run + [h])[..|run|] == run;
    TableTellsEachStory(run, n);
    ReplayKeepsTable(run);
  }

  /** An answer or error from anyone but the owner changes nothing. */
  lemma ForeignWordsIgnored(run: seq<Happening>, n: nat, owner: ConnectionId, from: ConnectionId, answer: Answer)
    requires StoryOf(run, n) == Open(owner) && from != owner
    ensures After(Replay(run), Responded(from, IntegerId(n), answer)) == Replay(run)
    ensures After(Replay(run), Errored(from, IntegerId(n))) == Replay(run)
  {
    TableTellsEachStory(run, n);
    ReplayKeepsTable(run);
  }

  /** Who may settle a callback: everyone but a connection that is known not to be its owner. */
  lemma SettledUnlessForeign(t: Table, from: Option<ConnectionId>, id: RequestId, slot: Slot)
    requires id in t.callbacks && id in t.slots
    ensures var foreign := t.callbacks[id].Some? && from.Some? && t.callbacks[id].value != from.value;
            if foreign then Settle(t, from, id, slot) == t
            else
              var after := Settle(t, from, id, slot);
              && id !in after.callbacks && after.slots[id] == slot && after.next == t.next
              && after.slots.Keys == t.slots.Keys && after.callbacks.Keys == t.callbacks.Keys - {id}
              && (forall other :: other in t.slots && other != id ==> after.slots[other] == t.slots[other])
              && (forall other :: other in after.callbacks ==> after.callbacks[other] == t.callbacks[other])
  {
  }

  // ---------- which decision ----------

  /** At place `j` the request is open for its owner, and the owner answers it. */
  ghost predicate SettledBy(run: seq<Happening>, n: nat, owner: ConnectionId, j: nat, answer: Answer) {
    j < |run| && run[j] == Responded(owner, IntegerId(n), answer) && StoryOf(run[..j], n) == Open(owner)
  }

  lemma SettledMeans(run: seq<Happening>, n: nat, owner: ConnectionId, j: nat, answer: Answer)
    requires SettledBy(run, n, owner, j, answer)
    ensures StoryOf(run, n) == Over(Answered(answer))
  {
    assert run[..j + 1][..j] == run[..j] && run[..j + 1][j] == run[j];
    SettledForGood(run[..j + 1], run[j + 1..], n);
    assert run[..j + 1] + run[j + 1..] == run;
  }

  lemma {:induction false} AnsweredMeans(run: seq<Happening>, n: nat, answer: Answer)
    requires StoryOf(run, n) == Over(Answered(answer))
    ensures exists owner, j: nat :: SettledBy(run, n, owner, j, answer)
  {
    var before := run[..|run| - 1];
    if StoryOf(before, n).Over? {
      AnsweredMeans(before, n, answer);
      var owner, j: nat :| SettledBy(before, n, owner, j, answer);
      assert run[..j] == before[..j] && run[j] == before[j];
      assert SettledBy(run, n, owner, j, answer);
    } else {
      assert SettledBy(run, n, StoryOf(before, n).owner, |before|, answer);
    }
  }

  /** The owner's word on the request, while it was open, was this decision. */
  ghost predicate OwnerSaid(run: seq<Happening>, n: nat, d: WireDecision) {
    exists owner, j: nat :: SettledBy(run, n, owner, j, Decided(d))
  }

  lemma OwnerSaidIff(run: seq<Happening>, n: nat, d: WireDecision)
    ensures OwnerSaid(run, n, d) <==> StoryOf(run, n) == Over(Answered(Decided(d)))
  {
    if OwnerSaid(run, n, d) {
      var owner, j: nat :| SettledBy(run, n, owner, j, Decided(d));
      SettledMeans(run, n, owner, j, Decided(d));
    } else if StoryOf(run, n) == Over(Answered(Decided(d))) {
      AnsweredMeans(run, n, Decided(d));
    }
  }

  /**
   * Over every run, what is submitted for a settled request is what its owner said while it was open: a grant for the
   * session only for that very answer, a single approval for an approval or a policy amendment, an abort for an abort,
   * and a denial in every other case.
   */
  lemma DecisionIsTheOwners(run: seq<Happening>, n: nat)
    requires IntegerId(n) in Replay(run).slots && !Replay(run).slots[IntegerId(n)].Waiting?
    ensures var d := Decide(Replay(run).slots[IntegerId(n)]);
            && (d == CoreApprovedForSession <==> OwnerSaid(run, n, ApprovedForSession))
            && (d == CoreApproved <==> OwnerSaid(run, n, Approved) || OwnerSaid(run, n, ApprovedExecpolicyAmendment))
            && (d == CoreAbort <==> OwnerSaid(run, n, Abort))
            && (d == CoreDenied <==>
                  forall w: WireDecision :: OwnerSaid(run, n, w) ==> w == Denied)
  {
    TableTellsEachStory(run, n);
    ReplayKeepsTable(run);
    forall w: WireDecision
      ensures OwnerSaid(run, n, w) <==> StoryOf(run, n) == Over(Answered(Decided(w)))
    {
      OwnerSaidIff(run, n, w);
    }
    assert StoryOf(run, n) == Over(Replay(run).slots[IntegerId(n)]);
  }
}
