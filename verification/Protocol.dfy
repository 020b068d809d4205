/**
 * Message types of the app server and the internal request ids under which
 * client requests travel through the processor.
 */
module Protocol {
  import opened Prelude

  type ConnectionId = nat

  datatype RequestId = IntegerId(number: int) | StringId(text: string)

  /** `OutgoingMessage`: what the server can write to a client. */
  datatype Message =
    | Request(id: RequestId, verb: string)
    | Notification(verb: string)
    | Response(id: RequestId, body: string)
    | Error(id: RequestId, body: string)
  {
    predicate IsReply() { Response? || Error? }

    function WithId(newId: RequestId): Message
      requires IsReply()
    {
      this.(id := newId)
    }
  }

  datatype Envelope =
    | ToConnection(connection: ConnectionId, message: Message)
    | Broadcast(message: Message)

  /** `RequestRoute`, tagged with the ordinal under which it was accepted. */
  datatype Route = Route(connection: ConnectionId, original: RequestId, ordinal: nat)

  const INTERNAL_PREFIX := "__code_internal_request__"

  function InternalId(connection: ConnectionId, ordinal: nat): RequestId {
    StringId(INTERNAL_PREFIX + (Decimal(connection) + ":" + Decimal(ordinal)))
  }

  function Key(route: Route): RequestId {
    InternalId(route.connection, route.ordinal)
  }

  predicate IsInternal(id: RequestId) {
    id.StringId? && INTERNAL_PREFIX <= id.text
  }

  lemma KeyIsInternal(route: Route)
    ensures IsInternal(Key(route))
  {
    var rest := Decimal(route.connection) + ":" + Decimal(route.ordinal);
    assert (INTERNAL_PREFIX + rest)[..|INTERNAL_PREFIX|] == INTERNAL_PREFIX;
  }

  /** No two requests, of whatever connections, can share an internal id. */
  lemma InternalIdInjective(c: ConnectionId, m: nat, d: ConnectionId, n: nat)
    requires InternalId(c, m) == InternalId(d, n)
    ensures c == d && m == n
  {
    var x, y := Decimal(c) + ":" + Decimal(m), Decimal(d) + ":" + Decimal(n);
    assert x == (INTERNAL_PREFIX + x)[|INTERNAL_PREFIX|..];
    assert y == (INTERNAL_PREFIX + y)[|INTERNAL_PREFIX|..];
    DecimalDigits(c);
    DecimalDigits(d);
    var i, j := |Decimal(c)|, |Decimal(d)|;
    assert x[i] == ':' && y[j] == ':';
    assert i == j;
    assert x[..i] == Decimal(c) && y[..i] == Decimal(d);
    assert x[i + 1..] == Decimal(m) && y[i + 1..] == Decimal(n);
    DecimalInjective(c, d);
    DecimalInjective(m, n);
  }

  /**
   * `rewrite_response_routing`: the envelope to write, if any, and the route
   * table afterwards.
   */
  function Rewrite(routes: map<RequestId, Route>, envelope: Envelope): (Option<Envelope>, map<RequestId, Route>) {
    if envelope.Broadcast? && envelope.message.IsReply() then
      var m := envelope.message;
      if m.id in routes then
        var r := routes[m.id];
        (Some(ToConnection(r.connection, m.WithId(r.original))), routes - {m.id})
      else if IsInternal(m.id) then
        (None, routes)
      else
        (Some(envelope), routes)
    else
      (Some(envelope), routes)
  }

  /** The same reply, success or failure with its body, under another id. */
  predicate SameReply(sent: Message, m: Message, id: RequestId) {
    || (sent.Response? && m == Response(id, sent.body))
    || (sent.Error? && m == Error(id, sent.body))
  }

  predicate IsReplyTo(e: Envelope, k: RequestId) {
    e.Broadcast? && (e.message.Response? || e.message.Error?) && e.message.id == k
  }

  /**
   * What rewriting does to any envelope: the reply to a routed request becomes the same reply, addressed to the
   * request's owner under the owner's id, and uses up the route; a reply under a reserved id without a route vanishes;
   * everything else passes as it is.
   */
  lemma RewriteLaw(routes: map<RequestId, Route>, e: Envelope)
    ensures forall k :: k in routes && IsReplyTo(e, k) ==>
              exists m :: SameReply(e.message, m, routes[k].original)
                          && Rewrite(routes, e) == (Some(ToConnection(routes[k].connection, m)), routes - {k})
    ensures forall text :: StringId(text) !in routes && IsReplyTo(e, StringId(text)) ==>
              Rewrite(routes, e) == (if "__code_internal_request__" <= text then None else Some(e), routes)
    ensures forall n :: IntegerId(n) !in routes && IsReplyTo(e, IntegerId(n)) ==>
              Rewrite(routes, e) == (Some(e), routes)
    ensures (forall k :: !IsReplyTo(e, k)) ==> Rewrite(routes, e) == (Some(e), routes)
  {
    if k :| k in routes && IsReplyTo(e, k) {
      var m := if e.message.Response? then Response(routes[k].original, e.message.body)
               else Error(routes[k].original, e.message.body);
      assert SameReply(e.message, m, routes[k].original);
    }
    if e.Broadcast? && e.message.IsReply() {
      assert IsReplyTo(e, e.message.id);
    }
  }
}
