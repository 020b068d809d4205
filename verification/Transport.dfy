/** The bounded channels between tasks, and the two operations that push into them under load. */
module Transport {
  import opened Prelude
  import opened Protocol
  import opened Server

  datatype SendResult = Sent | ChannelFull | ChannelClosed

  /** A channel must be able to hold something. */
  type Capacity = n: nat | n > 0 witness 1

  /** A bounded channel: the buffered items and whether its receiver is alive. */
  class Channel<T> {
    const capacity: Capacity
    var buffer: seq<T>
    var open: bool

    constructor (capacity: Capacity)
      ensures this.capacity == capacity && buffer == [] && open
    {
      this.capacity := capacity;
      buffer := [];
      open := true;
    }

    method TrySend(item: T) returns (r: SendResult)
      modifies this`buffer
      ensures r == if !open then ChannelClosed else if |old(buffer)| >= capacity then ChannelFull else Sent
      ensures buffer == old(buffer) + if r.Sent? then [item] else []
    {
      if !open {
        return ChannelClosed;
      }
      if |buffer| >= capacity {
        return ChannelFull;
      }
      buffer := buffer + [item];
      return Sent;
    }

    predicate Full()
      reads this
    {
      |buffer| >= capacity
    }
  }

  /** `AwaitingRoom`: the reader is suspended in `send` with this message; nothing has happened yet. */
  datatype Forward = KeepReading | StopReading | AwaitingRoom

  /**
   * `enqueue_incoming_message`. The message is queued, refused with one overload error, dropped, or lost to a closed
   * channel, exactly as the transition system's `Fate` says; nothing else changes.
   */
  method EnqueueIncomingMessage(events: Channel<Event>, writer: Channel<Message>, c: ConnectionId, m: ClientMessage)
    returns (r: Forward)
    requires events as object != writer as object
    modifies events`buffer, writer`buffer
    ensures r.AwaitingRoom? <==> m.ClientOther? && events.open && |old(events.buffer)| >= events.capacity
    ensures r.AwaitingRoom? ==> events.buffer == old(events.buffer) && writer.buffer == old(writer.buffer)
    ensures !r.AwaitingRoom? ==>
      var room, full := |old(events.buffer)| < events.capacity, |old(writer.buffer)| >= writer.capacity;
      var fate := Fate(events.open, room, writer.open, full);
      && (r.StopReading? <==> fate.Lost?)
      && events.buffer == old(events.buffer) + (if fate.Queued? then [Incoming(c, m)] else [])
      && writer.buffer == old(writer.buffer)
         + (if fate.Refused? then [Error(m.id, "Server overloaded; retry later.")] else [])
  {
    var sent := events.TrySend(Incoming(c, m));
    match sent
    case Sent => return KeepReading;
    case ChannelClosed => return StopReading;
    case ChannelFull =>
      match m
      case ClientOther(_) => return AwaitingRoom;
      case ClientRequest(id, _) =>
        var refused := writer.TrySend(OverloadEntry(id).message);
        return if refused.ChannelClosed? then StopReading else KeepReading;
  }

  // ---------- the outbound router ----------

  /** The closing events for a list of connections, in its order. */
  function Notices(backlog: seq<ConnectionId>): seq<Event> {
    if backlog == [] then [] else Notices(backlog[..|backlog| - 1]) + [Closed(backlog[|backlog| - 1])]
  }

  datatype Routed = Routed(disconnected: seq<ConnectionId>) | AwaitingWriter

  /** The router task's connection table, over the writer queues and flags it shares with the other tasks. */
  class OutboundRouter {
    const mode: Mode
    var writers: map<ConnectionId, Writer>
    var flags: map<ConnectionId, Session>
    var connections: set<ConnectionId>
    var pendingClosed: seq<ConnectionId>

    constructor (mode: Mode)
      ensures this.mode == mode && writers == map[] && flags == map[] && connections == {} && pendingClosed == []
    {
      this.mode := mode;
      writers, flags, connections, pendingClosed := map[], map[], {}, [];
    }

    /** These fields are the router's share of the system state `s`, about to write `e`. */
    ghost predicate Mirrors(s: State, e: Envelope, origin: Origin)
      reads this
    {
      && s.mode == mode && s.net.writers == writers && s.flags == flags
      && s.rt == Router(Writing(e, origin), connections, pendingClosed)
    }

    /** The connections an envelope is meant for. */
    function TargetsOf(e: Envelope): set<ConnectionId>
      reads this
    {
      set c | c in connections && c in flags && c in writers
              && !Skips(flags[c], e.message)
              && (if e.ToConnection? then c == e.connection else flags[c].initialized)
    }

    /** `is_connection_write_failed`, for a writer that need not be awaited. */
    method WriteFailed(c: ConnectionId, entry: Entry) returns (failed: bool)
      requires c in writers && !WriteBlocks(mode, writers[c])
      modifies this`writers
      ensures failed == WriteFails(mode, old(writers)[c])
      ensures failed <==> !old(writers)[c].Accepts()
      ensures writers == if failed then old(writers) else old(writers)[c := old(writers)[c].Push(entry)]
    {
      failed := !writers[c].Accepts();
      if !failed {
        writers := writers[c := writers[c].Push(entry)];
      }
    }

    /** The write loop: one attempt per target, in some order; the targets that failed leave the table. */
    method WriteEach(targets: set<ConnectionId>, entry: Entry) returns (disconnected: seq<ConnectionId>)
      requires forall c :: c in targets ==> c in writers && !WriteBlocks(mode, writers[c])
      modifies this`writers, this`connections
      ensures writers == WriteAll(old(writers), targets, entry)
      ensures Distinct(disconnected)
      ensures forall c :: c in disconnected <==> c in targets && WriteFails(mode, old(writers)[c])
      ensures connections == old(connections) - set c | c in disconnected
    {
      ghost var before, known := writers, connections;
      var remaining := targets;
      disconnected := [];
      while remaining != {}
        invariant remaining <= targets
        invariant writers == WriteAll(before, targets - remaining, entry)
        invariant Distinct(disconnected)
        invariant forall c :: c in disconnected <==> c in targets - remaining && WriteFails(mode, before[c])
        invariant connections == known - set c | c in disconnected
        decreases remaining
      {
        var c :| c in remaining;
        assert writers[c] == before[c];
        var failed := WriteFailed(c, entry);
        assert targets - (remaining - {c}) == (targets - remaining) + {c};
        assert writers == WriteAll(before, targets - (remaining - {c}), entry);
        remaining := remaining - {c};
        if failed {
          connections, disconnected := connections - {c}, disconnected + [c];
        }
      }
      assert targets - remaining == targets;
    }

    /**
     * `route_outgoing_envelope`, then queueing the disconnect notices. Either the router is suspended on a full stdio
     * writer and nothing has happened, or this is exactly the transition system's write step.
     */
    method RouteOutgoingEnvelope(ghost s: State, e: Envelope, origin: Origin) returns (r: Routed)
      requires Mirrors(s, e, origin)
      modifies this
      ensures r.AwaitingWriter? <==> exists c :: c in Targets(s, e) && WriteBlocks(s.mode, s.net.writers[c])
      ensures r.AwaitingWriter? ==> Mirrors(s, e, origin)
      ensures r.Routed? ==>
        && CanRouterWrite(s, r.disconnected)
        && var t := DoRouterWrite(s, r.disconnected);
           && writers == t.net.writers && flags == t.flags && connections == t.rt.outbound
           && pendingClosed == t.rt.pendingClosed
    {
      var targets := TargetsOf(e);
      assert targets == Targets(s, e);
      if exists c :: c in targets && WriteBlocks(mode, writers[c]) {
        return AwaitingWriter;
      }
      var disconnected := WriteEach(targets, Entry(e.message, origin));
      assert (set c | c in disconnected) == Failing(s, e);
      pendingClosed := pendingClosed + disconnected;
      return Routed(disconnected);
    }

    /** The backlog loop: notices are forwarded oldest first until the event queue is full. */
    method ForwardNotices(events: Channel<Event>)
      modifies this`pendingClosed, events`buffer
      ensures exists k :: 0 <= k <= |old(pendingClosed)|
                && events.buffer == old(events.buffer) + Notices(old(pendingClosed)[..k])
                && pendingClosed == old(pendingClosed)[k..]
                && (pendingClosed == [] || !events.open || |events.buffer| >= events.capacity)
    {
      ghost var k := 0;
      ghost var backlog, queued := pendingClosed, events.buffer;
      while pendingClosed != []
        invariant 0 <= k <= |backlog| && pendingClosed == backlog[k..]
        invariant events.buffer == queued + Notices(backlog[..k])
        decreases |pendingClosed|
      {
        var sent := events.TrySend(Closed(pendingClosed[0]));
        if !sent.Sent? {
          return;
        }
        assert backlog[..k + 1][..k] == backlog[..k];
        pendingClosed := pendingClosed[1..];
        k := k + 1;
      }
    }
  }

  // ---------- the shared route table ----------

  /** `request_routes`, with the processor's ordinal counter. */
  class RequestRoutes {
    var routes: map<RequestId, Route>
    var nextOrdinal: nat

    constructor ()
      ensures routes == map[] && nextOrdinal == 0
    {
      routes, nextOrdinal := map[], 0;
    }

    /** Renames a client request to a fresh internal id and remembers its owner. */
    method Accept(c: ConnectionId, original: RequestId) returns (internal: RequestId)
      modifies this
      ensures internal == InternalId(c, old(nextOrdinal)) && nextOrdinal == old(nextOrdinal) + 1
      ensures routes == old(routes)[internal := Route(c, original, old(nextOrdinal))]
    {
      internal := InternalId(c, nextOrdinal);
      routes := routes[internal := Route(c, original, nextOrdinal)];
      nextOrdinal := nextOrdinal + 1;
    }

    /** `rewrite_response_routing`. */
    method RewriteResponseRouting(e: Envelope) returns (out: Option<Envelope>)
      modifies this`routes
      ensures (out, routes) == Rewrite(old(routes), e)
    {
      if e.Broadcast? && e.message.IsReply() {
        var m := e.message;
        if m.id in routes {
          var r := routes[m.id];
          routes := routes - {m.id};
          return Some(ToConnection(r.connection, m.WithId(r.original)));
        }
        if IsInternal(m.id) {
          return None;
        }
      }
      return Some(e);
    }

    /** `remove_request_routes_for_connection`. */
    method RemoveForConnection(c: ConnectionId)
      modifies this`routes
      ensures routes == Retain(old(routes), c)
      ensures !HasRoute(routes, c)
    {
      routes := map k | k in routes && routes[k].connection != c :: routes[k];
    }
  }
}
