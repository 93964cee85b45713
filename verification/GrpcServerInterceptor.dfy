/**
 The server interceptor: one span per RPC, created when the initial metadata has
 arrived and ended when the status goes out, shared with the handler through the
 thread-local current span.
 */
module GrpcServerInterceptor {
  import opened Text
  import opened Spans
  import opened GrpcContext
  import Hosts

  /** What an RPC brings along: its metadata and its peer. */
  datatype Incoming = Incoming(metadata: seq<Entry>, peer: string)

  /** What the agent decides about a new span: whether there is one, and whether it is sampled. */
  datatype Decision = Decision(available: bool, sampled: bool)

  /** The hook points of one batch. */
  datatype Batch = Batch(postRecvInitialMetadata: bool, preSendStatus: bool, status: Status)

  /** The state the interceptor works on: its own span, the thread's slot, the ledger. */
  datatype ServerSide = ServerSide(held: Option<nat>, slot: Option<nat>, spans: seq<Span>)
  {
    ghost predicate Valid() {
      held.Some? ==> held.value < |spans|
    }
  }

  /** What the agent's `NewSpan` reads through the context reader. */
  function Extracted(keys: seq<string>, incoming: Option<Incoming>): (r: seq<Option<string>>)
    ensures |r| == |keys|
    ensures forall i | 0 <= i < |keys| ::
              r[i] == if incoming.None? then None else Lookup(incoming.value.metadata, keys[i])
  {
    seq(|keys|, i requires 0 <= i < |keys| =>
      if incoming.None? then None else Lookup(incoming.value.metadata, keys[i]))
  }

  /** The span recorded for an RPC, before its handler runs. */
  function ServerSpan(keys: seq<string>, incoming: Option<Incoming>, sampled: bool): Span {
    FreshSpan(Extracted(keys, incoming)).(remoteAddress :=
      if sampled && incoming.Some? then Some(Hosts.ResolvePeerHost(incoming.value.peer)) else None)
  }

  function RecvHook(s: ServerSide, keys: seq<string>, incoming: Option<Incoming>, decision: Decision): ServerSide {
    if s.held.Some? then s
    else if !decision.available then s.(slot := None)
    else ServerSide(Some(|s.spans|), Some(|s.spans|), s.spans + [ServerSpan(keys, incoming, decision.sampled)])
  }

  /** The span with the failure of the RPC, if any, and its end recorded. */
  function Concluded(span: Span, status: Status): Span {
    (if status.Failed? then span.(error := Some(status.message)) else span).Ended()
  }

  function SendHook(s: ServerSide, status: Status): ServerSide
    requires s.Valid()
  {
    ServerSide(None, None,
      if s.held.None? then s.spans
      else s.spans[s.held.value := Concluded(s.spans[s.held.value], status)])
  }

  /** One call of `Intercept`: both hooks may share a batch. */
  function ServerStep(s: ServerSide, keys: seq<string>, incoming: Option<Incoming>, decision: Decision, batch: Batch): ServerSide
    requires s.Valid()
  {
    var received := if batch.postRecvInitialMetadata then RecvHook(s, keys, incoming, decision) else s;
    if batch.preSendStatus then SendHook(received, batch.status) else received
  }

  // ------------------------------------------------------------------
  // What is recorded, field by field
  // ------------------------------------------------------------------

  /** The address a new span records: the bare host of the peer, if it is sampled and there is a context. */
  predicate RecordsPeer(span: Span, incoming: Option<Incoming>, sampled: bool) {
    match incoming
    case Some(i) => span.remoteAddress == if sampled then Some(Hosts.ResolvePeerHost(i.peer)) else None
    case None => span.remoteAddress == None
  }

  /** The span is the old one with one more end, and the message of the failure, if it was one. */
  predicate Concludes(span: Span, before: Span, status: Status) {
    && span.error == (match status case Failed(m) => Some(m) case OK => before.error)
    && span.endings == before.endings + 1
    && span.extracted == before.extracted && span.remoteAddress == before.remoteAddress && span.trace == before.trace
  }

  /** A receive batch without a span makes one if the agent has one to give, and shares it. */
  predicate Received(before: ServerSide, after: ServerSide, keys: seq<string>, incoming: Option<Incoming>, decision: Decision) {
    var x := |before.spans|;
    if before.held.Some? then after == before
    else if !decision.available then after.held == None && after.slot == None && after.spans == before.spans
    else
      && after.held == Some(x) && after.slot == Some(x)
      && |after.spans| == x + 1 && after.spans[..x] == before.spans
      && RecordsPeer(after.spans[x], incoming, decision.sampled)
      && |after.spans[x].extracted| == |keys|
      && (forall i | 0 <= i < |keys| :: after.spans[x].extracted[i]
            == match incoming case Some(m) => Lookup(m.metadata, keys[i]) case None => None)
      && after.spans[x].error == None && after.spans[x].trace == [] && after.spans[x].endings == 0
  }

  /** A send batch ends the held span, if there is one, lets go of it and clears the slot. */
  predicate Sent(before: ServerSide, after: ServerSide, status: Status) {
    && after.held == None && after.slot == None && |after.spans| == |before.spans|
    && (forall x | 0 <= x < |before.spans| && before.held != Some(x) :: after.spans[x] == before.spans[x])
    && (before.held.Some? && before.held.value < |before.spans| ==>
          Concludes(after.spans[before.held.value], before.spans[before.held.value], status))
  }

  lemma ReceiveRecords(s: ServerSide, keys: seq<string>, incoming: Option<Incoming>, decision: Decision)
    ensures Received(s, RecvHook(s, keys, incoming, decision), keys, incoming, decision)
  {
  }

  lemma SendRecords(s: ServerSide, status: Status)
    requires s.Valid()
    ensures Sent(s, SendHook(s, status), status)
  {
  }

  /** What one batch does: the receiving half, then the sending half, each if its hook point is set. */
  ghost predicate BatchRecords(before: ServerSide, after: ServerSide, keys: seq<string>, incoming: Option<Incoming>,
                               decision: Decision, batch: Batch)
  {
    exists between: ServerSide :: BatchVia(before, between, after, keys, incoming, decision, batch)
  }

  predicate BatchVia(before: ServerSide, between: ServerSide, after: ServerSide, keys: seq<string>,
                     incoming: Option<Incoming>, decision: Decision, batch: Batch)
  {
    && (if batch.postRecvInitialMetadata then Received(before, between, keys, incoming, decision) else between == before)
    && (if batch.preSendStatus then Sent(between, after, batch.status) else after == between)
  }

  lemma StepRecords(s: ServerSide, keys: seq<string>, incoming: Option<Incoming>, decision: Decision, batch: Batch)
    requires s.Valid()
    ensures BatchRecords(s, ServerStep(s, keys, incoming, decision, batch), keys, incoming, decision, batch)
  {
    var received := if batch.postRecvInitialMetadata then RecvHook(s, keys, incoming, decision) else s;
    ReceiveRecords(s, keys, incoming, decision);
    SendRecords(received, batch.status);
    assert BatchVia(s, received, ServerStep(s, keys, incoming, decision, batch), keys, incoming, decision, batch);
  }

  /** A sampled span for a peer printed as `ipv4:host:port` records the host. */
  lemma RecordedPeerIsHost(span: Span, host: string, port: string, metadata: seq<Entry>)
    requires host != "" && ':' !in port && !Hosts.IsWrapped(host)
    requires RecordsPeer(span, Some(Incoming(metadata, Hosts.PrintPeer("ipv4", host, port))), true)
    ensures span.remoteAddress == Some(host)
  {
    Hosts.IPv4PeerRoundTrip(host, port);
  }

  // ------------------------------------------------------------------
  // The interceptor object
  // ------------------------------------------------------------------

  /** The agent of the server process. */
  class Agent {
    const keys: seq<string>
    var spans: seq<Span>

    constructor (keys: seq<string>)
      ensures this.keys == keys && spans == []
    {
      this.keys := keys;
      spans := [];
    }

    method NewSpan(reader: GrpcServerTraceContextReader, available: bool) returns (span: Option<nat>)
      modifies this
      ensures span == if available then Some(|old(spans)|) else None
      ensures spans == if available then old(spans) + [FreshSpan(Extracted(keys, IncomingOf(reader.context)))]
                       else old(spans)
    {
      if !available {
        return None;
      }
      var values := [];
      for i := 0 to |keys|
        invariant values == Extracted(keys, IncomingOf(reader.context))[..i]
        invariant spans == old(spans)
      {
        var value := reader.Get(keys[i]);
        values := values + [value];
      }
      assert values == Extracted(keys, IncomingOf(reader.context));
      span := Some(|spans|);
      spans := spans + [FreshSpan(values)];
    }

    method SetRemoteAddress(span: nat, host: string)
      requires span < |spans|
      modifies this
      ensures spans == old(spans)[span := old(spans)[span].(remoteAddress := Some(host))]
    {
      spans := spans[span := spans[span].(remoteAddress := Some(host))];
    }

    method SetError(span: nat, message: string)
      requires span < |spans|
      modifies this
      ensures spans == old(spans)[span := old(spans)[span].(error := Some(message))]
    {
      spans := spans[span := spans[span].(error := Some(message))];
    }

    method EndSpan(span: nat)
      requires span < |spans|
      modifies this
      ensures spans == old(spans)[span := old(spans)[span].Ended()]
    {
      spans := spans[span := spans[span].Ended()];
    }
  }

  function IncomingOf(context: ServerContext?): Option<Incoming> {
    if context == null then None else Some(Incoming(context.metadata, context.peer))
  }

  class PinpointServerInterceptor {
    /** The server context of the RPC, from its ServerRpcInfo. */
    const context: ServerContext?
    var span: Option<nat>

    constructor (context: ServerContext?)
      ensures this.context == context && span == None
    {
      this.context := context;
      span := None;
    }

    ghost function State(agent: Agent, current: CurrentSpan): ServerSide
      reads this, agent, current
    {
      ServerSide(span, current.span, agent.spans)
    }

    /** The first half of a batch: the RPC has arrived. */
    method OnPostRecvInitialMetadata(agent: Agent, current: CurrentSpan, decision: Decision)
      requires State(agent, current).Valid()
      modifies this, agent, current
      ensures State(agent, current) == RecvHook(old(State(agent, current)), agent.keys, IncomingOf(context), decision)
      ensures State(agent, current).Valid()
    {
      if span.None? {
        var reader := new GrpcServerTraceContextReader(context);
        span := agent.NewSpan(reader, decision.available);
        if span.Some? && decision.sampled {
          if context != null {
            agent.SetRemoteAddress(span.value, Hosts.ResolvePeerHost(context.peer));
          }
        }
        current.span := span;
      }
    }

    /** The second half of a batch: the status goes out. */
    method OnPreSendStatus(agent: Agent, current: CurrentSpan, status: Status)
      requires State(agent, current).Valid()
      modifies this, agent, current
      ensures State(agent, current) == SendHook(old(State(agent, current)), status)
      ensures State(agent, current).Valid()
    {
      if span.Some? {
        if status.Failed? {
          agent.SetError(span.value, status.message);
        }
        agent.EndSpan(span.value);
        span := None;
      }
      current.span := None;
    }

    /**
     Running a batch on the calling thread is exactly `ServerStep`, and so makes,
     ends and describes spans as `BatchRecords` says.
     */
    method Intercept(batch: Batch, agent: Agent, current: CurrentSpan, decision: Decision)
      requires State(agent, current).Valid()
      modifies this, agent, current
      ensures State(agent, current)
              == ServerStep(old(State(agent, current)), agent.keys, IncomingOf(context), decision, batch)
      ensures State(agent, current).Valid()
      ensures BatchRecords(old(State(agent, current)), State(agent, current), agent.keys, IncomingOf(context), decision, batch)
    {
      StepRecords(State(agent, current), agent.keys, IncomingOf(context), decision, batch);
      if batch.postRecvInitialMetadata {
        OnPostRecvInitialMetadata(agent, current, decision);
      }
      if batch.preSendStatus {
        OnPreSendStatus(agent, current, batch.status);
      }
    }
  }
}
