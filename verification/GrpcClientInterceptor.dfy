/**
 The client interceptor: one span event per outgoing RPC, opened on the thread's
 current span when the initial metadata goes out, and closed when the status is in.
 */
module GrpcClientInterceptor {
  import opened Text
  import opened Spans
  import opened GrpcContext

  /** What the agent knows of an event; its index in the ledger identifies it. */
  datatype Event = Event(
    parent: nat,
    operation: string,
    destination: string,
    url: string,
    /** The values handed to the context writer, key by key. */
    injected: Option<seq<string>>,
    error: Option<string>)

  /** What an RPC is: its method, and what the agent makes of its event. */
  datatype Outgoing = Outgoing(rpcMethod: string, remote: string, available: bool, values: seq<string>)

  /** The hook points of one batch; the received status may be missing. */
  datatype Batch = Batch(preSendInitialMetadata: bool, postRecvStatus: bool, status: Option<Status>)

  /**
   The state the interceptor works on: its two fields, the thread's slot, the
   ledger, and the metadata of the client context, if there is one.
   */
  datatype ClientSide = ClientSide(
    parent: Option<nat>,
    event: Option<nat>,
    slot: Option<nat>,
    spans: seq<Span>,
    events: seq<Event>,
    metadata: Option<seq<Entry>>)
  {
    ghost predicate Valid() {
      && (parent.Some? ==> parent.value < |spans|)
      && (slot.Some? ==> slot.value < |spans|)
      && (event.Some? ==> event.value < |events|)
    }
  }

  function NewEvent(parent: nat, call: Outgoing, metadata: Option<seq<Entry>>): Event {
    Event(parent, call.rpcMethod, call.remote, "grpc://" + call.remote + call.rpcMethod,
          if metadata.Some? then Some(call.values) else None, None)
  }

  function PreSendHook(s: ClientSide, keys: seq<string>, call: Outgoing): ClientSide
    requires s.Valid() && s.slot.Some? && |call.values| == |keys|
  {
    var p := s.slot.value;
    if !call.available then s.(parent := s.slot, event := None)
    else ClientSide(s.slot, Some(|s.events|), s.slot,
                    s.spans[p := s.spans[p].WithBracket(Open(|s.events|))],
                    s.events + [NewEvent(p, call, s.metadata)],
                    if s.metadata.None? then None else Some(SetAll(s.metadata.value, keys, call.values)))
  }

  function PostRecvHook(s: ClientSide, status: Option<Status>): ClientSide
    requires s.Valid()
  {
    if s.event.None? || s.parent.None? then s
    else
      var p, e := s.parent.value, s.event.value;
      s.(event := None,
         spans := s.spans[p := s.spans[p].WithBracket(Close(e))],
         events := if status.Some? && status.value.Failed?
                   then s.events[e := s.events[e].(error := Some(status.value.message))] else s.events)
  }

  /** One call of `Intercept`: both hooks may share a batch. */
  function ClientStep(s: ClientSide, keys: seq<string>, call: Outgoing, batch: Batch): ClientSide
    requires s.Valid() && |call.values| == |keys|
    requires batch.preSendInitialMetadata ==> s.slot.Some?
  {
    var sent := if batch.preSendInitialMetadata then PreSendHook(s, keys, call) else s;
    if batch.postRecvStatus then PostRecvHook(sent, batch.status) else sent
  }

  // ------------------------------------------------------------------
  // What is recorded, field by field
  // ------------------------------------------------------------------

  /** The event of an RPC that has just left: named after its method, addressed to the dial target. */
  predicate DescribesCall(e: Event, parent: nat, call: Outgoing, injects: bool) {
    && e.parent == parent
    && e.operation == call.rpcMethod
    && e.destination == call.remote
    && e.url == "grpc://" + call.remote + call.rpcMethod
    && e.injected == (if injects then Some(call.values) else None)
    && e.error == None
  }

  predicate SameBut<T(==)>(before: seq<T>, after: seq<T>, k: nat) {
    |after| == |before| && forall i | 0 <= i < |before| && i != k :: after[i] == before[i]
  }

  /** The RPC leaves: one event on the current span, if the agent has one to give, and its context with it. */
  predicate Departs(before: ClientSide, after: ClientSide, keys: seq<string>, call: Outgoing)
    requires |call.values| == |keys|
  {
    && after.parent == before.slot && after.slot == before.slot
    && if !call.available then
         after.event == None && after.spans == before.spans && after.events == before.events
         && after.metadata == before.metadata
       else
         var e := |before.events|;
         && after.event == Some(e)
         && |after.events| == e + 1 && after.events[..e] == before.events
         && (before.slot.Some? && before.slot.value < |before.spans| ==>
               var p := before.slot.value;
               && DescribesCall(after.events[e], p, call, before.metadata.Some?)
               && SameBut(before.spans, after.spans, p)
               && after.spans[p] == before.spans[p].(trace := before.spans[p].trace + [Open(e)]))
         && after.metadata == match before.metadata
                              case Some(m) => Some(SetAll(m, keys, call.values))
                              case None => None
  }

  /** The status is in: the open event is closed, with the message of a failure recorded on it. */
  predicate Returns(before: ClientSide, after: ClientSide, status: Option<Status>) {
    && after.slot == before.slot && after.parent == before.parent && after.metadata == before.metadata
    && after.event == (if before.parent.Some? then None else before.event)
    && if before.event.None? || before.parent.None? then after.spans == before.spans && after.events == before.events
       else
         var e, p := before.event.value, before.parent.value;
         && SameBut(before.events, after.events, e) && SameBut(before.spans, after.spans, p)
         && (e < |before.events| ==> after.events[e] == before.events[e].(error :=
               match status case Some(Failed(m)) => Some(m) case _ => before.events[e].error))
         && (p < |before.spans| ==>
               after.spans[p] == before.spans[p].(trace := before.spans[p].trace + [Close(e)]))
  }

  lemma DepartureRecords(s: ClientSide, keys: seq<string>, call: Outgoing)
    requires s.Valid() && s.slot.Some? && |call.values| == |keys|
    ensures Departs(s, PreSendHook(s, keys, call), keys, call)
  {
  }

  lemma ReturnRecords(s: ClientSide, status: Option<Status>)
    requires s.Valid()
    ensures Returns(s, PostRecvHook(s, status), status)
  {
  }

  /** What one batch does: the sending half, then the receiving half, each if its hook point is set. */
  ghost predicate BatchRecords(before: ClientSide, after: ClientSide, keys: seq<string>, call: Outgoing, batch: Batch)
    requires |call.values| == |keys|
  {
    exists between: ClientSide :: BatchVia(before, between, after, keys, call, batch)
  }

  predicate BatchVia(before: ClientSide, between: ClientSide, after: ClientSide, keys: seq<string>, call: Outgoing, batch: Batch)
    requires |call.values| == |keys|
  {
    && (if batch.preSendInitialMetadata then Departs(before, between, keys, call) else between == before)
    && (if batch.postRecvStatus then Returns(between, after, batch.status) else after == between)
  }

  lemma StepRecords(s: ClientSide, keys: seq<string>, call: Outgoing, batch: Batch)
    requires s.Valid() && |call.values| == |keys|
    requires batch.preSendInitialMetadata ==> s.slot.Some?
    ensures BatchRecords(s, ClientStep(s, keys, call, batch), keys, call, batch)
  {
    var sent := if batch.preSendInitialMetadata then PreSendHook(s, keys, call) else s;
    if batch.preSendInitialMetadata {
      DepartureRecords(s, keys, call);
    }
    ReturnRecords(sent, batch.status);
    assert BatchVia(s, sent, ClientStep(s, keys, call, batch), keys, call, batch);
  }

  // ------------------------------------------------------------------
  // The interceptor object
  // ------------------------------------------------------------------

  /** The agent of the client process. */
  class Agent {
    const keys: seq<string>
    var spans: seq<Span>
    var events: seq<Event>

    constructor (keys: seq<string>)
      ensures this.keys == keys && spans == [] && events == []
    {
      this.keys := keys;
      spans := [];
      events := [];
    }

    method NewSpanEvent(span: nat, operation: string) returns (e: nat)
      requires span < |spans|
      modifies this
      ensures e == |old(events)|
      ensures events == old(events) + [Event(span, operation, "", "", None, None)]
      ensures spans == old(spans)[span := old(spans)[span].WithBracket(Open(e))]
    {
      e := |events|;
      events := events + [Event(span, operation, "", "", None, None)];
      spans := spans[span := spans[span].WithBracket(Open(e))];
    }

    method SetEvent(e: nat, event: Event)
      requires e < |events|
      modifies this`events
      ensures events == old(events)[e := event]
    {
      events := events[e := event];
    }

    /** Hands the agent's values for its fixed keys to the writer. */
    method InjectContext(e: nat, values: seq<string>, writer: GrpcClientTraceContextWriter)
      requires e < |events| && |values| == |keys| && writer.context != null
      modifies this`events, writer.context
      ensures events == old(events)[e := old(events)[e].(injected := Some(values))]
      ensures writer.context.metadata == SetAll(old(writer.context.metadata), keys, values)
    {
      for i := 0 to |keys|
        invariant events == old(events)
        invariant SetAll(writer.context.metadata, keys[i..], values[i..])
                  == SetAll(old(writer.context.metadata), keys, values)
      {
        writer.Set(keys[i], values[i]);
        assert keys[i..][1..] == keys[i + 1..] && values[i..][1..] == values[i + 1..];
      }
      events := events[e := events[e].(injected := Some(values))];
    }

    method EndEvent(e: nat, span: nat)
      requires span < |spans|
      modifies this`spans
      ensures spans == old(spans)[span := old(spans)[span].WithBracket(Close(e))]
    {
      spans := spans[span := spans[span].WithBracket(Close(e))];
    }
  }

  class PinpointClientInterceptor {
    /** The client context of the RPC, from its ClientRpcInfo. */
    const context: ClientContext?
    const remote: string
    var parentSpan: Option<nat>
    var spanEvent: Option<nat>

    constructor (context: ClientContext?, remote: string)
      ensures this.context == context && this.remote == remote
      ensures parentSpan == None && spanEvent == None
    {
      this.context := context;
      this.remote := remote;
      parentSpan := None;
      spanEvent := None;
    }

    ghost function State(agent: Agent, current: CurrentSpan): ClientSide
      reads this, agent, current, if context == null then {} else {context}
    {
      ClientSide(parentSpan, spanEvent, current.span, agent.spans, agent.events,
                 if context == null then None else Some(context.metadata))
    }

    /** The first half of a batch: the RPC is about to leave. */
    method OnPreSendInitialMetadata(call: Outgoing, agent: Agent, current: CurrentSpan)
      requires State(agent, current).Valid()
      requires call.remote == remote && |call.values| == |agent.keys|
      requires current.span.Some?
      modifies this, agent, if context == null then {} else {context}
      ensures State(agent, current) == PreSendHook(old(State(agent, current)), agent.keys, call)
      ensures Departs(old(State(agent, current)), State(agent, current), agent.keys, call)
    {
      DepartureRecords(State(agent, current), agent.keys, call);
      parentSpan := current.span;
      if !call.available {
        spanEvent := None;
        return;
      }
      var e := agent.NewSpanEvent(parentSpan.value, call.rpcMethod);
      spanEvent := Some(e);
      agent.SetEvent(e, agent.events[e].(destination := remote,
                                         url := "grpc://" + remote + call.rpcMethod));
      if context != null {
        var writer := new GrpcClientTraceContextWriter(context);
        agent.InjectContext(e, call.values, writer);
      }
    }

    /** The second half of a batch: the RPC's status has arrived. */
    method OnPostRecvStatus(status: Option<Status>, agent: Agent, current: CurrentSpan)
      requires State(agent, current).Valid()
      modifies this, agent
      ensures State(agent, current) == PostRecvHook(old(State(agent, current)), status)
      ensures Returns(old(State(agent, current)), State(agent, current), status)
    {
      ReturnRecords(State(agent, current), status);
      if spanEvent.Some? && parentSpan.Some? {
        var e := spanEvent.value;
        if status.Some? && status.value.Failed? {
          agent.SetEvent(e, agent.events[e].(error := Some(status.value.message)));
        }
        agent.EndEvent(e, parentSpan.value);
        spanEvent := None;
      }
    }

    /**
     Running a batch on the calling thread is exactly `ClientStep`, and so records
     what `BatchRecords` says. The code asserts a current span when it sends the
     initial metadata.
     */
    method Intercept(batch: Batch, call: Outgoing, agent: Agent, current: CurrentSpan)
      requires State(agent, current).Valid()
      requires call.remote == remote && |call.values| == |agent.keys|
      requires batch.preSendInitialMetadata ==> current.span.Some?
      modifies this, agent, if context == null then {} else {context}
      ensures State(agent, current) == ClientStep(old(State(agent, current)), agent.keys, call, batch)
      ensures BatchRecords(old(State(agent, current)), State(agent, current), agent.keys, call, batch)
    {
      StepRecords(State(agent, current), agent.keys, call, batch);
      if batch.preSendInitialMetadata {
        OnPreSendInitialMetadata(call, agent, current);
      }
      if batch.postRecvStatus {
        OnPostRecvStatus(batch.status, agent, current);
      }
    }
  }
}
