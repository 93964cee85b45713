/**
 The traced gRPC client as a whole: any number of HTTP worker threads, each
 wrapping its requests in a span and issuing any number of blocking RPCs from the
 handler, interleaved in any way.
 */
module GrpcClientTracing {
  import opened Text
  import opened Spans
  import opened GrpcContext
  import opened GrpcClientInterceptor

  /** Where a thread is in its request. */
  datatype Phase =
    | Idle
    /** `trace_request` returned the span; the slot is not set yet. */
    | Traced(span: nat)
    | Wrapped(span: nat)
    /** In the handler: the span it got from the slot, and its scoped event. */
    | Handling(span: nat, seen: Option<nat>, scoped: Option<nat>)
    /** In an RPC: the two fields of its interceptor. */
    | Calling(span: nat, seen: Option<nat>, scoped: Option<nat>, rpc: nat, parent: Option<nat>, event: Option<nat>)
    | Handled(span: nat)
    /** The span has ended; the slot is not cleared yet. */
    | Responded(span: nat)

  datatype Thread = Thread(slot: Option<nat>, phase: Phase)

  /** An RPC as it left: on behalf of which request, as what, under which event, with which metadata. */
  datatype Rpc = Rpc(thread: nat, request: nat, call: Outgoing, withContext: bool, event: Option<nat>, sent: Option<seq<Entry>>)

  datatype Client = Client(
    threads: seq<Thread>,
    spans: seq<Span>,
    /** The thread every span was made on. */
    madeBy: seq<nat>,
    events: seq<Event>,
    rpcs: seq<Rpc>,
    /** The status of each RPC that has returned. */
    returned: map<nat, Option<Status>>,
    /** The interceptor's assertion of a current span was violated. */
    assertionFailed: bool)

  datatype Action =
    | TraceRequest(thread: nat)
    | SetSlot(thread: nat)
    | EnterHandler(thread: nat)
    | StartRpc(thread: nat, call: Outgoing, withContext: bool)
    | FinishRpc(thread: nat, status: Option<Status>)
    | LeaveHandler(thread: nat)
    | EndRequest(thread: nat)
    | ClearSlot(thread: nat)

  function Initial(threads: nat): Client {
    Client(seq(threads, _ => Thread(None, Idle)), [], [], [], [], map[], false)
  }

  predicate Enabled(keys: seq<string>, c: Client, a: Action) {
    && a.thread < |c.threads|
    && !c.assertionFailed
    && var phase := c.threads[a.thread].phase;
       match a
       case TraceRequest(_) => phase.Idle?
       case SetSlot(_) => phase.Traced?
       case EnterHandler(_) => phase.Wrapped?
       case StartRpc(_, call, _) => phase.Handling? && |call.values| == |keys|
       case FinishRpc(_, _) => phase.Calling?
       case LeaveHandler(_) => phase.Handling?
       case EndRequest(_) => phase.Handled?
       case ClearSlot(_) => phase.Responded?
  }

  /** All numbers a thread works with are in the ledger. */
  ghost predicate InLedger(c: Client, th: Thread) {
    && (th.slot.Some? ==> th.slot.value < |c.spans|)
    && (!th.phase.Idle? ==> th.phase.span < |c.spans|)
    && (th.phase.Handling? || th.phase.Calling? ==>
          (th.phase.seen.Some? ==> th.phase.seen.value < |c.spans|))
    && (th.phase.Calling? ==>
          && th.phase.rpc < |c.rpcs|
          && (th.phase.parent.Some? ==> th.phase.parent.value < |c.spans|)
          && (th.phase.event.Some? ==> th.phase.event.value < |c.events|))
  }

  ghost predicate InRange(c: Client) {
    forall t | 0 <= t < |c.threads| :: InLedger(c, c.threads[t])
  }

  /** A span event opened on a span, if there is one. */
  function WithEvent(c: Client, span: Option<nat>, operation: string): Client
    requires span.Some? ==> span.value < |c.spans|
  {
    if span.None? then c
    else c.(spans := c.spans[span.value := c.spans[span.value].WithBracket(Open(|c.events|))],
            events := c.events + [Event(span.value, operation, "", "", None, None)])
  }

  function WithoutEvent(c: Client, span: Option<nat>, event: Option<nat>): Client
    requires span.Some? ==> span.value < |c.spans|
  {
    if span.None? || event.None? then c
    else c.(spans := c.spans[span.value := c.spans[span.value].WithBracket(Close(event.value))])
  }

  /** The RPC helpers record a failed call on the handler's span. */
  function WithFailure(c: Client, span: Option<nat>, status: Option<Status>): Client
    requires span.Some? ==> span.value < |c.spans|
  {
    if span.None? || status.None? || status.value.OK? then c
    else c.(spans := c.spans[span.value := c.spans[span.value].(error := Some(status.value.message))])
  }

  function Side(c: Client, th: Thread, metadata: Option<seq<Entry>>): ClientSide {
    var fields := if th.phase.Calling? then (th.phase.parent, th.phase.event) else (None, None);
    ClientSide(fields.0, fields.1, th.slot, c.spans, c.events, metadata)
  }

  function Step(keys: seq<string>, c: Client, a: Action): Client
    requires Enabled(keys, c, a) && InRange(c)
  {
    var th := c.threads[a.thread];
    match a
    case TraceRequest(t) =>
      c.(threads := c.threads[t := th.(phase := Traced(|c.spans|))],
         spans := c.spans + [FreshSpan([])],
         madeBy := c.madeBy + [t])
    case SetSlot(t) =>
      c.(threads := c.threads[t := Thread(Some(th.phase.span), Wrapped(th.phase.span))])
    case EnterHandler(t) =>
      var scoped := if th.slot.Some? then Some(|c.events|) else None;
      WithEvent(c, th.slot, "handle_run_client").(
        threads := c.threads[t := th.(phase := Handling(th.phase.span, th.slot, scoped))])
    case StartRpc(t, call, withContext) =>
      if th.slot.None? then c.(assertionFailed := true)
      else
        var side := ClientStep(Side(c, th, if withContext then Some([]) else None), keys, call, Batch(true, false, None));
        c.(threads := c.threads[t := th.(phase :=
             Calling(th.phase.span, th.phase.seen, th.phase.scoped, |c.rpcs|, side.parent, side.event))],
           spans := side.spans,
           events := side.events,
           rpcs := c.rpcs + [Rpc(t, th.phase.span, call, withContext, side.event, side.metadata)])
    case FinishRpc(t, status) =>
      var side := ClientStep(Side(c, th, None), keys, Outgoing("", "", false, seq(|keys|, _ => "")), Batch(false, true, status));
      WithFailure(c.(spans := side.spans, events := side.events), th.phase.seen, status).(
        threads := c.threads[t := th.(phase := Handling(th.phase.span, th.phase.seen, th.phase.scoped))],
        returned := c.returned[th.phase.rpc := status])
    case LeaveHandler(t) =>
      WithoutEvent(c, th.phase.seen, th.phase.scoped).(
        threads := c.threads[t := th.(phase := Handled(th.phase.span))])
    case EndRequest(t) =>
      var x := th.phase.span;
      c.(threads := c.threads[t := th.(phase := Responded(x))],
         spans := c.spans[x := c.spans[x].Ended()])
    case ClearSlot(t) =>
      c.(threads := c.threads[t := Thread(None, Idle)])
  }

  // ------------------------------------------------------------------
  // What every step keeps
  // ------------------------------------------------------------------

  ghost predicate Finished(span: Span) {
    span.endings == 1 && OpenEvents(span.trace) == Some([])
  }

  /** Thread `t` works on its own span `x`, with exactly these events open. */
  ghost predicate OnSpan(c: Client, t: nat, x: nat, open: seq<nat>) {
    && x < |c.spans| == |c.madeBy| && c.madeBy[x] == t
    && c.spans[x].endings == 0 && OpenEvents(c.spans[x].trace) == Some(open)
  }

  ghost predicate EventOf(c: Client, event: Option<nat>, span: nat) {
    event.Some? && event.value < |c.events| && c.events[event.value].parent == span
  }

  ghost predicate ThreadOk(c: Client, t: nat)
    requires t < |c.threads|
  {
    var th := c.threads[t];
    match th.phase
    case Idle => th.slot == None
    case Traced(x) => th.slot == None && OnSpan(c, t, x, [])
    case Wrapped(x) => th.slot == Some(x) && OnSpan(c, t, x, [])
    case Handling(x, seen, scoped) =>
      && th.slot == Some(x) == seen && EventOf(c, scoped, x)
      && OnSpan(c, t, x, [scoped.value])
    case Calling(x, seen, scoped, rpc, parent, event) =>
      && th.slot == Some(x) == seen && EventOf(c, scoped, x)
      && parent == Some(x) && (event.Some? ==> EventOf(c, event, x))
      && OnSpan(c, t, x, if event.Some? then [scoped.value, event.value] else [scoped.value])
      && rpc < |c.rpcs| && c.rpcs[rpc].event == event && c.rpcs[rpc].request == x
    case Handled(x) => th.slot == Some(x) && OnSpan(c, t, x, [])
    case Responded(x) =>
      && th.slot == Some(x)
      && x < |c.spans| == |c.madeBy| && c.madeBy[x] == t && Finished(c.spans[x])
  }

  /** What an RPC carries is what its event injected, and its event hangs under the request's span. */
  ghost predicate RpcOk(keys: seq<string>, c: Client, r: nat)
    requires r < |c.rpcs|
  {
    var rpc := c.rpcs[r];
    && rpc.request < |c.spans| == |c.madeBy| && c.madeBy[rpc.request] == rpc.thread
    && match rpc.event
       case None => rpc.sent.Some? ==> rpc.sent.value == []
       case Some(e) =>
         && EventOf(c, rpc.event, rpc.request)
         && (c.events[e].injected.Some? <==> rpc.sent.Some?)
         && (rpc.sent.Some? ==>
               && |c.events[e].injected.value| == |keys|
               && rpc.sent.value == SetAll([], keys, c.events[e].injected.value))
  }

  ghost predicate SpanOk(c: Client, x: nat)
    requires x < |c.spans| == |c.madeBy|
  {
    Finished(c.spans[x]) ||
      (c.madeBy[x] < |c.threads| && !c.threads[c.madeBy[x]].phase.Idle? && c.threads[c.madeBy[x]].phase.span == x)
  }

  ghost predicate Inv(keys: seq<string>, c: Client) {
    && !c.assertionFailed
    && |c.madeBy| == |c.spans|
    && (forall t | 0 <= t < |c.threads| :: ThreadOk(c, t))
    && (forall x | 0 <= x < |c.spans| :: SpanOk(c, x))
    && (forall r | 0 <= r < |c.rpcs| :: RpcOk(keys, c, r))
    && (forall r, q | 0 <= r < q < |c.rpcs| && c.rpcs[r].event.Some? && c.rpcs[q].event.Some? ::
          c.rpcs[r].event.value != c.rpcs[q].event.value)
  }

  /** Events are added or marked with an error; their parent and context stay. */
  ghost predicate EventsKept(c: Client, c': Client) {
    && |c.events| <= |c'.events|
    && forall e | 0 <= e < |c.events| ::
         c'.events[e].parent == c.events[e].parent && c'.events[e].injected == c.events[e].injected
  }

  /**
   A step by one thread that touches no span but its own keeps the invariant, if
   it leaves the thread and its span in order, and an RPC it starts has a new event.
   */
  lemma OwnSpanFrame(keys: seq<string>, c: Client, c': Client, t: nat)
    requires Inv(keys, c) && !c'.assertionFailed
    requires t < |c.threads| == |c'.threads| && !c.threads[t].phase.Idle?
    requires forall u | 0 <= u < |c.threads| && u != t :: c'.threads[u] == c.threads[u]
    requires c'.madeBy == c.madeBy && |c'.spans| == |c.spans| && EventsKept(c, c')
    requires forall x | 0 <= x < |c.spans| && x != c.threads[t].phase.span :: c'.spans[x] == c.spans[x]
    requires c.rpcs <= c'.rpcs
    requires forall r | |c.rpcs| <= r < |c'.rpcs| ::
               r == |c.rpcs| && RpcOk(keys, c', r) && (c'.rpcs[r].event.Some? ==> |c.events| <= c'.rpcs[r].event.value)
    requires ThreadOk(c', t)
    requires c.threads[t].phase.span < |c.spans| ==> SpanOk(c', c.threads[t].phase.span)
    ensures Inv(keys, c')
  {
    assert ThreadOk(c, t);
    forall u | 0 <= u < |c'.threads| ensures ThreadOk(c', u) {
      assert ThreadOk(c, u);
    }
    forall x | 0 <= x < |c'.spans| ensures SpanOk(c', x) {
      assert SpanOk(c, x);
    }
    forall r | 0 <= r < |c.rpcs| ensures RpcOk(keys, c', r) {
      assert RpcOk(keys, c, r);
    }
    forall r, q | 0 <= r < q < |c'.rpcs| && c'.rpcs[r].event.Some? && c'.rpcs[q].event.Some?
      ensures c'.rpcs[r].event.value != c'.rpcs[q].event.value
    {
      assert RpcOk(keys, c, r);
    }
  }

  lemma TraceKeepsInv(keys: seq<string>, c: Client, a: Action)
    requires Inv(keys, c) && InRange(c) && Enabled(keys, c, a) && a.TraceRequest?
    ensures Inv(keys, Step(keys, c, a))
  {
    var c' := Step(keys, c, a);
    forall u | 0 <= u < |c'.threads| ensures ThreadOk(c', u) {
      assert ThreadOk(c, u);
    }
    forall x | 0 <= x < |c'.spans| ensures SpanOk(c', x) {
      if x < |c.spans| {
        assert SpanOk(c, x);
      }
    }
    forall r | 0 <= r < |c'.rpcs| ensures RpcOk(keys, c', r) {
      assert RpcOk(keys, c, r);
    }
  }

  lemma StartRpcKeepsInv(keys: seq<string>, c: Client, a: Action)
    requires Inv(keys, c) && InRange(c) && Enabled(keys, c, a) && a.StartRpc?
    ensures Inv(keys, Step(keys, c, a))
  {
    var th := c.threads[a.thread];
    assert ThreadOk(c, a.thread);
    OpenEventsAppend(c.spans[th.phase.span].trace, Open(|c.events|));
    assert [th.phase.scoped.value] + [|c.events|] == [th.phase.scoped.value, |c.events|];
    OwnSpanFrame(keys, c, Step(keys, c, a), a.thread);
  }

  lemma EnterKeepsInv(keys: seq<string>, c: Client, a: Action)
    requires Inv(keys, c) && InRange(c) && Enabled(keys, c, a) && a.EnterHandler?
    ensures Inv(keys, Step(keys, c, a))
  {
    assert ThreadOk(c, a.thread);
    OpenEventsAppend(c.spans[c.threads[a.thread].phase.span].trace, Open(|c.events|));
    assert [] + [|c.events|] == [|c.events|];
    OwnSpanFrame(keys, c, Step(keys, c, a), a.thread);
  }

  lemma LeaveKeepsInv(keys: seq<string>, c: Client, a: Action)
    requires Inv(keys, c) && InRange(c) && Enabled(keys, c, a) && a.LeaveHandler?
    ensures Inv(keys, Step(keys, c, a))
  {
    var th := c.threads[a.thread];
    assert ThreadOk(c, a.thread);
    OpenEventsAppend(c.spans[th.phase.span].trace, Close(th.phase.scoped.value));
    OwnSpanFrame(keys, c, Step(keys, c, a), a.thread);
  }

  /** What the end of an RPC changes: its thread's phase, and the span and event it closes. */
  lemma FinishRpcEffect(keys: seq<string>, c: Client, a: Action)
    requires Inv(keys, c) && InRange(c) && Enabled(keys, c, a) && a.FinishRpc?
    ensures var c', th := Step(keys, c, a), c.threads[a.thread];
            var x := th.phase.span;
            && c'.threads == c.threads[a.thread := th.(phase := Handling(x, th.phase.seen, th.phase.scoped))]
            && c'.madeBy == c.madeBy && c'.rpcs == c.rpcs && !c'.assertionFailed
            && |c'.spans| == |c.spans| && x < |c.spans|
            && (forall y | 0 <= y < |c.spans| && y != x :: c'.spans[y] == c.spans[y])
            && c'.spans[x].endings == c.spans[x].endings
            && c'.spans[x].trace == (if th.phase.event.Some? then c.spans[x].trace + [Close(th.phase.event.value)]
                                     else c.spans[x].trace)
            && EventsKept(c, c')
  {
    assert ThreadOk(c, a.thread);
  }

  lemma FinishRpcKeepsInv(keys: seq<string>, c: Client, a: Action)
    requires Inv(keys, c) && InRange(c) && Enabled(keys, c, a) && a.FinishRpc?
    ensures Inv(keys, Step(keys, c, a))
  {
    var th := c.threads[a.thread];
    var c' := Step(keys, c, a);
    assert ThreadOk(c, a.thread);
    FinishRpcEffect(keys, c, a);
    if th.phase.event.Some? {
      OpenEventsAppend(c.spans[th.phase.span].trace, Close(th.phase.event.value));
      assert [th.phase.scoped.value, th.phase.event.value][..1] == [th.phase.scoped.value];
    }
    OwnSpanFrame(keys, c, c', a.thread);
  }

  lemma QuietStepKeepsInv(keys: seq<string>, c: Client, a: Action)
    requires Inv(keys, c) && InRange(c) && Enabled(keys, c, a)
    requires a.SetSlot? || a.EndRequest? || a.ClearSlot?
    ensures Inv(keys, Step(keys, c, a))
  {
    assert ThreadOk(c, a.thread);
    OwnSpanFrame(keys, c, Step(keys, c, a), a.thread);
  }

  lemma StepKeepsInv(keys: seq<string>, c: Client, a: Action)
    requires Inv(keys, c) && InRange(c) && Enabled(keys, c, a)
    ensures Inv(keys, Step(keys, c, a))
  {
    match a
    case TraceRequest(_) => TraceKeepsInv(keys, c, a);
    case StartRpc(_, _, _) => StartRpcKeepsInv(keys, c, a);
    case EnterHandler(_) => EnterKeepsInv(keys, c, a);
    case LeaveHandler(_) => LeaveKeepsInv(keys, c, a);
    case FinishRpc(_, _) => FinishRpcKeepsInv(keys, c, a);
    case _ => QuietStepKeepsInv(keys, c, a);
  }

  lemma InvInRange(keys: seq<string>, c: Client)
    requires Inv(keys, c)
    ensures InRange(c)
  {
    forall t | 0 <= t < |c.threads| ensures InLedger(c, c.threads[t]) {
      assert ThreadOk(c, t);
    }
  }

  // ------------------------------------------------------------------
  // Every run
  // ------------------------------------------------------------------

  /** The client after a sequence of actions; None if one of them was not enabled. */
  function Run(keys: seq<string>, threads: nat, actions: seq<Action>): (r: Option<Client>)
    ensures r.Some? ==> Inv(keys, r.value) && InRange(r.value) && |r.value.threads| == threads
  {
    if actions == [] then Some(Initial(threads))
    else
      var before := Run(keys, threads, actions[..|actions| - 1]);
      var a := actions[|actions| - 1];
      if before.None? || !Enabled(keys, before.value, a) then None
      else
        StepKeepsInv(keys, before.value, a);
        var after := Step(keys, before.value, a);
        InvInRange(keys, after);
        Some(after)
  }

  /**
   In every run the interceptor finds a current span whenever an RPC leaves, and
   it is the span that the wrapper made for the request on that thread.
   */
  lemma InterceptorFindsTheRequestSpan(keys: seq<string>, threads: nat, actions: seq<Action>, t: nat)
    requires Run(keys, threads, actions).Some? && t < threads
    ensures var c := Run(keys, threads, actions).value;
            var th := c.threads[t];
            && !c.assertionFailed
            && (th.phase.Handling? || th.phase.Calling? ==> th.slot == Some(th.phase.span))
            && (th.phase.Calling? ==> th.phase.parent == Some(th.phase.span)
                                      && c.rpcs[th.phase.rpc].request == th.phase.span)
            && (th.phase.Idle? ==> th.slot == None)
  {
    assert ThreadOk(Run(keys, threads, actions).value, t);
  }

  /**
   In every run the events of each span nest: exactly the handler's event and
   the one of the RPC in progress are open, in that order, while the request
   runs; and once the span has ended, which happens once, its trace is well
   bracketed.
   */
  lemma EventsNest(keys: seq<string>, threads: nat, actions: seq<Action>, x: nat)
    requires Run(keys, threads, actions).Some?
    requires x < |Run(keys, threads, actions).value.spans|
    ensures var c := Run(keys, threads, actions).value;
            c.spans[x].endings <= 1
    ensures var c := Run(keys, threads, actions).value;
            c.spans[x].endings == 1 ==> WellBracketed(c.spans[x].trace)
    ensures var c := Run(keys, threads, actions).value;
            c.spans[x].endings == 0 ==>
              && x < |c.madeBy| && c.madeBy[x] < threads
              && var phase := c.threads[c.madeBy[x]].phase;
                 !phase.Idle? && phase.span == x
                 && OpenEvents(c.spans[x].trace) == Some(OpenIn(phase))
  {
    var c := Run(keys, threads, actions).value;
    assert SpanOk(c, x);
    WellBracketedIffAllClosed(c.spans[x].trace);
    if !Finished(c.spans[x]) {
      assert ThreadOk(c, c.madeBy[x]);
    }
  }

  /** The events a thread has open, outermost first. */
  function OpenIn(phase: Phase): seq<nat> {
    match phase
    case Handling(_, _, Some(e)) => [e]
    case Calling(_, _, Some(e), _, _, None) => [e]
    case Calling(_, _, Some(e), _, _, Some(f)) => [e, f]
    case _ => []
  }
}
