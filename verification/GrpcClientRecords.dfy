/**
 What the client's events and spans record about their RPCs, in every run of the
 traced client.
 */
module GrpcClientRecords {
  import opened Text
  import opened Spans
  import opened GrpcContext
  import opened GrpcClientInterceptor
  import opened GrpcClientTracing

  /** The message of a status that came back and was a failure. */
  function FailureOf(c: Client, r: nat): Option<string> {
    if r !in c.returned then None
    else match c.returned[r] case Some(Failed(m)) => Some(m) case _ => None
  }

  /** The event describes the RPC, and its failure once it has returned. */
  ghost predicate RecordOk(keys: seq<string>, c: Client, r: nat)
    requires r < |c.rpcs|
  {
    var rpc := c.rpcs[r];
    && |rpc.call.values| == |keys|
    && (rpc.event.Some? <==> rpc.call.available)
    && rpc.sent == (if !rpc.withContext then None
                    else Some(if rpc.call.available then SetAll([], keys, rpc.call.values) else []))
    && (rpc.event.Some? ==>
          && rpc.event.value < |c.events|
          && c.events[rpc.event.value].error == FailureOf(c, r)
          && DescribesCall(c.events[rpc.event.value].(error := None), rpc.request, rpc.call, rpc.withContext))
  }

  /** The span's error is the message of one of its failed RPCs, if there is one. */
  ghost predicate ErrorOk(c: Client, x: nat)
    requires x < |c.spans|
  {
    && (c.spans[x].error.Some? ==>
          exists r :: r in c.returned && FailedWithin(c, r, x) && FailureOf(c, r) == c.spans[x].error)
    && (forall r | r in c.returned && FailedWithin(c, r, x) :: c.spans[x].error.Some?)
  }

  ghost predicate FailedWithin(c: Client, r: nat, x: nat) {
    r < |c.rpcs| && c.rpcs[r].request == x && FailureOf(c, r).Some?
  }

  /** A thread's RPC is its own and has not returned; its handler's event is named after the handler. */
  ghost predicate InProgressOk(c: Client, t: nat)
    requires t < |c.threads|
  {
    var phase := c.threads[t].phase;
    && (phase.Calling? ==> phase.rpc < |c.rpcs| && c.rpcs[phase.rpc].thread == t && phase.rpc !in c.returned)
    && (phase.Calling? || phase.Handling? ==>
          phase.scoped.Some? && phase.scoped.value < |c.events| && c.events[phase.scoped.value].operation == "handle_run_client")
  }

  ghost predicate Records(keys: seq<string>, c: Client) {
    && (forall r | 0 <= r < |c.rpcs| :: RecordOk(keys, c, r))
    && (forall x | 0 <= x < |c.spans| :: ErrorOk(c, x))
    && (forall t | 0 <= t < |c.threads| :: InProgressOk(c, t))
    && (forall r | r in c.returned :: r < |c.rpcs|)
  }

  // ------------------------------------------------------------------
  // Steps other than the end of an RPC
  // ------------------------------------------------------------------

  /** Nothing that is recorded changes; RPCs, events and spans may be added. */
  ghost predicate OnlyAdds(c: Client, c': Client) {
    && c.rpcs <= c'.rpcs && c.events <= c'.events && c'.returned == c.returned
    && |c.spans| <= |c'.spans|
    && (forall x | 0 <= x < |c.spans| :: c'.spans[x].error == c.spans[x].error)
    && (forall x | |c.spans| <= x < |c'.spans| :: c'.spans[x].error == None)
  }

  lemma StepOnlyAdds(keys: seq<string>, c: Client, a: Action)
    requires Inv(keys, c) && InRange(c) && Enabled(keys, c, a) && !a.FinishRpc?
    ensures OnlyAdds(c, Step(keys, c, a))
    ensures !a.StartRpc? ==> Step(keys, c, a).rpcs == c.rpcs
    ensures a.StartRpc? ==> |Step(keys, c, a).rpcs| == |c.rpcs| + 1
  {
    assert ThreadOk(c, a.thread);
  }

  lemma NewRpcRecord(keys: seq<string>, c: Client, a: Action)
    requires Inv(keys, c) && InRange(c) && Enabled(keys, c, a) && Records(keys, c) && a.StartRpc?
    ensures |Step(keys, c, a).rpcs| == |c.rpcs| + 1 && RecordOk(keys, Step(keys, c, a), |c.rpcs|)
  {
    assert ThreadOk(c, a.thread);
  }

  lemma AddingKeepsRecord(keys: seq<string>, c: Client, c': Client, r: nat)
    requires OnlyAdds(c, c') && r < |c.rpcs| && RecordOk(keys, c, r)
    ensures RecordOk(keys, c', r)
  {
    assert c'.rpcs[r] == c.rpcs[r];
  }

  lemma AddingKeepsErrors(keys: seq<string>, c: Client, c': Client, x: nat)
    requires Inv(keys, c) && Records(keys, c) && OnlyAdds(c, c') && x < |c'.spans|
    ensures ErrorOk(c', x)
  {
    forall r | r in c.returned ensures c'.rpcs[r] == c.rpcs[r] && FailureOf(c', r) == FailureOf(c, r) {}
    forall r | r in c.returned ensures FailedWithin(c', r, x) <==> FailedWithin(c, r, x) {}
    if x < |c.spans| {
      assert ErrorOk(c, x);
      if c.spans[x].error.Some? {
        var r :| r in c.returned && FailedWithin(c, r, x) && FailureOf(c, r) == c.spans[x].error;
        assert FailedWithin(c', r, x);
      }
    } else {
      forall r | r in c.returned ensures !FailedWithin(c, r, x) {
        assert RpcOk(keys, c, r);
      }
    }
  }

  lemma AddingKeepsProgress(keys: seq<string>, c: Client, a: Action, t: nat)
    requires Inv(keys, c) && InRange(c) && Enabled(keys, c, a) && Records(keys, c) && !a.FinishRpc?
    requires t < |c.threads|
    ensures t < |Step(keys, c, a).threads| && InProgressOk(Step(keys, c, a), t)
  {
    StepOnlyAdds(keys, c, a);
    assert InProgressOk(c, t);
    if t == a.thread {
      assert ThreadOk(c, t);
      assert |c.rpcs| !in c.returned;
    }
  }

  // ------------------------------------------------------------------
  // The end of an RPC
  // ------------------------------------------------------------------

  /** The failure of a received status. */
  function Message(status: Option<Status>): Option<string> {
    match status case Some(Failed(m)) => Some(m) case _ => None
  }

  /** RPC `r` of request `x` has returned: its event, if any, and its request's span record a failure. */
  ghost predicate Finishes(c: Client, c': Client, r: nat, x: nat, status: Option<Status>)
  {
    && r < |c.rpcs| && r !in c.returned && c.rpcs[r].request == x && x < |c.spans|
    && c'.rpcs == c.rpcs && c'.returned == c.returned[r := status]
    && |c'.spans| == |c.spans| && |c'.events| == |c.events|
    && (forall y | 0 <= y < |c.spans| && y != x :: c'.spans[y].error == c.spans[y].error)
    && c'.spans[x].error == (if Message(status).Some? then Message(status) else c.spans[x].error)
    && (forall e | 0 <= e < |c.events| ::
          c'.events[e] == if c.rpcs[r].event == Some(e) && Message(status).Some?
                          then c.events[e].(error := Message(status)) else c.events[e])
  }

  lemma StepFinishes(keys: seq<string>, c: Client, a: Action)
    requires Inv(keys, c) && InRange(c) && Enabled(keys, c, a) && Records(keys, c) && a.FinishRpc?
    ensures c.threads[a.thread].phase.Calling?
    ensures Finishes(c, Step(keys, c, a), c.threads[a.thread].phase.rpc, c.threads[a.thread].phase.span, a.status)
  {
    assert ThreadOk(c, a.thread) && InProgressOk(c, a.thread);
  }

  lemma FinishKeepsRecord(keys: seq<string>, c: Client, c': Client, done: nat, x: nat, status: Option<Status>, r: nat)
    requires Inv(keys, c) && Records(keys, c) && Finishes(c, c', done, x, status) && r < |c.rpcs|
    ensures RecordOk(keys, c', r)
  {
    assert RecordOk(keys, c, r);
    if r == done {
      assert FailureOf(c, r) == None && FailureOf(c', r) == Message(status);
    } else {
      assert FailureOf(c', r) == FailureOf(c, r);
      assert c.rpcs[r].event.Some? ==> c.rpcs[r].event != c.rpcs[done].event;
    }
  }

  lemma FinishKeepsErrors(c: Client, c': Client, done: nat, x: nat, status: Option<Status>, y: nat)
    requires (forall r | r in c.returned :: r < |c.rpcs|) && y < |c.spans| && ErrorOk(c, y)
    requires Finishes(c, c', done, x, status)
    ensures ErrorOk(c', y)
  {
    forall r | r in c.returned ensures FailureOf(c', r) == FailureOf(c, r) {}
    assert FailureOf(c', done) == Message(status);
    if y == x && Message(status).Some? {
      assert FailedWithin(c', done, y);
    } else {
      forall r | r in c.returned ensures FailedWithin(c', r, y) <==> FailedWithin(c, r, y) {}
      assert !FailedWithin(c', done, y);
      if c.spans[y].error.Some? {
        var r :| r in c.returned && FailedWithin(c, r, y) && FailureOf(c, r) == c.spans[y].error;
        assert FailedWithin(c', r, y);
      }
    }
  }

  lemma FinishKeepsProgress(keys: seq<string>, c: Client, a: Action, t: nat)
    requires Inv(keys, c) && InRange(c) && Enabled(keys, c, a) && Records(keys, c) && a.FinishRpc?
    requires t < |c.threads|
    ensures t < |Step(keys, c, a).threads| && InProgressOk(Step(keys, c, a), t)
  {
    StepFinishes(keys, c, a);
    assert InProgressOk(c, t) && InProgressOk(c, a.thread);
  }

  // ------------------------------------------------------------------
  // Every step and every run
  // ------------------------------------------------------------------

  lemma StepKeepsRecords(keys: seq<string>, c: Client, a: Action)
    requires Inv(keys, c) && InRange(c) && Enabled(keys, c, a) && Records(keys, c)
    ensures Records(keys, Step(keys, c, a))
  {
    if a.FinishRpc? {
      FinishKeepsRecords(keys, c, a);
    } else {
      AddingKeepsRecords(keys, c, a);
    }
  }

  lemma AddingKeepsRecords(keys: seq<string>, c: Client, a: Action)
    requires Inv(keys, c) && InRange(c) && Enabled(keys, c, a) && Records(keys, c) && !a.FinishRpc?
    ensures Records(keys, Step(keys, c, a))
  {
    var c' := Step(keys, c, a);
    StepOnlyAdds(keys, c, a);
    forall r | 0 <= r < |c'.rpcs| ensures RecordOk(keys, c', r) {
      if r < |c.rpcs| {
        AddingKeepsRecord(keys, c, c', r);
      } else {
        NewRpcRecord(keys, c, a);
      }
    }
    forall x | 0 <= x < |c'.spans| ensures ErrorOk(c', x) {
      AddingKeepsErrors(keys, c, c', x);
    }
    ThreadsStay(keys, c, a);
    forall t | 0 <= t < |c'.threads| ensures InProgressOk(c', t) {
      AddingKeepsProgress(keys, c, a, t);
    }
  }

  lemma ThreadsStay(keys: seq<string>, c: Client, a: Action)
    requires Inv(keys, c) && InRange(c) && Enabled(keys, c, a)
    ensures |Step(keys, c, a).threads| == |c.threads|
  {
  }

  lemma FinishKeepsRecords(keys: seq<string>, c: Client, a: Action)
    requires Inv(keys, c) && InRange(c) && Enabled(keys, c, a) && Records(keys, c) && a.FinishRpc?
    ensures Records(keys, Step(keys, c, a))
  {
    var c' := Step(keys, c, a);
    var phase := c.threads[a.thread].phase;
    StepFinishes(keys, c, a);
    forall r | 0 <= r < |c'.rpcs| ensures RecordOk(keys, c', r) {
      FinishKeepsRecord(keys, c, c', phase.rpc, phase.span, a.status, r);
    }
    forall x | 0 <= x < |c'.spans| ensures ErrorOk(c', x) {
      FinishKeepsErrors(c, c', phase.rpc, phase.span, a.status, x);
    }
    ThreadsStay(keys, c, a);
    forall t | 0 <= t < |c'.threads| ensures InProgressOk(c', t) {
      FinishKeepsProgress(keys, c, a, t);
    }
  }

  lemma {:induction false} RunKeepsRecords(keys: seq<string>, threads: nat, actions: seq<Action>)
    requires Run(keys, threads, actions).Some?
    ensures Records(keys, Run(keys, threads, actions).value)
  {
    if actions != [] {
      var before := actions[..|actions| - 1];
      RunKeepsRecords(keys, threads, before);
      StepKeepsRecords(keys, Run(keys, threads, before).value, actions[|actions| - 1]);
    }
  }

  /**
   In every run, an RPC has an event exactly if the agent had one to give; the event
   is named after the RPC's method and addressed to the dial target; its context
   and the metadata hold the agent's values; and it has an error exactly if the
   RPC has returned with a failure: its message.
   */
  lemma EventsRecordTheirRpc(keys: seq<string>, threads: nat, actions: seq<Action>, r: nat)
    requires Run(keys, threads, actions).Some? && r < |Run(keys, threads, actions).value.rpcs|
    ensures Recorded(keys, Run(keys, threads, actions).value, r)
  {
    RunKeepsRecords(keys, threads, actions);
    assert RecordOk(keys, Run(keys, threads, actions).value, r);
  }

  /** While a request is handled, the handler's event is open under its own name. */
  lemma HandlerEventIsNamed(keys: seq<string>, threads: nat, actions: seq<Action>, t: nat)
    requires Run(keys, threads, actions).Some? && t < threads
    requires var phase := Run(keys, threads, actions).value.threads[t].phase; phase.Handling? || phase.Calling?
    ensures var c := Run(keys, threads, actions).value;
            var phase := c.threads[t].phase;
            && phase.scoped.Some? && phase.scoped.value < |c.events|
            && c.events[phase.scoped.value].operation == "handle_run_client"
            && c.events[phase.scoped.value].parent == phase.span
  {
    RunKeepsRecords(keys, threads, actions);
    var c := Run(keys, threads, actions).value;
    assert ThreadOk(c, t) && InProgressOk(c, t);
  }

  /** What a reader of the client's events can rely on about one RPC. */
  predicate Recorded(keys: seq<string>, c: Client, r: nat)
    requires r < |c.rpcs|
  {
    var rpc := c.rpcs[r];
    match rpc.event
    case None => !rpc.call.available && rpc.sent == (if rpc.withContext then Some([]) else None)
    case Some(e) =>
      && rpc.call.available && e < |c.events| && |rpc.call.values| == |keys|
      && c.events[e].parent == rpc.request
      && c.events[e].operation == rpc.call.rpcMethod
      && c.events[e].destination == rpc.call.remote
      && c.events[e].url == "grpc://" + rpc.call.remote + rpc.call.rpcMethod
      && c.events[e].injected == (if rpc.withContext then Some(rpc.call.values) else None)
      && rpc.sent == (if rpc.withContext then Some(SetAll([], keys, rpc.call.values)) else None)
      && c.events[e].error == (if r !in c.returned then None
                               else match c.returned[r] case Some(Failed(m)) => Some(m) case _ => None)
  }

  /**
   In every run, a request's span has an error exactly if one of its RPCs has
   returned with a failure, and then it is the message of such a one.
   */
  lemma SpansRecordFailedRpcs(keys: seq<string>, threads: nat, actions: seq<Action>, x: nat)
    requires Run(keys, threads, actions).Some? && x < |Run(keys, threads, actions).value.spans|
    ensures var c := Run(keys, threads, actions).value;
            c.spans[x].error.Some? <==> exists r :: HasFailed(c, r, x)
    ensures var c := Run(keys, threads, actions).value;
            forall m :: c.spans[x].error == Some(m) ==> exists r :: HasFailed(c, r, x) && c.returned[r] == Some(Failed(m))
  {
    var c := Run(keys, threads, actions).value;
    RunKeepsRecords(keys, threads, actions);
    assert ErrorOk(c, x);
    assert forall r :: HasFailed(c, r, x) <==> r in c.returned && FailedWithin(c, r, x);
    if c.spans[x].error.Some? {
      var r :| r in c.returned && FailedWithin(c, r, x) && FailureOf(c, r) == c.spans[x].error;
      assert HasFailed(c, r, x) && c.returned[r] == Some(Failed(c.spans[x].error.value));
    }
  }

  /** RPC `r` of request `x` has returned with a failure. */
  predicate HasFailed(c: Client, r: nat, x: nat) {
    r < |c.rpcs| && c.rpcs[r].request == x && r in c.returned && c.returned[r].Some? && c.returned[r].value.Failed?
  }
}
