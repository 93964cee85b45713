/**
 What the server's spans record about their RPCs, in every run of the traced server.
 */
module GrpcServerRecords {
  import opened Text
  import opened Spans
  import opened GrpcServerInterceptor
  import opened GrpcServerTracing

  /** The message of a status that was sent and was a failure. */
  function FailureOf(status: Option<Status>): Option<string> {
    match status
    case Some(Failed(m)) => Some(m)
    case _ => None
  }

  /** A span exists exactly if the agent had one to give; it records the RPC's peer and, once sent, its failure. */
  ghost predicate RecordOk(s: Server, rpc: nat)
    requires rpc in s.calls
  {
    var call := s.calls[rpc];
    && (call.span.Some? <==> call.decision.available)
    && (call.span.Some? ==>
          && call.span.value < |s.spans|
          && RecordsPeer(s.spans[call.span.value], call.incoming, call.decision.sampled)
          && s.spans[call.span.value].error == FailureOf(call.status)
          && s.spans[call.span.value].endings == if call.status.Some? then 1 else 0)
  }

  ghost predicate Records(s: Server) {
    forall rpc | rpc in s.calls :: RecordOk(s, rpc)
  }

  /** A step changes the record of no RPC but the one of its thread. */
  lemma OtherRecordsStay(keys: seq<string>, s: Server, a: Action, rpc: nat)
    requires Inv(keys, s) && InRange(s) && Enabled(s, a) && Records(s)
    requires rpc in s.calls && (a.Receive? || s.threads[a.thread].phase.rpc != rpc)
    ensures rpc in Step(keys, s, a).calls && RecordOk(Step(keys, s, a), rpc)
  {
    assert RecordOk(s, rpc) && CallOk(keys, s, rpc);
    assert ThreadOk(s, s.threads[a.thread]);
    if !a.Receive? {
      assert CallOk(keys, s, s.threads[a.thread].phase.rpc);
    }
  }

  lemma OwnRecordStays(keys: seq<string>, s: Server, a: Action)
    requires Inv(keys, s) && InRange(s) && Enabled(s, a) && Records(s) && !a.Receive?
    ensures var rpc := s.threads[a.thread].phase.rpc;
            rpc in Step(keys, s, a).calls && RecordOk(Step(keys, s, a), rpc)
  {
    assert ThreadOk(s, s.threads[a.thread]);
    assert RecordOk(s, s.threads[a.thread].phase.rpc);
  }

  lemma NewRecord(keys: seq<string>, s: Server, a: Action)
    requires Inv(keys, s) && InRange(s) && Enabled(s, a) && a.Receive?
    ensures RecordOk(Step(keys, s, a), a.rpc)
  {
    assert ThreadOk(s, s.threads[a.thread]);
    ReceiveRecords(ServerSide(None, s.threads[a.thread].slot, s.spans), keys, a.incoming, a.decision);
  }

  lemma StepKeepsRecords(keys: seq<string>, s: Server, a: Action)
    requires Inv(keys, s) && InRange(s) && Enabled(s, a) && Records(s)
    ensures Records(Step(keys, s, a))
  {
    var s' := Step(keys, s, a);
    forall rpc | rpc in s'.calls ensures RecordOk(s', rpc) {
      if a.Receive? && rpc == a.rpc {
        NewRecord(keys, s, a);
      } else if !a.Receive? && rpc == s.threads[a.thread].phase.rpc {
        OwnRecordStays(keys, s, a);
      } else {
        OtherRecordsStay(keys, s, a, rpc);
      }
    }
  }

  lemma {:induction false} RunKeepsRecords(keys: seq<string>, threads: nat, actions: seq<Action>)
    requires Run(keys, threads, actions).Some?
    ensures Records(Run(keys, threads, actions).value)
  {
    if actions != [] {
      var before := actions[..|actions| - 1];
      RunKeepsRecords(keys, threads, before);
      StepKeepsRecords(keys, Run(keys, threads, before).value, actions[|actions| - 1]);
    }
  }

  /**
   In every run, an RPC has a span exactly if the agent had one to give; the span
   records the bare host of a sampled RPC's peer; and it has ended exactly if the
   status was sent, with an error exactly if that was a failure: its message.
   */
  lemma SpansRecordTheirRpc(keys: seq<string>, threads: nat, actions: seq<Action>, rpc: nat)
    requires Run(keys, threads, actions).Some? && rpc in Run(keys, threads, actions).value.calls
    ensures Recorded(Run(keys, threads, actions).value, Run(keys, threads, actions).value.calls[rpc])
  {
    RunKeepsRecords(keys, threads, actions);
    assert RecordOk(Run(keys, threads, actions).value, rpc);
  }

  /** What a reader of the server's spans can rely on about one RPC. */
  predicate Recorded(s: Server, call: Call) {
    match call.span
    case None => !call.decision.available
    case Some(x) =>
      && call.decision.available && x < |s.spans|
      && RecordsPeer(s.spans[x], call.incoming, call.decision.sampled)
      && match call.status
         case None => s.spans[x].endings == 0 && s.spans[x].error == None
         case Some(OK) => s.spans[x].endings == 1 && s.spans[x].error == None
         case Some(Failed(m)) => s.spans[x].endings == 1 && s.spans[x].error == Some(m)
  }

  /** And each span of a run is the span of such an RPC. */
  lemma EverySpanHasItsRpc(keys: seq<string>, threads: nat, actions: seq<Action>, x: nat)
    requires Run(keys, threads, actions).Some? && x < |Run(keys, threads, actions).value.spans|
    ensures var s := Run(keys, threads, actions).value;
            x < |s.madeFor| && s.madeFor[x] in s.calls && s.calls[s.madeFor[x]].span == Some(x)
  {
    assert SpanOk(Run(keys, threads, actions).value, x);
  }
}
