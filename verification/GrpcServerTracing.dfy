/**
 The traced gRPC server as a whole: any number of threads, each running its RPCs
 one after the other, interleaved in any way. Every RPC stays on its thread.
 */
module GrpcServerTracing {
  import opened Text
  import opened Spans
  import opened GrpcServerInterceptor

  /** Where a thread is in its RPC, with the span its interceptor holds. */
  datatype Phase =
    | Free
    | Received(rpc: nat, held: Option<nat>)
    /** In the service method: what `GetCurrentSpan` returned, and the scoped event. */
    | InMethod(rpc: nat, held: Option<nat>, seen: Option<nat>, event: Option<nat>)
    | Returned(rpc: nat, held: Option<nat>)

  datatype Thread = Thread(slot: Option<nat>, phase: Phase)

  /** What became of an RPC: what it brought along, what the agent decided, its span, and the status sent. */
  datatype Call = Call(incoming: Option<Incoming>, decision: Decision, span: Option<nat>, status: Option<Status>)

  datatype Server = Server(
    threads: seq<Thread>,
    spans: seq<Span>,
    /** The RPC every span was made for. */
    madeFor: seq<nat>,
    /** The parent span of every event. */
    events: seq<nat>,
    calls: map<nat, Call>)

  datatype Action =
    | Receive(thread: nat, rpc: nat, incoming: Option<Incoming>, decision: Decision)
    | EnterMethod(thread: nat)
    | LeaveMethod(thread: nat)
    | SendStatus(thread: nat, status: Status)

  function Idle(threads: nat): Server {
    Server(seq(threads, _ => Thread(None, Free)), [], [], [], map[])
  }

  predicate Enabled(s: Server, a: Action) {
    && a.thread < |s.threads|
    && var phase := s.threads[a.thread].phase;
       match a
       case Receive(_, rpc, _, _) => phase.Free? && rpc !in s.calls
       case EnterMethod(_) => phase.Received?
       case LeaveMethod(_) => phase.InMethod?
       case SendStatus(_, _) => phase.Received? || phase.Returned?
  }

  /** All span numbers a thread works with are in the ledger. */
  ghost predicate InRange(s: Server) {
    forall t | 0 <= t < |s.threads| ::
      && (s.threads[t].slot.Some? ==> s.threads[t].slot.value < |s.spans|)
      && (!s.threads[t].phase.Free? && s.threads[t].phase.held.Some? ==> s.threads[t].phase.held.value < |s.spans|)
      && (s.threads[t].phase.InMethod? && s.threads[t].phase.seen.Some? ==> s.threads[t].phase.seen.value < |s.spans|)
  }

  function WithStatus(calls: map<nat, Call>, rpc: nat, status: Status): map<nat, Call> {
    if rpc in calls then calls[rpc := calls[rpc].(status := Some(status))] else calls
  }

  function Step(keys: seq<string>, s: Server, a: Action): Server
    requires Enabled(s, a) && InRange(s)
  {
    var th := s.threads[a.thread];
    match a
    case Receive(t, rpc, incoming, decision) =>
      var side := ServerStep(ServerSide(None, th.slot, s.spans), keys, incoming, decision, Batch(true, false, OK));
      s.(threads := s.threads[t := Thread(side.slot, Received(rpc, side.held))],
         spans := side.spans,
         madeFor := if side.held.Some? then s.madeFor + [rpc] else s.madeFor,
         calls := s.calls[rpc := Call(incoming, decision, side.held, None)])
    case EnterMethod(t) =>
      (match th.slot
       case None =>
         s.(threads := s.threads[t := th.(phase := InMethod(th.phase.rpc, th.phase.held, None, None))])
       case Some(p) =>
         var e := |s.events|;
         s.(threads := s.threads[t := th.(phase := InMethod(th.phase.rpc, th.phase.held, Some(p), Some(e)))],
            spans := s.spans[p := s.spans[p].WithBracket(Open(e))],
            events := s.events + [p]))
    case LeaveMethod(t) =>
      var left := s.(threads := s.threads[t := th.(phase := Returned(th.phase.rpc, th.phase.held))]);
      if th.phase.seen.None? || th.phase.event.None? then left
      else
        var p := th.phase.seen.value;
        left.(spans := s.spans[p := s.spans[p].WithBracket(Close(th.phase.event.value))])
    case SendStatus(t, status) =>
      var side := ServerStep(ServerSide(th.phase.held, th.slot, s.spans), [], None, Decision(false, false),
                             Batch(false, true, status));
      s.(threads := s.threads[t := Thread(side.slot, Free)], spans := side.spans,
         calls := WithStatus(s.calls, th.phase.rpc, status))
  }

  // ------------------------------------------------------------------
  // What every step keeps
  // ------------------------------------------------------------------

  ghost predicate Running(span: Span, open: seq<nat>) {
    span.endings == 0 && OpenEvents(span.trace) == Some(open)
  }

  ghost predicate Finished(span: Span) {
    span.endings == 1 && OpenEvents(span.trace) == Some([])
  }

  /** The thread's slot and its interceptor agree on the span of its own RPC. */
  ghost predicate OnOwnSpan(s: Server, th: Thread, rpc: nat, held: Option<nat>, open: seq<nat>) {
    && th.slot == held
    && rpc in s.calls && s.calls[rpc].span == held
    && (held.Some? ==> held.value < |s.spans| && Running(s.spans[held.value], open))
  }

  ghost predicate ThreadOk(s: Server, th: Thread) {
    match th.phase
    case Free => th.slot == None
    case Received(rpc, held) => OnOwnSpan(s, th, rpc, held, [])
    case InMethod(rpc, held, seen, event) =>
      && OnOwnSpan(s, th, rpc, held, if event.Some? then [event.value] else [])
      && seen == held
      && (event.Some? <==> held.Some?)
      && (event.Some? ==> event.value < |s.events| && s.events[event.value] == held.value)
    case Returned(rpc, held) => OnOwnSpan(s, th, rpc, held, [])
  }

  ghost predicate SameRpc(a: Thread, b: Thread) {
    !a.phase.Free? && !b.phase.Free? && a.phase.rpc == b.phase.rpc
  }

  ghost predicate Holds(th: Thread, span: nat) {
    !th.phase.Free? && th.phase.held == Some(span)
  }

  ghost predicate HeldBySome(s: Server, span: nat) {
    exists t | 0 <= t < |s.threads| :: Holds(s.threads[t], span)
  }

  ghost predicate CallOk(keys: seq<string>, s: Server, rpc: nat)
    requires rpc in s.calls
  {
    var call := s.calls[rpc];
    call.span.Some? ==>
      && call.span.value < |s.spans| == |s.madeFor|
      && s.madeFor[call.span.value] == rpc
      && s.spans[call.span.value].extracted == Extracted(keys, call.incoming)
  }

  ghost predicate SpanOk(s: Server, span: nat)
    requires span < |s.spans| == |s.madeFor|
  {
    && s.madeFor[span] in s.calls && s.calls[s.madeFor[span]].span == Some(span)
    && (HeldBySome(s, span) || Finished(s.spans[span]))
  }

  ghost predicate Inv(keys: seq<string>, s: Server) {
    && |s.madeFor| == |s.spans|
    && (forall t | 0 <= t < |s.threads| :: ThreadOk(s, s.threads[t]))
    && (forall t, u | 0 <= t < |s.threads| && 0 <= u < |s.threads| && t != u :: !SameRpc(s.threads[t], s.threads[u]))
    && (forall rpc | rpc in s.calls :: CallOk(keys, s, rpc))
    && (forall x | 0 <= x < |s.spans| :: SpanOk(s, x))
  }

  /** Two threads never hold the same span. */
  lemma HoldersDiffer(keys: seq<string>, s: Server, t: nat, u: nat, x: nat)
    requires Inv(keys, s) && t < |s.threads| && u < |s.threads| && t != u
    requires Holds(s.threads[t], x)
    ensures !Holds(s.threads[u], x)
  {
    assert ThreadOk(s, s.threads[t]) && ThreadOk(s, s.threads[u]);
    assert !SameRpc(s.threads[t], s.threads[u]);
    assert CallOk(keys, s, s.threads[t].phase.rpc);
  }

  lemma ReceiveKeepsInv(keys: seq<string>, s: Server, a: Action)
    requires Inv(keys, s) && InRange(s) && Enabled(s, a) && a.Receive?
    ensures Inv(keys, Step(keys, s, a))
  {
    var s' := Step(keys, s, a);
    forall u | 0 <= u < |s'.threads| ensures ThreadOk(s', s'.threads[u]) {
      assert ThreadOk(s, s.threads[u]);
    }
    forall u, v | 0 <= u < |s'.threads| && 0 <= v < |s'.threads| && u != v
      ensures !SameRpc(s'.threads[u], s'.threads[v])
    {
      assert !SameRpc(s.threads[u], s.threads[v]);
      assert ThreadOk(s, s.threads[u]) && ThreadOk(s, s.threads[v]);
    }
    forall rpc | rpc in s'.calls ensures CallOk(keys, s', rpc) {
      if rpc in s.calls {
        assert CallOk(keys, s, rpc);
      }
    }
    forall x | 0 <= x < |s'.spans| ensures SpanOk(s', x) {
      if x < |s.spans| {
        assert SpanOk(s, x);
        StillHeld(s, s', a.thread, x);
      } else {
        assert Holds(s'.threads[a.thread], x);
      }
    }
  }

  /** A thread that keeps its phase, or enters one holding the span, goes on holding it. */
  lemma StillHeld(s: Server, s': Server, t: nat, x: nat)
    requires t < |s.threads| == |s'.threads|
    requires forall u | 0 <= u < |s.threads| && u != t :: s'.threads[u] == s.threads[u]
    requires Holds(s.threads[t], x) ==> Holds(s'.threads[t], x)
    ensures HeldBySome(s, x) ==> HeldBySome(s', x)
  {
    if HeldBySome(s, x) {
      var u :| 0 <= u < |s.threads| && Holds(s.threads[u], x);
      assert Holds(s'.threads[u], x);
    }
  }

  /** The same RPCs, with what they brought along and the spans made for them. */
  ghost predicate SameCalls(calls: map<nat, Call>, calls': map<nat, Call>) {
    && calls.Keys == calls'.Keys
    && forall rpc | rpc in calls :: calls'[rpc].incoming == calls[rpc].incoming && calls'[rpc].span == calls[rpc].span
  }

  /**
   A step by one thread that changes nothing but the span of its own RPC, and
   leaves the thread in order, keeps the invariant.
   */
  lemma OwnSpanFrame(keys: seq<string>, s: Server, s': Server, t: nat)
    requires Inv(keys, s)
    requires t < |s.threads| == |s'.threads| && !s.threads[t].phase.Free?
    requires forall u | 0 <= u < |s.threads| && u != t :: s'.threads[u] == s.threads[u]
    requires SameCalls(s.calls, s'.calls) && s'.madeFor == s.madeFor && s.events <= s'.events
    requires |s'.spans| == |s.spans|
    requires var held := s.threads[t].phase.held;
             && (forall x | 0 <= x < |s.spans| && Some(x) != held :: s'.spans[x] == s.spans[x])
             && (held.Some? && held.value < |s.spans| ==>
                   && s'.spans[held.value].extracted == s.spans[held.value].extracted
                   && (s'.threads[t].phase.Free? ==> Finished(s'.spans[held.value])))
    requires !s'.threads[t].phase.Free? ==>
               s'.threads[t].phase.rpc == s.threads[t].phase.rpc && s'.threads[t].phase.held == s.threads[t].phase.held
    requires ThreadOk(s', s'.threads[t])
    ensures Inv(keys, s')
  {
    assert ThreadOk(s, s.threads[t]);
    var held := s.threads[t].phase.held;
    forall u | 0 <= u < |s'.threads| ensures ThreadOk(s', s'.threads[u]) {
      assert ThreadOk(s, s.threads[u]);
      if u != t && held.Some? {
        HoldersDiffer(keys, s, t, u, held.value);
      }
    }
    forall u, v | 0 <= u < |s'.threads| && 0 <= v < |s'.threads| && u != v
      ensures !SameRpc(s'.threads[u], s'.threads[v])
    {
      assert !SameRpc(s.threads[u], s.threads[v]);
    }
    forall rpc | rpc in s'.calls ensures CallOk(keys, s', rpc) {
      assert CallOk(keys, s, rpc);
    }
    forall x | 0 <= x < |s'.spans| ensures SpanOk(s', x) {
      assert SpanOk(s, x);
      if held != Some(x) || !s'.threads[t].phase.Free? {
        StillHeld(s, s', t, x);
      }
    }
  }

  lemma EnterKeepsInv(keys: seq<string>, s: Server, a: Action)
    requires Inv(keys, s) && InRange(s) && Enabled(s, a) && a.EnterMethod?
    ensures Inv(keys, Step(keys, s, a))
  {
    var th := s.threads[a.thread];
    assert ThreadOk(s, th);
    if th.slot.Some? {
      OpenEventsAppend(s.spans[th.slot.value].trace, Open(|s.events|));
      assert [] + [|s.events|] == [|s.events|];
    }
    OwnSpanFrame(keys, s, Step(keys, s, a), a.thread);
  }

  lemma LeaveKeepsInv(keys: seq<string>, s: Server, a: Action)
    requires Inv(keys, s) && InRange(s) && Enabled(s, a) && a.LeaveMethod?
    ensures Inv(keys, Step(keys, s, a))
  {
    var th := s.threads[a.thread];
    assert ThreadOk(s, th);
    if th.phase.event.Some? {
      OpenEventsAppend(s.spans[th.slot.value].trace, Close(th.phase.event.value));
    }
    OwnSpanFrame(keys, s, Step(keys, s, a), a.thread);
  }

  lemma SendKeepsInv(keys: seq<string>, s: Server, a: Action)
    requires Inv(keys, s) && InRange(s) && Enabled(s, a) && a.SendStatus?
    ensures Inv(keys, Step(keys, s, a))
  {
    assert ThreadOk(s, s.threads[a.thread]);
    OwnSpanFrame(keys, s, Step(keys, s, a), a.thread);
  }

  lemma InvInRange(keys: seq<string>, s: Server)
    requires Inv(keys, s)
    ensures InRange(s)
  {
    forall t | 0 <= t < |s.threads| ensures ThreadOk(s, s.threads[t]) {}
  }

  lemma StepKeepsInv(keys: seq<string>, s: Server, a: Action)
    requires Inv(keys, s) && InRange(s) && Enabled(s, a)
    ensures Inv(keys, Step(keys, s, a))
  {
    match a
    case Receive(_, _, _, _) => ReceiveKeepsInv(keys, s, a);
    case EnterMethod(_) => EnterKeepsInv(keys, s, a);
    case LeaveMethod(_) => LeaveKeepsInv(keys, s, a);
    case SendStatus(_, _) => SendKeepsInv(keys, s, a);
  }

  // ------------------------------------------------------------------
  // Every run
  // ------------------------------------------------------------------

  /** The server after a sequence of actions; None if one of them was not enabled. */
  function Run(keys: seq<string>, threads: nat, actions: seq<Action>): (r: Option<Server>)
    ensures r.Some? ==> Inv(keys, r.value) && InRange(r.value) && |r.value.threads| == threads
  {
    if actions == [] then Some(Idle(threads))
    else
      var before := Run(keys, threads, actions[..|actions| - 1]);
      var a := actions[|actions| - 1];
      if before.None? || !Enabled(before.value, a) then None
      else
        StepKeepsInv(keys, before.value, a);
        var after := Step(keys, before.value, a);
        InvInRange(keys, after);
        Some(after)
  }

  /** The span made for an RPC, if it was received and got one. */
  function SpanOf(s: Server, rpc: nat): Option<nat> {
    if rpc in s.calls then s.calls[rpc].span else None
  }

  /**
   Isolation: in every run, however the threads interleave, a service method
   finds the span of its own RPC in the thread-local slot, and a thread that has
   sent its status leaves an empty slot behind.
   */
  lemma MethodsSeeTheirOwnSpan(keys: seq<string>, threads: nat, actions: seq<Action>, t: nat)
    requires Run(keys, threads, actions).Some? && t < threads
    ensures var s := Run(keys, threads, actions).value;
            var th := s.threads[t];
            && (th.phase.InMethod? ==> th.phase.seen == SpanOf(s, th.phase.rpc))
            && (th.phase.Free? ==> th.slot == None)
            && (!th.phase.Free? ==> th.slot == SpanOf(s, th.phase.rpc))
  {
    var s := Run(keys, threads, actions).value;
    assert ThreadOk(s, s.threads[t]);
  }

  /**
   Conservation: in every run each span was made for exactly one RPC, whose
   metadata it read; it is held by one thread that has yet to send the status,
   or it was ended exactly once, with its events well bracketed and all closed.
   */
  lemma SpansAreConserved(keys: seq<string>, threads: nat, actions: seq<Action>, x: nat)
    requires Run(keys, threads, actions).Some?
    requires x < |Run(keys, threads, actions).value.spans|
    ensures var s := Run(keys, threads, actions).value;
            && SpanOf(s, s.madeFor[x]) == Some(x)
            && (forall rpc | SpanOf(s, rpc) == Some(x) :: rpc == s.madeFor[x])
            && s.spans[x].extracted == Extracted(keys, s.calls[s.madeFor[x]].incoming)
    ensures var s := Run(keys, threads, actions).value;
            var holders := set t | 0 <= t < threads && Holds(s.threads[t], x);
            if s.spans[x].endings == 0 then exists t :: holders == {t}
            else s.spans[x].endings == 1 && holders == {} && WellBracketed(s.spans[x].trace)
  {
    var s := Run(keys, threads, actions).value;
    assert SpanOk(s, x);
    assert CallOk(keys, s, s.madeFor[x]);
    forall rpc | SpanOf(s, rpc) == Some(x) ensures rpc == s.madeFor[x] {
      assert CallOk(keys, s, rpc);
    }
    var holders := set t | 0 <= t < threads && Holds(s.threads[t], x);
    forall t | t in holders ensures s.spans[x].endings == 0 {
      assert ThreadOk(s, s.threads[t]);
    }
    if HeldBySome(s, x) {
      var t :| 0 <= t < threads && Holds(s.threads[t], x);
      forall u | 0 <= u < threads && u != t ensures u !in holders {
        HoldersDiffer(keys, s, t, u, x);
      }
      assert holders == {t};
    } else {
      WellBracketedIffAllClosed(s.spans[x].trace);
    }
  }

  /** Every event was opened by a method of the RPC whose span is its parent. */
  lemma MethodEventsHangUnderTheirSpan(keys: seq<string>, threads: nat, actions: seq<Action>, t: nat)
    requires Run(keys, threads, actions).Some? && t < threads
    requires Run(keys, threads, actions).value.threads[t].phase.InMethod?
    ensures var s := Run(keys, threads, actions).value;
            var phase := s.threads[t].phase;
            && (phase.event.Some? <==> SpanOf(s, phase.rpc).Some?)
            && (phase.event.Some? ==> phase.event.value < |s.events|
                                      && Some(s.events[phase.event.value]) == SpanOf(s, phase.rpc))
  {
    var s := Run(keys, threads, actions).value;
    assert ThreadOk(s, s.threads[t]);
  }
}
