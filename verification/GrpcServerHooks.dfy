/**
 The server interceptors under any use: interceptors created and destroyed at any
 time, and batches with any hook points, in any order, on any thread.
 */
module GrpcServerHooks {
  import opened Text
  import opened Spans
  import opened GrpcServerInterceptor

  datatype Interceptor = Live(held: Option<nat>) | Destroyed

  datatype Process = Process(
    interceptors: seq<Interceptor>,
    slots: seq<Option<nat>>,
    spans: seq<Span>,
    /** The interceptor that made every span. */
    madeBy: seq<nat>,
    /** Spans whose interceptor was destroyed before the status went out. */
    abandoned: set<nat>)

  datatype Action =
    | Create
    | Hooks(interceptor: nat, thread: nat, incoming: Option<Incoming>, decision: Decision, batch: Batch)
    | Destroy(interceptor: nat)

  function Initial(threads: nat): Process {
    Process([], seq(threads, _ => None), [], [], {})
  }

  predicate Enabled(p: Process, a: Action) {
    match a
    case Create => true
    case Hooks(i, t, _, _, _) => i < |p.interceptors| && p.interceptors[i].Live? && t < |p.slots|
    case Destroy(i) => i < |p.interceptors| && p.interceptors[i].Live?
  }

  ghost predicate InRange(p: Process) {
    forall i | 0 <= i < |p.interceptors| && p.interceptors[i].Live? && p.interceptors[i].held.Some? ::
      p.interceptors[i].held.value < |p.spans|
  }

  function Step(keys: seq<string>, p: Process, a: Action): Process
    requires Enabled(p, a) && InRange(p)
  {
    match a
    case Create => p.(interceptors := p.interceptors + [Live(None)])
    case Hooks(i, t, incoming, decision, batch) =>
      var side := ServerStep(ServerSide(p.interceptors[i].held, p.slots[t], p.spans), keys, incoming, decision, batch);
      p.(interceptors := p.interceptors[i := Live(side.held)], slots := p.slots[t := side.slot], spans := side.spans,
         madeBy := if |side.spans| > |p.spans| then p.madeBy + [i] else p.madeBy)
    case Destroy(i) =>
      p.(interceptors := p.interceptors[i := Destroyed],
         abandoned := p.abandoned + if p.interceptors[i].held.Some? then {p.interceptors[i].held.value} else {})
  }

  // ------------------------------------------------------------------
  // Conservation
  // ------------------------------------------------------------------

  predicate Holds(p: Process, i: nat, x: nat) {
    i < |p.interceptors| && p.interceptors[i].Live? && p.interceptors[i].held == Some(x)
  }

  /** The span is still held by the interceptor that made it. */
  predicate Held(p: Process, x: nat)
    requires x < |p.madeBy|
  {
    Holds(p, p.madeBy[x], x)
  }

  predicate Ended(p: Process, x: nat)
    requires x < |p.spans|
  {
    p.spans[x].endings == 1
  }

  /** The span is ended, or held, or abandoned: one of them, and only one. */
  ghost predicate Accounted(p: Process, x: nat)
    requires x < |p.spans| == |p.madeBy|
  {
    && p.spans[x].endings <= 1
    && (Ended(p, x) ==> !Held(p, x) && x !in p.abandoned)
    && (!Ended(p, x) ==> (Held(p, x) <==> x !in p.abandoned))
  }

  ghost predicate Inv(p: Process) {
    && InRange(p)
    && |p.madeBy| == |p.spans|
    && (forall i: nat, x: nat | Holds(p, i, x) && x < |p.spans| :: p.madeBy[x] == i)
    && (forall x | x in p.abandoned :: x < |p.spans|)
    && (forall x | 0 <= x < |p.spans| :: Accounted(p, x))
  }

  lemma StepKeepsInv(keys: seq<string>, p: Process, a: Action)
    requires Inv(p) && Enabled(p, a)
    ensures Inv(Step(keys, p, a))
  {
    var p' := Step(keys, p, a);
    if !a.Create? && p.interceptors[a.interceptor].held.Some? {
      assert Holds(p, a.interceptor, p.interceptors[a.interceptor].held.value);
    }
    forall x | 0 <= x < |p'.spans| ensures Accounted(p', x) {
      if x < |p.spans| {
        assert Accounted(p, x);
      }
    }
    forall i: nat, x: nat | Holds(p', i, x) && x < |p'.spans| ensures p'.madeBy[x] == i {
      assert x < |p.spans| ==> Holds(p, i, x);
    }
  }

  /** The process after a sequence of actions; None if one of them was not enabled. */
  function Run(keys: seq<string>, threads: nat, actions: seq<Action>): (r: Option<Process>)
    ensures r.Some? ==> Inv(r.value) && |r.value.slots| == threads
  {
    if actions == [] then Some(Initial(threads))
    else
      var before := Run(keys, threads, actions[..|actions| - 1]);
      var a := actions[|actions| - 1];
      if before.None? || !Enabled(before.value, a) then None
      else
        StepKeepsInv(keys, before.value, a);
        Some(Step(keys, before.value, a))
  }

  /**
   For any hook batches on any threads, each span has one fate: ended once, held
   by the interceptor that made it and by no other, or abandoned with it.
   */
  lemma EverySpanHasOneFate(keys: seq<string>, threads: nat, actions: seq<Action>, x: nat)
    requires Run(keys, threads, actions).Some?
    requires x < |Run(keys, threads, actions).value.spans|
    ensures var p := Run(keys, threads, actions).value;
            && x < |p.madeBy| && Accounted(p, x)
            && forall i: nat | Holds(p, i, x) :: i == p.madeBy[x]
  {
    var p := Run(keys, threads, actions).value;
    assert Accounted(p, x);
  }

  /** Conservation: spans created = ended + held by interceptors + abandoned. */
  lemma CreatedIsEndedHeldOrAbandoned(keys: seq<string>, threads: nat, actions: seq<Action>)
    requires Run(keys, threads, actions).Some?
    ensures var p := Run(keys, threads, actions).value;
            && |p.madeBy| == |p.spans|
            && |p.spans| == |EndedSpans(p, |p.spans|)| + |HeldSpans(p, |p.spans|)| + |p.abandoned|
  {
    var p := Run(keys, threads, actions).value;
    FatesAddUp(p, |p.spans|);
    assert AbandonedSpans(p, |p.spans|) == p.abandoned;
  }

  function EndedSpans(p: Process, n: nat): set<nat>
    requires n <= |p.spans|
  {
    set x: nat | x < n && p.spans[x].endings == 1
  }

  /** The spans that the interceptor which made them still holds. */
  function HeldSpans(p: Process, n: nat): set<nat>
    requires n <= |p.madeBy|
  {
    set x: nat | x < n && Holds(p, p.madeBy[x], x)
  }

  function AbandonedSpans(p: Process, n: nat): set<nat> {
    set x: nat | x < n && x in p.abandoned
  }

  /** One more span, counted or not. */
  lemma OneMoreSpan(before: set<nat>, after: set<nat>, x: nat, counted: bool)
    requires forall y: nat :: y in after <==> y in before || (y == x && counted)
    requires x !in before
    ensures |after| == |before| + if counted then 1 else 0
  {
    assert after == before + if counted then {x} else {};
  }

  lemma {:induction false} FatesAddUp(p: Process, n: nat)
    requires Inv(p) && n <= |p.spans|
    ensures n == |EndedSpans(p, n)| + |HeldSpans(p, n)| + |AbandonedSpans(p, n)|
  {
    if n > 0 {
      FatesAddUp(p, n - 1);
      assert Accounted(p, n - 1);
      OneMoreSpan(EndedSpans(p, n - 1), EndedSpans(p, n), n - 1, Ended(p, n - 1));
      OneMoreSpan(HeldSpans(p, n - 1), HeldSpans(p, n), n - 1, Held(p, n - 1));
      OneMoreSpan(AbandonedSpans(p, n - 1), AbandonedSpans(p, n), n - 1, n - 1 in p.abandoned);
    }
  }

  /** An interceptor that is never destroyed while it holds a span abandons none. */
  ghost predicate NeverAbandons(keys: seq<string>, threads: nat, actions: seq<Action>) {
    forall k | 0 <= k < |actions| && actions[k].Destroy? ::
      var before := Run(keys, threads, actions[..k]);
      before.Some? && actions[k].interceptor < |before.value.interceptors|
      ==> before.value.interceptors[actions[k].interceptor] != Destroyed
          && before.value.interceptors[actions[k].interceptor].held == None
  }

  lemma {:induction false} NothingAbandoned(keys: seq<string>, threads: nat, actions: seq<Action>)
    requires Run(keys, threads, actions).Some? && NeverAbandons(keys, threads, actions)
    ensures Run(keys, threads, actions).value.abandoned == {}
  {
    if actions != [] {
      var before := actions[..|actions| - 1];
      forall k | 0 <= k < |before| ensures before[..k] == actions[..k] {}
      NothingAbandoned(keys, threads, before);
    }
  }

  // ------------------------------------------------------------------
  // The thread-local slot
  // ------------------------------------------------------------------

  /** The action writes the slot of thread `t`: it makes a span there, or sends a status there. */
  predicate WritesSlot(p: Process, a: Action, t: nat)
    requires Enabled(p, a)
  {
    && a.Hooks? && a.thread == t
    && (a.batch.preSendStatus
        || (a.batch.postRecvInitialMetadata && p.interceptors[a.interceptor].held.None?))
  }

  /**
   What a thread finds in its slot: what its own last slot-writing batch left
   there, whatever ran on other threads since.
   */
  function LastWritten(keys: seq<string>, threads: nat, actions: seq<Action>, t: nat): Option<nat>
    requires Run(keys, threads, actions).Some?
  {
    if actions == [] then None
    else
      var before, a := actions[..|actions| - 1], actions[|actions| - 1];
      var p := Run(keys, threads, before).value;
      if !WritesSlot(p, a, t) then LastWritten(keys, threads, before, t)
      else if a.batch.preSendStatus || !a.decision.available then None
      else Some(|p.spans|)
  }

  lemma {:induction false} SlotIsLastWritten(keys: seq<string>, threads: nat, actions: seq<Action>, t: nat)
    requires Run(keys, threads, actions).Some? && t < threads
    ensures Run(keys, threads, actions).value.slots[t] == LastWritten(keys, threads, actions, t)
  {
    if actions != [] {
      SlotIsLastWritten(keys, threads, actions[..|actions| - 1], t);
    }
  }

  /**
   Without confinement the slot is not the RPC's own: when two RPCs take turns
   on one thread, the method of the first one finds the span of the second.
   */
  lemma InterleavedRpcsShareTheSlot(keys: seq<string>)
    ensures var received := Batch(true, false, OK);
            var receive0 := Hooks(0, 0, None, Decision(true, false), received);
            var receive1 := Hooks(1, 0, None, Decision(true, false), received);
            var p := Run(keys, 1, [Create, Create, receive0, receive1]);
            p.Some? && Holds(p.value, 0, 0) && Holds(p.value, 1, 1) && p.value.slots[0] == Some(1)
  {
    var received := Batch(true, false, OK);
    var receive0 := Hooks(0, 0, None, Decision(true, false), received);
    var receive1 := Hooks(1, 0, None, Decision(true, false), received);
    var actions := [Create, Create, receive0, receive1];
    assert actions[..3] == [Create, Create, receive0];
    assert actions[..3][..2] == [Create, Create];
    assert [Create, Create][..1] == [Create];
    assert [Create][..0] == [];
    assert Run(keys, 1, [Create]).Some?;
    assert Run(keys, 1, [Create, Create]).Some?;
    assert Run(keys, 1, actions[..3]).Some?;
  }
}
