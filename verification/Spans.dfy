/**
 The agent's ledger: what was recorded about each span, and what it means for
 the events of a span to be well bracketed.
 */
module Spans {
  import opened Text

  /** The events of one span, in the order they were opened and closed. */
  datatype Bracket<E> = Open(event: E) | Close(event: E)

  /** One bracket on a stack of open events; None once a close did not match. */
  function Advance<E(==)>(open: Option<seq<E>>, b: Bracket<E>): Option<seq<E>> {
    match open
    case None => None
    case Some(stack) =>
      match b
      case Open(e) => Some(stack + [e])
      case Close(e) =>
        if stack != [] && stack[|stack| - 1] == e then Some(stack[..|stack| - 1]) else None
  }

  /** The events still open after a trace, innermost last. */
  function OpenEvents<E(==)>(trace: seq<Bracket<E>>): Option<seq<E>> {
    if trace == [] then Some([])
    else Advance(OpenEvents(trace[..|trace| - 1]), trace[|trace| - 1])
  }

  lemma OpenEventsAppend<E>(trace: seq<Bracket<E>>, b: Bracket<E>)
    ensures OpenEvents(trace + [b]) == Advance(OpenEvents(trace), b)
  {
    assert (trace + [b])[..|trace|] == trace;
  }

  // ------------------------------------------------------------------
  // The grammar of well-bracketed traces
  // ------------------------------------------------------------------

  /** Blocks in sequence, each with its own blocks inside. */
  datatype Nest<E> = Done | Block(event: E, inside: Nest<E>, after: Nest<E>)

  function Yield<E>(n: Nest<E>): seq<Bracket<E>> {
    match n
    case Done => []
    case Block(e, inside, after) => [Open(e)] + Yield(inside) + [Close(e)] + Yield(after)
  }

  ghost predicate WellBracketed<E(!new)>(trace: seq<Bracket<E>>) {
    exists n: Nest<E> :: Yield(n) == trace
  }

  lemma OpenThenClose<E>(stack: seq<E>, e: E)
    ensures Advance(Advance(Some(stack), Open(e)), Close(e)) == Some(stack)
  {
    assert (stack + [e])[..|stack|] == stack;
  }

  lemma Regroup<T>(prefix: seq<T>, open: T, inside: seq<T>, close: T, after: seq<T>)
    ensures prefix + ([open] + inside + [close] + after)
            == (((prefix + [open]) + inside) + [close]) + after
  {
  }

  /** A well-bracketed stretch leaves the open events as they were. */
  lemma {:induction false} YieldIsNeutral<E>(prefix: seq<Bracket<E>>, n: Nest<E>)
    requires OpenEvents(prefix).Some?
    ensures OpenEvents(prefix + Yield(n)) == OpenEvents(prefix)
    decreases n
  {
    match n
    case Done =>
      assert prefix + Yield(n) == prefix;
    case Block(e, inside, after) =>
      Regroup(prefix, Open(e), Yield(inside), Close(e), Yield(after));
      OpenThenClose(OpenEvents(prefix).value, e);
      var begun := prefix + [Open(e)];
      OpenEventsAppend(prefix, Open(e));
      YieldIsNeutral(begun, inside);
      var full := begun + Yield(inside);
      OpenEventsAppend(full, Close(e));
      YieldIsNeutral(full + [Close(e)], after);
  }

  /** Blocks added at the end of a sequence of blocks. */
  function Then<E>(n: Nest<E>, last: Nest<E>): (r: Nest<E>) {
    match n
    case Done => last
    case Block(e, inside, after) => Block(e, inside, Then(after, last))
  }

  lemma {:induction false} YieldThen<E>(n: Nest<E>, last: Nest<E>)
    ensures Yield(Then(n, last)) == Yield(n) + Yield(last)
  {
    match n
    case Done =>
    case Block(e, inside, after) => YieldThen(after, last);
  }

  /** A trace with open events: a nest before each open bracket, and one behind the last. */
  function Layers<E>(stack: seq<E>, nests: seq<Nest<E>>): seq<Bracket<E>>
    requires |nests| == |stack| + 1
  {
    if stack == [] then Yield(nests[0])
    else Layers(stack[..|stack| - 1], nests[..|stack|]) + [Open(stack[|stack| - 1])] + Yield(nests[|stack|])
  }

  /** Blocks added to the innermost layer. */
  lemma ExtendLayers<E>(stack: seq<E>, nests: seq<Nest<E>>, last: Nest<E>)
    requires |nests| == |stack| + 1
    ensures Layers(stack, nests[|stack| := Then(nests[|stack|], last)]) == Layers(stack, nests) + Yield(last)
  {
    YieldThen(nests[|stack|], last);
    var changed := nests[|stack| := Then(nests[|stack|], last)];
    assert changed[..|stack|] == nests[..|stack|];
  }

  /** Closing the innermost event folds its layer into the one around it. */
  lemma CloseLayer<E>(stack: seq<E>, nests: seq<Nest<E>>) returns (folded: seq<Nest<E>>)
    requires stack != [] && |nests| == |stack| + 1
    ensures |folded| == |stack|
    ensures Layers(stack[..|stack| - 1], folded) == Layers(stack, nests) + [Close(stack[|stack| - 1])]
  {
    var k := |stack| - 1;
    var block := Block(stack[k], nests[k + 1], Done);
    var below := nests[..k + 1];
    folded := below[k := Then(below[k], block)];
    ExtendLayers(stack[..k], below, block);
    assert Yield(block) == [Open(stack[k])] + Yield(nests[k + 1]) + [Close(stack[k])];
    assert Layers(stack, nests) == Layers(stack[..k], below) + [Open(stack[k])] + Yield(nests[k + 1]);
  }

  /** Every trace the stack machine accepts decomposes into layers. */
  lemma {:induction false} Decompose<E>(trace: seq<Bracket<E>>) returns (nests: seq<Nest<E>>)
    requires OpenEvents(trace).Some?
    ensures |nests| == |OpenEvents(trace).value| + 1
    ensures Layers(OpenEvents(trace).value, nests) == trace
  {
    if trace == [] {
      nests := [Done];
    } else {
      var before, b := trace[..|trace| - 1], trace[|trace| - 1];
      assert trace == before + [b];
      var outer := Decompose(before);
      var stack := OpenEvents(before).value;
      match b
      case Open(e) =>
        nests := outer + [Done];
        assert (stack + [e])[..|stack|] == stack && nests[..|stack| + 1] == outer;
      case Close(e) =>
        nests := CloseLayer(stack, outer);
    }
  }

  /**
   The stack machine accepts exactly the traces of the grammar: all events
   closed in the reverse order of their opening.
   */
  lemma WellBracketedIffAllClosed<E(!new)>(trace: seq<Bracket<E>>)
    ensures WellBracketed(trace) <==> OpenEvents(trace) == Some([])
  {
    if OpenEvents(trace) == Some([]) {
      var nests := Decompose(trace);
      assert Yield(nests[0]) == trace;
    }
    if WellBracketed(trace) {
      var n :| Yield(n) == trace;
      YieldIsNeutral([], n);
      assert [] + Yield(n) == trace;
    }
  }

  lemma NestIsClosed<E(!new)>(n: Nest<E>)
    ensures WellBracketed(Yield(n)) && OpenEvents(Yield(n)) == Some([])
  {
    YieldIsNeutral([], n);
    EmptyPrefix(Yield(n));
  }

  // ------------------------------------------------------------------
  // Span records
  // ------------------------------------------------------------------

  /** What the agent knows of a span; its index in the ledger identifies it. */
  datatype Span = Span(
    /** What `NewSpan` read through the context reader, key by key. */
    extracted: seq<Option<string>>,
    remoteAddress: Option<string>,
    error: Option<string>,
    trace: seq<Bracket<nat>>,
    /** How often `EndSpan` was called. */
    endings: nat)
  {
    function WithBracket(b: Bracket<nat>): Span {
      this.(trace := trace + [b])
    }

    function Ended(): Span {
      this.(endings := endings + 1)
    }
  }

  function FreshSpan(extracted: seq<Option<string>>): Span {
    Span(extracted, None, None, [], 0)
  }

  /** The outcome of an RPC. */
  datatype Status = OK | Failed(message: string)
}
