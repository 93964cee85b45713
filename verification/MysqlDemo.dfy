/**
 One request of the MySQL demo (mysql/mysql_example.cpp:211-311, 313-421, 455-525):
 the events it leaves on its span and the body it answers with, whatever
 its queries throw.
 */
module MysqlDemo {
  import opened Text
  import opened Json
  import opened JsonSpelling
  import opened Spans
  import opened MysqlReport
  import opened MysqlResponse

  // ------------------------------------------------------------------
  // The script of `runDemoHandler`
  // ------------------------------------------------------------------

  type PlainOperation = o: Operation | IsPlainOperation(o)
    witness Operation("", "", "")

  function PlainOperationOf(op: PlainText, status: PlainText, details: PlainText): PlainOperation {
    Operation(op, status, details)
  }

  /** A traced query, named by its event, or a line in the report. */
  datatype Step = Query(event: string) | Note(operation: PlainOperation) {
    function Notes(): seq<Operation> {
      if Note? then [operation] else []
    }

    /** Its event, unless the event's guard was what threw. */
    function Events(outcome: Outcome): Nest<string> {
      if Query? && !outcome.NeverOpens? then Block(event, Done, Done) else Done
    }
  }

  const SELECT := "SQL_SELECT"
  const INSERT := "SQL_INSERT"
  const UPDATE := "SQL_UPDATE"
  const DELETE := "SQL_DELETE"

  // The printed texts contain nothing that would need an escape.
  const CREATED_DETAILS: PlainText := Joined("demo_users table ", "created/verified")
  const CLEARED_DETAILS: PlainText := "Existing data cleared"
  const INSERTED_DETAILS: PlainText := "3 users inserted"
  const SELECTED_DETAILS: PlainText := Joined("Multiple SELECT ", "queries executed")
  const UPDATED_DETAILS: PlainText := Joined("UPDATE and verification ", "completed")
  const ANALYSED_DETAILS: PlainText := Joined("Complex SELECT with ", "CASE and aggregation")
  const PROBED_DETAILS: PlainText := Joined("Error handling with ", "non-existent table")
  const DELETED_DETAILS: PlainText := Joined("Conditional DELETE ", "executed")

  const CREATED := PlainOperationOf("create_table", "success", CREATED_DETAILS)
  const CLEARED := PlainOperationOf("clear_data", "success", CLEARED_DETAILS)
  const INSERTED := PlainOperationOf("insert_data", "success", INSERTED_DETAILS)
  const SELECTED := PlainOperationOf("select_queries", "success", SELECTED_DETAILS)
  const UPDATED := PlainOperationOf("update_queries", "success", UPDATED_DETAILS)
  const ANALYSED := PlainOperationOf("complex_queries", "success", ANALYSED_DETAILS)
  const PROBED := PlainOperationOf("error_handling", "tested", PROBED_DETAILS)
  const DELETED := PlainOperationOf("delete_data", "success", DELETED_DETAILS)

  /** Some queries, and the operation noted behind them. */
  function Stage(events: seq<string>, note: PlainOperation): seq<Step> {
    seq(|events|, i requires 0 <= i < |events| => Query(events[i])) + [Note(note)]
  }

  const SCRIPT: seq<Step> :=
    Stage([UPDATE], CREATED) + Stage([DELETE], CLEARED)
    + Stage([INSERT, INSERT, INSERT], INSERTED) + Stage([SELECT, SELECT, SELECT], SELECTED)
    + Stage([UPDATE, SELECT], UPDATED) + Stage([SELECT, SELECT], ANALYSED)
    + Stage([SELECT], PROBED) + Stage([DELETE, SELECT], DELETED)

  /** The operations noted by some steps. */
  function Noted(steps: seq<Step>): seq<Operation> {
    if steps == [] then []
    else
      Noted(steps[..|steps| - 1]) + steps[|steps| - 1].Notes()
  }

  /** One event per query that opened it, side by side. */
  function Queried(steps: seq<Step>, outcome: nat -> Outcome): Nest<string> {
    if steps == [] then Done
    else
      Then(Queried(steps[..|steps| - 1], outcome), steps[|steps| - 1].Events(outcome(|steps| - 1)))
  }

  /**
   How a query ends. Outside its own try block, an exception escapes from its
   body, or already from the guard that was to open its event.
   */
  datatype Outcome =
    | Succeeds
    | DatabaseError(what: string)
    | OtherError(what: string)
    | Escapes(what: string)
    | NeverOpens(what: string)
  {
    predicate Leaves() {
      Escapes? || NeverOpens?
    }
  }

  /** The steps completed before the first query whose exception escapes. */
  function Completed(steps: seq<Step>, outcome: nat -> Outcome): (r: nat)
    ensures r <= |steps|
    ensures forall i | 0 <= i < r && steps[i].Query? :: !outcome(i).Leaves()
    ensures r < |steps| ==> steps[r].Query? && outcome(r).Leaves()
  {
    if steps == [] then 0
    else
      var before := Completed(steps[..|steps| - 1], outcome);
      var last := |steps| - 1;
      if before < last then before
      else if steps[last].Query? && outcome(last).Leaves() then last
      else |steps|
  }

  function Failure(what: string): Operation {
    Operation("demo_execution", "failed", "Error: " + what)
  }

  /** The calls of `addOperation` in a run. */
  function Reported(steps: seq<Step>, outcome: nat -> Outcome): seq<Operation> {
    var n := Completed(steps, outcome);
    if n == |steps| then Noted(steps) else Noted(steps[..n]) + [Failure(outcome(n).what)]
  }

  /** The events of a run inside `runDemoHandler`. */
  function Traced(steps: seq<Step>, outcome: nat -> Outcome): Nest<string> {
    var n := Completed(steps, outcome);
    Queried(if n == |steps| then steps else steps[..n + 1], outcome)
  }

  // ------------------------------------------------------------------
  // What the script does
  // ------------------------------------------------------------------

  lemma {:induction false} NotedConcat(a: seq<Step>, b: seq<Step>)
    ensures Noted(a + b) == Noted(a) + Noted(b)
  {
    if b == [] {
      assert a + b == a;
    } else {
      NotedConcat(a, b[..|b| - 1]);
      assert (a + b)[..|a + b| - 1] == a + b[..|b| - 1];
      SeqAssociates(Noted(a), Noted(b[..|b| - 1]), b[|b| - 1].Notes());
    }
  }

  lemma {:induction false} QueriesNoteNothing(steps: seq<Step>)
    requires forall i | 0 <= i < |steps| :: steps[i].Query?
    ensures Noted(steps) == []
  {
    if steps != [] {
      QueriesNoteNothing(steps[..|steps| - 1]);
    }
  }

  lemma StageNotes(before: seq<Step>, events: seq<string>, note: PlainOperation)
    ensures Noted(before + Stage(events, note)) == Noted(before) + [note]
  {
    var queries: seq<Step> := seq(|events|, i requires 0 <= i < |events| => Query(events[i]));
    NotedConcat(before, queries + [Note(note)]);
    NotedConcat(queries, [Note(note)]);
    QueriesNoteNothing(queries);
    assert [Note(note)][..0] == [];
    assert Noted([Note(note)]) == [note];
  }

  /** The operations of a run that is not cut short: eight of them, in this order. */
  lemma ScriptNotes()
    ensures Noted(SCRIPT)
            == [CREATED] + [CLEARED] + [INSERTED] + [SELECTED] + [UPDATED] + [ANALYSED] + [PROBED] + [DELETED]
  {
    var s1 := Stage([UPDATE], CREATED);
    var s2 := s1 + Stage([DELETE], CLEARED);
    var s3 := s2 + Stage([INSERT, INSERT, INSERT], INSERTED);
    var s4 := s3 + Stage([SELECT, SELECT, SELECT], SELECTED);
    var s5 := s4 + Stage([UPDATE, SELECT], UPDATED);
    var s6 := s5 + Stage([SELECT, SELECT], ANALYSED);
    var s7 := s6 + Stage([SELECT], PROBED);
    StageNotes([], [UPDATE], CREATED);
    EmptyPrefix(s1);
    EmptyPrefix([CREATED]);
    StageNotes(s1, [DELETE], CLEARED);
    StageNotes(s2, [INSERT, INSERT, INSERT], INSERTED);
    StageNotes(s3, [SELECT, SELECT, SELECT], SELECTED);
    StageNotes(s4, [UPDATE, SELECT], UPDATED);
    StageNotes(s5, [SELECT, SELECT], ANALYSED);
    StageNotes(s6, [SELECT], PROBED);
    StageNotes(s7, [DELETE, SELECT], DELETED);
  }

  lemma ScriptBegins()
    ensures |SCRIPT| == 23 && SCRIPT[0] == Query(UPDATE)
  {
  }

  // ------------------------------------------------------------------
  // What the report says of a run
  // ------------------------------------------------------------------

  lemma {:induction false} NotedIsPlain(steps: seq<Step>)
    ensures ArePlain(Noted(steps))
  {
    if steps != [] {
      NotedIsPlain(steps[..|steps| - 1]);
    }
  }

  lemma OneMoreIsPlain(ops: seq<Operation>, o: Operation)
    ensures ArePlain(ops + [o]) <==> ArePlain(ops) && IsPlainOperation(o)
  {
    assert (ops + [o])[|ops|] == o;
    assert forall i | 0 <= i < |ops| :: (ops + [o])[i] == ops[i];
  }

  lemma FailureIsPlain(what: string)
    ensures IsPlainOperation(Failure(what)) <==> IsPlain(what)
  {
    var prefix := "Error: ";
    assert forall i | 0 <= i < |what| :: (prefix + what)[|prefix| + i] == what[i];
  }

  predicate EscapedTextIsPlain(steps: seq<Step>, outcome: nat -> Outcome) {
    var n := Completed(steps, outcome);
    n == |steps| || IsPlain(outcome(n).what)
  }

  /** The report is plain unless a query's exception escapes and its text is not. */
  lemma ReportedIsPlainIff(steps: seq<Step>, outcome: nat -> Outcome)
    ensures ArePlain(Reported(steps, outcome)) <==> EscapedTextIsPlain(steps, outcome)
  {
    var n := Completed(steps, outcome);
    if n == |steps| {
      NotedIsPlain(steps);
    } else {
      NotedIsPlain(steps[..n]);
      FailureIsPlain(outcome(n).what);
      OneMoreIsPlain(Noted(steps[..n]), Failure(outcome(n).what));
    }
  }

  /** The completed steps are the ones in front of the first escape. */
  lemma CompletedAt(steps: seq<Step>, outcome: nat -> Outcome, n: nat)
    requires n <= |steps|
    requires forall i | 0 <= i < n && steps[i].Query? :: !outcome(i).Leaves()
    requires n < |steps| ==> steps[n].Query? && outcome(n).Leaves()
    ensures Completed(steps, outcome) == n
  {
  }

  /**
   What is reported: all that the steps note, if no exception leaves a query;
   otherwise what those in front of the first such query note, and its failure.
   */
  lemma ReportedIs(steps: seq<Step>, outcome: nat -> Outcome, n: nat)
    requires n <= |steps|
    requires forall i | 0 <= i < n && steps[i].Query? :: !outcome(i).Escapes? && !outcome(i).NeverOpens?
    requires n < |steps| ==> steps[n].Query? && (outcome(n).Escapes? || outcome(n).NeverOpens?)
    ensures Reported(steps, outcome)
            == if n == |steps| then Noted(steps)
               else Noted(steps[..n]) + [Operation("demo_execution", "failed", "Error: " + outcome(n).what)]
  {
    CompletedAt(steps, outcome, n);
  }

  /** The events of a run: one after the other, one for each query begun whose guard has opened it. */
  lemma TracedIs(steps: seq<Step>, outcome: nat -> Outcome, n: nat)
    requires n <= |steps|
    requires forall i | 0 <= i < n && steps[i].Query? :: !outcome(i).Escapes? && !outcome(i).NeverOpens?
    requires n < |steps| ==> steps[n].Query? && (outcome(n).Escapes? || outcome(n).NeverOpens?)
    ensures Yield(Traced(steps, outcome)) == EventTrace(Begun(steps, n), outcome)
  {
    CompletedAt(steps, outcome, n);
    assert Traced(steps, outcome) == Queried(Begun(steps, n), outcome);
    EventTraceIs(Begun(steps, n), outcome);
  }

  /** The first `n` steps and the one that cut the run short, if there is one. */
  function Begun(steps: seq<Step>, n: nat): seq<Step>
    requires n <= |steps|
  {
    if n == |steps| then steps else steps[..n + 1]
  }

  /** The opening and the closing of each query's event, in the order of the steps. */
  function EventTrace(steps: seq<Step>, outcome: nat -> Outcome): seq<Bracket<string>> {
    if steps == [] then []
    else
      var n := |steps| - 1;
      EventTrace(steps[..n], outcome)
      + match steps[n]
        case Note(_) => []
        case Query(event) => if outcome(n).NeverOpens? then [] else [Open(event), Close(event)]
  }

  lemma {:induction false} EventTraceIs(steps: seq<Step>, outcome: nat -> Outcome)
    ensures Yield(Queried(steps, outcome)) == EventTrace(steps, outcome)
  {
    if steps != [] {
      var n := |steps| - 1;
      EventTraceIs(steps[..n], outcome);
      YieldThen(Queried(steps[..n], outcome), steps[n].Events(outcome(n)));
      if steps[n].Query? {
        QueryEvents(steps[n].event, outcome(n));
      }
    }
  }

  /** Queries that fail inside their try block leave no mark in the report and none in the events. */
  lemma FailedQueriesDoNotShow(steps: seq<Step>, outcome: nat -> Outcome, smooth: nat -> Outcome)
    requires forall i :: outcome(i).Leaves() ==> smooth(i) == outcome(i)
    requires forall i :: !outcome(i).Leaves() ==> smooth(i) == Succeeds
    ensures Reported(steps, outcome) == Reported(steps, smooth)
    ensures Traced(steps, outcome) == Traced(steps, smooth)
  {
    var n := Completed(steps, outcome);
    CompletedAt(steps, smooth, n);
    SameEvents(if n == |steps| then steps else steps[..n + 1], outcome, smooth);
  }

  lemma {:induction false} SameEvents(steps: seq<Step>, one: nat -> Outcome, other: nat -> Outcome)
    requires forall i :: one(i).NeverOpens? <==> other(i).NeverOpens?
    ensures Queried(steps, one) == Queried(steps, other)
  {
    if steps != [] {
      SameEvents(steps[..|steps| - 1], one, other);
    }
  }

  lemma OneMoreStep(steps: seq<Step>, outcome: nat -> Outcome, n: nat, before: seq<Bracket<string>>)
    requires n < |steps|
    ensures Noted(steps[..n + 1]) == Noted(steps[..n]) + steps[n].Notes()
    ensures before + Yield(Queried(steps[..n + 1], outcome))
            == before + Yield(Queried(steps[..n], outcome)) + Yield(steps[n].Events(outcome(n)))
  {
    var events := steps[n].Events(outcome(n));
    assert steps[..n + 1][..n] == steps[..n];
    YieldThen(Queried(steps[..n], outcome), events);
    SeqAssociates(before, Yield(Queried(steps[..n], outcome)), Yield(events));
  }

  /** `n` steps were begun, and at most the last of them let an exception escape. */
  ghost predicate GotTo(steps: seq<Step>, outcome: nat -> Outcome, n: nat, escaped: Option<string>) {
    && n <= |steps|
    && (escaped.Some? ==> n > 0 && steps[n - 1].Query? && outcome(n - 1).Leaves() && outcome(n - 1).what == escaped.value)
    && (forall i | 0 <= i < (if escaped.Some? then n - 1 else n) && steps[i].Query? :: !outcome(i).Leaves())
  }

  /** The exception a step lets out. */
  function EscapeOf(step: Step, outcome: Outcome): Option<string> {
    if step.Query? && outcome.Leaves() then Some(outcome.what) else None
  }

  lemma OneStepFurther(steps: seq<Step>, outcome: nat -> Outcome, n: nat)
    requires n < |steps| && GotTo(steps, outcome, n, None)
    ensures GotTo(steps, outcome, n + 1, EscapeOf(steps[n], outcome(n)))
  {
  }

  lemma Arrived(steps: seq<Step>, outcome: nat -> Outcome, n: nat, escaped: Option<string>)
    requires GotTo(steps, outcome, n, escaped) && (n == |steps| || escaped.Some?)
    ensures Traced(steps, outcome) == Queried(steps[..n], outcome)
    ensures Reported(steps, outcome)
            == Noted(steps[..n]) + if escaped.Some? then [Failure(escaped.value)] else []
  {
    assert steps[..|steps|] == steps;
    if escaped.Some? {
      CompletedAt(steps, outcome, n - 1);
      OneMoreStep(steps, outcome, n - 1, []);
    } else {
      CompletedAt(steps, outcome, n);
    }
  }

  // ------------------------------------------------------------------
  // The program
  // ------------------------------------------------------------------

  /** The part of a span the demo changes. */
  class RequestSpan {
    var trace: seq<Bracket<string>>
    var error: Option<string>
    var endings: nat
    /** What the SQL events recorded: None for success. */
    var queries: seq<Option<string>>

    constructor ()
      ensures trace == [] && error == None && endings == 0 && queries == []
    {
      trace, error, endings, queries := [], None, 0, [];
    }

    /** `EndSpan`: by then all events are closed. */
    method End()
      requires OpenEvents(trace) == Some([])
      modifies this
      ensures endings == old(endings) + 1
      ensures trace == old(trace) && error == old(error) && queries == old(queries)
    {
      endings := endings + 1;
    }
  }

  /**
   How a request goes: with no database connection, or with a run of the script.
   `early` is thrown by the guard of the run's event, `late` by the printing
   behind the run's catch clause.
   */
  datatype Attempt =
    | NotConnected
    | Ran(early: Option<string>, outcome: nat -> Outcome, late: Option<string>, seconds: nat)
  {
    function Thrown(): Option<string> {
      if NotConnected? then None else if early.Some? then early else late
    }

    function Events(): Nest<string> {
      if NotConnected? then Done else RunEvents(early, outcome)
    }

    function Status(): nat {
      if NotConnected? then 503 else if Thrown().Some? then 500 else 200
    }

    function Body(): string {
      if NotConnected? then UnavailableBody()
      else if Thrown().Some? then FailureBody(Thrown().value)
      else SuccessBody(ReportText(Reported(SCRIPT, outcome), seconds))
    }

    function Meaning(): Value {
      if NotConnected? then UnavailableValue()
      else if Thrown().Some? then FailureValue(Thrown().value)
      else SuccessValue(Reported(SCRIPT, outcome), seconds)
    }

    /** The exception text that is printed into the answer, if any, needs no escape. */
    predicate AnswersPlainly() {
      Ran? ==> if Thrown().Some? then IsPlain(Thrown().value) else EscapedTextIsPlain(SCRIPT, outcome)
    }
  }

  function RunEvents(early: Option<string>, outcome: nat -> Outcome): Nest<string> {
    if early.Some? then Done else Block(RUN, Traced(SCRIPT, outcome), Done)
  }

  /** The events of a request. */
  function HandlerEvents(attempt: Attempt): Nest<string> {
    Block(HANDLE, attempt.Events(), Done)
  }

  /** A request's events, on a span without any, are all closed. */
  lemma RequestIsClosed(attempt: Attempt)
    ensures var trace := [] + Yield(HandlerEvents(attempt));
            trace == Yield(HandlerEvents(attempt)) && WellBracketed(trace) && OpenEvents(trace) == Some([])
  {
    NestIsClosed(HandlerEvents(attempt));
    EmptyPrefix(Yield(HandlerEvents(attempt)));
  }

  /** The trace of a request, from outside in. */
  lemma RequestTraceIs(attempt: Attempt)
    ensures Yield(HandlerEvents(attempt))
            == [Open("handle_db_demo")]
               + (match attempt
                  case NotConnected => []
                  case Ran(early, outcome, _, _) =>
                    if early.Some? then []
                    else [Open("runDemoHandler")] + Yield(Traced(SCRIPT, outcome)) + [Close("runDemoHandler")])
               + [Close("handle_db_demo")]
  {
    YieldBlock(HANDLE, attempt.Events());
    if attempt.Ran? && attempt.early.None? {
      YieldBlock(RUN, Traced(SCRIPT, attempt.outcome));
    }
  }

  lemma YieldBlock(event: string, inside: Nest<string>)
    ensures Yield(Block(event, inside, Done)) == [Open(event)] + Yield(inside) + [Close(event)]
  {
    assert [Open(event)] + Yield(inside) + [Close(event)] + [] == [Open(event)] + Yield(inside) + [Close(event)];
  }

  lemma RanIsJsonIff(steps: seq<Step>, outcome: nat -> Outcome, seconds: nat)
    ensures Parse(SuccessBody(ReportText(Reported(steps, outcome), seconds)))
            == Some(SuccessValue(Reported(steps, outcome), seconds))
            <==> EscapedTextIsPlain(steps, outcome)
  {
    SuccessIsJsonIff(Reported(steps, outcome), seconds);
    ReportedIsPlainIff(steps, outcome);
  }

  /** The answer is JSON for what happened exactly when the exception text in it needs no escape. */
  lemma BodyIsJsonIff(attempt: Attempt)
    ensures Parse(attempt.Body()) == Some(attempt.Meaning()) <==> attempt.AnswersPlainly()
  {
    match attempt
    case NotConnected => UnavailableIsJson();
    case Ran(_, outcome, _, seconds) =>
      if attempt.Thrown().Some? {
        FailureIsJsonIff(attempt.Thrown().value);
      } else {
        RanIsJsonIff(SCRIPT, outcome, seconds);
      }
  }

  /** The status by the way the attempt went, and the answer with it. */
  lemma AttemptIsAnswered(attempt: Attempt)
    ensures attempt.Status() == match attempt
                                case NotConnected => 503
                                case Ran(early, _, late, _) => if early.Some? || late.Some? then 500 else 200
    ensures Parse(attempt.Body()) == Some(attempt.Meaning()) <==> attempt.AnswersPlainly()
  {
    BodyIsJsonIff(attempt);
  }

  /** A quote in the text of an escaping exception, and the answer no longer says what happened. */
  lemma QuoteInErrorSpoilsTheAnswer(before: string, behind: string, seconds: nat)
    ensures var attempt := Ran(None, (i: nat) => Escapes(before + "\"" + behind), None, seconds);
            Parse(attempt.Body()) != Some(attempt.Meaning())
  {
    var what := before + "\"" + behind;
    var outcome := (i: nat) => Escapes(what);
    assert what[|before|] == '"';
    ScriptBegins();
    CompletedAt(SCRIPT, outcome, 0);
    BodyIsJsonIff(Ran(None, outcome, None, seconds));
  }

  lemma QueryEvents(event: string, outcome: Outcome)
    ensures Yield(Query(event).Events(outcome)) == if outcome.NeverOpens? then [] else [Open(event), Close(event)]
  {
  }

  class DemoThread {
    /** The thread-local span. */
    var currentSpan: RequestSpan?

    constructor ()
      ensures currentSpan == null
    {
      currentSpan := null;
    }

    /**
     `executeSelectQuery` and `executeDMLQuery`: once its guard has opened it, the
     event is open around the whole body, and the guard closes it however the
     body is left.
     */
    method ExecuteQuery(event: string, outcome: Outcome) returns (thrown: Option<string>)
      requires currentSpan != null
      modifies currentSpan
      ensures currentSpan.trace
              == old(currentSpan.trace) + if outcome.NeverOpens? then [] else [Open(event), Close(event)]
      ensures currentSpan.endings == old(currentSpan.endings) && currentSpan.error == old(currentSpan.error)
      ensures thrown == match outcome
                        case Escapes(what) => Some(what)
                        case NeverOpens(what) => Some(what)
                        case _ => None
      ensures currentSpan.queries
              == old(currentSpan.queries)
                 + match outcome
                   case Succeeds => [None]
                   case DatabaseError(what) => [Some("MySQL X DevAPI Error: " + what)]
                   case OtherError(what) => [Some("Exception: " + what)]
                   case _ => []
    {
      var span := currentSpan;
      if outcome.NeverOpens? {
        return Some(outcome.what);
      }
      span.trace := span.trace + [Open(event)];
      var success, error := false, "";
      match outcome {
        case Succeeds => success := true; thrown := None;
        case DatabaseError(what) => error := "MySQL X DevAPI Error: " + what; thrown := None;
        case OtherError(what) => error := "Exception: " + what; thrown := None;
        case Escapes(what) => thrown := Some(what);
      }
      if thrown.None? {
        span.queries := span.queries + [if !success && error != "" then Some(error) else None];
      }
      span.trace := span.trace + [Close(event)];
      assert [Open(event)] + [Close(event)] == [Open(event), Close(event)];
    }

    /** A query, or a call of `addOperation`. */
    method RunStep(step: Step, outcome: Outcome, report: DemoReport) returns (escaped: Option<string>)
      requires currentSpan != null && report.Valid()
      modifies currentSpan, report
      ensures report.Valid() && report.calls == old(report.calls) + step.Notes()
      ensures currentSpan.trace == old(currentSpan.trace) + Yield(step.Events(outcome))
      ensures currentSpan.endings == old(currentSpan.endings) && currentSpan.error == old(currentSpan.error)
      ensures escaped == EscapeOf(step, outcome)
    {
      match step {
        case Query(name) =>
          QueryEvents(name, outcome);
          escaped := ExecuteQuery(name, outcome);
        case Note(o) => escaped := None; report.AddOperation(o.op, o.status, o.details);
      }
    }

    /** The try block of `runDemoHandler`. */
    method RunSteps(steps: seq<Step>, outcome: nat -> Outcome, report: DemoReport)
      requires currentSpan != null && report.Valid() && report.calls == []
      modifies currentSpan, report
      ensures report.Valid() && report.calls == Reported(steps, outcome)
      ensures currentSpan.trace == old(currentSpan.trace) + Yield(Traced(steps, outcome))
      ensures currentSpan.endings == old(currentSpan.endings) && currentSpan.error == old(currentSpan.error)
    {
      ghost var before := currentSpan.trace;
      var escaped: Option<string> := None;
      var n := 0;
      while n < |steps| && escaped.None?
        invariant n <= |steps| && report.Valid()
        invariant currentSpan.endings == old(currentSpan.endings) && currentSpan.error == old(currentSpan.error)
        invariant GotTo(steps, outcome, n, escaped)
        invariant currentSpan.trace == before + Yield(Queried(steps[..n], outcome))
        invariant report.calls == Noted(steps[..n])
      {
        OneMoreStep(steps, outcome, n, before);
        OneStepFurther(steps, outcome, n);
        escaped := RunStep(steps[n], outcome(n), report);
        n := n + 1;
      }
      Arrived(steps, outcome, n, escaped);
      if escaped.Some? {
        report.AddOperation("demo_execution", "failed", "Error: " + escaped.value);
      }
    }

    /** The run behind the response; its event's guard closes the event even if the printing at the end throws. */
    method RunDemoHandler(early: Option<string>, outcome: nat -> Outcome, late: Option<string>, seconds: nat)
      returns (thrown: Option<string>, text: string)
      requires currentSpan != null
      modifies currentSpan
      ensures currentSpan.trace == old(currentSpan.trace) + Yield(RunEvents(early, outcome))
      ensures currentSpan.endings == old(currentSpan.endings) && currentSpan.error == old(currentSpan.error)
      ensures thrown == if early.Some? then early else late
      ensures thrown.None? ==> text == ReportText(Reported(SCRIPT, outcome), seconds)
    {
      var report := new DemoReport();
      if early.Some? {
        return early, "";
      }
      var span := currentSpan;
      span.trace := span.trace + [Open(RUN)];
      RunSteps(SCRIPT, outcome, report);
      thrown, text := late, "";
      if late.None? {
        text := report.Finish(seconds);
      }
      span.trace := span.trace + [Close(RUN)];
      RegroupBlock(old(span.trace), RUN, Traced(SCRIPT, outcome));
    }

    /**
     The handler behind `/db-demo`. An exception that reaches it is answered
     with status 500; the events opened below are closed by then.
     */
    method HandleDbDemo(attempt: Attempt) returns (response: Response)
      requires currentSpan != null
      modifies currentSpan
      ensures currentSpan.trace == old(currentSpan.trace) + Yield(HandlerEvents(attempt))
      ensures currentSpan.endings == old(currentSpan.endings)
      ensures currentSpan.error
              == match attempt
                 case NotConnected => old(currentSpan.error)
                 case Ran(early, _, late, _) =>
                   if early.Some? then Some("Demo failed: " + early.value)
                   else if late.Some? then Some("Demo failed: " + late.value)
                   else old(currentSpan.error)
      ensures response == Response(attempt.Status(), attempt.Body())
    {
      var span := currentSpan;
      span.trace := span.trace + [Open(HANDLE)];
      assert old(span.trace) + [Open(HANDLE)] + Yield(Done) == old(span.trace) + [Open(HANDLE)];
      match attempt {
        case NotConnected =>
          response := Response(503, UnavailableBody());
        case Ran(early, outcome, late, seconds) =>
          var thrown, text := RunDemoHandler(early, outcome, late, seconds);
          if thrown.None? {
            response := Response(200, SuccessBody(text));
          } else {
            response := Response(500, FailureBody(thrown.value));
            span.error := Some("Demo failed: " + thrown.value);
          }
      }
      span.trace := span.trace + [Close(HANDLE)];
      RegroupBlock(old(span.trace), HANDLE, attempt.Events());
    }

    /** The handler with its span around it. */
    method WrapHandler(attempt: Attempt) returns (span: RequestSpan, response: Response)
      modifies this
      ensures fresh(span) && span.endings == 1 && currentSpan == null
      ensures span.trace == Yield(HandlerEvents(attempt))
      ensures WellBracketed(span.trace) && OpenEvents(span.trace) == Some([])
      ensures response.status == match attempt
                                 case NotConnected => 503
                                 case Ran(early, _, late, _) => if early.Some? || late.Some? then 500 else 200
      ensures Parse(response.body) == Some(attempt.Meaning()) <==> attempt.AnswersPlainly()
    {
      span := new RequestSpan();
      currentSpan := span;
      response := HandleDbDemo(attempt);
      RequestIsClosed(attempt);
      span.End();
      currentSpan := null;
      AttemptIsAnswered(attempt);
    }
  }

  const RUN := "runDemoHandler"
  const HANDLE := "handle_db_demo"

  lemma RegroupBlock(before: seq<Bracket<string>>, event: string, inside: Nest<string>)
    ensures before + [Open(event)] + Yield(inside) + [Close(event)] == before + Yield(Block(event, inside, Done))
  {
    var open, close := [Open(event)], [Close(event)];
    assert open + Yield(inside) + close + [] == open + Yield(inside) + close;
  }
}
