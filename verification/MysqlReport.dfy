/**
 The JSON text the MySQL demo prints piece by piece while it works
 (mysql/mysql_example.cpp:313-335, 410-420): when it is JSON, and for what.
 */
module MysqlReport {
  import opened Text
  import opened Json
  import opened JsonSpelling

  /** One call of `addOperation`; the details default to the empty string. */
  datatype Operation = Operation(op: string, status: string, details: string)

  predicate IsPlainOperation(o: Operation) {
    IsPlain(o.op) && IsPlain(o.status) && IsPlain(o.details)
  }

  predicate ArePlain(ops: seq<Operation>) {
    forall i | 0 <= i < |ops| :: IsPlainOperation(ops[i])
  }

  // ------------------------------------------------------------------
  // What the report means
  // ------------------------------------------------------------------

  const OPERATION: PlainText := "operation"
  const STATUS: PlainText := "status"
  const DETAILS: PlainText := "details"
  const MESSAGE: PlainText := "message"
  const STARTING: PlainText := "Database Demo Starting"
  const OPERATIONS: PlainText := "operations"
  const DEMO_STATUS: PlainText := "demo_status"
  const RUNNING: PlainText := "running"
  const COMPLETED: PlainText := "completed"
  const TIMESTAMP: PlainText := "timestamp"

  function OperationValue(o: Operation): Value {
    Obj([Member(OPERATION, Str(o.op)), Member(STATUS, Str(o.status))]
        + if o.details == "" then [] else [Member(DETAILS, Str(o.details))])
  }

  function OperationValues(ops: seq<Operation>): (r: seq<Value>)
    ensures |r| == |ops|
    ensures forall i | 0 <= i < |ops| :: r[i] == OperationValue(ops[i])
  {
    if ops == [] then []
    else OperationValues(ops[..|ops| - 1]) + [OperationValue(ops[|ops| - 1])]
  }

  function ReportValue(ops: seq<Operation>, seconds: nat): Value {
    Obj([Member(STATUS, Str(RUNNING))]
        + ([Member(MESSAGE, Str(STARTING))]
           + ([Member(OPERATIONS, Arr(OperationValues(ops)))]
              + ([Member(DEMO_STATUS, Str(COMPLETED))]
                 + [Member(TIMESTAMP, Str(Decimal(seconds)))]))))
  }

  /** The call behind an entry of the `operations` array. */
  function CallOf(v: Value): Option<Operation> {
    if v.Obj? && 2 <= |v.members| <= 3
       && v.members[0].name == OPERATION && v.members[0].value.Str?
       && v.members[1].name == STATUS && v.members[1].value.Str?
       && (|v.members| == 3 ==> v.members[2].name == DETAILS && v.members[2].value.Str?)
    then
      Some(Operation(v.members[0].value.text, v.members[1].value.text,
                     if |v.members| == 3 then v.members[2].value.text else ""))
    else None
  }

  /** An entry is an object of the call's operation and status, and its details if there are any. */
  lemma EntrySaysTheCall(o: Operation)
    ensures var v := OperationValue(o);
            && v.Obj? && |v.members| == (if o.details == "" then 2 else 3)
            && v.members[0] == Member("operation", Str(o.op)) && v.members[1] == Member("status", Str(o.status))
            && (o.details != "" ==> v.members[2] == Member("details", Str(o.details)))
  {
  }

  /** What surrounds the operations. */
  lemma ReportSays(ops: seq<Operation>, seconds: nat)
    ensures var v := ReportValue(ops, seconds);
            && v.Obj? && |v.members| == 5
            && v.members[0] == Member("status", Str("running"))
            && v.members[1] == Member("message", Str("Database Demo Starting"))
            && v.members[2].name == "operations"
            && v.members[3] == Member("demo_status", Str("completed"))
            && v.members[4] == Member("timestamp", Str(Decimal(seconds)))
  {
  }

  /** Each call can be told from its entry, which has details exactly when the call had some. */
  lemma EntryGivesBackTheCall(o: Operation)
    ensures CallOf(OperationValue(o)) == Some(o)
    ensures (exists m :: m in OperationValue(o).members && m.name == DETAILS) <==> o.details != ""
  {
    var ms := OperationValue(o).members;
    assert OPERATION != DETAILS && STATUS != DETAILS;
    if o.details != "" {
      assert ms[2] in ms && ms[2].name == DETAILS;
    }
  }

  /** The operations array holds the calls, in order. */
  lemma ReportGivesBackTheCalls(ops: seq<Operation>, seconds: nat)
    ensures ReportValue(ops, seconds).members[2].name == OPERATIONS
    ensures ReportValue(ops, seconds).members[2].value.Arr?
    ensures |ReportValue(ops, seconds).members[2].value.items| == |ops|
    ensures forall i | 0 <= i < |ops| :: CallOf(ReportValue(ops, seconds).members[2].value.items[i]) == Some(ops[i])
  {
    forall i | 0 <= i < |ops| ensures CallOf(OperationValue(ops[i])) == Some(ops[i]) {
      EntryGivesBackTheCall(ops[i]);
    }
  }

  // ------------------------------------------------------------------
  // The text
  // ------------------------------------------------------------------

  const INDENT := "  "
  const DEEPER := "      "

  function FieldsText(o: Operation): string {
    Field(DEEPER, OPERATION, Quoted(o.op)) + NEXT + Field(DEEPER, STATUS, Quoted(o.status))
    + if o.details == "" then "" else NEXT + Field(DEEPER, DETAILS, Quoted(o.details))
  }

  function OperationText(o: Operation): string {
    "    " + Braces("\n", FieldsText(o), "\n    ")
  }

  function OperationsText(ops: seq<Operation>): string {
    if ops == [] then ""
    else if |ops| == 1 then OperationText(ops[0])
    else OperationsText(ops[..|ops| - 1]) + NEXT + OperationText(ops[|ops| - 1])
  }

  function Heading(): string {
    "{\n" + Field(INDENT, STATUS, Quoted(RUNNING)) + NEXT + Field(INDENT, MESSAGE, Quoted(STARTING)) + NEXT
    + Field(INDENT, OPERATIONS, "[\n")
  }

  function Closing(seconds: nat): string {
    "\n  ]" + NEXT + Field(INDENT, DEMO_STATUS, Quoted(COMPLETED)) + NEXT
    + Field(INDENT, TIMESTAMP, Quoted(Decimal(seconds))) + "\n}"
  }

  function ReportText(ops: seq<Operation>, seconds: nat): string {
    Heading() + OperationsText(ops) + Closing(seconds)
  }

  // ------------------------------------------------------------------
  // The text is JSON for its meaning
  // ------------------------------------------------------------------

  lemma SpellText(indent: string, name: string, s: string)
    requires IsSpace(indent) && IsPlain(name)
    ensures Spells(Field(indent, name, Quoted(s)), MemberTokens([Member(name, Str(s))]), IsPlain(s))
  {
    SpellQuoted(s);
    SpellField(indent, name, Quoted(s), Str(s), IsPlain(s));
  }

  lemma SpellFields(o: Operation)
    ensures Spells(FieldsText(o), MemberTokens(OperationValue(o).members), IsPlainOperation(o))
  {
    var op, status := [Member(OPERATION, Str(o.op))], [Member(STATUS, Str(o.status))];
    var opText, statusText := Field(DEEPER, OPERATION, Quoted(o.op)), Field(DEEPER, STATUS, Quoted(o.status));
    SpellText(DEEPER, OPERATION, o.op);
    SpellText(DEEPER, STATUS, o.status);
    SpellMembers(opText, op, IsPlain(o.op), statusText, status, IsPlain(o.status));
    assert op + status == [Member(OPERATION, Str(o.op)), Member(STATUS, Str(o.status))];
    if o.details == "" {
      assert op + status + [] == op + status;
      assert opText + NEXT + statusText + "" == opText + NEXT + statusText;
    } else {
      SpellText(DEEPER, DETAILS, o.details);
      var detailsText := Field(DEEPER, DETAILS, Quoted(o.details));
      SpellMembers(opText + NEXT + statusText, op + status, IsPlain(o.op) && IsPlain(o.status),
                   detailsText, [Member(DETAILS, Str(o.details))], IsPlain(o.details));
      assert opText + NEXT + statusText + NEXT + detailsText == opText + NEXT + statusText + (NEXT + detailsText);
    }
  }

  lemma SpellOperation(o: Operation)
    ensures Spells(OperationText(o), ItemTokens([OperationValue(o)]), IsPlainOperation(o))
  {
    SpellFields(o);
    SpellObject("\n", FieldsText(o), OperationValue(o).members, IsPlainOperation(o), "\n    ");
    SpellWhitespace("    ");
    var t := TokensOf(OperationValue(o));
    SpellConcat("    ", [], true, Braces("\n", FieldsText(o), "\n    "), t, IsPlainOperation(o));
    assert [] + t == ItemTokens([OperationValue(o)]);
  }

  lemma {:induction false} SpellOperations(ops: seq<Operation>)
    ensures Spells(OperationsText(ops), ItemTokens(OperationValues(ops)), ArePlain(ops))
  {
    if ops == [] {
      SpellWhitespace("");
    } else {
      var before, o := ops[..|ops| - 1], ops[|ops| - 1];
      assert ops == before + [o];
      SpellOperation(o);
      assert ArePlain(ops) <==> ArePlain(before) && IsPlainOperation(o);
      if |ops| == 1 {
        assert OperationValues(ops) == [OperationValue(o)];
      } else {
        SpellOperations(before);
        SpellItems(OperationsText(before), OperationValues(before), ArePlain(before),
                   OperationText(o), [OperationValue(o)], IsPlainOperation(o));
      }
    }
  }

  lemma DecimalIsPlain(n: nat)
    ensures IsPlain(Decimal(n))
  {
    assert forall i | 0 <= i < |Decimal(n)| :: IsDigit(Decimal(n)[i]);
  }

  /** The three members in front of the closing brace. */
  function TailText(ops: seq<Operation>, seconds: nat): string {
    Field(INDENT, OPERATIONS, Brackets("\n", OperationsText(ops), "\n  ")) + NEXT
    + (Field(INDENT, DEMO_STATUS, Quoted(COMPLETED)) + NEXT
       + Field(INDENT, TIMESTAMP, Quoted(Decimal(seconds))))
  }

  function TailMembers(ops: seq<Operation>, seconds: nat): seq<Member> {
    [Member(OPERATIONS, Arr(OperationValues(ops)))]
    + ([Member(DEMO_STATUS, Str(COMPLETED))] + [Member(TIMESTAMP, Str(Decimal(seconds)))])
  }

  lemma SpellTail(ops: seq<Operation>, seconds: nat)
    ensures Spells(TailText(ops, seconds), MemberTokens(TailMembers(ops, seconds)), ArePlain(ops))
  {
    DecimalIsPlain(seconds);
    SpellOperations(ops);
    var list := Brackets("\n", OperationsText(ops), "\n  ");
    var values := Arr(OperationValues(ops));
    SpellArray("\n", OperationsText(ops), OperationValues(ops), ArePlain(ops), "\n  ");
    SpellField(INDENT, OPERATIONS, list, values, ArePlain(ops));
    SpellText(INDENT, DEMO_STATUS, COMPLETED);
    SpellText(INDENT, TIMESTAMP, Decimal(seconds));
    var done, stamp := [Member(DEMO_STATUS, Str(COMPLETED))], [Member(TIMESTAMP, Str(Decimal(seconds)))];
    var doneText, stampText := Field(INDENT, DEMO_STATUS, Quoted(COMPLETED)), Field(INDENT, TIMESTAMP, Quoted(Decimal(seconds)));
    SpellMembers(doneText, done, true, stampText, stamp, true);
    SpellMembers(Field(INDENT, OPERATIONS, list), [Member(OPERATIONS, values)], ArePlain(ops),
                 doneText + NEXT + stampText, done + stamp, true);
  }

  function BodyText(ops: seq<Operation>, seconds: nat): string {
    Field(INDENT, STATUS, Quoted(RUNNING)) + NEXT
    + (Field(INDENT, MESSAGE, Quoted(STARTING)) + NEXT + TailText(ops, seconds))
  }

  lemma SpellBody(ops: seq<Operation>, seconds: nat)
    ensures Spells(BodyText(ops, seconds), MemberTokens(ReportValue(ops, seconds).members), ArePlain(ops))
  {
    SpellTail(ops, seconds);
    SpellText(INDENT, STATUS, RUNNING);
    SpellText(INDENT, MESSAGE, STARTING);
    var status, message := [Member(STATUS, Str(RUNNING))], [Member(MESSAGE, Str(STARTING))];
    SpellMembers(Field(INDENT, MESSAGE, Quoted(STARTING)), message, true,
                 TailText(ops, seconds), TailMembers(ops, seconds), ArePlain(ops));
    SpellMembers(Field(INDENT, STATUS, Quoted(RUNNING)), status, true,
                 Field(INDENT, MESSAGE, Quoted(STARTING)) + NEXT + TailText(ops, seconds),
                 message + TailMembers(ops, seconds), ArePlain(ops));
  }

  /** The pieces in the order they are printed make up the nested text. */
  lemma RegroupReport(a: string, b: string, c: string, list: string, d: string, e: string, next: string)
    ensures "{\n" + a + next + b + next + (c + "[\n") + list + ("\n  ]" + next + d + next + e + "\n}")
            == "{" + "\n" + (a + next + (b + next + (c + ("[" + "\n" + list + "\n  " + "]") + next + (d + next + e)))) + "\n" + "}"
  {
  }

  lemma ReportTextIsNested(ops: seq<Operation>, seconds: nat)
    ensures ReportText(ops, seconds) == Braces("\n", BodyText(ops, seconds), "\n")
  {
    RegroupReport(Field(INDENT, STATUS, Quoted(RUNNING)), Field(INDENT, MESSAGE, Quoted(STARTING)),
                  INDENT + Quoted(OPERATIONS) + ": ", OperationsText(ops),
                  Field(INDENT, DEMO_STATUS, Quoted(COMPLETED)),
                  Field(INDENT, TIMESTAMP, Quoted(Decimal(seconds))), NEXT);
  }

  lemma SpellReport(ops: seq<Operation>, seconds: nat)
    ensures Spells(ReportText(ops, seconds), TokensOf(ReportValue(ops, seconds)), ArePlain(ops))
  {
    var body, members := BodyText(ops, seconds), ReportValue(ops, seconds).members;
    ReportTextIsNested(ops, seconds);
    SpellBody(ops, seconds);
    SpellObject("\n", body, members, ArePlain(ops), "\n");
    assert ReportValue(ops, seconds) == Obj(members);
  }

  /**
   The report is JSON for the calls made exactly when none of their strings
   contains a quote, a backslash or a control character.
   */
  lemma ReportIsJsonIffPlain(ops: seq<Operation>, seconds: nat)
    ensures Parse(ReportText(ops, seconds)) == Some(ReportValue(ops, seconds)) <==> ArePlain(ops)
  {
    SpellReport(ops, seconds);
    SpelledValueParses(ReportText(ops, seconds), ReportValue(ops, seconds), ArePlain(ops));
  }

  // ------------------------------------------------------------------
  // The printer
  // ------------------------------------------------------------------

  /** The `result` stream and the `first` flag of `runDemoHandler`. */
  class DemoReport {
    var result: string
    var first: bool
    ghost var calls: seq<Operation>

    ghost predicate Valid()
      reads this
    {
      first == (calls == []) && result == Heading() + OperationsText(calls)
    }

    constructor ()
      ensures Valid() && calls == []
    {
      result := "{\n" + Field(INDENT, STATUS, Quoted(RUNNING)) + NEXT
                + Field(INDENT, MESSAGE, Quoted(STARTING)) + NEXT
                + Field(INDENT, OPERATIONS, "[\n");
      first := true;
      calls := [];
    }

    method AddOperation(op: string, status: string, details: string)
      requires Valid()
      modifies this
      ensures Valid()
      ensures calls == old(calls) + [Operation(op, status, details)]
    {
      ghost var o := Operation(op, status, details);
      if !first {
        result := result + NEXT;
      }
      ghost var before := result;
      result := result + "    {\n";
      result := result + (Field(DEEPER, OPERATION, Quoted(op)) + NEXT);
      result := result + Field(DEEPER, STATUS, Quoted(status));
      if details != "" {
        result := result + (NEXT + Field(DEEPER, DETAILS, Quoted(details)));
      }
      result := result + "\n    }";
      first := false;
      assert result == before + OperationText(o) by {
        OperationPieces(before, o);
      }
      AppendOperation(Heading(), calls, o);
      calls := calls + [o];
    }

    /** The finished text. */
    method Finish(seconds: nat) returns (text: string)
      requires Valid()
      modifies this
      ensures calls == old(calls)
      ensures text == ReportText(calls, seconds)
      ensures Parse(text) == Some(ReportValue(calls, seconds)) <==> ArePlain(calls)
    {
      ClosingPieces(result, seconds);
      result := result + ("\n  ]" + NEXT);
      result := result + (Field(INDENT, DEMO_STATUS, Quoted(COMPLETED)) + NEXT);
      result := result + (Field(INDENT, TIMESTAMP, Quoted(Decimal(seconds))) + "\n");
      result := result + "}";
      text := result;
      ReportIsJsonIffPlain(calls, seconds);
    }
  }

  /** One entry, piece by piece. */
  lemma OperationPieces(before: string, o: Operation)
    ensures before + "    {\n" + (Field(DEEPER, OPERATION, Quoted(o.op)) + NEXT) + Field(DEEPER, STATUS, Quoted(o.status))
            + (NEXT + Field(DEEPER, DETAILS, Quoted(o.details))) + "\n    }"
            == before + OperationText(o) || o.details == ""
    ensures before + "    {\n" + (Field(DEEPER, OPERATION, Quoted(o.op)) + NEXT) + Field(DEEPER, STATUS, Quoted(o.status))
            + "\n    }"
            == before + OperationText(o) || o.details != ""
  {
    RegroupOperation(before, Field(DEEPER, OPERATION, Quoted(o.op)), NEXT, Field(DEEPER, STATUS, Quoted(o.status)),
                     NEXT + Field(DEEPER, DETAILS, Quoted(o.details)));
  }

  lemma RegroupOperation(before: string, op: string, next: string, status: string, details: string)
    ensures before + "    {\n" + (op + next) + status + details + "\n    }"
            == before + ("    " + ("{" + "\n" + (op + next + status + details) + "\n    " + "}"))
    ensures before + "    {\n" + (op + next) + status + "\n    }"
            == before + ("    " + ("{" + "\n" + (op + next + status + "") + "\n    " + "}"))
  {
  }

  lemma OperationsTextAppend(ops: seq<Operation>, o: Operation)
    ensures OperationsText(ops + [o])
            == if ops == [] then OperationText(o) else OperationsText(ops) + NEXT + OperationText(o)
  {
    assert (ops + [o])[..|ops|] == ops;
  }

  /** What the printer has to write for one more call. */
  lemma AppendOperation(heading: string, ops: seq<Operation>, o: Operation)
    ensures heading + OperationsText(ops + [o])
            == (if ops == [] then heading + OperationsText(ops) else heading + OperationsText(ops) + NEXT)
               + OperationText(o)
  {
    OperationsTextAppend(ops, o);
    if ops == [] {
      assert heading + "" == heading;
    } else {
      SeqAssociates(heading, OperationsText(ops), NEXT);
      SeqAssociates(heading, OperationsText(ops) + NEXT, OperationText(o));
    }
  }

  lemma ClosingPieces(before: string, seconds: nat)
    ensures before + ("\n  ]" + NEXT) + (Field(INDENT, DEMO_STATUS, Quoted(COMPLETED)) + NEXT)
            + (Field(INDENT, TIMESTAMP, Quoted(Decimal(seconds))) + "\n") + "}"
            == before + Closing(seconds)
  {
    RegroupClosing(before, NEXT, Field(INDENT, DEMO_STATUS, Quoted(COMPLETED)),
                   Field(INDENT, TIMESTAMP, Quoted(Decimal(seconds))));
  }

  lemma RegroupClosing(before: string, next: string, done: string, stamp: string)
    ensures before + ("\n  ]" + next) + (done + next) + (stamp + "\n") + "}"
            == before + ("\n  ]" + next + done + next + stamp + "\n}")
  {
  }
}
