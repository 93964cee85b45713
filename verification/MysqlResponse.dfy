/**
 The three bodies the MySQL demo answers with (mysql/mysql_example.cpp:480-514).
 */
module MysqlResponse {
  import opened Text
  import opened Json
  import opened JsonSpelling
  import opened MysqlReport

  /** The answer to a request. */
  datatype Response = Response(status: nat, body: string)

  const SUCCESS: PlainText := "success"
  const ERROR: PlainText := "error"
  const DATABASE: PlainText := "database"
  const DEMO_RESULT: PlainText := "demo_result"
  const INSTRUCTIONS: PlainText := "instructions"
  const DATABASE_URL: PlainText := Joined("tcp://localhost", ":33060/test")
  const NOT_CONNECTED: PlainText := Joined("Database ", "connection failed")
  const PLEASE: PlainText := Joined("Please ensure MySQL ", "is running and accessible")
  const EXECUTION_FAILED: PlainText := Joined("Demo execution ", "failed")
  const INSTALL: PlainText := Joined("Install MySQL Server ", "8.0+ with X Protocol")
  const START: PlainText := Joined("Start MySQL service ", "on localhost:3306")
  const CREATE: PlainText := Joined("Create test database: ", "CREATE DATABASE test;")
  const UPDATE_SETTINGS: PlainText := Joined("Update connection ", "settings if needed")

  // ------------------------------------------------------------------
  // What the bodies mean
  // ------------------------------------------------------------------

  function SuccessValue(ops: seq<Operation>, seconds: nat): Value {
    Obj([Member(SUCCESS, Bool(true))] + [Member(DATABASE, Str(DATABASE_URL))]
        + [Member(DEMO_RESULT, ReportValue(ops, seconds))])
  }

  function FailureValue(what: string): Value {
    Obj([Member(SUCCESS, Bool(false))] + [Member(ERROR, Str(EXECUTION_FAILED))] + [Member(DETAILS, Str(what))])
  }

  function Instructions(): Value {
    Arr([Str(INSTALL)] + [Str(START)] + [Str(CREATE)] + [Str(UPDATE_SETTINGS)])
  }

  function UnavailableValue(): Value {
    Obj([Member(SUCCESS, Bool(false))] + [Member(ERROR, Str(NOT_CONNECTED))] + [Member(MESSAGE, Str(PLEASE))]
        + [Member(INSTRUCTIONS, Instructions())])
  }

  // ------------------------------------------------------------------
  // The bodies
  // ------------------------------------------------------------------

  function SuccessBody(report: string): string {
    Braces("\n", Field(INDENT, SUCCESS, TruthName(true)) + NEXT + Field(INDENT, DATABASE, Quoted(DATABASE_URL)) + NEXT
                 + Field(INDENT, DEMO_RESULT, report), "\n")
  }

  function FailureBody(what: string): string {
    Braces("\n", Field(INDENT, SUCCESS, TruthName(false)) + NEXT + Field(INDENT, ERROR, Quoted(EXECUTION_FAILED)) + NEXT
                 + Field(INDENT, DETAILS, Quoted(what)), "\n")
  }

  function Line(text: string): string {
    "    " + Quoted(text)
  }

  function InstructionsText(): string {
    Brackets("\n", Line(INSTALL) + NEXT + Line(START) + NEXT + Line(CREATE) + NEXT + Line(UPDATE_SETTINGS), "\n  ")
  }

  function UnavailableBody(): string {
    Braces("\n", Field(INDENT, SUCCESS, TruthName(false)) + NEXT + Field(INDENT, ERROR, Quoted(NOT_CONNECTED)) + NEXT
                 + Field(INDENT, MESSAGE, Quoted(PLEASE)) + NEXT
                 + Field(INDENT, INSTRUCTIONS, InstructionsText()), "\n")
  }

  /** What each of the three answers says first: whether it is a success, and what about. */
  lemma AnswersSay(ops: seq<Operation>, seconds: nat, what: string)
    ensures var v := SuccessValue(ops, seconds);
            && v.Obj? && |v.members| == 3
            && v.members[0] == Member("success", Bool(true)) && v.members[2] == Member("demo_result", ReportValue(ops, seconds))
    ensures var v := FailureValue(what);
            && v.Obj? && |v.members| == 3
            && v.members[0] == Member("success", Bool(false)) && v.members[2] == Member("details", Str(what))
    ensures var v := UnavailableValue();
            && v.Obj? && |v.members| == 4 && v.members[0] == Member("success", Bool(false))
            && v.members[3].value.Arr? && |v.members[3].value.items| == 4
  {
  }

  // ------------------------------------------------------------------
  // The bodies are JSON for their meanings
  // ------------------------------------------------------------------

  /** An object of three members, each spelled on its own. */
  lemma ThreeMembersParse(a: string, m: Member, p: bool, b: string, n: Member, q: bool, c: string, o: Member, r: bool)
    requires Spells(a, MemberTokens([m]), p) && Spells(b, MemberTokens([n]), q) && Spells(c, MemberTokens([o]), r)
    ensures Spells(a + NEXT + b + NEXT + c, MemberTokens([m] + [n] + [o]), p && q && r)
    ensures Parse(Braces("\n", a + NEXT + b + NEXT + c, "\n")) == Some(Obj([m] + [n] + [o])) <==> p && q && r
  {
    SpellMembers(a, [m], p, b, [n], q);
    SpellMembers(a + NEXT + b, [m] + [n], p && q, c, [o], r);
    SpellObject("\n", a + NEXT + b + NEXT + c, [m] + [n] + [o], p && q && r, "\n");
    SpelledValueParses(Braces("\n", a + NEXT + b + NEXT + c, "\n"), Obj([m] + [n] + [o]), p && q && r);
  }

  lemma SpellSuccess(b: bool)
    ensures Spells(Field(INDENT, SUCCESS, TruthName(b)), MemberTokens([Member(SUCCESS, Bool(b))]), true)
  {
    SpellTruth(b);
    SpellField(INDENT, SUCCESS, TruthName(b), Bool(b), true);
  }

  /** A report inside the answer is read back exactly when it would be on its own. */
  lemma SuccessIsJsonIff(ops: seq<Operation>, seconds: nat)
    ensures Parse(SuccessBody(ReportText(ops, seconds))) == Some(SuccessValue(ops, seconds)) <==> ArePlain(ops)
  {
    var report := ReportText(ops, seconds);
    SpellSuccess(true);
    SpellText(INDENT, DATABASE, DATABASE_URL);
    SpellReport(ops, seconds);
    SpellField(INDENT, DEMO_RESULT, report, ReportValue(ops, seconds), ArePlain(ops));
    ThreeMembersParse(Field(INDENT, SUCCESS, TruthName(true)), Member(SUCCESS, Bool(true)), true,
                      Field(INDENT, DATABASE, Quoted(DATABASE_URL)), Member(DATABASE, Str(DATABASE_URL)), true,
                      Field(INDENT, DEMO_RESULT, report), Member(DEMO_RESULT, ReportValue(ops, seconds)), ArePlain(ops));
  }

  /** The text of an exception is printed as it is: the answer is JSON for it only if it is plain. */
  lemma FailureIsJsonIff(what: string)
    ensures Parse(FailureBody(what)) == Some(FailureValue(what)) <==> IsPlain(what)
  {
    SpellSuccess(false);
    SpellText(INDENT, ERROR, EXECUTION_FAILED);
    SpellText(INDENT, DETAILS, what);
    ThreeMembersParse(Field(INDENT, SUCCESS, TruthName(false)), Member(SUCCESS, Bool(false)), true,
                      Field(INDENT, ERROR, Quoted(EXECUTION_FAILED)), Member(ERROR, Str(EXECUTION_FAILED)), true,
                      Field(INDENT, DETAILS, Quoted(what)), Member(DETAILS, Str(what)), IsPlain(what));
  }

  lemma SpellLine(text: PlainText)
    ensures Spells(Line(text), ItemTokens([Str(text)]), true)
  {
    SpellWhitespace("    ");
    SpellQuoted(text);
    SpellConcat("    ", [], true, Quoted(text), [Quote(text)], true);
    assert [] + [Quote(text)] == ItemTokens([Str(text)]);
  }

  lemma SpellFourLines(a: PlainText, b: PlainText, c: PlainText, d: PlainText)
    ensures Spells(Line(a) + NEXT + Line(b) + NEXT + Line(c) + NEXT + Line(d),
                   ItemTokens([Str(a)] + [Str(b)] + [Str(c)] + [Str(d)]), true)
  {
    SpellLine(a);
    SpellLine(b);
    SpellLine(c);
    SpellLine(d);
    SpellItems(Line(a), [Str(a)], true, Line(b), [Str(b)], true);
    SpellItems(Line(a) + NEXT + Line(b), [Str(a)] + [Str(b)], true, Line(c), [Str(c)], true);
    SpellItems(Line(a) + NEXT + Line(b) + NEXT + Line(c), [Str(a)] + [Str(b)] + [Str(c)], true, Line(d), [Str(d)], true);
  }

  lemma SpellInstructions()
    ensures Spells(Field(INDENT, INSTRUCTIONS, InstructionsText()), MemberTokens([Member(INSTRUCTIONS, Instructions())]), true)
  {
    SpellFourLines(INSTALL, START, CREATE, UPDATE_SETTINGS);
    SpellArray("\n", Line(INSTALL) + NEXT + Line(START) + NEXT + Line(CREATE) + NEXT + Line(UPDATE_SETTINGS),
               Instructions().items, true, "\n  ");
    SpellField(INDENT, INSTRUCTIONS, InstructionsText(), Instructions(), true);
  }

  lemma UnavailableIsJson()
    ensures Parse(UnavailableBody()) == Some(UnavailableValue())
  {
    SpellSuccess(false);
    SpellText(INDENT, ERROR, NOT_CONNECTED);
    SpellText(INDENT, MESSAGE, PLEASE);
    SpellInstructions();
    var success, error, message := Member(SUCCESS, Bool(false)), Member(ERROR, Str(NOT_CONNECTED)), Member(MESSAGE, Str(PLEASE));
    var a, b, c := Field(INDENT, SUCCESS, TruthName(false)), Field(INDENT, ERROR, Quoted(NOT_CONNECTED)), Field(INDENT, MESSAGE, Quoted(PLEASE));
    ThreeMembersParse(a, success, true, b, error, true, c, message, true);
    SpellMembers(a + NEXT + b + NEXT + c, [success] + [error] + [message], true,
                 Field(INDENT, INSTRUCTIONS, InstructionsText()), [Member(INSTRUCTIONS, Instructions())], true);
    SpellObject("\n", a + NEXT + b + NEXT + c + NEXT + Field(INDENT, INSTRUCTIONS, InstructionsText()),
                UnavailableValue().members, true, "\n");
    SpelledValueParses(UnavailableBody(), UnavailableValue(), true);
  }
}
