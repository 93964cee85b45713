/**
 The command line of the demo drivers: command words, and `--load` with a
 duration, in any number and order.
 */
module DriverOptions {
  import opened Text

  datatype Error =
    | UnknownOption(word: string)
    | BadDuration(word: string)
    | MissingDuration

  /** What is left in DEMO_CMD and RUN_LOAD_DURATION, or why the script died. */
  datatype Result = Parsed(command: string, duration: string) | Died(error: Error)

  // ------------------------------------------------------------------
  // The grammar
  // ------------------------------------------------------------------

  datatype Opt = Command(word: string) | Load(duration: string)

  const COMMANDS: set<string> := {"up", "test", "down"}

  predicate IsCommand(word: string) {
    word in COMMANDS
  }

  predicate ValidOpt(o: Opt) {
    match o
    case Command(word) => IsCommand(word)
    case Load(duration) => IsNumeral(duration)
  }

  const LOAD := "--load"

  function PrintOpt(o: Opt): seq<string> {
    match o
    case Command(word) => [word]
    case Load(duration) => [LOAD, duration]
  }

  function Print(opts: seq<Opt>): seq<string> {
    if opts == [] then [] else PrintOpt(opts[0]) + Print(opts[1..])
  }

  /** The argument list spells these options. */
  predicate Spells(args: seq<string>, opts: seq<Opt>) {
    (forall i | 0 <= i < |opts| :: ValidOpt(opts[i])) && Print(opts) == args
  }

  /** The last command, or `up`. */
  function LastCommand(opts: seq<Opt>): string {
    if opts == [] then "up"
    else if opts[|opts| - 1].Command? then opts[|opts| - 1].word
    else LastCommand(opts[..|opts| - 1])
  }

  /** The last duration, or 0. */
  function LastDuration(opts: seq<Opt>): string {
    if opts == [] then "0"
    else if opts[|opts| - 1].Load? then opts[|opts| - 1].duration
    else LastDuration(opts[..|opts| - 1])
  }

  /** The command is that of the last command word; without one it is `up`. */
  lemma {:induction false} LastCommandIs(opts: seq<Opt>)
    ensures (forall i | 0 <= i < |opts| :: opts[i].Load?) ==> LastCommand(opts) == "up"
    ensures forall i | 0 <= i < |opts| && opts[i].Command? && (forall j | i < j < |opts| :: opts[j].Load?) ::
              LastCommand(opts) == opts[i].word
  {
    if opts != [] {
      LastCommandIs(opts[..|opts| - 1]);
    }
  }

  /** The duration is that of the last `--load`; without one it is 0. */
  lemma {:induction false} LastDurationIs(opts: seq<Opt>)
    ensures (forall i | 0 <= i < |opts| :: opts[i].Command?) ==> LastDuration(opts) == "0"
    ensures forall i | 0 <= i < |opts| && opts[i].Load? && (forall j | i < j < |opts| :: opts[j].Command?) ::
              LastDuration(opts) == opts[i].duration
  {
    if opts != [] {
      LastDurationIs(opts[..|opts| - 1]);
    }
  }

  /** The words of the grammar: three commands, and `--load` in front of a non-empty string of digits. */
  lemma WordsOfTheGrammar(o: Opt)
    ensures ValidOpt(o) <==>
            match o
            case Command(word) => word == "up" || word == "test" || word == "down"
            case Load(duration) => duration != "" && forall i | 0 <= i < |duration| :: '0' <= duration[i] <= '9'
    ensures PrintOpt(o) == match o case Command(word) => [word] case Load(duration) => ["--load", duration]
  {
  }

  // ------------------------------------------------------------------
  // The grammar is deterministic
  // ------------------------------------------------------------------

  function Recognize(args: seq<string>): Option<seq<Opt>> {
    if args == [] then Some([])
    else if IsCommand(args[0]) then Prepend(Command(args[0]), Recognize(args[1..]))
    else if args[0] == LOAD && |args| > 1 && IsNumeral(args[1]) then Prepend(Load(args[1]), Recognize(args[2..]))
    else None
  }

  function Prepend(o: Opt, rest: Option<seq<Opt>>): Option<seq<Opt>> {
    match rest case Some(opts) => Some([o] + opts) case None => None
  }

  function Concat(opts: seq<Opt>, rest: Option<seq<Opt>>): Option<seq<Opt>> {
    match rest case Some(more) => Some(opts + more) case None => None
  }

  lemma LoadIsNoCommand()
    ensures !IsCommand(LOAD)
  {
    assert LOAD[0] == '-';
  }

  lemma RecognizeOne(o: Opt, tail: seq<string>)
    requires ValidOpt(o)
    ensures Recognize(PrintOpt(o) + tail) == Prepend(o, Recognize(tail))
  {
    var args := PrintOpt(o) + tail;
    match o
    case Command(word) =>
      assert args[0] == word && args[1..] == tail;
    case Load(duration) =>
      LoadIsNoCommand();
      assert args[0] == LOAD && args[1] == duration && args[2..] == tail;
  }

  lemma ConcatPrepend(o: Opt, opts: seq<Opt>, rest: Option<seq<Opt>>)
    ensures Prepend(o, Concat(opts, rest)) == Concat([o] + opts, rest)
  {
    if rest.Some? {
      assert [o] + (opts + rest.value) == [o] + opts + rest.value;
    }
  }

  /** Reading what was printed gives it back, and leaves the rest to be read. */
  lemma {:induction false} RecognizePrinted(opts: seq<Opt>, rest: seq<string>)
    requires forall i | 0 <= i < |opts| :: ValidOpt(opts[i])
    ensures Recognize(Print(opts) + rest) == Concat(opts, Recognize(rest))
  {
    if opts == [] {
      assert Print(opts) + rest == rest;
      assert Recognize(rest).Some? ==> opts + Recognize(rest).value == Recognize(rest).value;
    } else {
      var tail := Print(opts[1..]) + rest;
      RecognizePrinted(opts[1..], rest);
      RecognizeOne(opts[0], tail);
      assert Print(opts) + rest == PrintOpt(opts[0]) + tail;
      ConcatPrepend(opts[0], opts[1..], Recognize(rest));
      assert [opts[0]] + opts[1..] == opts;
    }
  }

  lemma {:induction false} PrintAppend(opts: seq<Opt>, o: Opt)
    ensures Print(opts + [o]) == Print(opts) + PrintOpt(o)
  {
    if opts == [] {
      assert opts + [o] == [o];
      assert [o][1..] == [];
    } else {
      PrintAppend(opts[1..], o);
      assert (opts + [o])[1..] == opts[1..] + [o];
    }
  }

  /** An argument list spells at most one list of options. */
  lemma SpellingIsUnique(args: seq<string>, one: seq<Opt>, other: seq<Opt>)
    requires Spells(args, one) && Spells(args, other)
    ensures one == other
  {
    RecognizePrinted(one, []);
    RecognizePrinted(other, []);
    assert args + [] == args;
    assert one + [] == one && other + [] == other;
  }

  /** Behind a valid beginning, `rest` decides; if it cannot be read, nothing can. */
  lemma BadRestIsFatal(opts: seq<Opt>, rest: seq<string>)
    requires forall i | 0 <= i < |opts| :: ValidOpt(opts[i])
    requires Recognize(rest) == None
    ensures forall other :: !Spells(Print(opts) + rest, other)
  {
    RecognizePrinted(opts, rest);
    forall other ensures !Spells(Print(opts) + rest, other) {
      if forall i | 0 <= i < |other| :: ValidOpt(other[i]) {
        RecognizePrinted(other, []);
        assert Print(other) + [] == Print(other);
      }
    }
  }

  // ------------------------------------------------------------------
  // The parser
  // ------------------------------------------------------------------

  /** Where and why the parser gives up: behind a valid beginning. */
  ghost predicate Offends(args: seq<string>, opts: seq<Opt>, error: Error) {
    && (forall i | 0 <= i < |opts| :: ValidOpt(opts[i]))
    && match error
       case UnknownOption(word) => Print(opts) + [word] <= args && !IsCommand(word) && word != LOAD
       case BadDuration(word) => Print(opts) + [LOAD, word] <= args && !IsNumeral(word)
       case MissingDuration => Print(opts) + [LOAD] == args
  }

  /** The parser has a reason to give up, and then no options could be meant. */
  ghost predicate Rejects(args: seq<string>, error: Error) {
    && (exists opts :: Offends(args, opts, error))
    && forall other :: !Spells(args, other)
  }

  lemma OffenderIsFatal(args: seq<string>, opts: seq<Opt>, error: Error)
    requires Offends(args, opts, error)
    ensures Rejects(args, error)
  {
    var rest := args[|Print(opts)|..];
    assert args == Print(opts) + rest;
    match error {
      case UnknownOption(word) => assert (Print(opts) + [word])[|Print(opts)|] == rest[0];
      case BadDuration(word) =>
        assert (Print(opts) + [LOAD, word])[|Print(opts)|..] == [LOAD, word] <= rest;
      case MissingDuration =>
    }
    BadRestIsFatal(opts, rest);
  }

  /** The options so far and one more. */
  lemma TakeOption(opts: seq<Opt>, o: Opt)
    ensures Print(opts + [o]) == Print(opts) + PrintOpt(o)
    ensures LastCommand(opts + [o]) == if o.Command? then o.word else LastCommand(opts)
    ensures LastDuration(opts + [o]) == if o.Load? then o.duration else LastDuration(opts)
  {
    PrintAppend(opts, o);
    assert (opts + [o])[..|opts|] == opts;
  }

  /** The options read so far, the one word still open, and what the variables hold. */
  ghost predicate ReadSoFar(words: seq<string>, opts: seq<Opt>, expectDuration: bool, command: string, duration: string) {
    && (forall k | 0 <= k < |opts| :: ValidOpt(opts[k]))
    && words == Print(opts) + (if expectDuration then [LOAD] else [])
    && command == LastCommand(opts) && duration == LastDuration(opts)
  }

  lemma ValidAppend(opts: seq<Opt>, o: Opt)
    requires ValidOpt(o) && forall k | 0 <= k < |opts| :: ValidOpt(opts[k])
    ensures forall k | 0 <= k < |opts + [o]| :: ValidOpt((opts + [o])[k])
  {
  }

  // What one more word does.

  lemma ReadCommand(words: seq<string>, opts: seq<Opt>, command: string, duration: string, word: string)
    requires ReadSoFar(words, opts, false, command, duration) && IsCommand(word)
    ensures ReadSoFar(words + [word], opts + [Command(word)], false, word, duration)
  {
    TakeOption(opts, Command(word));
    ValidAppend(opts, Command(word));
  }

  lemma ReadLoad(words: seq<string>, opts: seq<Opt>, command: string, duration: string)
    requires ReadSoFar(words, opts, false, command, duration)
    ensures ReadSoFar(words + [LOAD], opts, true, command, duration)
  {
  }

  lemma ReadDuration(words: seq<string>, opts: seq<Opt>, command: string, duration: string, word: string)
    requires ReadSoFar(words, opts, true, command, duration) && IsNumeral(word)
    ensures ReadSoFar(words + [word], opts + [Load(word)], false, command, word)
  {
    TakeOption(opts, Load(word));
    ValidAppend(opts, Load(word));
    assert words + [word] == Print(opts) + [LOAD, word];
  }

  lemma RefuseWord(args: seq<string>, i: nat, opts: seq<Opt>, command: string, duration: string)
    requires i < |args| && ReadSoFar(args[..i], opts, false, command, duration)
    requires !IsCommand(args[i]) && args[i] != LOAD
    ensures Rejects(args, UnknownOption(args[i]))
  {
    assert args[..i + 1] == Print(opts) + [args[i]];
    OffenderIsFatal(args, opts, UnknownOption(args[i]));
  }

  lemma RefuseDuration(args: seq<string>, i: nat, opts: seq<Opt>, command: string, duration: string)
    requires i < |args| && ReadSoFar(args[..i], opts, true, command, duration) && !IsNumeral(args[i])
    ensures Rejects(args, BadDuration(args[i]))
  {
    assert args[..i + 1] == Print(opts) + [LOAD, args[i]];
    OffenderIsFatal(args, opts, BadDuration(args[i]));
  }

  lemma RefuseEnd(args: seq<string>, opts: seq<Opt>, command: string, duration: string)
    requires ReadSoFar(args, opts, true, command, duration)
    ensures Rejects(args, MissingDuration)
  {
    OffenderIsFatal(args, opts, MissingDuration);
  }

  /** The arguments spell options, and these are their last command and duration. */
  ghost predicate Means(args: seq<string>, command: string, duration: string) {
    && (exists opts :: Spells(args, opts))
    && forall opts | Spells(args, opts) :: command == LastCommand(opts) && duration == LastDuration(opts)
  }

  lemma AcceptEnd(args: seq<string>, opts: seq<Opt>, command: string, duration: string)
    requires ReadSoFar(args, opts, false, command, duration)
    ensures Means(args, command, duration)
  {
    assert Spells(args, opts);
    forall other | Spells(args, other) ensures other == opts {
      SpellingIsUnique(args, opts, other);
    }
  }

  /**
   The parser accepts exactly the argument lists of the grammar, with the last
   command and the last duration, and otherwise dies on the first offender.
   */
  method ParseOptions(args: seq<string>) returns (r: Result)
    ensures r.Parsed? <==> exists opts :: Spells(args, opts)
    ensures forall opts | Spells(args, opts) :: r == Parsed(LastCommand(opts), LastDuration(opts))
    ensures r.Died? ==> Rejects(args, r.error)
  {
    var demoCmd, runLoadDuration := "up", "0";
    var expectDuration := false;
    ghost var opts: seq<Opt> := [];
    for i := 0 to |args|
      invariant ReadSoFar(args[..i], opts, expectDuration, demoCmd, runLoadDuration)
    {
      var opt := args[i];
      assert args[..i + 1] == args[..i] + [opt];
      if expectDuration {
        if !IsNumeral(opt) {
          RefuseDuration(args, i, opts, demoCmd, runLoadDuration);
          return Died(BadDuration(opt));
        }
        ReadDuration(args[..i], opts, demoCmd, runLoadDuration, opt);
        opts := opts + [Load(opt)];
        runLoadDuration := opt;
        expectDuration := false;
      } else if IsCommand(opt) {
        ReadCommand(args[..i], opts, demoCmd, runLoadDuration, opt);
        opts := opts + [Command(opt)];
        demoCmd := opt;
      } else if opt == LOAD {
        ReadLoad(args[..i], opts, demoCmd, runLoadDuration);
        expectDuration := true;
      } else {
        RefuseWord(args, i, opts, demoCmd, runLoadDuration);
        return Died(UnknownOption(opt));
      }
    }
    assert args[..|args|] == args;
    if expectDuration {
      RefuseEnd(args, opts, demoCmd, runLoadDuration);
      return Died(MissingDuration);
    }
    AcceptEnd(args, opts, demoCmd, runLoadDuration);
    return Parsed(demoCmd, runLoadDuration);
  }
}
