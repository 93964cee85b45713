/**
 The bidirectional call: a client that writes a message and waits for its echo,
 round after round, against the server's echo loop, over two lossless FIFO channels.
 */
module BidiEcho {
  import opened Text
  import opened Spans

  datatype Client =
    /** About to write message `round`, or, past the last round, to close its side. */
    | Writing(round: nat)
    | Reading(round: nat)
    /** Waiting in `Finish` for the status. */
    | Finishing
    | Finished(status: Status)

  datatype Server =
    | Receiving
    | Echoing(request: string)
    | Returned

  datatype Call = Call(
    client: Client,
    server: Server,
    /** Messages on their way to the server, and whether the client has closed that side. */
    up: seq<string>,
    writesDone: bool,
    /** Messages on their way to the client, and the status behind them. */
    down: seq<string>,
    status: Option<Status>,
    /** What the client's reads returned. */
    replies: seq<string>)

  datatype Side = OnClient | OnServer

  const START := Call(Writing(0), Receiving, [], false, [], None, [])

  function Message(round: nat): string {
    "Message " + Decimal(round)
  }

  function Echo(request: string): string {
    "Echo: " + request
  }

  /** Whether a side can move; a read blocks until there is a message or the end of the stream. */
  predicate Enabled(c: Call, side: Side) {
    match side
    case OnClient =>
      (match c.client
       case Writing(_) => true
       case Reading(_) => c.down != [] || c.status.Some?
       case Finishing => c.status.Some?
       case Finished(_) => false)
    case OnServer =>
      match c.server
      case Receiving => c.up != [] || c.writesDone
      case Echoing(_) => true
      case Returned => false
  }

  /** One move of one side of a call with `rounds` rounds. */
  function Step(rounds: nat, c: Call, side: Side): Call
    requires Enabled(c, side)
  {
    match side
    case OnClient =>
      (match c.client
       case Writing(i) =>
         if i < rounds then c.(client := Reading(i), up := c.up + [Message(i)])
         else c.(client := Finishing, writesDone := true)
       case Reading(i) =>
         if c.down != [] then c.(client := Writing(i + 1), down := c.down[1..], replies := c.replies + [c.down[0]])
         else c.(client := Writing(i + 1))
       case Finishing => c.(client := Finished(c.status.value))
       case Finished(_) => c)
    case OnServer =>
      match c.server
      case Receiving =>
        if c.up != [] then c.(server := Echoing(c.up[0]), up := c.up[1..])
        else c.(server := Returned, status := Some(OK))
      case Echoing(request) => c.(server := Receiving, down := c.down + [Echo(request)])
      case Returned => c
  }

  /** The call after a sequence of moves; None if one of them was not enabled. */
  function Run(rounds: nat, moves: seq<Side>): Option<Call> {
    if moves == [] then Some(START)
    else
      var before := Run(rounds, moves[..|moves| - 1]);
      var side := moves[|moves| - 1];
      if before.None? || !Enabled(before.value, side) then None
      else Some(Step(rounds, before.value, side))
  }

  // ------------------------------------------------------------------
  // What every move keeps
  // ------------------------------------------------------------------

  /** The echoes of the first `n` rounds. */
  function Echoes(n: nat): (r: seq<string>)
    ensures |r| == n
    ensures forall i | 0 <= i < n :: r[i] == Echo(Message(i))
  {
    seq(n, i requires 0 <= i < n => Echo(Message(i)))
  }

  /** How many messages are somewhere between a write and its read. */
  function InFlight(c: Call): nat {
    |c.up| + |c.down| + if c.server.Echoing? then 1 else 0
  }

  ghost predicate Inv(rounds: nat, c: Call) {
    match c.client
    case Writing(i) =>
      && i <= rounds && c.replies == Echoes(i)
      && InFlight(c) == 0 && !c.writesDone && c.server.Receiving? && c.status == None
    case Reading(i) =>
      && i < rounds && c.replies == Echoes(i)
      && InFlight(c) == 1 && !c.writesDone && !c.server.Returned? && c.status == None
      && (c.up != [] ==> c.up == [Message(i)])
      && (c.server.Echoing? ==> c.server.request == Message(i))
      && (c.down != [] ==> c.down == [Echo(Message(i))])
    case Finishing =>
      && c.replies == Echoes(rounds) && InFlight(c) == 0 && c.writesDone
      && c.status == (if c.server.Returned? then Some(OK) else None)
    case Finished(status) =>
      && c.replies == Echoes(rounds) && InFlight(c) == 0
      && c.server.Returned? && status == OK && c.status == Some(OK)
  }

  /** The number of moves left. */
  function Remaining(rounds: nat, c: Call): int {
    match c.client
    case Writing(i) => 4 * (rounds - i) + 3
    case Reading(i) => 4 * (rounds - i) + if c.up != [] then 2 else if c.server.Echoing? then 1 else 0
    case Finishing => if c.server.Returned? then 1 else 2
    case Finished(_) => 0
  }

  lemma StepKeepsInv(rounds: nat, c: Call, side: Side)
    requires Inv(rounds, c) && Enabled(c, side)
    ensures Inv(rounds, Step(rounds, c, side))
    ensures Remaining(rounds, Step(rounds, c, side)) == Remaining(rounds, c) - 1
  {
    if c.client.Reading? {
      assert Echoes(c.client.round) + [Echo(Message(c.client.round))] == Echoes(c.client.round + 1);
    }
  }

  /** In every reachable state the invariant holds, and each move has used up one of those that were left. */
  lemma {:induction false} RunKeepsInv(rounds: nat, moves: seq<Side>)
    requires Run(rounds, moves).Some?
    ensures Inv(rounds, Run(rounds, moves).value)
    ensures Remaining(rounds, Run(rounds, moves).value) + |moves| == 4 * rounds + 3
  {
    if moves != [] {
      var before := moves[..|moves| - 1];
      RunKeepsInv(rounds, before);
      StepKeepsInv(rounds, Run(rounds, before).value, moves[|moves| - 1]);
    }
  }

  // ------------------------------------------------------------------
  // Every run
  // ------------------------------------------------------------------

  /**
   In every reachable state at most one message is in flight, it is the message of
   the current round or its echo, and what the client has read so far are the
   echoes of its messages, in order and complete.
   */
  lemma AtMostOneMessageInFlight(rounds: nat, moves: seq<Side>)
    requires Run(rounds, moves).Some?
    ensures var c := Run(rounds, moves).value;
            && InFlight(c) <= 1
            && |c.replies| <= rounds
            && (forall i | 0 <= i < |c.replies| :: c.replies[i] == "Echo: Message " + Decimal(i))
            && (forall m | m in c.up :: m == "Message " + Decimal(|c.replies|))
            && (forall m | m in c.down :: m == "Echo: Message " + Decimal(|c.replies|))
  {
    RunKeepsInv(rounds, moves);
    var c := Run(rounds, moves).value;
    forall i: nat ensures Echo(Message(i)) == "Echo: Message " + Decimal(i) {
      EchoText(i);
    }
  }

  lemma EchoText(i: nat)
    ensures Message(i) == "Message " + Decimal(i)
    ensures Echo(Message(i)) == "Echo: Message " + Decimal(i)
  {
    assert "Echo: " + ("Message " + Decimal(i)) == "Echo: Message " + Decimal(i);
  }

  /**
   No reachable state is stuck, and none is a race: until the client has its
   status, exactly one of the two sides can move.
   */
  lemma ExactlyOneSideCanMove(rounds: nat, moves: seq<Side>)
    requires Run(rounds, moves).Some?
    ensures var c := Run(rounds, moves).value;
            if c.client.Finished? then !Enabled(c, OnClient) && !Enabled(c, OnServer)
            else Enabled(c, OnClient) <==> !Enabled(c, OnServer)
  {
    RunKeepsInv(rounds, moves);
  }

  /**
   Every run takes at most 4 * rounds + 3 moves, and one that cannot be extended
   takes exactly that many: both sides have then finished with OK and the client
   has read every echo.
   */
  lemma EveryCallCompletes(rounds: nat, moves: seq<Side>)
    requires Run(rounds, moves).Some?
    ensures |moves| <= 4 * rounds + 3
    ensures var c := Run(rounds, moves).value;
            !Enabled(c, OnClient) && !Enabled(c, OnServer)
            <==> |moves| == 4 * rounds + 3
    ensures var c := Run(rounds, moves).value;
            |moves| == 4 * rounds + 3 ==>
              c.client == Finished(OK) && c.server == Returned && |c.replies| == rounds
  {
    var c := Run(rounds, moves).value;
    RunKeepsInv(rounds, moves);
    ExactlyOneSideCanMove(rounds, moves);
  }

  /** The numbers in the messages tell the rounds apart. */
  lemma MessagesDiffer(i: nat, j: nat)
    requires Message(i) == Message(j)
    ensures i == j
  {
    assert Message(i)[8..] == Decimal(i) && Message(j)[8..] == Decimal(j);
    DecimalRoundTrip(i);
    DecimalRoundTrip(j);
  }
}
