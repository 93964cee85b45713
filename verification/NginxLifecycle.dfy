/**
 The nginx module in one process: the agent started in `init_process`, used in
 the LOG phase and taken down in `exit_process`, as the agent API calls they make.
 */
module NginxLifecycle {
  import opened Text
  import opened NginxStrings
  import opened NginxUpstream

  datatype Kind = Single | Master | Signaller | Worker | Helper

  /** The module's main configuration: `enable` is 1, 0 or unset. */
  datatype MainConf = MainConf(enable: int, configFile: string)

  /** The agent API calls. Agents are numbered in the order of their successful starts. */
  datatype Op =
    | OptionsNew(granted: bool)
    | SetConfigFile(path: string)
    | SetServerMetadata
    | StartAgent(started: Option<nat>)
    | GlobalAgent(agent: nat)
    | OptionsFree
    | IsEnabled(agent: nat)
    | NewSpan(agent: nat, uri: string, httpMethod: string, created: bool)
    | SetStartTime(agent: nat, ms: int)
    | SetRemoteAddress(agent: nat, address: string)
    | SetEndPoint(agent: nat, host: string)
    | SetStatus(agent: nat, status: nat)
    /** The upstream event, from its creation to its end. */
    | RecordEvent(agent: nat, event: Event)
    | EndSpan(agent: nat)
    | DestroySpan(agent: nat)
    | Shutdown(agent: nat)
    | Destroy(agent: nat)

  /** How the environment answers `init_process`: allocation, start, and the number of the new agent. */
  datatype InitAnswers = InitAnswers(granted: bool, starts: bool, number: nat)

  /** A completed request as nginx keeps it, the time it is logged at, and how the agent answers for it. */
  datatype Request = Request(
    main: bool, enabled: bool, created: bool,
    uri: string, httpMethod: string, address: string, server: string,
    errStatus: nat, sentStatus: nat,
    tries: seq<Try>,
    startSec: int, startMsec: int, nowSec: int, nowMsec: int)
  {
    function StartMs(): int {
      ToMs(startSec, startMsec)
    }

    function EndMs(): int {
      ToMs(nowSec, nowMsec)
    }

    /** Whether a span is made for it. */
    predicate Traced() {
      enabled && main && created
    }
  }

  predicate ServesRequests(kind: Kind) {
    kind == Worker || kind == Single
  }

  /** Whether `init_process` goes for the agent at all. */
  predicate Traces(kind: Kind, conf: Option<MainConf>) {
    ServesRequests(kind) && conf.Some? && conf.value.enable == 1
  }

  const CONFIG_BUFFER: nat := 1024

  // ------------------------------------------------------------------
  // What each hook does to g_agent, and the calls it makes
  // ------------------------------------------------------------------

  datatype Outcome = Outcome(agent: Option<nat>, ops: seq<Op>)

  /** The options, up to the start: a path that does not fit the buffer is passed over. */
  function ConfigOps(file: string): seq<Op> {
    [OptionsNew(true)]
    + (if 0 < |file| < CONFIG_BUFFER then [SetConfigFile(CStr(file))] else [])
    + [SetServerMetadata]
  }

  /** The path is handed over exactly if it is there and fits, and then as it is. */
  lemma ConfigFileIsHandedOver(file: string)
    ensures var ops := ConfigOps(file);
            && |ops| == (if 0 < |file| < 1024 then 3 else 2)
            && ops[0] == OptionsNew(true) && ops[|ops| - 1] == SetServerMetadata
            && (0 < |file| < 1024 ==> ops[1].SetConfigFile? && (NUL !in file ==> ops[1].path == file))
  {
  }

  function InitOutcome(kind: Kind, agent: Option<nat>, conf: Option<MainConf>, answers: InitAnswers): Outcome {
    if !Traces(kind, conf) then Outcome(agent, [])
    else if !answers.granted then Outcome(agent, [OptionsNew(false)])
    else
      var configured := ConfigOps(conf.value.configFile);
      if answers.starts then
        Outcome(Some(answers.number),
                configured + [StartAgent(Some(answers.number))] + [GlobalAgent(answers.number)] + [OptionsFree])
      else Outcome(agent, configured + [StartAgent(None)] + [OptionsFree])
  }

  /** Options that were granted are freed again, once and last, whether the start succeeds or not. */
  lemma OptionsAreFreed(kind: Kind, agent: Option<nat>, conf: Option<MainConf>, answers: InitAnswers)
    ensures var ops := InitOutcome(kind, agent, conf, answers).ops;
            if ops != [] && ops[0] == OptionsNew(true)
            then forall i | 0 <= i < |ops| :: ops[i].OptionsFree? <==> i == |ops| - 1
            else forall i | 0 <= i < |ops| :: !ops[i].OptionsFree?
  {
  }

  function ExitOutcome(agent: Option<nat>): Outcome {
    match agent
    case None => Outcome(None, [])
    case Some(a) => Outcome(None, [Shutdown(a)] + [Destroy(a)])
  }

  /** The upstream event, if nginx proxied the request. */
  function EventOps(a: nat, r: Request): seq<Op> {
    match UpstreamEvent(r.tries, r.uri, r.EndMs())
    case Some(event) => [RecordEvent(a, event)]
    case None => []
  }

  /** What the span is told, all after the fact. */
  function SpanOps(a: nat, r: Request): seq<Op> {
    [SetStartTime(a, r.StartMs())] + [SetRemoteAddress(a, Truncated(r.address, 128))]
    + (if r.server != "" then [SetEndPoint(a, Truncated(r.server, 256))] else [])
    + [SetStatus(a, if r.errStatus != 0 then r.errStatus else r.sentStatus)]
    + EventOps(a, r)
  }

  function NewSpanOp(a: nat, r: Request): Op {
    NewSpan(a, Truncated(r.uri, 1024), Truncated(r.httpMethod, 16), r.created)
  }

  function LogOutcome(agent: Option<nat>, r: Request): Outcome {
    match agent
    case None => Outcome(None, [])
    case Some(a) =>
      Outcome(agent,
        if !r.enabled || !r.main then [IsEnabled(a)]
        else if !r.created then [IsEnabled(a)] + [NewSpanOp(a, r)]
        else [IsEnabled(a)] + [NewSpanOp(a, r)] + SpanOps(a, r) + [EndSpan(a)] + [DestroySpan(a)])
  }

  predicate IsSetter(op: Op) {
    op.SetStartTime? || op.SetRemoteAddress? || op.SetEndPoint? || op.SetStatus? || op.RecordEvent?
  }

  /** Nothing but telling the span of agent `a` something. */
  ghost predicate Tell(ops: seq<Op>, a: nat) {
    forall i | 0 <= i < |ops| :: IsSetter(ops[i]) && ops[i].agent == a
  }

  lemma TellConcat(ops: seq<Op>, more: seq<Op>, a: nat)
    requires Tell(ops, a) && Tell(more, a)
    ensures Tell(ops + more, a)
  {
  }

  lemma SpanOpsTell(a: nat, r: Request)
    ensures Tell(SpanOps(a, r), a)
  {
    var first, second := [SetStartTime(a, r.StartMs())], [SetRemoteAddress(a, Truncated(r.address, 128))];
    var third := if r.server != "" then [SetEndPoint(a, Truncated(r.server, 256))] else [];
    var fourth := [SetStatus(a, if r.errStatus != 0 then r.errStatus else r.sentStatus)];
    TellConcat(first, second, a);
    TellConcat(first + second, third, a);
    TellConcat(first + second + third, fourth, a);
    TellConcat(first + second + third + fourth, EventOps(a, r), a);
  }

  lemma Enclosed<T>(x: T, y: T, inside: seq<T>, e: T, d: T)
    ensures var all := [x] + [y] + inside + [e] + [d];
            && |all| == |inside| + 4 && all[0] == x && all[1] == y && all[|all| - 2] == e && all[|all| - 1] == d
            && forall i | 2 <= i < |all| - 2 :: all[i] == inside[i - 2]
  {
  }

  /**
   A request that is the main one, with the agent enabled and a span to give, has its
   span made once, told everything while it is open, ended once and then destroyed:
   nothing is recorded on it before or after. Any other request records nothing.
   */
  lemma SpanIsToldWhileOpen(a: nat, r: Request)
    ensures var ops := LogOutcome(Some(a), r).ops;
            if r.enabled && r.main && r.created then
              && |ops| == |SpanOps(a, r)| + 4
              && ops[0] == IsEnabled(a) && ops[1].NewSpan? && ops[1].agent == a && ops[1].created
              && ops[|ops| - 2] == EndSpan(a) && ops[|ops| - 1] == DestroySpan(a)
              && forall i | 2 <= i < |ops| - 2 :: ops[i] == SpanOps(a, r)[i - 2] && IsSetter(ops[i]) && ops[i].agent == a
            else if r.enabled && r.main then |ops| == 2 && ops[0] == IsEnabled(a) && ops[1].NewSpan? && !ops[1].created
            else ops == [IsEnabled(a)]
  {
    if r.Traced() {
      SpanOpsTell(a, r);
      Enclosed(IsEnabled(a), NewSpanOp(a, r), SpanOps(a, r), EndSpan(a), DestroySpan(a));
    }
  }

  /** The new span is made for the request's path and method, as far as the buffers hold them. */
  lemma NewSpanIsForTheRequest(a: nat, r: Request)
    ensures NewSpanOp(a, r).NewSpan? && NewSpanOp(a, r).agent == a && NewSpanOp(a, r).created == r.created
    ensures IsCopy(NewSpanOp(a, r).uri, r.uri, 1024) && IsCopy(NewSpanOp(a, r).httpMethod, r.httpMethod, 16)
  {
    TruncatedIs(r.uri, 1024);
    TruncatedIs(r.httpMethod, 16);
  }

  /** What the span is told, one by one: start, peer address, host if there is one, final status. */
  lemma SpanIsToldTheRequest(a: nat, r: Request)
    ensures var told := SpanOps(a, r);
            var status := if r.server == "" then 2 else 3;
            && |told| == status + 1 + (if r.tries == [] then 0 else 1)
            && told[0] == SetStartTime(a, r.StartMs())
            && told[1].SetRemoteAddress? && IsCopy(told[1].address, r.address, 128)
            && (r.server != "" ==> told[2].SetEndPoint? && IsCopy(told[2].host, r.server, 256))
            && told[status] == SetStatus(a, if r.errStatus != 0 then r.errStatus else r.sentStatus)
  {
    TruncatedIs(r.address, 128);
    TruncatedIs(r.server, 256);
  }

  /** And the upstream event last, if there is one. */
  lemma LastToldIsTheEvent(a: nat, r: Request)
    requires r.tries != []
    ensures var told := SpanOps(a, r);
            |told| >= 3 && told[0] == SetStartTime(a, r.StartMs())
            && told[|told| - 1] == RecordEvent(a, UpstreamEvent(r.tries, r.uri, r.EndMs()).value)
  {
  }

  /**
   The times recorded are in order: the upstream event, the last thing told before
   the span ends, starts at or after the span's recorded start and not after the time of
   logging, if the tries were disjoint intervals in between.
   */
  lemma LoggedTimesAreInOrder(a: nat, r: Request, begun: seq<int>, over: seq<int>)
    requires r.Traced() && r.tries != []
    requires IsWallClock(r.startSec, r.startMsec) && IsWallClock(r.nowSec, r.nowMsec)
    requires Sequential(r.tries, begun, over, Ms(r.startSec, r.startMsec), Ms(r.nowSec, r.nowMsec))
    ensures var ops := LogOutcome(Some(a), r).ops;
            && |ops| >= 7
            && ops[2] == SetStartTime(a, Ms(r.startSec, r.startMsec))
            && ops[|ops| - 3].RecordEvent?
            && Ms(r.startSec, r.startMsec) <= ops[|ops| - 3].event.startMs <= Ms(r.nowSec, r.nowMsec)
    ensures NoOverflow(r.tries, Ms(r.nowSec, r.nowMsec))
  {
    WallClockEventInSpan(r.tries, begun, over, r.startSec, r.startMsec, r.nowSec, r.nowMsec);
    SpanIsToldWhileOpen(a, r);
    LastToldIsTheEvent(a, r);
  }

  // ------------------------------------------------------------------
  // The process
  // ------------------------------------------------------------------

  class Process {
    const kind: Kind
    var gAgent: Option<nat>
    /** The agent API calls this process has made. */
    var calls: seq<Op>

    /** A process as fork leaves it: a copy of its parent's globals. */
    constructor (kind: Kind, parentAgent: Option<nat>)
      ensures this.kind == kind && gAgent == parentAgent && calls == []
    {
      this.kind := kind;
      gAgent := parentAgent;
      calls := [];
    }

    method InitProcess(conf: Option<MainConf>, answers: InitAnswers)
      modifies this
      ensures var outcome := InitOutcome(kind, old(gAgent), conf, answers);
              gAgent == outcome.agent && calls == old(calls) + outcome.ops
    {
      if kind != Worker && kind != Single {
        return;
      }
      if conf.None? || conf.value.enable != 1 {
        return;
      }
      if !answers.granted {
        calls := calls + [OptionsNew(false)];
        return;
      }
      var made := [OptionsNew(true)];
      if 0 < |conf.value.configFile| < CONFIG_BUFFER {
        var path := StackString(conf.value.configFile, CONFIG_BUFFER);
        assert conf.value.configFile[..|conf.value.configFile|] == conf.value.configFile;
        made := made + [SetConfigFile(path)];
      }
      made := made + [SetServerMetadata];
      if answers.starts {
        gAgent := Some(answers.number);
        made := made + [StartAgent(Some(answers.number))] + [GlobalAgent(answers.number)];
      } else {
        made := made + [StartAgent(None)];
      }
      calls := calls + (made + [OptionsFree]);
    }

    method ExitProcess()
      modifies this
      ensures var outcome := ExitOutcome(old(gAgent));
              gAgent == outcome.agent && calls == old(calls) + outcome.ops
    {
      if gAgent.Some? {
        calls := calls + ([Shutdown(gAgent.value)] + [Destroy(gAgent.value)]);
        gAgent := None;
      }
    }

    /** The LOG-phase handler. */
    method LogHandler(r: Request)
      modifies this`calls
      ensures var outcome := LogOutcome(old(gAgent), r);
              gAgent == outcome.agent && calls == old(calls) + outcome.ops
    {
      if gAgent.None? {
        return;
      }
      var agent := gAgent.value;
      var made := [IsEnabled(agent)];
      if !r.enabled {
        calls := calls + made;
        return;
      }
      if !r.main {
        calls := calls + made;
        return;
      }
      var uri := StackString(r.uri, 1024);
      var httpMethod := StackString(r.httpMethod, 16);
      made := made + [NewSpan(agent, uri, httpMethod, r.created)];
      if !r.created {
        calls := calls + made;
        return;
      }
      var told := TellSpan(agent, r);
      calls := calls + (made + told + [EndSpan(agent)] + [DestroySpan(agent)]);
    }
  }

  /** What the handler tells the span, in the order it does. */
  method TellSpan(agent: nat, r: Request) returns (told: seq<Op>)
    ensures told == SpanOps(agent, r)
  {
    told := [SetStartTime(agent, ToMs(r.startSec, r.startMsec))];
    var address := StackString(r.address, 128);
    told := told + [SetRemoteAddress(agent, address)];
    if |r.server| > 0 {
      var host := StackString(r.server, 256);
      told := told + [SetEndPoint(agent, host)];
    }
    var status := if r.errStatus != 0 then r.errStatus else r.sentStatus;
    told := told + [SetStatus(agent, status)];
    var event := RecordUpstream(r.tries, r.uri, ToMs(r.nowSec, r.nowMsec));
    if event.Some? {
      told := told + [RecordEvent(agent, event.value)];
    }
  }
}
