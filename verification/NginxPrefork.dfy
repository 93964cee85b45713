/**
 nginx as a family of processes: a master that forks workers and helpers and
 makes them exit on a reload, or a single process. Fork copies the globals.
 */
module NginxPrefork {
  import opened Text
  import opened NginxLifecycle

  datatype Stage = Forked | Initialized | Exited

  datatype Proc = Proc(
    kind: Kind,
    gAgent: Option<nat>,
    stage: Stage,
    /** The configuration of the last `init_process`. */
    conf: Option<MainConf>)

  datatype Entry = Entry(pid: nat, op: Op)

  datatype Family = Family(
    procs: seq<Proc>,
    /** All agent API calls, in order. */
    log: seq<Entry>,
    /** The process that started each agent. */
    startedBy: seq<nat>)

  datatype Action =
    | Fork(pid: nat, kind: Kind)
    | Init(pid: nat, conf: Option<MainConf>, granted: bool, starts: bool)
    | Log(pid: nat, request: Request)
    | Exit(pid: nat)

  function Entries(pid: nat, ops: seq<Op>): (r: seq<Entry>)
    ensures |r| == |ops|
    ensures forall i | 0 <= i < |ops| :: r[i] == Entry(pid, ops[i])
  {
    seq(|ops|, i requires 0 <= i < |ops| => Entry(pid, ops[i]))
  }

  /** What nginx allows: only the master forks, and each process is initialized once, before it serves. */
  predicate Enabled(f: Family, a: Action) {
    && a.pid < |f.procs|
    && var p := f.procs[a.pid];
       match a
       case Fork(_, kind) => p.kind == Master && (kind == Worker || kind == Helper)
       case Init(_, _, _, _) => p.stage == Forked
       case Log(_, _) => p.stage == Initialized
       case Exit(_) => true
  }

  function ForkStep(f: Family, pid: nat, kind: Kind): Family
    requires pid < |f.procs|
  {
    f.(procs := f.procs + [Proc(kind, f.procs[pid].gAgent, Forked, None)])
  }

  function InitStep(f: Family, pid: nat, conf: Option<MainConf>, granted: bool, starts: bool): Family
    requires pid < |f.procs|
  {
    var p := f.procs[pid];
    var number := |f.startedBy|;
    var outcome := InitOutcome(p.kind, p.gAgent, conf, InitAnswers(granted, starts, number));
    Family(f.procs[pid := p.(gAgent := outcome.agent, stage := Initialized, conf := conf)],
           f.log + Entries(pid, outcome.ops),
           if Traces(p.kind, conf) && granted && starts then f.startedBy + [pid] else f.startedBy)
  }

  function Step(f: Family, a: Action): Family
    requires a.pid < |f.procs|
  {
    var p := f.procs[a.pid];
    match a
    case Fork(pid, kind) => ForkStep(f, pid, kind)
    case Init(pid, conf, granted, starts) => InitStep(f, pid, conf, granted, starts)
    case Log(pid, request) =>
      f.(log := f.log + Entries(pid, LogOutcome(p.gAgent, request).ops))
    case Exit(pid) =>
      f.(procs := f.procs[pid := p.(gAgent := ExitOutcome(p.gAgent).agent, stage := Exited)],
         log := f.log + Entries(pid, ExitOutcome(p.gAgent).ops))
  }

  // ------------------------------------------------------------------
  // The life of one agent, read off the log
  // ------------------------------------------------------------------

  datatype Life = NotStarted | Running | ShutDown | Gone | Violated

  /** The agent a call works on. */
  function AgentOf(op: Op): Option<nat> {
    match op
    case OptionsNew(_) => None
    case SetConfigFile(_) => None
    case SetServerMetadata => None
    case OptionsFree => None
    case StartAgent(started) => started
    case GlobalAgent(a) => Some(a)
    case IsEnabled(a) => Some(a)
    case NewSpan(a, _, _, _) => Some(a)
    case SetStartTime(a, _) => Some(a)
    case SetRemoteAddress(a, _) => Some(a)
    case SetEndPoint(a, _) => Some(a)
    case SetStatus(a, _) => Some(a)
    case RecordEvent(a, _) => Some(a)
    case EndSpan(a) => Some(a)
    case DestroySpan(a) => Some(a)
    case Shutdown(a) => Some(a)
    case Destroy(a) => Some(a)
  }

  /** One start, then uses, then one shutdown, then one destroy; anything else is a violation. */
  function Advance(life: Life, op: Op): Life {
    if op.StartAgent? then (if life == NotStarted then Running else Violated)
    else if op.Shutdown? then (if life == Running then ShutDown else Violated)
    else if op.Destroy? then (if life == ShutDown then Gone else Violated)
    else (if life == Running then Running else Violated)
  }

  /** One call by `pid`, seen from agent `a` started by `owner`: nobody else may use it. */
  function Touch(life: Life, e: Entry, a: nat, owner: nat): Life {
    if AgentOf(e.op) != Some(a) then life
    else if e.pid != owner then Violated
    else Advance(life, e.op)
  }

  /** The life of agent `a` after more calls. */
  function LifeAfter(life: Life, calls: seq<Entry>, a: nat, owner: nat): Life {
    if calls == [] then life
    else Touch(LifeAfter(life, calls[..|calls| - 1], a, owner), calls[|calls| - 1], a, owner)
  }

  function LifeOf(log: seq<Entry>, a: nat, owner: nat): Life {
    LifeAfter(NotStarted, log, a, owner)
  }

  lemma {:induction false} LifeAfterConcat(life: Life, before: seq<Entry>, more: seq<Entry>, a: nat, owner: nat)
    ensures LifeAfter(life, before + more, a, owner)
            == LifeAfter(LifeAfter(life, before, a, owner), more, a, owner)
  {
    if more == [] {
      assert before + more == before;
    } else {
      LifeAfterConcat(life, before, more[..|more| - 1], a, owner);
      var all := before + more;
      assert all[..|all| - 1] == before + more[..|more| - 1];
    }
  }

  lemma EntriesConcat(pid: nat, ops: seq<Op>, op: Op)
    ensures Entries(pid, ops + [op]) == Entries(pid, ops) + [Entry(pid, op)]
  {
  }

  /** One more call at the end of a process's calls. */
  lemma LifeAfterOp(life: Life, pid: nat, ops: seq<Op>, op: Op, a: nat, owner: nat)
    ensures LifeAfter(life, Entries(pid, ops + [op]), a, owner)
            == Touch(LifeAfter(life, Entries(pid, ops), a, owner), Entry(pid, op), a, owner)
  {
    EntriesConcat(pid, ops, op);
    var all := Entries(pid, ops) + [Entry(pid, op)];
    assert all[..|ops|] == Entries(pid, ops);
  }

  /** Calls that leave `a` alone do not change its life. */
  lemma {:induction false} UntouchedLife(life: Life, calls: seq<Entry>, a: nat, owner: nat)
    requires forall i | 0 <= i < |calls| :: AgentOf(calls[i].op) != Some(a)
    ensures LifeAfter(life, calls, a, owner) == life
  {
    if calls != [] {
      UntouchedLife(life, calls[..|calls| - 1], a, owner);
    }
  }

  /** Uses by its owner leave a running agent running. */
  lemma {:induction false} UsesKeepRunning(calls: seq<Entry>, a: nat, owner: nat)
    requires forall i | 0 <= i < |calls| ::
               && calls[i].pid == owner
               && !calls[i].op.StartAgent? && !calls[i].op.Shutdown? && !calls[i].op.Destroy?
    ensures LifeAfter(Running, calls, a, owner) == Running
  {
    if calls != [] {
      UsesKeepRunning(calls[..|calls| - 1], a, owner);
    }
  }

  // What each hook means for the life of an agent.

  /** A start behind calls that leave agent `a` alone takes it from nothing to running. */
  lemma LifeAfterStart(life: Life, configured: seq<Op>, pid: nat, a: nat, owner: nat)
    requires forall i | 0 <= i < |configured| :: AgentOf(configured[i]) != Some(a)
    ensures LifeAfter(life, Entries(pid, configured + [StartAgent(Some(a))] + [GlobalAgent(a)] + [OptionsFree]), a, owner)
            == if life == NotStarted && pid == owner then Running else Violated
  {
    UntouchedLife(life, Entries(pid, configured), a, owner);
    LifeAfterOp(life, pid, configured, StartAgent(Some(a)), a, owner);
    LifeAfterOp(life, pid, configured + [StartAgent(Some(a))], GlobalAgent(a), a, owner);
    LifeAfterOp(life, pid, configured + [StartAgent(Some(a))] + [GlobalAgent(a)], OptionsFree, a, owner);
  }

  /** A successful start brings the new agent, and no other, to life. */
  lemma LifeAfterInit(kind: Kind, agent: Option<nat>, conf: Option<MainConf>, answers: InitAnswers, pid: nat, life: Life, a: nat, owner: nat)
    ensures var started := Traces(kind, conf) && answers.granted && answers.starts && a == answers.number;
            LifeAfter(life, Entries(pid, InitOutcome(kind, agent, conf, answers).ops), a, owner)
            == if !started then life
               else if life == NotStarted && pid == owner then Running else Violated
  {
    if Traces(kind, conf) && answers.granted && answers.starts && a == answers.number {
      LifeAfterStart(life, ConfigOps(conf.value.configFile), pid, a, owner);
    } else {
      UntouchedLife(life, Entries(pid, InitOutcome(kind, agent, conf, answers).ops), a, owner);
    }
  }

  /** Exit takes the agent in `g_agent`, and no other, from running to gone. */
  lemma LifeAfterExit(agent: Option<nat>, pid: nat, life: Life, a: nat, owner: nat)
    ensures LifeAfter(life, Entries(pid, ExitOutcome(agent).ops), a, owner)
            == if agent != Some(a) then life
               else if life == Running && pid == owner then Gone else Violated
  {
    if agent == Some(a) {
      LifeAfterOp(life, pid, [], Shutdown(a), a, owner);
      assert [] + [Shutdown(a)] == [Shutdown(a)];
      LifeAfterOp(life, pid, [Shutdown(a)], Destroy(a), a, owner);
    } else {
      UntouchedLife(life, Entries(pid, ExitOutcome(agent).ops), a, owner);
    }
  }

  /** All calls of the LOG phase are uses of that agent. */
  lemma LogOpsAreUses(a: nat, r: Request)
    ensures forall i | 0 <= i < |LogOutcome(Some(a), r).ops| :: IsUse(LogOutcome(Some(a), r).ops[i], a)
  {
    var ops := LogOutcome(Some(a), r).ops;
    SpanIsToldWhileOpen(a, r);
    if r.Traced() {
      forall i | 2 <= i < |ops| - 2 ensures IsUse(ops[i], a) {
        SetterIsUse(ops[i], a);
      }
    }
  }

  lemma SetterIsUse(op: Op, a: nat)
    requires IsSetter(op) && op.agent == a
    ensures IsUse(op, a)
  {
  }

  predicate IsUse(op: Op, a: nat) {
    AgentOf(op) == Some(a) && !op.StartAgent? && !op.Shutdown? && !op.Destroy?
  }

  /** The LOG phase only uses the agent in `g_agent`, and only keeps it running if it runs. */
  lemma LifeAfterLog(agent: Option<nat>, r: Request, pid: nat, life: Life, a: nat, owner: nat)
    requires agent == Some(a) ==> life == Running && pid == owner
    ensures LifeAfter(life, Entries(pid, LogOutcome(agent, r).ops), a, owner) == life
  {
    var calls := Entries(pid, LogOutcome(agent, r).ops);
    if agent.Some? {
      LogOpsAreUses(agent.value, r);
    }
    if agent == Some(a) {
      UsesKeepRunning(calls, a, owner);
    } else {
      UntouchedLife(life, calls, a, owner);
    }
  }

  // ------------------------------------------------------------------
  // What every step keeps
  // ------------------------------------------------------------------

  /** The agent runs, and its handle is the `g_agent` of the process that started it; or it is gone. */
  ghost predicate AgentOk(f: Family, a: nat)
    requires a < |f.startedBy|
  {
    var pid := f.startedBy[a];
    && pid < |f.procs|
    && LifeOf(f.log, a, pid) == if f.procs[pid].gAgent == Some(a) then Running else Gone
  }

  ghost predicate ProcOk(f: Family, pid: nat)
    requires pid < |f.procs|
  {
    var p := f.procs[pid];
    && (p.stage == Forked ==> p.conf == None)
    && (p.gAgent.Some? ==>
          && p.gAgent.value < |f.startedBy| && f.startedBy[p.gAgent.value] == pid
          && p.stage == Initialized && Traces(p.kind, p.conf))
  }

  /** The call was made by a request-serving process configured to trace. */
  ghost predicate CallOk(f: Family, e: Entry) {
    e.pid < |f.procs| && Traces(f.procs[e.pid].kind, f.procs[e.pid].conf)
  }

  /** Nobody has used an agent that was not started. */
  ghost predicate NumbersOk(f: Family) {
    forall i | 0 <= i < |f.log| && AgentOf(f.log[i].op).Some? :: AgentOf(f.log[i].op).value < |f.startedBy|
  }

  ghost predicate Inv(f: Family) {
    && (forall pid | 0 <= pid < |f.procs| :: ProcOk(f, pid))
    && (forall a | 0 <= a < |f.startedBy| :: AgentOk(f, a))
    && (forall i | 0 <= i < |f.log| :: CallOk(f, f.log[i]))
    && NumbersOk(f)
  }

  lemma LogKeepsInv(f: Family, a: Action)
    requires Inv(f) && Enabled(f, a) && a.Log?
    ensures Inv(Step(f, a))
  {
    var f' := Step(f, a);
    var agent := f.procs[a.pid].gAgent;
    var calls := Entries(a.pid, LogOutcome(agent, a.request).ops);
    if agent.Some? {
      LogOpsAreUses(agent.value, a.request);
    }
    assert ProcOk(f, a.pid);
    forall x | 0 <= x < |f'.startedBy| ensures AgentOk(f', x) {
      assert AgentOk(f, x);
      var owner := f.startedBy[x];
      LifeAfterConcat(NotStarted, f.log, calls, x, owner);
      LifeAfterLog(agent, a.request, a.pid, LifeOf(f.log, x, owner), x, owner);
    }
    forall pid | 0 <= pid < |f'.procs| ensures ProcOk(f', pid) {
      assert ProcOk(f, pid);
    }
  }

  lemma ExitKeepsInv(f: Family, a: Action)
    requires Inv(f) && Enabled(f, a) && a.Exit?
    ensures Inv(Step(f, a))
  {
    var f' := Step(f, a);
    var agent := f.procs[a.pid].gAgent;
    var calls := Entries(a.pid, ExitOutcome(agent).ops);
    assert ProcOk(f, a.pid);
    forall x | 0 <= x < |f'.startedBy| ensures AgentOk(f', x) {
      assert AgentOk(f, x);
      var owner := f.startedBy[x];
      LifeAfterConcat(NotStarted, f.log, calls, x, owner);
      LifeAfterExit(agent, a.pid, LifeOf(f.log, x, owner), x, owner);
    }
    forall pid | 0 <= pid < |f'.procs| ensures ProcOk(f', pid) {
      assert ProcOk(f, pid);
    }
  }

  lemma InitLives(f: Family, a: Action, x: nat)
    requires Inv(f) && a.pid < |f.procs| && a.Init? && f.procs[a.pid].gAgent.None?
    requires x < |Step(f, a).startedBy|
    ensures AgentOk(Step(f, a), x)
  {
    var f' := Step(f, a);
    var p := f.procs[a.pid];
    var answers := InitAnswers(a.granted, a.starts, |f.startedBy|);
    var owner := f'.startedBy[x];
    var calls := Entries(a.pid, InitOutcome(p.kind, p.gAgent, a.conf, answers).ops);
    LifeAfterConcat(NotStarted, f.log, calls, x, owner);
    LifeAfterInit(p.kind, p.gAgent, a.conf, answers, a.pid, LifeOf(f.log, x, owner), x, owner);
    if x < |f.startedBy| {
      assert AgentOk(f, x);
      assert ProcOk(f, owner);
    } else {
      UntouchedLife(NotStarted, f.log, x, owner);
    }
  }

  lemma InitKeepsInv(f: Family, a: Action)
    requires Inv(f) && a.pid < |f.procs| && a.Init? && f.procs[a.pid].gAgent.None?
    requires f.procs[a.pid].stage == Forked
    ensures Inv(Step(f, a))
  {
    var f' := Step(f, a);
    assert ProcOk(f, a.pid);
    forall x | 0 <= x < |f'.startedBy| ensures AgentOk(f', x) {
      InitLives(f, a, x);
    }
    forall pid | 0 <= pid < |f'.procs| ensures ProcOk(f', pid) {
      assert ProcOk(f, pid);
    }
    forall i | 0 <= i < |f'.log| ensures CallOk(f', f'.log[i]) {
      if i < |f.log| {
        assert CallOk(f, f.log[i]);
      }
    }
  }

  lemma ForkKeepsInv(f: Family, pid: nat, kind: Kind)
    requires Inv(f) && pid < |f.procs| && f.procs[pid].gAgent.None?
    ensures Inv(ForkStep(f, pid, kind))
  {
    var f' := ForkStep(f, pid, kind);
    forall x | 0 <= x < |f'.startedBy| ensures AgentOk(f', x) {
      assert AgentOk(f, x);
    }
    forall q | 0 <= q < |f'.procs| ensures ProcOk(f', q) {
      if q < |f.procs| {
        assert ProcOk(f, q);
      }
    }
    forall i | 0 <= i < |f'.log| ensures CallOk(f', f'.log[i]) {
      assert CallOk(f, f.log[i]);
    }
  }

  lemma StepKeepsInv(f: Family, a: Action)
    requires Inv(f) && Enabled(f, a)
    ensures Inv(Step(f, a))
  {
    assert ProcOk(f, a.pid);
    match a
    case Fork(pid, kind) => ForkKeepsInv(f, pid, kind);
    case Init(_, _, _, _) => InitKeepsInv(f, a);
    case Log(_, _) => LogKeepsInv(f, a);
    case Exit(_) => ExitKeepsInv(f, a);
  }

  // ------------------------------------------------------------------
  // Every run
  // ------------------------------------------------------------------

  /** The family after a sequence of actions, begun as a single process or as a master. */
  function Run(kind: Kind, actions: seq<Action>): (r: Option<Family>)
    requires kind == Single || kind == Master
    ensures r.Some? ==> Inv(r.value)
  {
    if actions == [] then Some(Family([Proc(kind, None, Forked, None)], [], []))
    else
      var before := Run(kind, actions[..|actions| - 1]);
      var a := actions[|actions| - 1];
      if before.None? || !Enabled(before.value, a) then None
      else
        StepKeepsInv(before.value, a);
        Some(Step(before.value, a))
  }

  /** The one call in a sequence that starts agent `a`. */
  predicate StartsOnce(ops: seq<Op>, a: nat, at: nat) {
    forall i | 0 <= i < |ops| :: ops[i] == StartAgent(Some(a)) <==> i == at
  }

  /** The calls of a successful initialization start the agent once, and configure it before. */
  lemma InitStartsOnce(configured: seq<Op>, a: nat)
    requires forall i | 0 <= i < |configured| :: !configured[i].StartAgent?
    ensures StartsOnce(configured + [StartAgent(Some(a))] + [GlobalAgent(a)] + [OptionsFree], a, |configured|)
  {
  }

  /** What an initialization leaves in the process it runs in, and in the list of agents. */
  predicate Initializes(f: Family, f': Family, pid: nat, started: bool)
    requires pid < |f.procs|
  {
    && |f'.procs| == |f.procs| && f.log <= f'.log
    && (forall i | |f.log| <= i < |f'.log| :: f'.log[i].pid == pid)
    && f'.procs[pid].gAgent == (if started then Some(|f.startedBy|) else f.procs[pid].gAgent)
    && f'.startedBy == (if started then f.startedBy + [pid] else f.startedBy)
  }

  /** Agent `a` is started by call `k` of the log, and by no other. */
  predicate IsTheStart(log: seq<Entry>, a: nat, k: nat) {
    forall i | 0 <= i < |log| :: log[i].op == StartAgent(Some(a)) <==> i == k
  }

  /**
   A worker or single process with `enable` set to 1 goes for the agent; if that
   succeeds, it keeps the new agent, which one call has started. No other process
   makes a call.
   */
  ghost predicate StartsIfTracing(f: Family, f': Family, pid: nat, conf: Option<MainConf>, granted: bool, starts: bool)
    requires pid < |f.procs|
  {
    var tracing := (f.procs[pid].kind == Worker || f.procs[pid].kind == Single) && conf.Some? && conf.value.enable == 1;
    && Initializes(f, f', pid, tracing && granted && starts)
    && (!tracing <==> f'.log == f.log)
    && (tracing && granted && starts ==> exists k: nat :: |f.log| <= k < |f'.log| && IsTheStart(f'.log, |f.startedBy|, k))
  }

  lemma InitIsAllThat(f: Family, pid: nat, conf: Option<MainConf>, granted: bool, starts: bool)
    requires Inv(f) && pid < |f.procs|
    ensures StartsIfTracing(f, InitStep(f, pid, conf, granted, starts), pid, conf, granted, starts)
  {
    var p := f.procs[pid];
    var a := |f.startedBy|;
    var f' := InitStep(f, pid, conf, granted, starts);
    if Traces(p.kind, conf) && granted && starts {
      var configured := ConfigOps(conf.value.configFile);
      InitStartsOnce(configured, a);
      var k := |f.log| + |configured|;
      forall i | 0 <= i < |f'.log| ensures f'.log[i].op == StartAgent(Some(a)) <==> i == k {
        if i < |f.log| {
          assert AgentOf(f.log[i].op) != Some(a);
        }
      }
      assert IsTheStart(f'.log, a, k);
    }
  }

  lemma RunAppend(kind: Kind, actions: seq<Action>, a: Action)
    requires kind == Single || kind == Master
    requires Run(kind, actions).Some? && Enabled(Run(kind, actions).value, a)
    ensures Run(kind, actions + [a]) == Some(Step(Run(kind, actions).value, a))
  {
    assert (actions + [a])[..|actions|] == actions;
  }

  /** In every run, initializing a process does just that, and it had no agent before. */
  lemma TracingProcessStartsItsAgent(kind: Kind, actions: seq<Action>, pid: nat, conf: Option<MainConf>, granted: bool, starts: bool)
    requires kind == Single || kind == Master
    requires Run(kind, actions).Some? && Enabled(Run(kind, actions).value, Init(pid, conf, granted, starts))
    ensures Run(kind, actions + [Init(pid, conf, granted, starts)])
            == Some(Step(Run(kind, actions).value, Init(pid, conf, granted, starts)))
    ensures var f := Run(kind, actions).value;
            && f.procs[pid].gAgent == None
            && StartsIfTracing(f, Step(f, Init(pid, conf, granted, starts)), pid, conf, granted, starts)
  {
    RunAppend(kind, actions, Init(pid, conf, granted, starts));
    FreshProcessStartsItsAgent(Run(kind, actions).value, pid, conf, granted, starts);
  }

  lemma FreshProcessStartsItsAgent(f: Family, pid: nat, conf: Option<MainConf>, granted: bool, starts: bool)
    requires Inv(f) && Enabled(f, Init(pid, conf, granted, starts))
    ensures f.procs[pid].gAgent == None
    ensures StartsIfTracing(f, Step(f, Init(pid, conf, granted, starts)), pid, conf, granted, starts)
  {
    assert ProcOk(f, pid);
    InitIsAllThat(f, pid, conf, granted, starts);
  }

  /** In every run, only processes that serve requests and are configured to trace call the agent. */
  lemma OnlyTracingProcessesCallTheAgent(kind: Kind, actions: seq<Action>, i: nat)
    requires kind == Single || kind == Master
    requires Run(kind, actions).Some? && i < |Run(kind, actions).value.log|
    ensures var f := Run(kind, actions).value;
            var pid := f.log[i].pid;
            && pid < |f.procs|
            && (f.procs[pid].kind == Worker || f.procs[pid].kind == Single)
            && f.procs[pid].conf.Some? && f.procs[pid].conf.value.enable == 1
  {
    var f := Run(kind, actions).value;
    assert CallOk(f, f.log[i]);
  }

  /**
   In every run, `g_agent` is set in a process exactly while an agent that this
   very process started is running.
   */
  lemma HandleIsSetWhileOwnAgentRuns(kind: Kind, actions: seq<Action>, pid: nat, a: nat)
    requires kind == Single || kind == Master
    requires Run(kind, actions).Some?
    requires var f := Run(kind, actions).value; pid < |f.procs| && a < |f.startedBy|
    ensures var f := Run(kind, actions).value;
            f.procs[pid].gAgent == Some(a) <==> f.startedBy[a] == pid && LifeOf(f.log, a, pid) == Running
  {
    var f := Run(kind, actions).value;
    assert ProcOk(f, pid) && AgentOk(f, a);
  }

  /** What a life without violation means, call by call. */
  lemma {:induction false} LifeMeansOrder(log: seq<Entry>, a: nat, owner: nat, i: nat)
    requires LifeOf(log, a, owner) != Violated
    requires i < |log| && AgentOf(log[i].op) == Some(a)
    ensures log[i].pid == owner && Timely(log, i, a, owner)
  {
    var front := log[..|log| - 1];
    if i < |front| {
      LifeMeansOrder(front, a, owner, i);
      assert front[..i] == log[..i];
    }
  }

  /** Call `i` comes when it may: a start first of all, a destroy after the shutdown, all else in between. */
  predicate Timely(log: seq<Entry>, i: nat, a: nat, owner: nat)
    requires i < |log|
  {
    var before := LifeOf(log[..i], a, owner);
    if log[i].op.StartAgent? then before == NotStarted
    else if log[i].op.Destroy? then before == ShutDown
    else before == Running
  }

  /**
   In every run, each call on an agent is made by the process that started it,
   and in its window: nothing before the start, no use and no second shutdown
   after the shutdown, and one destroy behind it.
   */
  lemma EveryCallIsInItsWindow(kind: Kind, actions: seq<Action>, i: nat)
    requires kind == Single || kind == Master
    requires Run(kind, actions).Some? && i < |Run(kind, actions).value.log|
    requires AgentOf(Run(kind, actions).value.log[i].op).Some?
    ensures var f := Run(kind, actions).value;
            var a := AgentOf(f.log[i].op).value;
            && a < |f.startedBy|
            && f.log[i].pid == f.startedBy[a]
            && Timely(f.log, i, a, f.startedBy[a])
  {
    var f := Run(kind, actions).value;
    var a := AgentOf(f.log[i].op).value;
    assert AgentOk(f, a);
    LifeMeansOrder(f.log, a, f.startedBy[a], i);
  }

  /** What has happened to an agent, the log remembers. */
  lemma {:induction false} LifeRemembers(log: seq<Entry>, a: nat, owner: nat, i: nat)
    requires LifeOf(log, a, owner) != Violated && i < |log| && AgentOf(log[i].op) == Some(a)
    ensures LifeOf(log, a, owner) != NotStarted
    ensures log[i].op.Shutdown? ==> LifeOf(log, a, owner) == ShutDown || LifeOf(log, a, owner) == Gone
    ensures log[i].op.Destroy? ==> LifeOf(log, a, owner) == Gone
  {
    var front := log[..|log| - 1];
    if i < |front| {
      LifeRemembers(front, a, owner, i);
    }
  }

  /** What a life says about the log: a start for each that was begun, a shutdown and a destroy for each that is over. */
  lemma {:induction false} LifeSays(log: seq<Entry>, a: nat, owner: nat)
    ensures LifeOf(log, a, owner) == Running || LifeOf(log, a, owner) == ShutDown || LifeOf(log, a, owner) == Gone
            ==> Entry(owner, StartAgent(Some(a))) in log
    ensures LifeOf(log, a, owner) == ShutDown || LifeOf(log, a, owner) == Gone ==> Entry(owner, Shutdown(a)) in log
    ensures LifeOf(log, a, owner) == Gone ==> Entry(owner, Destroy(a)) in log
  {
    if log != [] {
      var front, last := log[..|log| - 1], log[|log| - 1];
      LifeSays(front, a, owner);
      assert log == front + [last];
      assert last in log;
      assert last.op.StartAgent? && AgentOf(last.op) == Some(a) ==> last.op == StartAgent(Some(a));
    }
  }

  /**
   In every run, of two calls on an agent, made by the process that started it, the
   later one is no start; behind a shutdown it is the destroy; and nothing is behind a destroy.
   */
  lemma AgentCallsAreInOrder(kind: Kind, actions: seq<Action>, a: nat, i: nat, j: nat)
    requires kind == Single || kind == Master
    requires Run(kind, actions).Some? && i < j < |Run(kind, actions).value.log|
    requires AgentOf(Run(kind, actions).value.log[i].op) == Some(a) == AgentOf(Run(kind, actions).value.log[j].op)
    ensures var log := Run(kind, actions).value.log;
            && log[i].pid == log[j].pid
            && !log[j].op.StartAgent?
            && (log[i].op.Shutdown? ==> log[j].op.Destroy?)
            && !log[i].op.Destroy?
  {
    var f := Run(kind, actions).value;
    EveryCallIsInItsWindow(kind, actions, i);
    EveryCallIsInItsWindow(kind, actions, j);
    LifeRemembers(f.log[..j], a, f.startedBy[a], i);
  }

  /**
   In every run, an agent that has been started was started by a call of its process;
   while `g_agent` holds it, neither shutdown nor destroy has been called; and once its
   process has exited, both have.
   */
  lemma StartedAgentsAreTakenDown(kind: Kind, actions: seq<Action>, a: nat)
    requires kind == Single || kind == Master
    requires Run(kind, actions).Some? && a < |Run(kind, actions).value.startedBy|
    ensures var f := Run(kind, actions).value;
            var pid := f.startedBy[a];
            && pid < |f.procs|
            && Entry(pid, StartAgent(Some(a))) in f.log
            && (f.procs[pid].gAgent == Some(a) ==> forall i | 0 <= i < |f.log| ::
                  f.log[i].op != Shutdown(a) && f.log[i].op != Destroy(a))
            && (f.procs[pid].stage == Exited ==> Entry(pid, Shutdown(a)) in f.log && Entry(pid, Destroy(a)) in f.log)
  {
    var f := Run(kind, actions).value;
    var pid := f.startedBy[a];
    EachAgentIsTakenDown(kind, actions, a);
    HandleIsSetWhileOwnAgentRuns(kind, actions, pid, a);
    LifeSays(f.log, a, pid);
    if f.procs[pid].gAgent == Some(a) {
      RunningIsUp(f.log, a, pid);
    }
  }

  lemma RunningIsUp(log: seq<Entry>, a: nat, owner: nat)
    requires LifeOf(log, a, owner) == Running
    ensures forall i | 0 <= i < |log| :: log[i].op != Shutdown(a) && log[i].op != Destroy(a)
  {
    forall i | 0 <= i < |log| ensures log[i].op != Shutdown(a) && log[i].op != Destroy(a) {
      if AgentOf(log[i].op) == Some(a) {
        LifeRemembers(log, a, owner, i);
      }
    }
  }

  /** In every run, an agent whose process has let go of it is shut down and destroyed. */
  lemma EachAgentIsTakenDown(kind: Kind, actions: seq<Action>, a: nat)
    requires kind == Single || kind == Master
    requires Run(kind, actions).Some? && a < |Run(kind, actions).value.startedBy|
    ensures var f := Run(kind, actions).value;
            var pid := f.startedBy[a];
            && pid < |f.procs|
            && (f.procs[pid].stage == Exited ==> LifeOf(f.log, a, pid) == Gone)
            && (LifeOf(f.log, a, pid) == Running || LifeOf(f.log, a, pid) == Gone)
  {
    var f := Run(kind, actions).value;
    assert AgentOk(f, a) && ProcOk(f, f.startedBy[a]);
  }

  // ------------------------------------------------------------------
  // What nginx has to guarantee
  // ------------------------------------------------------------------

  /**
   Forking is harmless exactly when the parent has no agent. This is why only
   the master may fork: a traced process would hand its handle to the child.
   */
  lemma ForkIsSafeIffParentHasNoAgent(f: Family, pid: nat, kind: Kind)
    requires Inv(f) && pid < |f.procs|
    ensures Inv(ForkStep(f, pid, kind)) <==> f.procs[pid].gAgent.None?
  {
    if f.procs[pid].gAgent.None? {
      ForkKeepsInv(f, pid, kind);
    } else {
      var f' := ForkStep(f, pid, kind);
      assert ProcOk(f, pid);
      assert !ProcOk(f', |f.procs|);
    }
  }

  /** The agent of a process that forked anyway is shut down twice once both processes exit. */
  lemma ForkedHandleIsTakenDownTwice(f: Family, pid: nat, kind: Kind)
    requires Inv(f) && pid < |f.procs| && f.procs[pid].gAgent.Some?
    ensures var a := f.procs[pid].gAgent.value;
            var child := |f.procs|;
            var f' := Step(Step(ForkStep(f, pid, kind), Exit(pid)), Exit(child));
            && LifeOf(f'.log, a, pid) == Violated
            && |f'.log| == |f.log| + 4
            && f'.log[|f.log|] == Entry(pid, Shutdown(a)) && f'.log[|f.log| + 2] == Entry(child, Shutdown(a))
  {
    var a := f.procs[pid].gAgent.value;
    assert ProcOk(f, pid) && AgentOk(f, a);
    var child := |f.procs|;
    var forked := ForkStep(f, pid, kind);
    var once := Step(forked, Exit(pid));
    var calls := ExitOutcome(Some(a)).ops;
    LifeAfterConcat(NotStarted, f.log, Entries(pid, calls), a, pid);
    LifeAfterExit(Some(a), pid, LifeOf(f.log, a, pid), a, pid);
    LifeAfterConcat(NotStarted, once.log, Entries(child, calls), a, pid);
    LifeAfterExit(Some(a), child, LifeOf(once.log, a, pid), a, pid);
  }

  /** All agents accounted for: running under their handle, or gone. */
  ghost predicate AllAgentsOk(f: Family) {
    forall a | 0 <= a < |f.startedBy| :: AgentOk(f, a)
  }

  /**
   Initializing a process that already has an agent loses track of that agent
   exactly when another one is started: its handle is overwritten, and it is
   never shut down.
   */
  lemma ReinitIsSafeIffNoSecondStart(f: Family, a: Action)
    requires Inv(f) && a.Init? && a.pid < |f.procs| && f.procs[a.pid].gAgent.Some?
    ensures AllAgentsOk(Step(f, a))
            <==> !(Traces(f.procs[a.pid].kind, a.conf) && a.granted && a.starts)
  {
    var f' := Step(f, a);
    var p := f.procs[a.pid];
    var answers := InitAnswers(a.granted, a.starts, |f.startedBy|);
    var calls := Entries(a.pid, InitOutcome(p.kind, p.gAgent, a.conf, answers).ops);
    assert ProcOk(f, a.pid);
    forall x | 0 <= x < |f.startedBy|
      ensures LifeOf(f'.log, x, f.startedBy[x]) == LifeOf(f.log, x, f.startedBy[x])
    {
      LifeAfterConcat(NotStarted, f.log, calls, x, f.startedBy[x]);
      LifeAfterInit(p.kind, p.gAgent, a.conf, answers, a.pid, LifeOf(f.log, x, f.startedBy[x]), x, f.startedBy[x]);
    }
    if Traces(p.kind, a.conf) && a.granted && a.starts {
      assert AgentOk(f, p.gAgent.value);
      assert !AgentOk(f', p.gAgent.value);
    } else {
      forall x | 0 <= x < |f'.startedBy| ensures AgentOk(f', x) {
        assert AgentOk(f, x);
      }
    }
  }
}
