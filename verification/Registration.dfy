/**
 Waiting for an agent to register: `start_demo` removes the agent log and starts
 a process, processes open the log by its path and append to what they opened,
 and `wait_agent_ready` counts registrations in whatever the path names.
 */
module Registration {
  import opened Text

  /** One line of an agent log: who wrote it, how many starts there had been, and whether it is a registration. */
  datatype Line = Line(run: nat, after: nat, registration: bool)

  /** A file, once it exists; removing its path leaves it to those who have it open. */
  datatype File = File(name: string, lines: seq<Line>)

  /** A process of demo `name`, from start number `run`; `forks` if it keeps forking children with agents of their own (nginx's master). */
  datatype Proc = Proc(name: string, run: nat, forks: bool, log: Option<nat>, alive: bool)

  datatype System = System(
    files: seq<File>,
    /** The file that each agent log path names. */
    path: map<string, nat>,
    procs: seq<Proc>,
    starts: nat,
    /** The latest start of each demo. */
    latest: map<string, nat>)

  datatype Action =
    | StartDemo(name: string, forks: bool)
    | Spawn(pid: nat)
    | OpenLog(pid: nat)
    | Append(pid: nat, registration: bool)
    | Die(pid: nat)

  const EMPTY := System([], map[], [], 0, map[])

  predicate Enabled(s: System, a: Action) {
    !a.StartDemo? ==>
      && a.pid < |s.procs| && s.procs[a.pid].alive
      && (a.Spawn? ==> s.procs[a.pid].forks)
      && (a.OpenLog? ==> s.procs[a.pid].log.None?)
      && (a.Append? ==> s.procs[a.pid].log.Some? && s.procs[a.pid].log.value < |s.files|)
  }

  function Step(s: System, a: Action): System
    requires Enabled(s, a)
  {
    match a
    case StartDemo(name, forks) =>
      s.(path := s.path - {name},
         procs := s.procs + [Proc(name, s.starts, forks, None, true)],
         starts := s.starts + 1,
         latest := s.latest[name := s.starts])
    case Spawn(pid) => s.(procs := s.procs + [s.procs[pid].(log := None, forks := false)])
    case OpenLog(pid) =>
      var p := s.procs[pid];
      if p.name in s.path then s.(procs := s.procs[pid := p.(log := Some(s.path[p.name]))])
      else s.(files := s.files + [File(p.name, [])],
              path := s.path[p.name := |s.files|],
              procs := s.procs[pid := p.(log := Some(|s.files|))])
    case Append(pid, registration) =>
      var p := s.procs[pid];
      var f := s.files[p.log.value];
      s.(files := s.files[p.log.value := f.(lines := f.lines + [Line(p.run, s.starts, registration)])])
    case Die(pid) => s.(procs := s.procs[pid := s.procs[pid].(alive := false)])
  }

  // ------------------------------------------------------------------
  // What the log at a path holds
  // ------------------------------------------------------------------

  function LogAt(s: System, name: string): seq<Line> {
    if name in s.path && s.path[name] < |s.files| then s.files[s.path[name]].lines else []
  }

  function Count(lines: seq<Line>): nat {
    if lines == [] then 0
    else Count(lines[..|lines| - 1]) + if lines[|lines| - 1].registration then 1 else 0
  }

  /** Exactly the lines that are registrations are counted. */
  lemma {:induction false} CountIs(lines: seq<Line>)
    ensures Count(lines) == |set i | 0 <= i < |lines| && lines[i].registration|
  {
    if lines != [] {
      var n := |lines| - 1;
      CountIs(lines[..n]);
      var before := set i | 0 <= i < n && lines[..n][i].registration;
      var all := set i | 0 <= i < |lines| && lines[i].registration;
      assert all == before + if lines[n].registration then {n} else {};
    }
  }

  /** The registrations of one run among them. */
  function CountOf(lines: seq<Line>, run: nat): nat {
    if lines == [] then 0
    else
      var last := lines[|lines| - 1];
      CountOf(lines[..|lines| - 1], run) + if last.registration && last.run == run then 1 else 0
  }

  /** What grep -c finds; a missing file counts as zero. */
  function Found(s: System, name: string): nat {
    Count(LogAt(s, name))
  }

  ghost predicate ProcOk(s: System, p: Proc) {
    && p.name in s.latest && p.run <= s.latest[p.name]
    && (p.log.Some? ==> p.log.value < |s.files| && s.files[p.log.value].name == p.name)
  }

  ghost predicate Inv(s: System) {
    && (forall name | name in s.latest :: s.latest[name] < s.starts)
    && (forall name | name in s.path :: s.path[name] < |s.files| && s.files[s.path[name]].name == name)
    && (forall i | 0 <= i < |s.procs| :: ProcOk(s, s.procs[i]))
    && (forall name, i | name in s.latest && 0 <= i < |LogAt(s, name)| ::
          s.latest[name] < LogAt(s, name)[i].after)
  }

  lemma StepKeepsInv(s: System, a: Action)
    requires Inv(s) && Enabled(s, a)
    ensures Inv(Step(s, a))
  {
    var s' := Step(s, a);
    forall i | 0 <= i < |s'.procs| ensures ProcOk(s', s'.procs[i]) {
      if i < |s.procs| {
        assert ProcOk(s, s.procs[i]);
      } else if a.Spawn? {
        assert ProcOk(s, s.procs[a.pid]);
      }
    }
    if !a.StartDemo? {
      assert ProcOk(s, s.procs[a.pid]);
    }
    forall name, i | name in s'.latest && 0 <= i < |LogAt(s', name)|
      ensures s'.latest[name] < LogAt(s', name)[i].after
    {
      if i < |LogAt(s, name)| && LogAt(s', name)[i] == LogAt(s, name)[i] {
        assert name in s.latest;
      }
    }
  }

  /** The system after more actions; None if one of them was not enabled. */
  function Run(s: System, actions: seq<Action>): (r: Option<System>)
    requires Inv(s)
    ensures r.Some? ==> Inv(r.value)
  {
    if actions == [] then Some(s)
    else
      var before := Run(s, actions[..|actions| - 1]);
      var a := actions[|actions| - 1];
      if before.None? || !Enabled(before.value, a) then None
      else
        StepKeepsInv(before.value, a);
        Some(Step(before.value, a))
  }

  /**
   In any history of starts and restarts, everything at a demo's log path was
   written after its latest start: removing the log before the start is enough for that.
   */
  lemma LogIsNewerThanLatestStart(actions: seq<Action>, name: string, i: nat)
    requires Run(EMPTY, actions).Some?
    requires var s := Run(EMPTY, actions).value; name in s.latest && i < |LogAt(s, name)|
    ensures var s := Run(EMPTY, actions).value;
            s.latest[name] < LogAt(s, name)[i].after
  {
  }

  // ------------------------------------------------------------------
  // Whose registrations they are
  // ------------------------------------------------------------------

  /** Everything at the demo's log path was written by its latest run. */
  ghost predicate OwnRunOnly(s: System, name: string) {
    name in s.latest && forall i | 0 <= i < |LogAt(s, name)| :: LogAt(s, name)[i].run == s.latest[name]
  }

  /** A live process of an earlier run that may yet open the log path, itself or through a child. */
  predicate Intrudes(p: Proc, name: string, latest: nat) {
    p.name == name && p.alive && p.run != latest && (p.log.None? || p.forks)
  }

  /** Earlier runs are out of the way: none can open the log path any more, and none has the current log open. */
  ghost predicate Settled(s: System, name: string) {
    && OwnRunOnly(s, name)
    && forall i | 0 <= i < |s.procs| && s.procs[i].name == name && s.procs[i].run != s.latest[name] ::
         && !Intrudes(s.procs[i], name, s.latest[name])
         && (name in s.path ==> s.procs[i].log != Some(s.path[name]))
  }

  lemma StepKeepsSettled(s: System, a: Action, name: string)
    requires Inv(s) && Enabled(s, a) && Settled(s, name)
    requires a.StartDemo? ==> a.name != name
    ensures Settled(Step(s, a), name)
  {
    var s' := Step(s, a);
    if !a.StartDemo? {
      assert ProcOk(s, s.procs[a.pid]);
    }
    forall i | 0 <= i < |s'.procs| && s'.procs[i].name == name && s'.procs[i].run != s'.latest[name]
      ensures !Intrudes(s'.procs[i], name, s'.latest[name])
      ensures name in s'.path ==> s'.procs[i].log != Some(s'.path[name])
    {
      if i < |s.procs| {
        assert ProcOk(s, s.procs[i]);
      }
    }
    if a.Append? && name in s.path && s.procs[a.pid].log == Some(s.path[name]) {
      var p := s.procs[a.pid];
      assert p.run == s.latest[name];
      assert LogAt(s', name) == LogAt(s, name) + [Line(p.run, s.starts, a.registration)];
    } else {
      assert LogAt(s', name) == LogAt(s, name);
    }
  }

  /** What the driver can check before it starts a demo: no live process of it forks or has yet to open its log. */
  predicate QuietBeforeStart(s: System, name: string) {
    forall i | 0 <= i < |s.procs| ::
      s.procs[i].name == name && s.procs[i].alive ==> s.procs[i].log.Some? && !s.procs[i].forks
  }

  /** No more starts of this demo among the actions. */
  predicate NoRestart(actions: seq<Action>, name: string) {
    forall i | 0 <= i < |actions| :: actions[i].StartDemo? ==> actions[i].name != name
  }

  lemma {:induction false} RunKeepsSettled(s: System, actions: seq<Action>, name: string)
    requires Inv(s) && Settled(s, name) && NoRestart(actions, name) && Run(s, actions).Some?
    ensures Settled(Run(s, actions).value, name)
  {
    if actions != [] {
      RunKeepsSettled(s, actions[..|actions| - 1], name);
      StepKeepsSettled(Run(s, actions[..|actions| - 1]).value, actions[|actions| - 1], name);
    }
  }

  lemma StartSettles(s: System, name: string, forks: bool)
    requires Inv(s) && QuietBeforeStart(s, name)
    ensures Settled(Step(s, StartDemo(name, forks)), name)
  {
    forall i | 0 <= i < |s.procs| ensures s.procs[i].name == name ==> s.procs[i].run != s.starts {
      assert ProcOk(s, s.procs[i]);
    }
  }

  lemma {:induction false} RunConcat(s: System, a: seq<Action>, b: seq<Action>)
    requires Inv(s) && Run(s, a).Some?
    ensures Run(s, a + b) == Run(Run(s, a).value, b)
  {
    if b == [] {
      assert a + b == a;
    } else {
      RunConcat(s, a, b[..|b| - 1]);
      assert (a + b)[..|a + b| - 1] == a + b[..|b| - 1];
    }
  }

  lemma RunOne(s: System, a: Action)
    requires Inv(s) && Enabled(s, a)
    ensures Inv(Step(s, a)) && Run(s, [a]) == Some(Step(s, a))
  {
    StepKeepsInv(s, a);
    assert [a][..0] == [];
    assert Run(s, []) == Some(s);
  }

  lemma CountOne(line: Line, run: nat)
    ensures Count([line]) == if line.registration then 1 else 0
    ensures CountOf([line], run) == if line.registration && line.run == run then 1 else 0
  {
    assert [line][..0] == [];
  }

  /** A process of an earlier run that opens the path after all registers in the new run's log. */
  lemma OpenerIsCounted(s: System, name: string, pid: nat)
    requires Inv(s) && name in s.latest && name !in s.path && pid < |s.procs|
    requires var p := s.procs[pid];
             p.name == name && p.alive && p.log.None? && p.run != s.latest[name]
    ensures var end := Run(s, [OpenLog(pid)] + [Append(pid, true)]);
            && end.Some? && Found(end.value, name) == 1 && !OwnRunOnly(end.value, name)
            && end.value.latest == s.latest && CountOf(LogAt(end.value, name), s.latest[name]) == 0
  {
    RunOne(s, OpenLog(pid));
    var open := Step(s, OpenLog(pid));
    RunOne(open, Append(pid, true));
    RunConcat(s, [OpenLog(pid)], [Append(pid, true)]);
    var end := Step(open, Append(pid, true));
    var line := Line(s.procs[pid].run, open.starts, true);
    assert LogAt(open, name) == [] && [] + [line] == [line];
    assert LogAt(end, name) == [line];
    CountOne(line, s.latest[name]);
    assert LogAt(end, name)[0].run != end.latest[name];
  }

  /** A process that was not out of the way at the start, or a child of it, can still do so. */
  lemma LateOpenerIsCounted(s: System, name: string, forks: bool, pid: nat) returns (actions: seq<Action>)
    requires Inv(s) && pid < |s.procs| && s.procs[pid].name == name && s.procs[pid].alive
    requires s.procs[pid].log.None? || s.procs[pid].forks
    ensures var started := Step(s, StartDemo(name, forks));
            && Inv(started) && NoRestart(actions, name)
            && Run(started, actions).Some?
            && Found(Run(started, actions).value, name) == 1
            && !OwnRunOnly(Run(started, actions).value, name)
  {
    StepKeepsInv(s, StartDemo(name, forks));
    assert ProcOk(s, s.procs[pid]);
    var started := Step(s, StartDemo(name, forks));
    if s.procs[pid].log.None? {
      OpenerIsCounted(started, name, pid);
      actions := [OpenLog(pid)] + [Append(pid, true)];
    } else {
      var child := |started.procs|;
      RunOne(started, Spawn(pid));
      OpenerIsCounted(Step(started, Spawn(pid)), name, child);
      actions := [Spawn(pid)] + ([OpenLog(child)] + [Append(child, true)]);
      RunConcat(started, [Spawn(pid)], [OpenLog(child)] + [Append(child, true)]);
    }
  }

  /** One earlier start is enough: its process, slow to open the log, registers for the next run. */
  lemma SlowStarterIsCounted(name: string) returns (actions: seq<Action>)
    ensures NoRestart(actions, name)
    ensures var s := Run(EMPTY, [StartDemo(name, false)] + [StartDemo(name, false)] + actions);
            s.Some? && name in s.value.latest && s.value.latest[name] == 1 && Found(s.value, name) == 1
            && CountOf(LogAt(s.value, name), 1) == 0
  {
    var start := StartDemo(name, false);
    RunOne(EMPTY, start);
    var once := Step(EMPTY, start);
    RunOne(once, start);
    RunConcat(EMPTY, [start], [start]);
    OpenerIsCounted(Step(once, start), name, 0);
    actions := [OpenLog(0)] + [Append(0, true)];
    RunConcat(EMPTY, [start] + [start], actions);
  }

  /**
   The wait is sound for every future of a start, that is, nothing but the new
   run ever shows at the log path, if and only if the start found the demo quiet:
   no live process of it still to open its log, and none that forks.
   */
  lemma OwnRunOnlyIffQuietBeforeStart(s: System, name: string, forks: bool)
    requires Inv(s)
    ensures Inv(Step(s, StartDemo(name, forks)))
    ensures var started := Step(s, StartDemo(name, forks));
            QuietBeforeStart(s, name)
            <==> forall actions | NoRestart(actions, name) && Run(started, actions).Some? ::
                   OwnRunOnly(Run(started, actions).value, name)
  {
    var started := Step(s, StartDemo(name, forks));
    StepKeepsInv(s, StartDemo(name, forks));
    if QuietBeforeStart(s, name) {
      StartSettles(s, name, forks);
      forall actions | NoRestart(actions, name) && Run(started, actions).Some?
        ensures OwnRunOnly(Run(started, actions).value, name)
      {
        RunKeepsSettled(started, actions, name);
      }
    } else {
      var pid :| 0 <= pid < |s.procs| && s.procs[pid].name == name && s.procs[pid].alive
                 && (s.procs[pid].log.None? || s.procs[pid].forks);
      var actions := LateOpenerIsCounted(s, name, forks, pid);
      assert NoRestart(actions, name) && Run(started, actions).Some?;
    }
  }

  // ------------------------------------------------------------------
  // The wait
  // ------------------------------------------------------------------

  datatype Outcome = Registered | TimedOut

  /** The system at each poll, and the clock in seconds: `sleep 1` passes at least one. */
  ghost predicate Ticks(clock: nat -> nat) {
    forall k: nat :: Ticked(clock, k)
  }

  predicate Ticked(clock: nat -> nat, k: nat) {
    clock(k + 1) >= clock(k) + 1
  }

  /** From one poll to the next the processes go on, and nobody restarts a demo. */
  ghost predicate GoesOn(s: System, s': System) {
    Inv(s) && exists actions: seq<Action> :: (forall i | 0 <= i < |actions| :: !actions[i].StartDemo?) && Run(s, actions) == Some(s')
  }

  /** The systems seen by the polls are one history. */
  ghost predicate History(systems: nat -> System) {
    forall k: nat :: GoesOnAt(systems, k)
  }

  ghost predicate GoesOnAt(systems: nat -> System, k: nat) {
    GoesOn(systems(k), systems(k + 1))
  }

  lemma {:induction false} CountPrefix(a: seq<Line>, b: seq<Line>)
    requires a <= b
    ensures Count(a) <= Count(b)
  {
    if a != b {
      CountPrefix(a, b[..|b| - 1]);
    }
  }

  lemma {:induction false} LogGrows(s: System, actions: seq<Action>, name: string)
    requires Inv(s) && (forall i | 0 <= i < |actions| :: !actions[i].StartDemo?) && Run(s, actions).Some?
    ensures LogAt(s, name) <= LogAt(Run(s, actions).value, name)
    ensures Run(s, actions).value.latest == s.latest
  {
    if actions != [] {
      LogGrows(s, actions[..|actions| - 1], name);
      var before, a := Run(s, actions[..|actions| - 1]).value, actions[|actions| - 1];
      assert ProcOk(before, before.procs[a.pid]);
    }
  }

  lemma {:induction false} OwnRunCount(lines: seq<Line>, run: nat)
    requires forall i | 0 <= i < |lines| :: lines[i].run == run
    ensures CountOf(lines, run) == Count(lines)
  {
    if lines != [] {
      OwnRunCount(lines[..|lines| - 1], run);
    }
  }

  /** From one poll to the next, logs only grow, and settled demos stay settled. */
  ghost predicate Kept(s: System, s': System, name: string) {
    && Found(s, name) <= Found(s', name)
    && (Settled(s, name) ==> Settled(s', name))
    && s.latest == s'.latest
  }

  lemma OnePoll(s: System, s': System, name: string)
    requires GoesOn(s, s')
    ensures Kept(s, s', name)
  {
    var actions: seq<Action> :| (forall i | 0 <= i < |actions| :: !actions[i].StartDemo?) && Run(s, actions) == Some(s');
    LogGrows(s, actions, name);
    CountPrefix(LogAt(s, name), LogAt(s', name));
    if Settled(s, name) {
      RunKeepsSettled(s, actions, name);
    }
  }

  lemma KeptTransitive(a: System, b: System, c: System, name: string)
    requires Kept(a, b, name) && Kept(b, c, name)
    ensures Kept(a, c, name)
  {
  }

  lemma {:induction false} PollsGoOn(systems: nat -> System, from: nat, polls: nat, name: string)
    requires History(systems)
    ensures Kept(systems(from), systems(from + polls), name)
    decreases polls
  {
    if polls > 0 {
      PollsGoOn(systems, from, polls - 1, name);
      assert GoesOnAt(systems, from + polls - 1);
      OnePoll(systems(from + polls - 1), systems(from + polls), name);
      KeptTransitive(systems(from), systems(from + polls - 1), systems(from + polls), name);
    }
  }

  /** What one wait means for all demos: those ready before still are. */
  lemma WaitKeepsAll(procs: seq<string>, systems: nat -> System, from: nat, to: nat)
    requires History(systems) && from <= to
    ensures forall k | 0 <= k < |procs| :: Kept(systems(from), systems(to), procs[k])
  {
    forall k | 0 <= k < |procs| ensures Kept(systems(from), systems(to), procs[k]) {
      PollsGoOn(systems, from, to - from, procs[k]);
    }
  }

  /** A demo that is settled stays so, and what is then found in its log is of its latest run. */
  ghost predicate FindsOwnRun(s: System, s': System, name: string) {
    Settled(s, name) ==>
      && Settled(s', name) && s'.latest[name] == s.latest[name]
      && CountOf(LogAt(s', name), s.latest[name]) == Found(s', name)
  }

  lemma PollsFindOwnRun(name: string, systems: nat -> System, from: nat, to: nat)
    requires History(systems) && from <= to
    ensures FindsOwnRun(systems(from), systems(to), name)
  {
    PollsGoOn(systems, from, to - from, name);
    if Settled(systems(from), name) {
      OwnRunCount(LogAt(systems(to), name), systems(to).latest[name]);
    }
  }

  /**
   Polls the log until it holds `count` registrations, which is success, or until
   `timeout` seconds have passed, which is only worth a warning. If earlier runs
   were out of the way, the registrations found are those of the latest run.
   */
  method WaitAgentReady(name: string, count: nat, timeout: nat, first: nat, systems: nat -> System, clock: nat -> nat)
    returns (r: Outcome, last: nat)
    requires Ticks(clock) && History(systems)
    ensures first <= last
    ensures r.Registered? <==> Found(systems(last), name) >= count
    ensures r.TimedOut? ==> clock(last) - clock(first) >= timeout
    ensures forall k | first <= k < last :: Found(systems(k), name) < count && clock(k) - clock(first) < timeout
    ensures FindsOwnRun(systems(first), systems(last), name)
  {
    last := first;
    while true
      invariant first <= last && clock(last) >= clock(first) + (last - first)
      invariant forall k | first <= k < last :: Found(systems(k), name) < count && clock(k) - clock(first) < timeout
      decreases timeout - (clock(last) - clock(first))
    {
      var found := Found(systems(last), name);
      if found >= count {
        PollsFindOwnRun(name, systems, first, last);
        return Registered, last;
      }
      if clock(last) - clock(first) >= timeout {
        PollsFindOwnRun(name, systems, first, last);
        return TimedOut, last;
      }
      assert Ticked(clock, last);
      last := last + 1;
    }
  }

  /** The system right after a start. */
  ghost function Started(s: System, name: string, forks: bool): (s': System)
    requires Inv(s)
    ensures Inv(s') && name in s'.latest && s'.latest[name] == s.starts
  {
    StepKeepsInv(s, StartDemo(name, forks));
    Step(s, StartDemo(name, forks))
  }

  /** Whatever happens after a quiet start, short of a restart, leaves the demo settled in that run. */
  lemma QuietStartSettles(s: System, name: string, forks: bool, others: seq<Action>)
    requires Inv(s) && QuietBeforeStart(s, name)
    requires NoRestart(others, name) && Run(Started(s, name, forks), others).Some?
    ensures var now := Run(Started(s, name, forks), others).value;
            Settled(now, name) && now.latest[name] == s.starts
  {
    StartSettles(s, name, forks);
    RunKeepsSettled(Started(s, name, forks), others, name);
    LatestStays(Started(s, name, forks), others, name);
  }

  lemma {:induction false} LatestStays(s: System, actions: seq<Action>, name: string)
    requires Inv(s) && name in s.latest && NoRestart(actions, name) && Run(s, actions).Some?
    ensures var s' := Run(s, actions).value; name in s'.latest && s'.latest[name] == s.latest[name]
  {
    if actions != [] {
      LatestStays(s, actions[..|actions| - 1], name);
    }
  }

  /**
   A quiet start, anything else the driver does, and the wait: it reports success
   exactly when this very run has logged `count` registrations.
   */
  method WaitAfterQuietStart(before: System, name: string, forks: bool, ghost others: seq<Action>, count: nat, timeout: nat,
                             systems: nat -> System, clock: nat -> nat)
    returns (r: Outcome, last: nat)
    requires Inv(before) && QuietBeforeStart(before, name)
    requires NoRestart(others, name) && Run(Started(before, name, forks), others) == Some(systems(0))
    requires Ticks(clock) && History(systems)
    ensures r.Registered? <==> CountOf(LogAt(systems(last), name), before.starts) >= count
    ensures r.TimedOut? ==> clock(last) - clock(0) >= timeout
  {
    QuietStartSettles(before, name, forks, others);
    r, last := WaitAgentReady(name, count, timeout, 0, systems, clock);
  }

  /** From one poll to another a minute or more has passed, and at the end there is still no registration. */
  ghost predicate WaitedFor(name: string, from: nat, to: nat, systems: nat -> System, clock: nat -> nat) {
    from <= to && clock(to) - clock(from) >= 60 && Found(systems(to), name) == 0
  }

  ghost predicate WaitedInVain(name: string, last: nat, systems: nat -> System, clock: nat -> nat) {
    exists from: nat, to: nat :: to <= last && WaitedFor(name, from, to, systems, clock)
  }

  /**
   If no wait gives a warning, then by the end every listed process has a
   registration in its log, and, if it was started quietly, one of this very run.
   A warning names a process that was waited for in vain for a minute, and whoever is
   not named is registered.
   */
  method WaitAgentsReady(procs: seq<string>, systems: nat -> System, clock: nat -> nat)
    returns (warnings: seq<string>, last: nat)
    requires Ticks(clock) && History(systems)
    ensures warnings == [] ==> forall i | 0 <= i < |procs| :: Found(systems(last), procs[i]) >= 1
    ensures warnings == [] ==>
              forall i | 0 <= i < |procs| && Settled(systems(0), procs[i]) ::
                && procs[i] in systems(last).latest
                && CountOf(LogAt(systems(last), procs[i]), systems(last).latest[procs[i]]) >= 1
    ensures forall i | 0 <= i < |procs| :: procs[i] in warnings || Found(systems(last), procs[i]) >= 1
    ensures forall w | w in warnings :: w in procs && WaitedInVain(w, last, systems, clock)
  {
    warnings := [];
    last := 0;
    for i := 0 to |procs|
      invariant forall k | 0 <= k < |procs| :: Settled(systems(0), procs[k]) ==> Settled(systems(last), procs[k])
      invariant forall k | 0 <= k < i :: procs[k] in warnings || Found(systems(last), procs[k]) >= 1
      invariant forall w | w in warnings :: w in procs && WaitedInVain(w, last, systems, clock)
    {
      var r, next := WaitAgentReady(procs[i], 1, 60, last, systems, clock);
      WaitKeepsAll(procs, systems, last, next);
      if r.TimedOut? {
        assert WaitedFor(procs[i], last, next, systems, clock);
        warnings := warnings + [procs[i]];
      }
      last := next;
    }
    SettledCounts(procs, systems(last));
  }

  /** What is found in the log of a settled demo is of its latest run. */
  lemma SettledCounts(procs: seq<string>, s: System)
    ensures forall i | 0 <= i < |procs| && Settled(s, procs[i]) ::
              procs[i] in s.latest && CountOf(LogAt(s, procs[i]), s.latest[procs[i]]) == Found(s, procs[i])
  {
    forall i | 0 <= i < |procs| && Settled(s, procs[i])
      ensures procs[i] in s.latest && CountOf(LogAt(s, procs[i]), s.latest[procs[i]]) == Found(s, procs[i])
    {
      OwnRunCount(LogAt(s, procs[i]), s.latest[procs[i]]);
    }
  }
}
