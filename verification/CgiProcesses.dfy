/** The accounting of CGI children: the server's set of active pids against the children the kernel
    still holds, in every interleaving of spawning, exiting, polling, timing out, dropping and
    reaping. */
module CgiProcesses {
  import opened IntSets

  type Pid = int
  type ManagerId = int

  const MAX_ACTIVE_CGI_CHILDREN: nat := 64
  const GRACE_PERIOD: int := 5

  /** `running` and `zombies` are the kernel's: children that run, and children that have exited and
      are not reaped. `managers` holds the _pId of every live CGIManager, -1 when it has none. A _pId
      may be stale: its child may have been reaped through the set, and the number given to another. */
  datatype Children = Children(active: set<Pid>, running: set<Pid>, zombies: set<Pid>, managers: map<ManagerId, Pid>) {
    function Unreaped(): set<Pid> { running + zombies }
  }

  const NO_CHILDREN := Children({}, {}, {}, map[])

  datatype Wait = StillRunning | Reaped | NoChild | Interrupted

  /** waitpid with WNOHANG. A call that a signal interrupts does nothing. */
  function Poll(s: Children, pid: Pid, interrupted: bool): (Wait, Children) {
    if interrupted then (Interrupted, s)
    else if pid in s.zombies then (Reaped, s.(zombies := s.zombies - {pid}))
    else if pid in s.running then (StillRunning, s)
    else (NoChild, s)
  }

  /** waitpid that blocks until the child has exited. */
  function Await(s: Children, pid: Pid, interrupted: bool): Children {
    if interrupted then s else s.(running := s.running - {pid}, zombies := s.zombies - {pid})
  }

  function Exit(s: Children, pids: set<Pid>): Children {
    s.(running := s.running - pids, zombies := s.zombies + (s.running * pids))
  }

  // ---------------------------------------------------------------- operations

  /** _reapFinishedActivePids: what was reaped or is no child any more leaves the set. */
  function Reap(s: Children, interrupted: Pid -> bool): Children {
    s.(active := (set p | p in s.active && (interrupted(p) || (p in s.running && p !in s.zombies))),
       zombies := (set p | p in s.zombies && (p !in s.active || interrupted(p))))
  }

  datatype SpawnResult = LimitReached | NoPipe | NoFork | Started

  /** execute() of a new manager in the parent. The kernel gives no pid that a child still holds. */
  function Spawn(s: Children, m: ManagerId, pid: Pid, pipeOk: bool, interrupted: Pid -> bool): (SpawnResult, Children) {
    var s1 := Reap(s, interrupted);
    if |s1.active| >= MAX_ACTIVE_CGI_CHILDREN then (LimitReached, s1)
    else if !pipeOk then (NoPipe, s1)
    else if pid <= 0 || pid in s1.Unreaped() then (NoFork, s1)
    else (Started, s1.(running := s1.running + {pid}, active := s1.active + {pid}, managers := s1.managers[m := pid]))
  }

  /** isDone(): anything but a running child takes the pid off the set. */
  function IsDone(s: Children, m: ManagerId, interrupted: bool): (bool, Children) {
    if m !in s.managers || s.managers[m] <= 0 then (true, s)
    else
      var pid := s.managers[m];
      var (w, s1) := Poll(s, pid, interrupted);
      if w.StillRunning? then (false, s1)
      else (true, s1.(active := s1.active - {pid}, managers := s1.managers[m := -1]))
  }

  /** delete _cgiInstance: the child is neither killed nor reaped. */
  function Drop(s: Children, m: ManagerId): Children {
    s.(managers := s.managers - {m})
  }

  /** cgiTimeout(): SIGKILL, a blocking wait, isDone() and the end of the manager. `died` says whether
      the killed child has exited by the time of isDone() when the blocking wait was interrupted. */
  function TimeOut(s: Children, m: ManagerId, waitInterrupted: bool, died: bool, pollInterrupted: bool): Children {
    if m !in s.managers then s
    else
      var pid := s.managers[m];
      if pid <= 0 then Drop(s, m)
      else
        var s1 := Await(s, pid, waitInterrupted);
        var s2 := if died then Exit(s1, {pid}) else s1;
        Drop(IsDone(s2, m, pollInterrupted).1, m)
  }

  datatype Step =
    | Exits(pids: set<Pid>)
    | Spawns(m: ManagerId, pid: Pid, pipeOk: bool, reapInterrupted: Pid -> bool)
    | Polls(m: ManagerId, interrupted: bool)
    | TimesOut(m: ManagerId, waitInterrupted: bool, died: bool, pollInterrupted: bool)
    | Drops(m: ManagerId)

  function Do(s: Children, step: Step): Children {
    match step
    case Exits(pids) => Exit(s, pids)
    case Spawns(m, pid, pipeOk, reapInterrupted) => Spawn(s, m, pid, pipeOk, reapInterrupted).1
    case Polls(m, interrupted) => IsDone(s, m, interrupted).1
    case TimesOut(m, waitInterrupted, died, pollInterrupted) => TimeOut(s, m, waitInterrupted, died, pollInterrupted)
    case Drops(m) => Drop(s, m)
  }

  function DoAll(s: Children, steps: seq<Step>): Children
    decreases |steps|
  {
    if steps == [] then s else DoAll(Do(s, steps[0]), steps[1..])
  }

  // ---------------------------------------------------------------- the invariant

  /** The set of active pids is exactly the set of unreaped children, and within the cap. */
  predicate Accounted(s: Children) {
    && s.active == s.Unreaped() && s.running !! s.zombies
    && |s.active| <= MAX_ACTIVE_CGI_CHILDREN && (forall p :: p in s.active ==> p > 0)
  }

  /** The step polls an unreaped child and a signal interrupts the call: isDone() takes that for the
      end of the child. */
  predicate LosesChild(s: Children, step: Step) {
    match step
    case Polls(m, interrupted) => interrupted && m in s.managers && s.managers[m] in s.Unreaped()
    case TimesOut(m, waitInterrupted, _, pollInterrupted) =>
      waitInterrupted && pollInterrupted && m in s.managers && s.managers[m] in s.Unreaped()
    case _ => false
  }

  lemma ReapKeeps(s: Children, interrupted: Pid -> bool)
    requires Accounted(s)
    ensures Accounted(Reap(s, interrupted)) && Reap(s, interrupted).running == s.running
  {
    SubsetCardinality(Reap(s, interrupted).active, s.active);
  }

  lemma SpawnKeeps(s: Children, m: ManagerId, pid: Pid, pipeOk: bool, interrupted: Pid -> bool)
    requires Accounted(s)
    ensures Accounted(Spawn(s, m, pid, pipeOk, interrupted).1)
  {
    ReapKeeps(s, interrupted);
    hide Reap, Accounted;
    if Spawn(s, m, pid, pipeOk, interrupted).0.Started? {
      StartKeeps(Reap(s, interrupted), m, pid);
    }
  }

  lemma StartKeeps(s: Children, m: ManagerId, pid: Pid)
    requires Accounted(s) && |s.active| < MAX_ACTIVE_CGI_CHILDREN && pid > 0 && pid !in s.Unreaped()
    ensures Accounted(s.(running := s.running + {pid}, active := s.active + {pid}, managers := s.managers[m := pid]))
  {
    assert |s.active + {pid}| <= |s.active| + 1;
    assert (s.running + {pid}) + s.zombies == s.Unreaped() + {pid};
  }

  lemma IsDoneEffect(s: Children, m: ManagerId, interrupted: bool)
    requires m in s.managers && s.managers[m] > 0
    ensures var pid := s.managers[m];
            IsDone(s, m, interrupted).1 ==
              if !interrupted && pid in s.running && pid !in s.zombies then s
              else s.(active := s.active - {pid}, zombies := if interrupted then s.zombies else s.zombies - {pid},
                      managers := s.managers[m := -1])
  {
    var pid := s.managers[m];
    if pid !in s.zombies {
      assert s.zombies - {pid} == s.zombies;
    }
  }

  lemma RemovedKeeps(s: Children, pid: Pid, managers: map<ManagerId, Pid>)
    requires Accounted(s)
    ensures Accounted(Children(s.active - {pid}, s.running - {pid}, s.zombies - {pid}, managers))
  {
    SubsetCardinality(s.active - {pid}, s.active);
    assert (s.running - {pid}) + (s.zombies - {pid}) == s.Unreaped() - {pid};
  }

  lemma IsDoneKeepsIff(s: Children, m: ManagerId, interrupted: bool)
    requires Accounted(s)
    ensures Accounted(IsDone(s, m, interrupted).1) <==> !LosesChild(s, Polls(m, interrupted))
  {
    if m in s.managers && s.managers[m] > 0 {
      var pid := s.managers[m];
      IsDoneEffect(s, m, interrupted);
      hide IsDone;
      var s1 := IsDone(s, m, interrupted).1;
      if pid !in s.Unreaped() || (!interrupted && pid in s.zombies) {
        assert s.running - {pid} == s.running;
        assert pid !in s.Unreaped() ==> s.zombies - {pid} == s.zombies;
        RemovedKeeps(s, pid, s1.managers);
      } else if interrupted {
        assert pid in s1.Unreaped() && pid !in s1.active;
      }
    } else {
      assert m in s.managers ==> s.managers[m] !in s.active;
    }
  }

  /** The answer of isDone(): not yet, exactly while the child of the manager runs and the call is not
      interrupted. */
  lemma NotDoneIff(s: Children, m: ManagerId, interrupted: bool)
    requires Accounted(s)
    ensures !IsDone(s, m, interrupted).0 <==>
              m in s.managers && s.managers[m] > 0 && s.managers[m] in s.running && !interrupted
    ensures !IsDone(s, m, interrupted).0 ==> IsDone(s, m, interrupted).1 == s
  {}

  /** A child that has exited is reaped by the next call that is not interrupted, which answers so, as
      does every call after it; nobody else is affected. */
  lemma ExitedIsDone(s: Children, m: ManagerId, again: bool)
    requires Accounted(s) && m in s.managers && s.managers[m] in s.zombies
    ensures var (done, t) := IsDone(s, m, false);
            && done && t.zombies == s.zombies - {s.managers[m]} && t.active == s.active - {s.managers[m]}
            && t.running == s.running && t.managers == s.managers[m := -1]
            && IsDone(t, m, again) == (true, t)
  {
    assert s.managers[m] in s.Unreaped();
  }

  lemma ExitKeeps(s: Children, pids: set<Pid>)
    requires Accounted(s)
    ensures Accounted(Exit(s, pids)) && Exit(s, pids).Unreaped() == s.Unreaped()
    ensures Exit(s, pids).managers == s.managers
  {
    assert Exit(s, pids).Unreaped() == s.Unreaped();
  }

  /** A wait that is not interrupted leaves no child of that number, and isDone() none in the set. */
  lemma AwaitedKeeps(s: Children, m: ManagerId, died: bool, interrupted: bool)
    requires Accounted(s) && m in s.managers && s.managers[m] > 0
    ensures var pid := s.managers[m];
            var s1 := Await(s, pid, false);
            Accounted(IsDone(if died then Exit(s1, {pid}) else s1, m, interrupted).1)
  {
    var pid := s.managers[m];
    var s1 := Await(s, pid, false);
    AwaitedExit(s, pid);
    IsDoneEffect(s1, m, interrupted);
    assert s1.zombies - {pid} == s1.zombies;
    hide IsDone;
    RemovedKeeps(s, pid, IsDone(s1, m, interrupted).1.managers);
  }

  lemma AwaitedExit(s: Children, pid: Pid)
    ensures var s1 := Await(s, pid, false); Exit(s1, {pid}) == s1
  {
    var s1 := Await(s, pid, false);
    assert s1.running - {pid} == s1.running && s1.zombies + (s1.running * {pid}) == s1.zombies;
  }

  lemma TimeOutKeepsIff(s: Children, step: Step)
    requires Accounted(s) && step.TimesOut?
    ensures Accounted(Do(s, step)) <==> !LosesChild(s, step)
  {
    var m := step.m;
    if m in s.managers && s.managers[m] > 0 {
      var pid := s.managers[m];
      var s1 := Await(s, pid, step.waitInterrupted);
      var s2 := if step.died then Exit(s1, {pid}) else s1;
      hide IsDone, Accounted, Exit;
      DropKeepsIff(IsDone(s2, m, step.pollInterrupted).1, m);
      if step.waitInterrupted {
        ExitKeeps(s, {pid});
        IsDoneKeepsIff(s2, m, step.pollInterrupted);
      } else {
        AwaitedKeeps(s, m, step.died, step.pollInterrupted);
      }
    } else {
      DropKeepsIff(s, m);
      NoPidNotLost(s, step);
    }
  }

  /** A manager that is timed out is gone, and its child too unless the waits were interrupted: killed,
      reaped and off the set; no other child is touched. */
  lemma TimedOutIsGone(s: Children, m: ManagerId, died: bool, pollInterrupted: bool)
    requires Accounted(s) && m in s.managers
    ensures var t := TimeOut(s, m, false, died, pollInterrupted);
            && t.managers == s.managers - {m} && m !in TimeOut(s, m, true, died, pollInterrupted).managers
            && if s.managers[m] > 0 then
                 && t.running == s.running - {s.managers[m]} && t.zombies == s.zombies - {s.managers[m]}
                 && t.active == s.active - {s.managers[m]}
               else t.running == s.running && t.zombies == s.zombies && t.active == s.active
  {
    var pid := s.managers[m];
    if pid > 0 {
      var s1 := Await(s, pid, false);
      AwaitedExit(s, pid);
      IsDoneEffect(s1, m, pollInterrupted);
      assert s1.zombies - {pid} == s1.zombies;
    }
  }

  lemma DropKeepsIff(s: Children, m: ManagerId)
    ensures Accounted(Drop(s, m)) <==> Accounted(s)
  {}

  lemma NoPidNotLost(s: Children, step: Step)
    requires Accounted(s) && step.TimesOut?
    requires step.m in s.managers ==> s.managers[step.m] <= 0
    ensures !LosesChild(s, step)
  {
    assert step.m in s.managers ==> s.managers[step.m] !in s.active;
  }

  /** Every step keeps the accounts exactly when it does not mistake an interrupted call for the end
      of a child. Stale pids do no harm to the accounts, whoever owns the number now. */
  lemma StepKeepsIff(s: Children, step: Step)
    requires Accounted(s)
    ensures Accounted(Do(s, step)) <==> !LosesChild(s, step)
  {
    match step {
      case Exits(pids) => assert Exit(s, pids).Unreaped() == s.Unreaped();
      case Spawns(m, pid, pipeOk, reapInterrupted) => SpawnKeeps(s, m, pid, pipeOk, reapInterrupted);
      case Polls(m, interrupted) => IsDoneKeepsIff(s, m, interrupted);
      case TimesOut(_, _, _, _) => TimeOutKeepsIff(s, step);
      case Drops(m) =>
    }
  }

  predicate NoneLost(s: Children, steps: seq<Step>)
    decreases |steps|
  {
    steps == [] || (!LosesChild(s, steps[0]) && NoneLost(Do(s, steps[0]), steps[1..]))
  }

  /** In every interleaving the active pids are the unreaped children, and never more than 64. */
  lemma {:induction false} AlwaysAccounted(s: Children, steps: seq<Step>)
    requires Accounted(s) && NoneLost(s, steps)
    ensures Accounted(DoAll(s, steps))
    decreases |steps|
  {
    hide Do, Accounted, LosesChild;
    if steps != [] {
      StepKeepsIff(s, steps[0]);
      AlwaysAccounted(Do(s, steps[0]), steps[1..]);
    }
  }

  lemma NoChildrenAccounted()
    ensures Accounted(NO_CHILDREN)
  {}

  /** Spawning the child `pid` of manager `m` with nothing in the way. */
  function Spawning(m: ManagerId, pid: Pid): Step {
    Spawns(m, pid, true, _ => false)
  }

  /** An interrupted poll at its input: the child is forgotten and never reaped. */
  lemma InterruptedPollLosesChild(env: Cleanup)
    requires Sleeps(env)
    ensures var s := DoAll(NO_CHILDREN, [Spawning(0, 1), Polls(0, true)]);
            !Accounted(s) && CleanUp(s, env).Unreaped() == {1}
  {
    var s1 := Do(NO_CHILDREN, Spawning(0, 1));
    assert s1 == Children({1}, {1}, {}, map[0 := 1]);
    var s2 := Do(s1, Polls(0, true));
    assert s2 == Children({}, {1}, {}, map[0 := -1]);
    TwoSteps(NO_CHILDREN, Spawning(0, 1), Polls(0, true));
    assert s2.Unreaped() == {1};
  }

  lemma TwoSteps(s: Children, a: Step, b: Step)
    ensures DoAll(s, [a, b]) == Do(Do(s, a), b)
  {
    hide Do;
    assert [a, b][1..] == [b] && [b][1..] == [];
    assert DoAll(Do(Do(s, a), b), []) == Do(Do(s, a), b);
  }

  /** Timing out one manager ends the running child of another exactly if its pid is stale and the
      number is the other child's now. */
  lemma KillsOtherIff(s: Children, m: ManagerId, other: ManagerId, died: bool)
    requires m in s.managers && other in s.managers && m != other
    requires s.managers[other] in s.running && s.managers[other] > 0
    ensures s.managers[other] !in TimeOut(s, m, false, died, false).running <==> s.managers[m] == s.managers[other]
    ensures TimeOut(s, m, false, died, false).managers[other] == s.managers[other]
  {}

  /** The kill at its input: manager 0's child is reaped through the set, its number goes to the child
      of manager 1, and the timeout of manager 0 kills that one. The accounts still hold. */
  lemma StalePidKillsOther()
    ensures var s := DoAll(NO_CHILDREN, [Spawning(0, 1), Exits({1})]);
            var t := DoAll(s, [Spawning(1, 1), TimesOut(0, false, true, false)]);
            Do(s, Spawning(1, 1)).running == {1} && t.managers == map[1 := 1] && t.running == {} && Accounted(t)
  {
    TwoSteps(NO_CHILDREN, Spawning(0, 1), Exits({1}));
    assert Do(NO_CHILDREN, Spawning(0, 1)) == Children({1}, {1}, {}, map[0 := 1]);
    var s := Children({1}, {}, {1}, map[0 := 1]);
    assert Do(Do(NO_CHILDREN, Spawning(0, 1)), Exits({1})) == s;
    TwoSteps(s, Spawning(1, 1), TimesOut(0, false, true, false));
    assert Reap(s, _ => false) == Children({}, {}, {}, map[0 := 1]);
    var s1 := Do(s, Spawning(1, 1));
    assert s1 == Children({1}, {1}, {}, map[0 := 1, 1 := 1]);
    assert Do(s1, TimesOut(0, false, true, false)) == Children({}, {}, {}, map[1 := 1]);
  }

  /** The cap is not sticky: as long as reaping is not interrupted, a spawn is refused exactly if 64
      children are running. */
  lemma SpawnRefusedIff(s: Children, m: ManagerId, pid: Pid, pipeOk: bool, interrupted: Pid -> bool)
    requires Accounted(s) && forall p :: !interrupted(p)
    ensures Spawn(s, m, pid, pipeOk, interrupted).0.LimitReached? <==> |s.running| == 64
    ensures Reap(s, interrupted).active == s.running && Reap(s, interrupted).zombies == {}
  {
    forall p | p in s.running ensures p in s.active {
      assert p in s.Unreaped();
    }
    forall p | p in s.zombies ensures p in s.active {
      assert p in s.Unreaped();
    }
    var s1 := Reap(s, interrupted);
    forall p ensures p in s1.active <==> p in s.running {
      assert p in s.active ==> p in s.running || p in s.zombies;
    }
    forall p ensures p !in s1.zombies {}
    assert s1.active == s.running && s1.zombies == {};
    SubsetCardinality(s.running, s.active);
  }

  /** What execute() comes to: the limit is looked at before the pipe and the pipe before the fork, and
      only a child that was started is registered. */
  lemma SpawnAnswers(s: Children, m: ManagerId, pid: Pid, pipeOk: bool, interrupted: Pid -> bool)
    requires Accounted(s) && forall p :: !interrupted(p)
    ensures var (answer, t) := Spawn(s, m, pid, pipeOk, interrupted);
            && (answer == LimitReached <==> |s.running| == 64)
            && (answer == NoPipe <==> |s.running| < 64 && !pipeOk)
            && (answer == NoFork <==> |s.running| < 64 && pipeOk && (pid <= 0 || pid in s.running))
            && t.zombies == {}
            && if answer == Started
               then t.running == t.active == s.running + {pid} && t.managers == s.managers[m := pid]
               else t.running == t.active == s.running && t.managers == s.managers
  {
    SpawnRefusedIff(s, m, pid, pipeOk, interrupted);
    SpawnKeeps(s, m, pid, pipeOk, interrupted);
    SubsetCardinality(s.running, s.active);
    var s1 := Reap(s, interrupted);
    assert s1.Unreaped() == s.running && s1.running == s.running && s1.managers == s.managers;
    hide Reap, Accounted;
  }

  // ---------------------------------------------------------------- shutting down

  /** What happens around the waits of cleanupAllProcesses: before round k the children in exits(k)
      exit; `late` says which blocking waits are interrupted. */
  datatype Cleanup = Cleanup(exits: nat -> set<Pid>, clock: nat -> int, interrupted: (nat, Pid) -> bool,
        late: Pid -> bool)

  /** One round of the grace period: only children found running are remembered. */
  function GraceRound(s: Children, k: nat, env: Cleanup): Children {
    PollAll(Exit(s, env.exits(k)), k, env)
  }

  function PollAll(s: Children, k: nat, env: Cleanup): Children {
    s.(active := (set p | p in s.active && !env.interrupted(k, p) && p in s.running && p !in s.zombies),
       zombies := (set p | p in s.zombies && (p !in s.active || env.interrupted(k, p))))
  }

  /** The rounds sleep 100 ms each, so the clock moves on. */
  ghost predicate Sleeps(env: Cleanup) {
    forall k: nat :: env.clock(k) - env.clock(0) >= k / 10
  }

  ghost function Grace(s: Children, k: nat, env: Cleanup): Children
    requires Sleeps(env)
    decreases 10 * GRACE_PERIOD - k
  {
    if s.active == {} || env.clock(k) - env.clock(0) >= GRACE_PERIOD then s
    else Grace(GraceRound(s, k, env), k + 1, env)
  }

  /** Every pid that is left is killed and waited for. */
  function KillRest(s: Children, env: Cleanup): Children {
    s.(active := {},
       running := (set p | p in s.running && (p !in s.active || env.late(p))),
       zombies := (set p | p in s.zombies && (p !in s.active || env.late(p))))
  }

  ghost function CleanUp(s: Children, env: Cleanup): Children
    requires Sleeps(env)
  {
    if s.active == {} then s else KillRest(Grace(s, 0, env), env)
  }

  /** No wait for an active pid is interrupted in the grace period from round k on. */
  ghost predicate Undisturbed(s: Children, k: nat, env: Cleanup)
    requires Sleeps(env)
    decreases 10 * GRACE_PERIOD - k
  {
    if s.active == {} || env.clock(k) - env.clock(0) >= GRACE_PERIOD then
      forall p :: p in s.active ==> !env.late(p)
    else
      && (forall p :: p in s.active ==> !env.interrupted(k, p))
      && Undisturbed(GraceRound(s, k, env), k + 1, env)
  }

  lemma RoundKeepsLost(s: Children, k: nat, env: Cleanup)
    requires s.active <= s.Unreaped()
    ensures var s1 := GraceRound(s, k, env);
            && s1.active <= s1.Unreaped()
            && s.Unreaped() - s.active <= s1.Unreaped() - s1.active
            && (forall p :: p in s.active && env.interrupted(k, p) ==> p in s1.Unreaped() - s1.active)
  {}

  lemma {:induction false} LostStaysLost(s: Children, k: nat, env: Cleanup, p: Pid)
    requires Sleeps(env) && s.active <= s.Unreaped() && p in s.Unreaped() - s.active
    ensures p in KillRest(Grace(s, k, env), env).Unreaped()
    decreases 10 * GRACE_PERIOD - k
  {
    if s.active != {} && env.clock(k) - env.clock(0) < GRACE_PERIOD {
      hide GraceRound;
      RoundKeepsLost(s, k, env);
      LostStaysLost(GraceRound(s, k, env), k + 1, env, p);
    }
  }

  lemma RoundAccounts(s: Children, k: nat, env: Cleanup)
    requires s.active == s.Unreaped() && s.running !! s.zombies
    requires forall p :: p in s.active ==> !env.interrupted(k, p)
    ensures var s1 := GraceRound(s, k, env); s1.active == s1.Unreaped() && s1.running !! s1.zombies
  {
    var s0 := Exit(s, env.exits(k));
    assert s0.active == s0.Unreaped() && s0.running !! s0.zombies;
    assert s0.active == s.active;
    hide Exit;
    var s1 := GraceRound(s, k, env);
    forall p | p in s0.zombies ensures p in s0.active {
      assert p in s0.Unreaped();
    }
    forall p | p in s0.running ensures p in s0.active {
      assert p in s0.Unreaped();
    }
    forall p ensures p !in s1.zombies {}
    forall p ensures p in s1.active <==> p in s1.running {
      assert p in s0.active ==> p in s0.running || p in s0.zombies;
    }
    assert s1.zombies == {};
    assert s1.active == s1.running;
  }

  lemma {:induction false} GraceReapsAllIff(s: Children, k: nat, env: Cleanup)
    requires Sleeps(env) && s.active == s.Unreaped() && s.running !! s.zombies
    ensures KillRest(Grace(s, k, env), env).Unreaped() == {} <==> Undisturbed(s, k, env)
    decreases 10 * GRACE_PERIOD - k
  {
    if s.active == {} || env.clock(k) - env.clock(0) >= GRACE_PERIOD {
      var s1 := KillRest(s, env);
      assert Grace(s, k, env) == s;
      if !Undisturbed(s, k, env) {
        var p :| p in s.active && env.late(p);
        assert p in s.Unreaped() && p in s1.Unreaped();
      } else {
        forall p ensures p !in s1.Unreaped() {
          assert p in s1.Unreaped() ==> p in s.Unreaped();
        }
        assert s1.Unreaped() == {};
      }
    } else {
      var s1 := GraceRound(s, k, env);
      if p :| p in s.active && env.interrupted(k, p) {
        RoundKeepsLost(s, k, env);
        LostStaysLost(s1, k + 1, env, p);
      } else {
        RoundAccounts(s, k, env);
        GraceReapsAllIff(s1, k + 1, env);
      }
    }
  }

  /** The grace period goes on as long as there are children, for less than 5 seconds. */
  lemma GraceLength(s: Children, k: nat, env: Cleanup)
    requires Sleeps(env)
    ensures s.active == {} || env.clock(k) - env.clock(0) >= 5 ==> Grace(s, k, env) == s
    ensures s.active != {} && env.clock(k) - env.clock(0) < 5 ==>
              Grace(s, k, env) == Grace(PollAll(Exit(s, env.exits(k)), k, env), k + 1, env)
  {}

  /** After cleanupAllProcesses no child is left unreaped, exactly if none of its waits for an active
      pid was interrupted. */
  lemma CleanUpReapsAllIff(s: Children, env: Cleanup)
    requires Accounted(s) && Sleeps(env)
    ensures CleanUp(s, env).active == {}
    ensures CleanUp(s, env).Unreaped() == {} <==> Undisturbed(s, 0, env)
  {
    GraceReapsAllIff(s, 0, env);
  }

  const ONE_CHILD := Children({1}, {1}, {}, map[0 := 1])

  /** No child exits, the grace period is over after one round, and every wait after it is
      interrupted. */
  const HASTY := Cleanup(_ => {}, k => if k == 0 then 0 else GRACE_PERIOD + k, (_, _) => false, _ => true)

  lemma OneChildIsLeft()
    ensures Sleeps(HASTY) && Grace(ONE_CHILD, 0, HASTY) == ONE_CHILD && KillRest(ONE_CHILD, HASTY).Unreaped() == {1}
  {
    assert Sleeps(HASTY);
    OneChildRound();
    hide GraceRound, KillRest;
    assert Grace(ONE_CHILD, 1, HASTY) == ONE_CHILD;
    OneChildKilled();
  }

  lemma OneChildRound()
    ensures GraceRound(ONE_CHILD, 0, HASTY) == ONE_CHILD
  {}

  lemma OneChildKilled()
    ensures KillRest(ONE_CHILD, HASTY).Unreaped() == {1}
  {}

  lemma OneChildSpawned()
    ensures DoAll(NO_CHILDREN, [Spawning(0, 1)]) == ONE_CHILD
  {
    assert Do(NO_CHILDREN, Spawning(0, 1)) == ONE_CHILD;
    hide Do;
    assert [Spawning(0, 1)][1..] == [];
    assert DoAll(ONE_CHILD, []) == ONE_CHILD;
  }

  /** An interrupted wait at shutdown, at its input: the only child is killed and never reaped. */
  lemma InterruptedShutdownLosesChild()
    ensures Sleeps(HASTY) && CleanUp(DoAll(NO_CHILDREN, [Spawning(0, 1)]), HASTY).Unreaped() == {1}
  {
    OneChildSpawned();
    OneChildIsLeft();
    hide DoAll, Sleeps, Grace, KillRest;
  }

  /** From the start of the server to its end, whatever happens in between, no child is lost. */
  lemma NoChildLost(steps: seq<Step>, env: Cleanup)
    requires NoneLost(NO_CHILDREN, steps) && Sleeps(env)
    requires Undisturbed(DoAll(NO_CHILDREN, steps), 0, env)
    ensures CleanUp(DoAll(NO_CHILDREN, steps), env).Unreaped() == {}
  {
    hide DoAll, CleanUp, Accounted, NoneLost, Undisturbed;
    NoChildrenAccounted();
    AlwaysAccounted(NO_CHILDREN, steps);
    CleanUpReapsAllIff(DoAll(NO_CHILDREN, steps), env);
  }
}
