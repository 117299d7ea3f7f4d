/** CGIManager as it runs: a static set of pids that is inserted into, rebuilt and erased by loops, and
    the _pId of every manager. Every method is proved to do what its function in CgiProcesses says. */
module CgiManagers {
  import opened CgiProcesses
  import opened IntSets

  /** The CGIManager objects by their address, the set they share, and the kernel's children. */
  class CgiManagerTable {
    var active: set<Pid>
    var running: set<Pid>
    var zombies: set<Pid>
    var managers: map<ManagerId, Pid>

    function Model(): Children
      reads this
    {
      Children(active, running, zombies, managers)
    }

    constructor ()
      ensures Model() == NO_CHILDREN
    {
      active, running, zombies, managers := {}, {}, {}, map[];
    }

    /** waitpid(pid, &status, WNOHANG) */
    method WaitNoHang(pid: Pid, interrupted: bool) returns (w: Wait)
      modifies this`zombies
      ensures (w, Model()) == Poll(old(Model()), pid, interrupted)
    {
      if interrupted {
        return Interrupted;
      } else if pid in zombies {
        zombies := zombies - {pid};
        return Reaped;
      }
      return if pid in running then StillRunning else NoChild;
    }

    method ReapFinishedActivePids(interrupted: Pid -> bool)
      modifies this`active, this`zombies
      ensures Model() == Reap(old(Model()), interrupted)
    {
      var stillRunning := {};
      var left := active;
      while left != {}
        invariant left <= active == old(active)
        invariant stillRunning == set p | p in active && p !in left && (interrupted(p) || (p in running &&
              p !in old(zombies)))
        invariant zombies == set p | p in old(zombies) && (p !in active || p in left || interrupted(p))
        decreases |left|
      {
        SmallestExists(left);
        var p :| p in left && forall other :: other in left ==> p <= other;
        left := left - {p};
        var result := WaitNoHang(p, interrupted(p));
        if result.StillRunning? || result.Interrupted? {
          stillRunning := stillRunning + {p};
        }
      }
      active := stillRunning;
    }

    method IsSpawnLimitReached(interrupted: Pid -> bool) returns (reached: bool)
      modifies this`active, this`zombies
      ensures Model() == Reap(old(Model()), interrupted)
      ensures reached == (|active| >= MAX_ACTIVE_CGI_CHILDREN)
    {
      ReapFinishedActivePids(interrupted);
      reached := |active| >= MAX_ACTIVE_CGI_CHILDREN;
    }

    /** A new manager and its execute(), as far as the parent is concerned; `forked` is the pid that
        fork() returns, and a number a child still holds stands for a fork that failed. */
    method Execute(m: ManagerId, forked: Pid, pipeOk: bool, interrupted: Pid -> bool) returns (r: SpawnResult)
      modifies this
      ensures (r, Model()) == Spawn(old(Model()), m, forked, pipeOk, interrupted)
    {
      hide Reap;
      var reached := IsSpawnLimitReached(interrupted);
      if reached {
        return LimitReached;
      }
      if !pipeOk {
        return NoPipe;
      }
      if forked <= 0 || forked in running || forked in zombies {
        return NoFork;
      }
      running := running + {forked};
      managers := managers[m := forked];
      active := active + {forked};
      return Started;
    }

    method IsDone(m: ManagerId, interrupted: bool) returns (done: bool)
      modifies this
      ensures (done, Model()) == CgiProcesses.IsDone(old(Model()), m, interrupted)
    {
      if m !in managers || managers[m] <= 0 {
        return true;
      }
      var pid := managers[m];
      var result := WaitNoHang(pid, interrupted);
      if result == StillRunning {
        return false;
      }
      active := active - {pid};
      managers := managers[m := -1];
      return true;
    }

    method Delete(m: ManagerId)
      modifies this`managers
      ensures Model() == Drop(old(Model()), m)
    {
      managers := managers - {m};
    }

    /** Response::cgiTimeout, up to the error page. */
    method CgiTimeout(m: ManagerId, waitInterrupted: bool, died: bool, pollInterrupted: bool)
      modifies this
      ensures Model() == TimeOut(old(Model()), m, waitInterrupted, died, pollInterrupted)
    {
      hide CgiProcesses.IsDone;
      if m in managers {
        var pid := managers[m];
        if pid > 0 {
          if !waitInterrupted {
            running := running - {pid};
            zombies := zombies - {pid};
          }
          if died {
            ChildrenExit({pid});
          }
          var _ := IsDone(m, pollInterrupted);
        }
        Delete(m);
      }
    }

    /** The kernel's side of children that exit. */
    method ChildrenExit(pids: set<Pid>)
      modifies this`running, this`zombies
      ensures Model() == Exit(old(Model()), pids)
    {
      zombies := zombies + (running * pids);
      running := running - pids;
    }

    /** One round of the grace period. */
    method PollAll(k: nat, env: Cleanup)
      modifies this`active, this`zombies
      ensures Model() == CgiProcesses.PollAll(old(Model()), k, env)
    {
      var remaining := {};
      var left := active;
      while left != {}
        invariant left <= active == old(active)
        invariant remaining == set p | p in active && p !in left && !env.interrupted(k, p) && p in running &&
              p !in old(zombies)
        invariant zombies == set p | p in old(zombies) && (p !in active || p in left || env.interrupted(k, p))
        decreases |left|
      {
        SmallestExists(left);
        var p :| p in left && forall other :: other in left ==> p <= other;
        left := left - {p};
        var result := WaitNoHang(p, env.interrupted(k, p));
        if result == StillRunning {
          remaining := remaining + {p};
        }
      }
      active := remaining;
    }

    method CleanupAllProcesses(env: Cleanup)
      requires Sleeps(env)
      modifies this
      ensures Model() == CleanUp(old(Model()), env)
      ensures Accounted(old(Model())) ==> (running + zombies == {} <==> Undisturbed(old(Model()), 0, env))
    {
      hide Accounted, Undisturbed, CgiProcesses.PollAll, Exit;
      ghost var s0 := Model();
      if Accounted(s0) {
        CleanUpReapsAllIff(s0, env);
      }
      if active == {} {
        return;
      }
      var k := 0;
      while active != {} && env.clock(k) - env.clock(0) < GRACE_PERIOD
        invariant Grace(Model(), k, env) == Grace(s0, 0, env)
        decreases 10 * GRACE_PERIOD - k
      {
        ChildrenExit(env.exits(k));
        PollAll(k, env);
        k := k + 1;
      }
      AwaitRest(env);
    }

    /** SIGKILL for every pid that is left, and a blocking wait for each. */
    method AwaitRest(env: Cleanup)
      modifies this`active, this`running, this`zombies
      ensures Model() == KillRest(old(Model()), env)
    {
      var left := active;
      while left != {}
        invariant left <= active == old(active)
        invariant running == set p | p in old(running) && (p !in active || p in left || env.late(p))
        invariant zombies == set p | p in old(zombies) && (p !in active || p in left || env.late(p))
        decreases |left|
      {
        SmallestExists(left);
        var p :| p in left && forall other :: other in left ==> p <= other;
        left := left - {p};
        if !env.late(p) {
          running := running - {p};
          zombies := zombies - {p};
        }
      }
      active := {};
    }
  }
}
