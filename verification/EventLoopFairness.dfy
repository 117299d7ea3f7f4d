/** Bounded waiting: how long a queued connection waits for its process() call. */
module EventLoopFairness {
  import opened ConnectionIntake
  import opened EventLoop
  import opened EventLoopPointers
  import opened EventLoopInvariant
  import opened EventLoopBatch

  /** What happens to a queue entry when its turn comes: process() is called on it, or it turns out
      that the connection has left PROCESSING since it was queued. */
  datatype Turn = NotReached | Called | AlreadyLeft

  /** One step of the pass. */
  function Next(s: Server, served: nat, calls: nat -> Call): (Server, nat)
    requires s.queue != []
  {
    if s.queue[0] !in s.waiting then (Pop(s), served)
    else (Serve(Pop(s), s.queue[0], calls(served)), served + 1)
  }

  /** How many entries the pass takes off the queue. */
  function Popped(s: Server, served: nat, calls: nat -> Call): nat
    requires served <= BUDGET
    decreases BUDGET - served, |s.queue|
  {
    if s.queue == [] || served == BUDGET then 0
    else
      var (next, n) := Next(s, served, calls);
      1 + Popped(next, n, calls)
  }

  /** How many process() calls the pass makes, counting those made before. */
  function CallsMade(s: Server, served: nat, calls: nat -> Call): (n: nat)
    requires served <= BUDGET
    ensures served <= n <= 64
    decreases BUDGET - served, |s.queue|
  {
    if s.queue == [] || served == BUDGET then served
    else
      var (next, n) := Next(s, served, calls);
      CallsMade(next, n, calls)
  }

  /** The turn of the entry at index `k` in the pass. */
  function TurnInPass(s: Server, served: nat, calls: nat -> Call, k: nat): Turn
    requires served <= BUDGET
    decreases BUDGET - served, |s.queue|
  {
    if s.queue == [] || served == BUDGET then NotReached
    else if k == 0 then (if s.queue[0] in s.waiting then Called else AlreadyLeft)
    else
      var (next, n) := Next(s, served, calls);
      TurnInPass(next, n, calls, k - 1)
  }

  /** The state of the pass when the entry at index `k` has its turn, and the calls made by then. */
  function AtTurn(s: Server, served: nat, calls: nat -> Call, k: nat): (Server, nat)
    requires served <= BUDGET
    decreases BUDGET - served, |s.queue|
  {
    if k == 0 || s.queue == [] || served == BUDGET then (s, served)
    else
      var (next, n) := Next(s, served, calls);
      AtTurn(next, n, calls, k - 1)
  }

  lemma FinalizeKeepsQueue(s: Server, id: Id, now: int)
    ensures Finalize(s, id, now).queue == s.queue
  {
    hide MaskOf;
    if id in s.heap {
      AddPollFdEffect(s, s.heap[id].fd, INPUT_OUTPUT);
      AddPollFdEffect(s, s.heap[id].fd, NOTHING);
      RegisterKeepsQueue(AddPollFd(s, s.heap[id].fd, NOTHING), id, now);
      DropKeepsQueue(s, s.heap[id].fd);
    }
  }

  lemma RegisterKeepsQueue(s: Server, id: Id, now: int)
    ensures Register(s, id, now).queue == s.queue
  {
    hide AddPollFd;
    if id in s.heap {
      var pipe := s.heap[id].pipe;
      AddPollFdEffect(s.(pipes := s.pipes[pipe := id], starts := s.starts[pipe := now]), pipe, INPUT);
    }
  }

  lemma DropKeepsQueue(s: Server, fd: Fd)
    ensures DropConnection(s, fd).queue == s.queue
  {
    hide Unregister, ReleasePipe;
    if fd in s.connections && s.connections[fd] in s.heap {
      var id := s.connections[fd];
      UnregisterKeepsQueue(s, s.heap[id].pipe);
      ReleaseKeepsQueue(Dequeue(Unregister(s, s.heap[id].pipe), id), id);
    }
  }

  lemma UnregisterKeepsQueue(s: Server, pipe: Fd)
    ensures Unregister(s, pipe).queue == s.queue
  {}

  lemma ReleaseKeepsQueue(s: Server, id: Id)
    ensures ReleasePipe(s, id).queue == s.queue
  {
    if id in s.heap && s.heap[id].pipe >= 0 {
    } else {
    }
  }

  lemma ServeGrowsQueue(s: Server, id: Id, call: Call)
    ensures s.queue <= Serve(s, id, call).queue
  {
    ServeQueue(s, id, call);
    hide Serve;
  }

  lemma ServeQueue(s: Server, id: Id, call: Call)
    ensures Serve(s, id, call).queue == s.queue || Serve(s, id, call).queue == s.queue + [id]
  {
    ProcessKeepsQueue(s, id, call);
    hide Process, Finalize;
    var s1 := Process(s, id, call);
    if id in s1.heap && !s1.heap[id].state.PROCESSING? {
      FinalizeKeepsQueue(Dequeue(s1, id), id, call.registered);
    }
  }

  lemma ProcessKeepsQueue(s: Server, id: Id, call: Call)
    ensures Process(s, id, call).queue == s.queue
  {
    hide Processed;
    if id in s.heap {
      ProcessIgnoresWaiting(s, id, call);
    }
  }

  /** A step of the pass takes the first entry off and at most puts it back at the end. */
  lemma NextQueue(s: Server, served: nat, calls: nat -> Call)
    requires s.queue != []
    ensures s.queue[1..] <= Next(s, served, calls).0.queue
  {
    hide Serve;
    ServeGrowsQueue(Pop(s), s.queue[0], calls(served));
  }

  lemma ShiftedOn(queue: seq<Id>, next: seq<Id>, last: seq<Id>, n: nat)
    requires 0 < n < |queue| && queue[1..] <= next && next[n - 1..] <= last
    ensures queue[n..] <= last
  {
    assert queue[n..] == queue[1..][n - 1..];
    assert next[..|queue| - 1] == queue[1..];
    assert queue[n..] <= next[n - 1..];
  }

  /** The pass reaches at least as many entries as the budget allows calls; what it does not reach
      moves up by the number of entries taken off. */
  lemma {:induction false} PassShiftsQueue(s: Server, served: nat, calls: nat -> Call)
    requires served <= BUDGET
    ensures var n := Popped(s, served, calls);
            && (n < |s.queue| ==> n >= BUDGET - served && s.queue[n..] <= RoundRobin(s, served, calls).queue)
    decreases BUDGET - served, |s.queue|
  {
    hide Serve, Process;
    if s.queue != [] && served < BUDGET {
      var (next, m) := Next(s, served, calls);
      NextQueue(s, served, calls);
      PassShiftsQueue(next, m, calls);
      var n := Popped(s, served, calls);
      hide Next, RoundRobin;
      if n < |s.queue| {
        ShiftedOn(s.queue, next.queue, RoundRobin(next, m, calls).queue, n);
      }
    }
  }

  /** An entry among the ones taken off has its turn. */
  lemma {:induction false} ReachedHasTurn(s: Server, served: nat, calls: nat -> Call, k: nat)
    requires served <= BUDGET && k < Popped(s, served, calls)
    ensures !TurnInPass(s, served, calls, k).NotReached?
    decreases BUDGET - served, |s.queue|
  {
    hide Serve;
    if k > 0 {
      var (next, n) := Next(s, served, calls);
      ReachedHasTurn(next, n, calls, k - 1);
    }
  }

  /** A turn is a point of the pass: the entry looked at there is the one that was at index `k`, it
      is called exactly if it is still waiting, and the pass goes on from there. */
  lemma {:induction false} TurnIsReached(s: Server, served: nat, calls: nat -> Call, k: nat)
    requires served <= BUDGET && k < |s.queue| && !TurnInPass(s, served, calls, k).NotReached?
    ensures var (t, n) := AtTurn(s, served, calls, k);
            && t.queue != [] && t.queue[0] == s.queue[k] && n < BUDGET
            && (TurnInPass(s, served, calls, k).Called? <==> s.queue[k] in t.waiting)
            && RoundRobin(s, served, calls) == RoundRobin(t, n, calls)
    decreases BUDGET - served, |s.queue|
  {
    hide Serve;
    if k > 0 {
      var (next, n) := Next(s, served, calls);
      NextQueue(s, served, calls);
      assert next.queue[k - 1] == s.queue[1..][k - 1];
      TurnIsReached(next, n, calls, k - 1);
      PassGoesOn(s, served, calls);
      hide Next, RoundRobin;
    }
  }

  lemma PassGoesOn(s: Server, served: nat, calls: nat -> Call)
    requires s.queue != [] && served < BUDGET
    ensures var (next, n) := Next(s, served, calls); RoundRobin(s, served, calls) == RoundRobin(next, n, calls)
  {
    hide Serve;
  }

  lemma {:induction false} InvAtTurn(s: Server, served: nat, calls: nat -> Call, k: nat)
    requires Inv(s) && served <= BUDGET
    ensures Inv(AtTurn(s, served, calls, k).0)
    decreases BUDGET - served, |s.queue|
  {
    hide Good, Serve;
    if k > 0 && s.queue != [] && served < BUDGET {
      var (next, n) := Next(s, served, calls);
      if s.queue[0] in s.waiting {
        ServeGood(s, calls(served));
      } else {
        TakenGood(s);
      }
      InvAtTurn(next, n, calls, k - 1);
    }
  }

  /** What a turn means: the connection is called exactly if, when its turn comes, it is live and
      PROCESSING. */
  lemma TurnMeans(s: Server, served: nat, calls: nat -> Call, k: nat)
    requires Inv(s) && served <= BUDGET && k < |s.queue| && !TurnInPass(s, served, calls, k).NotReached?
    ensures var t := AtTurn(s, served, calls, k).0;
            TurnInPass(s, served, calls, k).Called? <==>
            s.queue[k] in t.heap && t.heap[s.queue[k]].state.PROCESSING?
  {
    hide Inv, TurnInPass, AtTurn;
    TurnIsReached(s, served, calls, k);
    InvAtTurn(s, served, calls, k);
    WaitsIffProcessing(AtTurn(s, served, calls, k).0, s.queue[k]);
  }

  lemma WaitsIffProcessing(s: Server, id: Id)
    requires Inv(s)
    ensures id in s.waiting <==> id in s.heap && s.heap[id].state.PROCESSING?
  {
    hide Good;
    if id in s.heap {
      InvMeans(s, id);
    } else if id in s.waiting {
      WaitingIsProcessing(s, id);
    }
  }

  // ---------------------------------------------------------------- between passes

  lemma StartWritingKeepsQueue(s: Server, id: Id)
    ensures StartWriting(s, id).queue == s.queue
  {
    hide AddPollFd;
    if id in s.heap {
      AddPollFdEffect(Set(s, id, s.heap[id].(state := WRITING)), s.heap[id].fd, INPUT_OUTPUT);
    }
  }

  lemma HandleConnectionGrowsQueue(s: Server, id: Id, ev: Events, env: IoEnv)
    ensures s.queue <= HandleConnection(s, id, ev, env).queue
  {
    hide AfterIo, AddPollFd, DropConnection, MaskOf, Enqueue;
    if id in s.heap {
      var c := AfterIo(s.heap[id], ev, env);
      var s1 := Set(s, id, c);
      var s2 := if ev.input && c.state.PROCESSING? then Enqueue(s1, id) else s1;
      EnqueueGrowsQueue(s1, id);
      AddPollFdEffect(s2, c.fd, MaskOf(c.state));
      DropKeepsQueue(s2, c.fd);
    }
  }

  lemma EnqueueGrowsQueue(s: Server, id: Id)
    ensures s.queue <= Enqueue(s, id).queue
  {
  }

  lemma {:induction false} AcceptAllKeepsQueue(s: Server, accepts: seq<Accepted>)
    ensures AcceptAll(s, accepts).queue == s.queue
    decreases |accepts|
  {
    if accepts != [] {
      AcceptOneKeepsQueue(s, accepts[0]);
      hide AcceptOne;
      AcceptAllKeepsQueue(AcceptOne(s, accepts[0]), accepts[1..]);
    }
  }

  lemma AcceptOneKeepsQueue(s: Server, a: Accepted)
    ensures AcceptOne(s, a).queue == s.queue
  {
    hide AddPollFd;
    if a.fd >= 0 && a.fd !in s.open && a.id !in s.heap {
      var s1 := Set(s, a.id, Conn(a.fd, READING, a.now, -1, a.hasConf));
      AddPollFdEffect(s1.(connections := s1.connections[a.fd := a.id], open := s1.open + {a.fd}), a.fd, INPUT);
    }
  }

  /** New entries only ever join at the end. */
  lemma {:induction false} BatchGrowsQueue(s: Server, events: seq<Event>)
    ensures s.queue <= HandleBatch(s, events).queue
    decreases |events|
  {
    if events != [] {
      EventGrowsQueue(s, events[0]);
      hide HandleEvent;
      BatchGrowsQueue(HandleEvent(s, events[0]), events[1..]);
    }
  }

  lemma FinishKeepsQueue(s: Server, pipe: Fd, id: Id)
    ensures StartWriting(Unregister(s, pipe), id).queue == s.queue
    ensures StartWriting(ReleasePipe(Unregister(s, pipe), id), id).queue == s.queue
  {
    hide StartWriting;
    StartWritingKeepsQueue(Unregister(s, pipe), id);
    StartWritingKeepsQueue(ReleasePipe(Unregister(s, pipe), id), id);
  }

  lemma EventGrowsQueue(s: Server, e: Event)
    ensures s.queue <= HandleEvent(s, e).queue
  {
    hide DropConnection, AcceptAll, HandleConnection, StartWriting, Unregister, ReleasePipe;
    DropKeepsQueue(s, e.fd);
    AcceptAllKeepsQueue(s, e.accepts);
    if e.fd in s.pipes {
      FinishKeepsQueue(s, e.fd, s.pipes[e.fd]);
    }
    if e.fd in s.connections {
      HandleConnectionGrowsQueue(s, s.connections[e.fd], e.events, e.io);
    }
  }

  lemma {:induction false} TimeOutAllKeepsQueue(s: Server, fds: seq<Fd>)
    ensures TimeOutAll(s, fds).queue == s.queue
    decreases |fds|
  {
    hide Finalize;
    if fds != [] {
      if fds[0] in s.connections && s.connections[fds[0]] in s.heap {
        var id := s.connections[fds[0]];
        FinalizeKeepsQueue(Dequeue(Set(s, id, s.heap[id].(state := WRITING)), id), id, 0);
      }
      TimeOutAllKeepsQueue(TimeOut(s, fds[0]), fds[1..]);
    }
  }

  lemma {:induction false} KillAllKeepsQueue(s: Server, fds: seq<Fd>)
    ensures KillAll(s, fds).queue == s.queue
    decreases |fds|
  {
    hide StartWriting, Unregister, ReleasePipe;
    if fds != [] {
      if fds[0] in s.pipes {
        FinishKeepsQueue(s, fds[0], s.pipes[fds[0]]);
      }
      KillAllKeepsQueue(Kill(s, fds[0]), fds[1..]);
    }
  }

  lemma RestGrowsQueue(s: Server, it: Iteration)
    ensures AfterPass(s, it).queue <= Iterate(s, it).queue
  {
    hide RoundRobin, TimeOutAll, KillAll, HandleBatch;
    var s1 := AfterPass(s, it);
    TimeOutAllKeepsQueue(s1.(lastSweep := it.idleNow), it.idle);
    KillAllKeepsQueue(SweepIdle(s1, it.idleNow, it.idle), it.overdue);
    BatchGrowsQueue(AfterSweeps(s, it), it.events);
  }

  // ---------------------------------------------------------------- bounded waiting

  /** The turn of the entry at index `k`, over several iterations of the loop. */
  function TurnWithin(s: Server, its: seq<Iteration>, k: nat): Turn
    decreases |its|
  {
    if its == [] then NotReached
    else
      var turn := TurnInPass(s, 0, its[0].calls, k);
      var n := Popped(s, 0, its[0].calls);
      if !turn.NotReached? || n > k then turn else TurnWithin(Iterate(s, its[0]), its[1..], k - n)
  }

  /** The state in which that turn comes. */
  function StateWithin(s: Server, its: seq<Iteration>, k: nat): Server
    decreases |its|
  {
    if its == [] then s
    else
      var n := Popped(s, 0, its[0].calls);
      if !TurnInPass(s, 0, its[0].calls, k).NotReached? || n > k then AtTurn(s, 0, its[0].calls, k).0
      else StateWithin(Iterate(s, its[0]), its[1..], k - n)
  }

  /** Bounded waiting: whatever else is queued, accepted or dropped meanwhile, the entry at index
      `k` has its turn within k / 64 + 1 passes, and is called then exactly if it is still waiting. */
  lemma {:induction false} BoundedWaiting(s: Server, its: seq<Iteration>, k: nat)
    requires k < |s.queue| && |its| > k / 64
    ensures var t := StateWithin(s, its, k);
            && !TurnWithin(s, its, k).NotReached? && t.queue != [] && t.queue[0] == s.queue[k]
            && (TurnWithin(s, its, k).Called? <==> s.queue[k] in t.waiting)
    decreases |its|
  {
    hide RoundRobin, Popped, TurnInPass, HandleBatch, AfterSweeps, AtTurn;
    var calls := its[0].calls;
    var n := Popped(s, 0, calls);
    PassShiftsQueue(s, 0, calls);
    if k < n {
      ReachedHasTurn(s, 0, calls, k);
    }
    if !TurnInPass(s, 0, calls, k).NotReached? {
      TurnIsReached(s, 0, calls, k);
    } else {
      RestGrowsQueue(s, its[0]);
      var next := Iterate(s, its[0]);
      assert s.queue[n..] <= next.queue;
      assert next.queue[k - n] == s.queue[n..][k - n] == s.queue[k];
      BoundedWaiting(next, its[1..], k - n);
    }
  }

  /** In a safe run the queued connection is called then exactly if it is live and PROCESSING. */
  lemma BoundedService(s: Server, its: seq<Iteration>, k: nat)
    requires Inv(s) && SafeRun(s, its) && k < |s.queue| && |its| > k / 64
    ensures var t := StateWithin(s, its, k);
            && Inv(t) && t.queue != [] && t.queue[0] == s.queue[k]
            && (TurnWithin(s, its, k).Called? <==> s.queue[k] in t.heap && t.heap[s.queue[k]].state.PROCESSING?)
  {
    hide Inv, SafeRun, TurnWithin, StateWithin;
    BoundedWaiting(s, its, k);
    InvWithin(s, its, k);
    WaitsIffProcessing(StateWithin(s, its, k), s.queue[k]);
  }

  lemma {:induction false} InvWithin(s: Server, its: seq<Iteration>, k: nat)
    requires Inv(s) && SafeRun(s, its)
    ensures Inv(StateWithin(s, its, k))
    decreases |its|
  {
    hide Inv, Popped, TurnInPass, HandleBatch, AfterSweeps, AtTurn, NoFatal;
    if its != [] {
      InvAtTurn(s, 0, its[0].calls, k);
      var n := Popped(s, 0, its[0].calls);
      if n <= k {
        SweepsKeepInv(s, its[0]);
        BatchKeepsInv(AfterSweeps(s, its[0]), its[0].events);
        InvWithin(Iterate(s, its[0]), its[1..], k - n);
      }
    }
  }

  /** A pass makes at most 64 calls, and it stops early only when the queue is empty. */
  lemma {:induction false} PassUsesBudget(s: Server, served: nat, calls: nat -> Call)
    requires served <= BUDGET
    ensures RoundRobin(s, served, calls).queue == [] || CallsMade(s, served, calls) == 64
    decreases BUDGET - served, |s.queue|
  {
    hide Serve;
    if s.queue != [] && served < BUDGET {
      var (next, n) := Next(s, served, calls);
      PassUsesBudget(next, n, calls);
    }
  }
}
