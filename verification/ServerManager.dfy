/** ServerManager as it runs: an object whose handlers update the queue, the sets and the tables in
    place. Every handler is proved to do what the function of that name in EventLoop says, and to
    follow no reference to a deleted connection on the way. */
module ServerManagers {
  import opened ConnectionIntake
  import opened EventLoop
  import opened EventLoopPointers
  import opened EventLoopInvariant
  import opened EventLoopBatch
  import opened EventLoopTiming
  import opened IntSets

  predicate Ascending(fds: seq<Fd>) {
    forall i, j :: 0 <= i < j < |fds| ==> fds[i] < fds[j]
  }

  lemma AscendingSnoc(fds: seq<Fd>, fd: Fd)
    requires Ascending(fds) && forall x :: x in fds ==> x < fd
    ensures Ascending(fds + [fd])
  {
    forall i | 0 <= i < |fds| ensures fds[i] < fd {
      assert fds[i] in fds;
    }
  }

  /** What one iteration of run() meets. */
  datatype Round = Round(calls: nat -> Call, idleNow: int, clock: Fd -> int, cgiNow: int, events: seq<Event>)

  /** The iteration is the one this round brings about: the idle sweep, if it is due, lists the idle
      connections and the CGI sweep the overdue pipes, each in the order of its table. */
  ghost predicate Brings(s: Server, round: Round, it: Iteration) {
    && it.calls == round.calls && it.idleNow == round.idleNow && it.clock == round.clock
    && it.cgiNow == round.cgiNow && it.events == round.events
    && var s1 := AfterPass(s, it);
       var s2 := SweepIdle(s1, it.idleNow, it.idle);
       && Ascending(it.idle) && Ascending(it.overdue)
       && (forall fd :: fd in it.idle <==> it.idleNow - s1.lastSweep >= SWEEP_INTERVAL_S && Idle(s1, fd, it.clock))
       && (forall p :: p in it.overdue <==> Overdue(s2, p, it.cgiNow))
  }

  ghost predicate AllBring(s: Server, rounds: seq<Round>, its: seq<Iteration>)
    requires |its| == |rounds|
    decreases |rounds|
  {
    rounds == [] || (Brings(s, rounds[0], its[0]) && AllBring(Iterate(s, its[0]), rounds[1..], its[1..]))
  }

  /** No round takes longer than `d` seconds, counted from one CGI sweep to the next; `t` is the time
      of the last CGI sweep before the first round. */
  ghost predicate InTime(rounds: seq<Round>, t: int, d: int)
    decreases |rounds|
  {
    rounds == [] ||
    var round := rounds[0];
    && round.cgiNow <= t + d && (forall fd :: round.clock(fd) <= round.cgiNow)
    && (forall n: nat :: Prompt(round.calls(n), t, d) && round.calls(n).registered <= round.cgiNow)
    && InTime(rounds[1..], round.cgiNow, d)
  }

  /** The sweeps of the server list what the deadline theorem asks them to list. */
  lemma {:induction false} RoundsArePaced(s: Server, rounds: seq<Round>, its: seq<Iteration>, t: int, d: int)
    requires |its| == |rounds| && AllBring(s, rounds, its) && InTime(rounds, t, d)
    ensures AllPaced(s, its, t, d)
    decreases |rounds|
  {
    hide RoundRobin, TimeOutAll, Iterate, Idle, Overdue, Prompt;
    if rounds != [] {
      assert Brings(s, rounds[0], its[0]);
      RoundsArePaced(Iterate(s, its[0]), rounds[1..], its[1..], its[0].cgiNow, d);
    }
  }

  class ServerManager {
    var heap: map<Id, Conn>
    var connections: map<Fd, Id>
    var queue: seq<Id>
    var waiting: set<Id>
    var pipes: map<Fd, Id>
    var starts: map<Fd, int>
    var fdEvents: map<Fd, Mask>
    var interest: map<Fd, Mask>
    var openFds: set<Fd>
    var listeners: set<Fd>
    var lastSweep: int
    var ctlFailed: bool

    function Model(): Server
      reads this
    {
      Server(heap, connections, queue, waiting, pipes, starts, fdEvents, interest, openFds, listeners,
             lastSweep, false, ctlFailed)
    }

    constructor (sockets: set<Fd>)
      ensures Model() == Start(sockets)
    {
      heap, connections, queue, waiting, pipes, starts := map[], map[], [], {}, map[], map[];
      fdEvents := map fd | fd in sockets :: INPUT;
      interest := map fd | fd in sockets :: INPUT;
      openFds, listeners, lastSweep, ctlFailed := sockets, sockets, 0, false;
    }

    // -------------------------------------------------------------- the tables

    method AddPollFd(fd: Fd, mask: Mask)
      modifies this
      ensures Model() == EventLoop.AddPollFd(old(Model()), fd, mask)
    {
      if fd in fdEvents {
        fdEvents := fdEvents[fd := mask];
        if fd in interest {
          interest := interest[fd := mask];
        } else {
          ctlFailed := true;
        }
        return;
      }
      if fd in interest || fd !in openFds {
        ctlFailed := true;
        return;
      }
      interest := interest[fd := mask];
      fdEvents := fdEvents[fd := mask];
    }

    method EnqueueProcessing(id: Id)
      modifies this
      ensures Model() == Enqueue(old(Model()), id)
    {
      if id !in waiting {
        waiting := waiting + {id};
        queue := queue + [id];
      }
    }

    method DequeueProcessing(id: Id)
      modifies this
      ensures Model() == Dequeue(old(Model()), id)
    {
      waiting := waiting - {id};
    }

    method UnregisterCgiPipe(pipe: Fd)
      modifies this
      ensures Model() == Unregister(old(Model()), pipe)
    {
      if pipe < 0 {
        return;
      }
      interest := interest - {pipe};
      fdEvents := fdEvents - {pipe};
      pipes := pipes - {pipe};
      starts := starts - {pipe};
    }

    method RegisterCgiPipe(id: Id, now: int)
      requires id in heap
      modifies this
      ensures Model() == Register(old(Model()), id, now)
    {
      var pipe := heap[id].pipe;
      if pipe < 0 {
        return;
      }
      pipes := pipes[pipe := id];
      starts := starts[pipe := now];
      AddPollFd(pipe, INPUT);
    }

    method CloseFd(fd: Fd)
      modifies this
      ensures Model() == Close(old(Model()), fd)
    {
      interest := interest - {fd};
      openFds := openFds - {fd};
    }

    /** delete _cgiInstance */
    method ReleaseCgi(id: Id)
      requires id in heap
      modifies this
      ensures Model() == ReleasePipe(old(Model()), id)
      ensures heap.Keys == old(heap.Keys) && connections == old(connections)
    {
      var pipe := heap[id].pipe;
      if pipe >= 0 {
        heap := heap[id := heap[id].(pipe := -1)];
        CloseFd(pipe);
      }
    }

    method SetState(id: Id, state: ConnState)
      requires id in heap
      modifies this`heap
      ensures Model() == Set(old(Model()), id, old(heap[id]).(state := state))
    {
      heap := heap[id := heap[id].(state := state)];
    }

    method DropConnection(fd: Fd)
      requires Pointers(Model())
      modifies this
      ensures Model() == EventLoop.DropConnection(old(Model()), fd)
    {
      if fd in connections {
        var id := connections[fd];
        UnregisterCgiPipe(heap[id].pipe);
        DequeueProcessing(id);
        ReleaseCgi(id);
        heap := heap - {id};
        connections := connections - {fd};
      }
      CloseFd(fd);
      fdEvents := fdEvents - {fd};
    }

    // -------------------------------------------------------------- events

    /** The call of handleRead and the rewind after it; true if one of them threw. */
    method ReadClient(id: Id, env: IoEnv) returns (threw: bool)
      requires id in heap
      modifies this`heap
      ensures Model() == Set(old(Model()), id, ReadPart(old(heap[id]), env).0)
      ensures threw == ReadPart(old(heap[id]), env).1
    {
      var c := heap[id];
      threw := false;
      if c.state.READING? {
        match env.read {
          case StillReading => c := c.(lastActivity := env.now);
          case RequestComplete => c := c.(lastActivity := env.now, state := PROCESSING);
          case RequestRefused => c := c.(lastActivity := env.now, state := WRITING);
          case ReadThrew =>
            threw := true;
            c := c.(lastActivity := env.now, state := WRITING);
          case PeerClosed => c := c.(state := FINISHED);
        }
      }
      if c.state.PROCESSING? && !env.resetOk {
        threw := true;
        c := c.(state := WRITING);
      }
      heap := heap[id := c];
    }

    method WriteClient(id: Id, env: IoEnv)
      requires id in heap
      modifies this`heap
      ensures Model() == Set(old(Model()), id, WritePart(old(heap[id]), env))
    {
      var c := heap[id];
      if c.state.WRITING? {
        c := c.(lastActivity := env.now);
        if env.write.WriteDone? {
          c := c.(state := FINISHED);
        }
      }
      heap := heap[id := c];
    }

    /** The try block of _handleConnection. */
    method ServeClient(id: Id, ev: Events, env: IoEnv)
      requires id in heap
      modifies this
      ensures var d := AfterIo(old(heap[id]), ev, env);
              var s1 := Set(old(Model()), id, d);
              Model() == if ev.input && d.state.PROCESSING? then Enqueue(s1, id) else s1
    {
      hide ReadPart, WritePart, AfterIo, Enqueue;
      ghost var s := Model();
      ghost var c := heap[id];
      ReadIsNotUndone(c, ev, env);
      IoInTwoParts(c, ev, env);
      SetSame(s, id);
      var threw := false;
      if ev.input {
        threw := ReadClient(id, env);
        if heap[id].state.PROCESSING? {
          EnqueueKeeps(Model(), id);
          EnqueueProcessing(id);
        }
      }
      if ev.output && !threw && heap[id].state.WRITING? {
        SetTwice(s, id, heap[id], WritePart(heap[id], env));
        WriteClient(id, env);
      }
    }

    lemma SetSame(s: Server, id: Id)
      requires id in s.heap
      ensures Set(s, id, s.heap[id]) == s
    {
      assert s.heap[id := s.heap[id]] == s.heap;
    }

    lemma SetTwice(s: Server, id: Id, c: Conn, d: Conn)
      ensures Set(Set(s, id, c), id, d) == Set(s, id, d)
    {}

    lemma IoInTwoParts(c: Conn, ev: Events, env: IoEnv)
      ensures var (c1, threw) := if ev.input then ReadPart(c, env) else (c, false);
              AfterIo(c, ev, env) == if ev.output && !threw && c1.state.WRITING? then WritePart(c1, env) else c1
    {}

    lemma ReadIsNotUndone(c: Conn, ev: Events, env: IoEnv)
      ensures ev.input ==> (AfterIo(c, ev, env).state.PROCESSING? <==> ReadPart(c, env).0.state.PROCESSING?)
    {}

    method HandleConnection(id: Id, ev: Events, env: IoEnv)
      requires Pointers(Model()) && id in heap
      modifies this
      ensures Model() == EventLoop.HandleConnection(old(Model()), id, ev, env)
    {
      hide AfterIo, Pointers, Enqueue, EventLoop.DropConnection, EventLoop.AddPollFd, MaskOf;
      ghost var s := Model();
      ServedPointers(s, id, ev, env);
      IoKeeps(heap[id], ev, env);
      EnqueueKeeps(Set(s, id, AfterIo(heap[id], ev, env)), id);
      ServeClient(id, ev, env);
      var fd := heap[id].fd;
      if heap[id].state.FINISHED? {
        DropConnection(fd);
      } else {
        AddPollFd(fd, MaskOf(heap[id].state));
      }
    }

    lemma ServedPointers(s: Server, id: Id, ev: Events, env: IoEnv)
      requires Pointers(s) && id in s.heap
      ensures var s1 := Set(s, id, AfterIo(s.heap[id], ev, env));
              Pointers(s1) && Pointers(Enqueue(s1, id))
    {
      hide AfterIo, Pointers;
      var d := AfterIo(s.heap[id], ev, env);
      IoKeeps(s.heap[id], ev, env);
      LiveShape(s, id);
      SetPointers(s, id, d);
      EnqueuePointers(Set(s, id, d), id);
    }

    method AcceptNewConnections(accepts: seq<Accepted>)
      modifies this
      ensures Model() == AcceptAll(old(Model()), accepts)
    {
      hide EventLoop.AddPollFd;
      var i := 0;
      assert accepts[0..] == accepts;
      while i < |accepts|
        invariant 0 <= i <= |accepts|
        invariant AcceptAll(Model(), accepts[i..]) == AcceptAll(old(Model()), accepts)
      {
        var a := accepts[i];
        assert accepts[i..][0] == a && accepts[i..][1..] == accepts[i + 1..];
        ghost var s := Model();
        if a.fd >= 0 && a.fd !in openFds && a.id !in heap {
          heap := heap[a.id := Conn(a.fd, READING, a.now, -1, a.hasConf)];
          openFds := openFds + {a.fd};
          connections := connections[a.fd := a.id];
          AddPollFd(a.fd, INPUT);
        }
        assert Model() == AcceptOne(s, a);
        i := i + 1;
      }
    }

    method HandleCgiPipeEvent(pipe: Fd, ev: Events, outcome: PipeOutcome)
      requires Pointers(Model())
      modifies this
      ensures Model() == PipeEvent(old(Model()), pipe, ev, outcome)
    {
      if pipe !in pipes {
        return;
      }
      var id := pipes[pipe];
      var done, threw := false, false;
      if ev.hangup {
        done := true;
      } else if ev.input {
        threw := outcome.PipeThrew?;
        done := outcome.OutputDone?;
      }
      if threw {
        SetState(id, WRITING);
        UnregisterCgiPipe(pipe);
        AddPollFd(heap[id].fd, INPUT_OUTPUT);
        return;
      }
      if done {
        UnregisterCgiPipe(pipe);
        ReleaseCgi(id);
        SetState(id, WRITING);
        AddPollFd(heap[id].fd, INPUT_OUTPUT);
      }
    }

    method HandleEvent(e: Event)
      requires Pointers(Model())
      modifies this
      ensures Model() == EventLoop.HandleEvent(old(Model()), e) && Pointers(Model())
    {
      hide Pointers, PipeEvent, EventLoop.DropConnection, EventLoop.HandleConnection, AcceptAll;
      HandleEventPointers(Model(), e);
      if e.fd in pipes {
        HandleCgiPipeEvent(e.fd, e.events, e.pipe);
        return;
      }
      if e.events.hangup {
        if e.fd !in listeners {
          DropConnection(e.fd);
        }
        return;
      }
      if e.fd in listeners {
        AcceptNewConnections(e.accepts);
        return;
      }
      if e.fd in connections {
        LiveConnection(Model(), e.fd);
        HandleConnection(connections[e.fd], e.events, e.io);
      }
    }

    method HandleEvents(events: seq<Event>)
      requires Pointers(Model())
      modifies this
      ensures Model() == HandleBatch(old(Model()), events) && Pointers(Model())
    {
      hide Pointers, EventLoop.HandleEvent;
      assert events[0..] == events;
      for i := 0 to |events|
        invariant Pointers(Model())
        invariant HandleBatch(Model(), events[i..]) == HandleBatch(old(Model()), events)
      {
        assert events[i..][0] == events[i] && events[i..][1..] == events[i + 1..];
        HandleEvent(events[i]);
      }
    }

    // -------------------------------------------------------------- the scheduler

    /** conn->process() on a live connection. */
    method ProcessConnection(id: Id, call: Call)
      requires id in heap
      modifies this
      ensures Model() == Process(old(Model()), id, call) && id in heap
    {
      var c := heap[id];
      if c.state.PROCESSING? {
        c := c.(lastActivity := call.now);
        match call.outcome {
          case StaysProcessing =>
          case Answers => c := c.(state := WRITING);
          case StartsCgi(pipe) =>
            if pipe < 0 || pipe in openFds || !c.hasConf {
              c := c.(state := WRITING);
            } else {
              openFds := openFds + {pipe};
              c := c.(state := WAITING_FOR_CGI, pipe := pipe);
            }
        }
        heap := heap[id := c];
      }
    }

    method FinalizeProcessed(id: Id, now: int)
      requires Pointers(Model()) && id in heap
      modifies this
      ensures Model() == Finalize(old(Model()), id, now)
    {
      hide Register, EventLoop.DropConnection;
      var fd := heap[id].fd;
      match heap[id].state {
        case WRITING => AddPollFd(fd, INPUT_OUTPUT);
        case WAITING_FOR_CGI =>
          AddPollFd(fd, NOTHING);
          RegisterCgiPipe(id, now);
        case FINISHED => DropConnection(fd);
        case _ =>
      }
    }

    /** One pass; it makes at most 64 calls and ends although stale entries cost no budget. */
    method RunRoundRobin(calls: nat -> Call)
      requires Pointers(Model())
      modifies this
      ensures Model() == RoundRobin(old(Model()), 0, calls) && Pointers(Model())
    {
      hide Pointers, Process, Finalize, PointersBut;
      var processed := 0;
      while queue != [] && processed < BUDGET
        invariant processed <= BUDGET && Pointers(Model())
        invariant RoundRobin(Model(), processed, calls) == RoundRobin(old(Model()), 0, calls)
        decreases BUDGET - processed, |queue|
      {
        ghost var s := Model();
        PopPointers(s);
        var id := queue[0];
        queue := queue[1..];
        assert Model() == Pop(s);
        if id !in waiting {
          continue;
        }
        ServePointers(Pop(s), id, calls(processed));
        ButLive(Pop(s), id);
        ProcessPointers(Pop(s), id, calls(processed));
        ProcessConnection(id, calls(processed));
        ghost var s1 := Model();
        if heap[id].state.PROCESSING? {
          queue := queue + [id];
        } else {
          DequeueProcessing(id);
          ButLive(s1, id);
          FinalizeProcessed(id, calls(processed).registered);
        }
        assert Model() == Serve(Pop(s), id, calls(processed));
        processed := processed + 1;
      }
    }

    lemma ButLive(s: Server, id: Id)
      requires PointersBut(s, id)
      ensures id in s.heap && Pointers(Dequeue(s, id))
    {}

    // -------------------------------------------------------------- the sweeps

    method SweepTimeouts(now: int, clock: Fd -> int) returns (ghost idle: seq<Fd>)
      requires Pointers(Model())
      modifies this
      ensures Model() == SweepIdle(old(Model()), now, idle) && Pointers(Model())
      ensures Ascending(idle)
      ensures forall fd :: fd in idle <==> now - old(lastSweep) >= SWEEP_INTERVAL_S && Idle(old(Model()), fd, clock)
    {
      hide Pointers, Finalize;
      idle := [];
      if now - lastSweep < SWEEP_INTERVAL_S {
        return;
      }
      LastSweepPointers(Model(), now);
      lastSweep := now;
      var toDrop := IdleConnections(clock);
      idle := toDrop;
      assert toDrop[0..] == toDrop;
      ghost var s0 := Model();
      for i := 0 to |toDrop|
        invariant Pointers(Model())
        invariant TimeOutAll(Model(), toDrop[i..]) == TimeOutAll(s0, toDrop)
      {
        assert toDrop[i..][0] == toDrop[i] && toDrop[i..][1..] == toDrop[i + 1..];
        ghost var s := Model();
        TimeOutPointers(s, toDrop[i]);
        if toDrop[i] in connections {
          LiveConnection(s, toDrop[i]);
          var id := connections[toDrop[i]];
          SetPointers(s, id, s.heap[id].(state := WRITING));
          SetState(id, WRITING);
          DequeuePointers(Model(), id);
          DequeueProcessing(id);
          FinalizeProcessed(id, 0);
        }
        assert Model() == TimeOut(s, toDrop[i]);
      }
    }

    method IdleConnections(clock: Fd -> int) returns (fds: seq<Fd>)
      requires Pointers(Model())
      ensures Ascending(fds) && forall fd :: fd in fds <==> Idle(Model(), fd, clock)
    {
      fds := [];
      var keys := connections.Keys;
      while keys != {}
        invariant keys <= connections.Keys && Ascending(fds)
        invariant forall k, fd :: k in keys && fd in connections && fd !in keys ==> fd < k
        invariant forall fd :: fd in fds <==> fd in connections && fd !in keys && Idle(Model(), fd, clock)
        decreases |keys|
      {
        SmallestExists(keys);
        var fd :| fd in keys && forall other :: other in keys ==> fd <= other;
        if HasTimedOut(heap[connections[fd]], CONNECTION_TIMEOUT_S, clock(fd)) {
          AscendingSnoc(fds, fd);
          fds := fds + [fd];
        }
        keys := keys - {fd};
      }
    }

    method SweepCgiTimeouts(now: int) returns (ghost overdue: seq<Fd>)
      requires Pointers(Model())
      modifies this
      ensures Model() == SweepCgi(old(Model()), overdue) && Pointers(Model())
      ensures Ascending(overdue) && forall p :: p in overdue <==> Overdue(old(Model()), p, now)
    {
      hide Pointers, Kill;
      overdue := [];
      if pipes == map[] {
        NoPipesNoStarts(Model());
        return;
      }
      var toKill := OverduePipes(now);
      overdue := toKill;
      assert toKill[0..] == toKill;
      for i := 0 to |toKill|
        invariant Pointers(Model())
        invariant KillAll(Model(), toKill[i..]) == KillAll(old(Model()), toKill)
      {
        assert toKill[i..][0] == toKill[i] && toKill[i..][1..] == toKill[i + 1..];
        KillPointers(Model(), toKill[i]);
        KillCgi(toKill[i]);
      }
    }

    lemma NoPipesNoStarts(s: Server)
      requires Pointers(s) && s.pipes == map[]
      ensures forall p :: p !in s.starts
    {
      assert s.starts.Keys == s.pipes.Keys;
    }

    method KillCgi(pipe: Fd)
      requires Pointers(Model())
      modifies this
      ensures Model() == Kill(old(Model()), pipe)
    {
      if pipe in pipes {
        var id := pipes[pipe];
        UnregisterCgiPipe(pipe);
        if heap[id].hasConf {
          ReleaseCgi(id);
        }
        SetState(id, WRITING);
        AddPollFd(heap[id].fd, INPUT_OUTPUT);
      }
    }

    method OverduePipes(now: int) returns (fds: seq<Fd>)
      ensures Ascending(fds) && forall p :: p in fds <==> Overdue(Model(), p, now)
    {
      fds := [];
      var keys := starts.Keys;
      while keys != {}
        invariant keys <= starts.Keys && Ascending(fds)
        invariant forall k, p :: k in keys && p in starts && p !in keys ==> p < k
        invariant forall p :: p in fds <==> p in starts && p !in keys && Overdue(Model(), p, now)
        decreases |keys|
      {
        SmallestExists(keys);
        var p :| p in keys && forall other :: other in keys ==> p <= other;
        if now - starts[p] >= CGI_TIMEOUT_S {
          AscendingSnoc(fds, p);
          fds := fds + [p];
        }
        keys := keys - {p};
      }
    }

    // -------------------------------------------------------------- run()

    method RunOnce(round: Round) returns (ghost it: Iteration)
      requires Pointers(Model())
      modifies this
      ensures Pointers(Model()) && Brings(old(Model()), round, it) && Model() == Iterate(old(Model()), it)
    {
      hide Pointers, RoundRobin, TimeOutAll, KillAll, HandleBatch, Idle, Overdue, Ascending;
      RunRoundRobin(round.calls);
      ghost var idle := SweepTimeouts(round.idleNow, round.clock);
      ghost var overdue := SweepCgiTimeouts(round.cgiNow);
      HandleEvents(round.events);
      it := Iteration(round.calls, round.idleNow, round.clock, idle, round.cgiNow, overdue, round.events);
    }

    /** The loop itself, for as long as the server is kept running: whatever the rounds bring, no
        deleted connection is used, and the invariant of the event loop holds throughout exactly
        if no event is fatal when it is handled. */
    method Run(rounds: seq<Round>) returns (ghost its: seq<Iteration>)
      requires Pointers(Model())
      modifies this
      ensures Pointers(Model()) && |its| == |rounds|
      ensures AllBring(old(Model()), rounds, its) && Model() == EventLoop.Run(old(Model()), its)
      ensures Inv(old(Model())) ==> (AlwaysInv(old(Model()), its) <==> SafeRun(old(Model()), its))
      ensures Inv(old(Model())) && SafeRun(old(Model()), its) ==> Inv(Model())
      ensures forall t, d :: Inv(old(Model())) && SafeRun(old(Model()), its) && AllOnTime(old(Model()), t, d) &&
                             InTime(rounds, t, d) && CGI_TIMEOUT_S + 2 * d <= CONNECTION_TIMEOUT_S ==>
                               DeadlineKept(old(Model()), its)
    {
      hide Pointers, Iterate, Inv, SafeRun, AlwaysInv, Brings, AllOnTime, InTime, DeadlineKept;
      its := [];
      ghost var s0 := Model();
      for i := 0 to |rounds|
        invariant Pointers(Model()) && |its| == i
        invariant AllBring(s0, rounds[..i], its) && Model() == EventLoop.Run(s0, its)
      {
        ghost var s := Model();
        ghost var it := RunOnce(rounds[i]);
        RunSnoc(s0, its, it);
        BringSnoc(s0, rounds[..i], its, rounds[i], it);
        assert rounds[..i + 1] == rounds[..i] + [rounds[i]];
        its := its + [it];
      }
      assert rounds[..|rounds|] == rounds;
      if Inv(s0) {
        RunIff(s0, its);
      }
      if Inv(s0) && SafeRun(s0, its) {
        RunKeepsInv(s0, its);
        forall t, d | AllOnTime(s0, t, d) && InTime(rounds, t, d) && CGI_TIMEOUT_S + 2 * d <= CONNECTION_TIMEOUT_S
          ensures DeadlineKept(s0, its)
        {
          RoundsArePaced(s0, rounds, its, t, d);
          CgiDeadlineFirst(s0, its, t, d);
        }
      }
    }

    lemma {:induction false} RunSnoc(s: Server, its: seq<Iteration>, it: Iteration)
      ensures EventLoop.Run(s, its + [it]) == Iterate(EventLoop.Run(s, its), it)
      decreases |its|
    {
      hide Iterate;
      if its == [] {
        assert [] + [it] == [it] && [it][1..] == [];
      } else {
        assert (its + [it])[1..] == its[1..] + [it];
        RunSnoc(Iterate(s, its[0]), its[1..], it);
      }
    }

    lemma {:induction false} BringSnoc(s: Server, rounds: seq<Round>, its: seq<Iteration>, round: Round, it: Iteration)
      requires |its| == |rounds| && AllBring(s, rounds, its) && Brings(EventLoop.Run(s, its), round, it)
      ensures AllBring(s, rounds + [round], its + [it])
      decreases |its|
    {
      hide Iterate, Brings;
      if its == [] {
        assert [] + [it] == [it] && [it][1..] == [] && [] + [round] == [round] && [round][1..] == [];
      } else {
        assert (its + [it])[1..] == its[1..] + [it] && (rounds + [round])[1..] == rounds[1..] + [round];
        BringSnoc(Iterate(s, its[0]), rounds[1..], its[1..], round, it);
      }
    }
  }
}
