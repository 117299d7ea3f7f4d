/** The CGI deadline pre-empts the idle deadline: a connection that waits for its CGI is never hit by
    the idle sweep, as long as the loop turns fast enough. */
module EventLoopTiming {
  import opened ConnectionIntake
  import opened EventLoop
  import opened EventLoopPointers
  import opened EventLoopInvariant
  import opened EventLoopBatch

  /** A pipe is registered exactly while its owner waits for the CGI. */
  predicate ExactPipes(s: Server) {
    && (forall id :: id in s.heap && s.heap[id].state.WAITING_FOR_CGI? ==> s.heap[id].pipe in s.pipes)
    && (forall p :: p in s.pipes ==> s.pipes[p] in s.heap && s.heap[s.pipes[p]].state.WAITING_FOR_CGI?)
  }

  /** A registered pipe whose owner waits, was started at most `d` seconds before the pipe was
      registered, and was not overdue at time `t`. */
  predicate OnTime(s: Server, t: int, d: int, p: Fd)
    requires p in s.pipes
  {
    && s.pipes[p] in s.heap && s.heap[s.pipes[p]].state.WAITING_FOR_CGI?
    && p in s.starts
    && s.starts[p] - s.heap[s.pipes[p]].lastActivity <= d
    && t - s.starts[p] < CGI_TIMEOUT_S
  }

  predicate AllOnTime(s: Server, t: int, d: int) {
    forall p :: p in s.pipes ==> OnTime(s, t, d, p)
  }

  /** The step registers no pipe and leaves the owners of the registered ones alone. */
  predicate PipesKept(s: Server, s1: Server) {
    forall p :: p in s1.pipes ==> PipeKept(s, s1, p)
  }

  predicate PipeKept(s: Server, s1: Server, p: Fd)
    requires p in s1.pipes
  {
    && p in s.pipes && s1.pipes[p] == s.pipes[p]
    && p in s.starts && p in s1.starts && s1.starts[p] == s.starts[p]
    && s.pipes[p] in s.heap && s.pipes[p] in s1.heap && s1.heap[s.pipes[p]] == s.heap[s.pipes[p]]
  }

  lemma KeptOnTime(s: Server, s1: Server, t: int, d: int)
    requires PipesKept(s, s1) && AllOnTime(s, t, d)
    ensures AllOnTime(s1, t, d)
  {
    forall p | p in s1.pipes ensures OnTime(s1, t, d, p) {
      assert PipeKept(s, s1, p) && OnTime(s, t, d, p);
    }
  }

  lemma KeptChain(s: Server, s1: Server, s2: Server)
    requires PipesKept(s, s1) && PipesKept(s1, s2)
    ensures PipesKept(s, s2)
  {
    forall p | p in s2.pipes ensures PipeKept(s, s2, p) {
      assert PipeKept(s1, s2, p) && PipeKept(s, s1, p);
    }
  }

  lemma KeptSelf(s: Server, loose: set<Id>)
    requires Good(s, loose)
    ensures PipesKept(s, s)
  {
    forall p | p in s.pipes ensures PipeKept(s, s, p) {
      OwnerOf(s, p);
    }
  }

  // ---------------------------------------------------------------- events

  predicate OwnersWait(s: Server) {
    forall p :: p in s.pipes ==> s.pipes[p] in s.heap && s.heap[s.pipes[p]].state.WAITING_FOR_CGI?
  }

  /** Changing a connection that waits for no CGI leaves all pipes and their owners alone. */
  lemma OtherKept(s: Server, s1: Server, id: Id)
    requires Inv(s) && OwnersWait(s)
    requires id in s.heap && !s.heap[id].state.WAITING_FOR_CGI?
    requires s1.pipes == s.pipes && s1.starts == s.starts
    requires forall x :: x in s.heap && x != id ==> x in s1.heap && s1.heap[x] == s.heap[x]
    ensures PipesKept(s, s1)
  {
    forall p | p in s1.pipes ensures PipeKept(s, s1, p) {
      OwnerOf(s, p);
    }
  }

  /** Taking a pipe off the tables leaves the other pipes and their owners alone. */
  lemma UnregisteredKept(s: Server, s1: Server, pipe: Fd)
    requires Pointers(s)
    requires s1.pipes == s.pipes - {pipe} && s1.starts == s.starts - {pipe}
    requires forall x :: x in s.heap && s.heap[x].pipe != pipe ==> x in s1.heap && s1.heap[x] == s.heap[x]
    ensures PipesKept(s, s1)
  {
    forall p | p in s1.pipes ensures PipeKept(s, s1, p) {
      OwnerOf(s, p);
    }
  }

  lemma FinishKept(s: Server, pipe: Fd, release: bool)
    requires Inv(s) && pipe in s.pipes
    ensures var s1 := Unregister(s, pipe);
            var s2 := StartWriting(if release then ReleasePipe(s1, s.pipes[pipe]) else s1, s.pipes[pipe]);
            PipesKept(s, s2) && pipe !in s2.pipes
  {
    hide AddPollFd;
    OwnerNotWaiting(s, pipe);
    OwnerOf(s, pipe);
    var id := s.pipes[pipe];
    var s1 := Unregister(s, pipe);
    var s2 := if release then ReleasePipe(s1, id) else s1;
    var s3 := Set(s2, id, s2.heap[id].(state := WRITING));
    AddPollFdEffect(s3, s2.heap[id].fd, INPUT_OUTPUT);
    hide Good, PipesKept;
    UnregisteredKept(s, AddPollFd(s3, s2.heap[id].fd, INPUT_OUTPUT), pipe);
  }

  lemma DropKept(s: Server, loose: set<Id>, fd: Fd)
    requires Good(s, loose)
    ensures PipesKept(s, DropConnection(s, fd))
  {
    DropEffect(s, fd);
    DropStarts(s, fd);
    var s1 := DropConnection(s, fd);
    if fd in s.connections {
      LiveEntry(s, loose, fd);
      var id := s.connections[fd];
      var pipe := s.heap[id].pipe;
      hide Good, DropConnection;
      forall p | p in s1.pipes ensures PipeKept(s, s1, p) {
        OwnerOf(s, p);
      }
    } else {
      KeptSelf(s, loose);
      hide Good, DropConnection;
    }
  }

  lemma DropStarts(s: Server, fd: Fd)
    requires Pointers(s)
    ensures DropConnection(s, fd).starts ==
              if fd in s.connections then s.starts - {s.heap[s.connections[fd]].pipe} else s.starts
  {
    if fd in s.connections && s.heap[s.connections[fd]].pipe < 0 && s.heap[s.connections[fd]].pipe in s.starts {
      OwnerOf(s, s.heap[s.connections[fd]].pipe);
    }
  }

  lemma WaitingIgnoresIo(c: Conn, ev: Events, env: IoEnv)
    requires c.state.WAITING_FOR_CGI?
    ensures AfterIo(c, ev, env) == c
  {}

  lemma IoKept(s: Server, id: Id, ev: Events, env: IoEnv)
    requires Inv(s) && OwnersWait(s) && id in s.heap
    ensures PipesKept(s, HandleConnection(s, id, ev, env))
  {
    hide AfterIo, DropConnection, AddPollFd, Good;
    var c := s.heap[id];
    LiveFacts(s, {}, id);
    var d := AfterIo(c, ev, env);
    var s1 := Set(s, id, d);
    var s2 := if ev.input && d.state.PROCESSING? then Enqueue(s1, id) else s1;
    EnqueueKeeps(s1, id);
    if c.state.WAITING_FOR_CGI? {
      WaitingIgnoresIo(c, ev, env);
      AddPollFdEffect(s2, c.fd, MaskOf(c.state));
      KeptSelf(s, {});
      GrownKept(s, AddPollFd(s2, c.fd, MaskOf(c.state)));
    } else {
      OtherKept(s, s2, id);
      AddPollFdEffect(s2, d.fd, MaskOf(d.state));
      OtherKept(s, AddPollFd(s2, d.fd, MaskOf(d.state)), id);
      if d.state.FINISHED? {
        IoKeeps(c, ev, env);
        IoShape(c, ev, env);
        SetGood(s, {}, id, d);
        EnqueueGood(s1, {} + {id}, id);
        var loose := if ev.input && d.state.PROCESSING? then {} + {id} + {id} else {} + {id};
        DropKept(s2, loose, d.fd);
        KeptChain(s, s2, DropConnection(s2, d.fd));
      }
    }
  }

  lemma {:induction false} AcceptAllStarts(s: Server, accepts: seq<Accepted>)
    ensures AcceptAll(s, accepts).starts == s.starts
    decreases |accepts|
  {
    if accepts != [] {
      var a := accepts[0];
      AcceptOneStarts(s, a);
      hide AcceptOne;
      AcceptAllStarts(AcceptOne(s, a), accepts[1..]);
    }
  }

  lemma AcceptOneStarts(s: Server, a: Accepted)
    ensures AcceptOne(s, a).starts == s.starts
  {
    hide AddPollFd;
    if a.fd >= 0 && a.fd !in s.open && a.id !in s.heap {
      var s1 := Set(s, a.id, Conn(a.fd, READING, a.now, -1, a.hasConf));
      AddPollFdEffect(s1.(connections := s1.connections[a.fd := a.id], open := s1.open + {a.fd}), a.fd, INPUT);
    }
  }

  lemma AcceptKept(s: Server, accepts: seq<Accepted>)
    requires Inv(s)
    ensures PipesKept(s, AcceptAll(s, accepts))
  {
    AcceptAllTouches(s, accepts);
    AcceptAllStarts(s, accepts);
    hide AcceptAll, Good;
    KeptSelf(s, {});
    GrownKept(s, AcceptAll(s, accepts));
  }

  lemma GrownKept(s: Server, s1: Server)
    requires PipesKept(s, s) && s1.pipes == s.pipes && s1.starts == s.starts
    requires forall id :: id in s.heap ==> id in s1.heap && s1.heap[id] == s.heap[id]
    ensures PipesKept(s, s1)
  {
    forall p | p in s1.pipes ensures PipeKept(s, s1, p) {
      assert PipeKept(s, s, p);
    }
  }

  lemma EventKept(s: Server, e: Event)
    requires Inv(s) && OwnersWait(s)
    ensures PipesKept(s, HandleEvent(s, e))
  {
    hide Good, DropConnection, AcceptAll, HandleConnection, StartWriting, Unregister, ReleasePipe, PipesKept,
          OwnersWait;
    KeptSelf(s, {});
    if e.fd in s.pipes {
      OwnerNotWaiting(s, e.fd);
      FinishKept(s, e.fd, false);
      FinishKept(s, e.fd, true);
    } else if e.events.hangup {
      DropKept(s, {}, e.fd);
    } else if e.fd in s.listeners {
      AcceptKept(s, e.accepts);
    } else if e.fd in s.connections {
      LiveEntry(s, {}, e.fd);
      IoKept(s, s.connections[e.fd], e.events, e.io);
    }
  }

  lemma OnTimeOwners(s: Server, t: int, d: int)
    requires AllOnTime(s, t, d)
    ensures OwnersWait(s)
  {
    forall p | p in s.pipes ensures s.pipes[p] in s.heap && s.heap[s.pipes[p]].state.WAITING_FOR_CGI? {
      assert OnTime(s, t, d, p);
    }
  }

  lemma {:induction false} BatchOnTime(s: Server, events: seq<Event>, t: int, d: int)
    requires Inv(s) && NoFatal(s, events) && AllOnTime(s, t, d)
    ensures AllOnTime(HandleBatch(s, events), t, d)
    decreases |events|
  {
    hide Good, HandleEvent, Fatal, AllOnTime, PipesKept;
    if events != [] {
      var s1 := HandleEvent(s, events[0]);
      HandleEventGood(s, events[0]);
      OnTimeOwners(s, t, d);
      EventKept(s, events[0]);
      KeptOnTime(s, s1, t, d);
      BatchOnTime(s1, events[1..], t, d);
    }
  }

  // ---------------------------------------------------------------- the pass

  /** process() starts at `now`, not before `t`, and its pipe is registered within `d` seconds. */
  predicate Prompt(call: Call, t: int, d: int) {
    t <= call.now <= call.registered <= call.now + d
  }

  lemma RegisterEffect(s: Server, id: Id, now: int)
    requires id in s.heap && s.heap[id].pipe >= 0
    ensures var s1 := Register(s, id, now);
            s1.heap == s.heap && s1.pipes == s.pipes[s.heap[id].pipe := id] &&
                  s1.starts == s.starts[s.heap[id].pipe := now]
  {
    hide AddPollFd;
    var pipe := s.heap[id].pipe;
    AddPollFdEffect(s.(pipes := s.pipes[pipe := id], starts := s.starts[pipe := now]), pipe, INPUT);
  }

  lemma FinalizeEffect(s: Server, id: Id, now: int)
    requires id in s.heap
    requires s.heap[id].state.WRITING? || (s.heap[id].state.WAITING_FOR_CGI? && s.heap[id].pipe >= 0)
    ensures var s1 := Finalize(s, id, now);
            var c := s.heap[id];
            && s1.heap == s.heap
            && s1.pipes == (if c.state.WRITING? then s.pipes else s.pipes[c.pipe := id])
            && s1.starts == (if c.state.WRITING? then s.starts else s.starts[c.pipe := now])
  {
    hide AddPollFd, Register;
    AddPollFdEffect(s, s.heap[id].fd, NOTHING);
    AddPollFdEffect(s, s.heap[id].fd, INPUT_OUTPUT);
    if s.heap[id].state.WAITING_FOR_CGI? {
      RegisterEffect(AddPollFd(s, s.heap[id].fd, NOTHING), id, now);
    }
  }

  /** What serving the first entry does to pipes and connections. */
  lemma ServeEffect(s: Server, call: Call)
    requires Inv(s) && s.queue != [] && s.queue[0] in s.waiting
    ensures var id := s.queue[0];
            var s1 := Serve(Pop(s), id, call);
            id in s.heap && s.heap[id].state.PROCESSING? &&
            var d := Processed(s.heap[id], s.open, call);
            && s1.heap == s.heap[id := d]
            && s1.pipes == (if d.state.WAITING_FOR_CGI? then s.pipes[d.pipe := id] else s.pipes)
            && s1.starts == (if d.state.WAITING_FOR_CGI? then s.starts[d.pipe := call.registered] else s.starts)
  {
    hide Good, Finalize, Processed, Process;
    var id := s.queue[0];
    WaitingIsProcessing(s, id);
    ProcessEffect(Pop(s), id, call);
    ProcessedStates(s.heap[id], s.open, call);
    ProcessedPipe(s.heap[id], s.open, call);
    var t1 := Process(Pop(s), id, call);
    if !t1.heap[id].state.PROCESSING? {
      FinalizeEffect(Dequeue(t1, id), id, call.registered);
    }
  }

  lemma ProcessedPipe(c: Conn, open: set<Fd>, call: Call)
    requires c.state.PROCESSING?
    ensures var d := Processed(c, open, call);
            d.state.WAITING_FOR_CGI? ==> d.pipe >= 0 && d.lastActivity == call.now
  {}

  lemma ServeOnTime(s: Server, call: Call, t: int, d: int)
    requires Inv(s) && s.queue != [] && s.queue[0] in s.waiting
    requires AllOnTime(s, t, d) && Prompt(call, t, d)
    ensures AllOnTime(Serve(Pop(s), s.queue[0], call), t, d)
  {
    ServeEffect(s, call);
    var id := s.queue[0];
    var s1 := Serve(Pop(s), id, call);
    ProcessedPipe(s.heap[id], s.open, call);
    hide Good, Serve, Processed;
    var c := Processed(s.heap[id], s.open, call);
    forall p | p in s1.pipes ensures OnTime(s1, t, d, p) {
      if c.state.WAITING_FOR_CGI? && p == c.pipe {
      } else {
        assert OnTime(s, t, d, p);
      }
    }
  }

  lemma {:induction false} PassOnTime(s: Server, served: nat, calls: nat -> Call, t: int, d: int)
    requires Inv(s) && served <= BUDGET
    requires AllOnTime(s, t, d) && forall n: nat :: Prompt(calls(n), t, d)
    ensures AllOnTime(RoundRobin(s, served, calls), t, d)
    decreases BUDGET - served, |s.queue|
  {
    hide Good, Serve, Prompt;
    if s.queue != [] && served < BUDGET {
      if s.queue[0] !in s.waiting {
        TakenGood(s);
        PopOnTime(s, t, d);
        hide AllOnTime;
        PassOnTime(Pop(s), served, calls, t, d);
      } else {
        hide AllOnTime;
        ServeGood(s, calls(served));
        ServeOnTime(s, calls(served), t, d);
        PassOnTime(Serve(Pop(s), s.queue[0], calls(served)), served + 1, calls, t, d);
      }
    }
  }

  lemma PopOnTime(s: Server, t: int, d: int)
    requires AllOnTime(s, t, d) && s.queue != []
    ensures AllOnTime(Pop(s), t, d)
  {
    forall p | p in Pop(s).pipes ensures OnTime(Pop(s), t, d, p) {
      assert OnTime(s, t, d, p);
    }
  }

  // ---------------------------------------------------------------- the idle sweep

  /** The connection on `fd`, if there is one, waits for no CGI. */
  predicate Spared(s: Server, fd: Fd) {
    fd in s.connections ==> s.connections[fd] in s.heap && !s.heap[s.connections[fd]].state.WAITING_FOR_CGI?
  }

  /** Arithmetic of the two deadlines. */
  lemma WaitingIsFresh(s: Server, id: Id, t: int, d: int)
    requires Inv(s) && AllOnTime(s, t, d) && CGI_TIMEOUT_S + 2 * d <= CONNECTION_TIMEOUT_S
    requires id in s.heap && s.heap[id].state.WAITING_FOR_CGI?
    ensures t + d - s.heap[id].lastActivity < CONNECTION_TIMEOUT_S
  {
    LiveFacts(s, {}, id);
    assert OnTime(s, t, d, s.heap[id].pipe);
  }

  lemma WaitingIsNotIdle(s: Server, fd: Fd, clock: Fd -> int, t: int, d: int)
    requires Inv(s) && AllOnTime(s, t, d) && CGI_TIMEOUT_S + 2 * d <= CONNECTION_TIMEOUT_S
    requires Idle(s, fd, clock) && clock(fd) <= t + d
    ensures Spared(s, fd)
  {
    hide Good, AllOnTime;
    if s.heap[s.connections[fd]].state.WAITING_FOR_CGI? {
      WaitingIsFresh(s, s.connections[fd], t, d);
    }
  }

  lemma TimeOutEffect(s: Server, fd: Fd)
    requires Inv(s) && fd in s.connections
    ensures var id := s.connections[fd];
            var s1 := TimeOut(s, fd);
            && id in s.heap && s1.heap == s.heap[id := s.heap[id].(state := WRITING)]
            && s1.pipes == s.pipes && s1.starts == s.starts && s1.connections == s.connections
  {
    hide Good, AddPollFd;
    LiveEntry(s, {}, fd);
    var id := s.connections[fd];
    var s1 := Dequeue(Set(s, id, s.heap[id].(state := WRITING)), id);
    AddPollFdEffect(s1, s.heap[id].fd, INPUT_OUTPUT);
  }

  lemma {:induction false} TimeOutAllOnTime(s: Server, fds: seq<Fd>, t: int, d: int)
    requires Inv(s) && AllOnTime(s, t, d)
    requires forall fd :: fd in fds ==> Spared(s, fd)
    ensures AllOnTime(TimeOutAll(s, fds), t, d)
    decreases |fds|
  {
    hide Good, TimeOut, AllOnTime, Spared;
    if fds != [] {
      var fd := fds[0];
      var s1 := TimeOut(s, fd);
      TimeOutGood(s, fd);
      assert Spared(s, fd);
      TimeOutOnTime(s, fd, t, d);
      forall x | x in fds[1..] ensures Spared(s1, x) {
        assert Spared(s, x);
        StaysSpared(s, fd, x);
      }
      TimeOutAllOnTime(s1, fds[1..], t, d);
    }
  }

  lemma TimeOutOnTime(s: Server, fd: Fd, t: int, d: int)
    requires Inv(s) && AllOnTime(s, t, d) && Spared(s, fd)
    ensures AllOnTime(TimeOut(s, fd), t, d)
  {
    hide Good, TimeOut, AllOnTime, PipesKept;
    if fd in s.connections {
      TimeOutEffect(s, fd);
      OnTimeOwners(s, t, d);
      OtherKept(s, TimeOut(s, fd), s.connections[fd]);
      KeptOnTime(s, TimeOut(s, fd), t, d);
    } else {
      assert TimeOut(s, fd) == s by { TimeOutUnknown(s, fd); }
    }
  }

  lemma TimeOutUnknown(s: Server, fd: Fd)
    requires fd !in s.connections
    ensures TimeOut(s, fd) == s
  {}

  lemma StaysSpared(s: Server, fd: Fd, x: Fd)
    requires Inv(s) && Spared(s, x)
    ensures Spared(TimeOut(s, fd), x)
  {
    hide Good, TimeOut;
    if fd in s.connections {
      TimeOutEffect(s, fd);
    } else {
      TimeOutUnknown(s, fd);
    }
  }

  /** Timing out a connection breaks the exactness of the pipe table just when it waits for a CGI:
      its pipe stays registered although the connection goes on to write. */
  lemma TimeOutExactIff(s: Server, fd: Fd)
    requires Inv(s) && ExactPipes(s)
    ensures ExactPipes(TimeOut(s, fd)) <==> Spared(s, fd)
  {
    hide Good, TimeOut;
    if fd !in s.connections {
      TimeOutUnknown(s, fd);
    } else {
      TimeOutEffect(s, fd);
      var id := s.connections[fd];
      LiveFacts(s, {}, id);
      var s1 := TimeOut(s, fd);
      if Spared(s, fd) {
        forall p | p in s1.pipes ensures s1.pipes[p] != id {}
      } else {
        assert s.heap[id].pipe in s1.pipes;
      }
    }
  }

  // ---------------------------------------------------------------- the CGI sweep

  lemma {:induction false} KillAllOnTime(s: Server, fds: seq<Fd>, t: int, d: int)
    requires Inv(s) && AllOnTime(s, t, d)
    ensures var s1 := KillAll(s, fds);
            && AllOnTime(s1, t, d) && PipesKept(s, s1)
            && (forall fd :: fd in fds ==> fd !in s1.pipes)
    decreases |fds|
  {
    hide Good, Kill, AllOnTime, PipesKept;
    KeptSelf(s, {});
    if fds != [] {
      var s1 := Kill(s, fds[0]);
      KillGood(s, fds[0]);
      KillKept(s, fds[0]);
      KeptOnTime(s, s1, t, d);
      KillAllOnTime(s1, fds[1..], t, d);
      var s2 := KillAll(s1, fds[1..]);
      KeptChain(s, s1, s2);
      KeptRegistered(s1, s2);
      forall fd | fd in fds ensures fd !in s2.pipes {
        assert fd == fds[0] || fd in fds[1..];
      }
    }
  }

  lemma KeptRegistered(s: Server, s1: Server)
    requires PipesKept(s, s1)
    ensures s1.pipes.Keys <= s.pipes.Keys
  {
    forall p | p in s1.pipes ensures p in s.pipes {
      assert PipeKept(s, s1, p);
    }
  }

  lemma KillKept(s: Server, pipe: Fd)
    requires Inv(s)
    ensures PipesKept(s, Kill(s, pipe)) && pipe !in Kill(s, pipe).pipes
  {
    hide Good, StartWriting, Unregister, ReleasePipe, PipesKept;
    KeptSelf(s, {});
    if pipe in s.pipes {
      OwnerNotWaiting(s, pipe);
      FinishKept(s, pipe, true);
    }
  }

  // ---------------------------------------------------------------- whole runs

  /** One iteration on the clock. `t` is the time of the last CGI sweep and `d` bounds the time from
      one CGI sweep to the next. The idle sweep lists connections it found idle, the CGI sweep every
      pipe that is overdue. */
  ghost predicate Paced(s: Server, it: Iteration, t: int, d: int) {
    && it.cgiNow <= t + d
    && (forall n: nat :: Prompt(it.calls(n), t, d) && it.calls(n).registered <= it.cgiNow)
    && (forall fd :: it.clock(fd) <= it.cgiNow)
    && (forall fd :: fd in it.idle ==> Idle(AfterPass(s, it), fd, it.clock))
    && (forall p :: Overdue(SweepIdle(AfterPass(s, it), it.idleNow, it.idle), p, it.cgiNow) ==> p in it.overdue)
  }

  ghost predicate AllPaced(s: Server, its: seq<Iteration>, t: int, d: int)
    decreases |its|
  {
    its == [] || (Paced(s, its[0], t, d) && AllPaced(Iterate(s, its[0]), its[1..], its[0].cgiNow, d))
  }

  /** The connections that the idle sweep of this iteration times out. */
  predicate SweepSpares(s: Server, it: Iteration) {
    forall fd :: fd in it.idle ==> Spared(AfterPass(s, it), fd)
  }

  lemma SweepsOnTime(s: Server, it: Iteration, t: int, d: int)
    requires Inv(s) && AllOnTime(s, t, d) && Paced(s, it, t, d)
    requires CGI_TIMEOUT_S + 2 * d <= CONNECTION_TIMEOUT_S
    ensures SweepSpares(s, it) && AllOnTime(AfterSweeps(s, it), it.cgiNow, d)
  {
    hide Good, RoundRobin, TimeOutAll, KillAll, AllOnTime, Prompt, Spared, Idle, Overdue;
    SweepsKeepInv(s, it);
    PassOnTime(s, 0, it.calls, t, d);
    var s1 := AfterPass(s, it);
    forall fd | fd in it.idle ensures Spared(s1, fd) {
      WaitingIsNotIdle(s1, fd, it.clock, t, d);
    }
    IdleSweepOnTime(s1, it, t, d);
    CgiSweepOnTime(SweepIdle(s1, it.idleNow, it.idle), it, t, d);
  }

  lemma IdleSweepOnTime(s: Server, it: Iteration, t: int, d: int)
    requires Inv(s) && AllOnTime(s, t, d) && forall fd :: fd in it.idle ==> Spared(s, fd)
    ensures var s1 := SweepIdle(s, it.idleNow, it.idle); Inv(s1) && AllOnTime(s1, t, d)
  {
    var s1 := s.(lastSweep := it.idleNow);
    LastSweepGood(s, it.idleNow);
    forall p | p in s1.pipes ensures OnTime(s1, t, d, p) {
      assert OnTime(s, t, d, p);
    }
    forall fd | fd in it.idle ensures Spared(s1, fd) {
      assert Spared(s, fd);
    }
    hide Good, TimeOutAll, AllOnTime, Spared;
    TimeOutAllGood(s1, it.idle);
    TimeOutAllOnTime(s1, it.idle, t, d);
  }

  lemma CgiSweepOnTime(s: Server, it: Iteration, t: int, d: int)
    requires Inv(s) && AllOnTime(s, t, d)
    requires forall p :: Overdue(s, p, it.cgiNow) ==> p in it.overdue
    ensures AllOnTime(SweepCgi(s, it.overdue), it.cgiNow, d)
  {
    hide Good, KillAll;
    if s.pipes != map[] {
      KillAllOnTime(s, it.overdue, t, d);
      var s1 := KillAll(s, it.overdue);
      forall p | p in s1.pipes ensures OnTime(s1, it.cgiNow, d, p) {
        assert PipeKept(s, s1, p) && OnTime(s, t, d, p);
        assert !Overdue(s, p, it.cgiNow);
      }
    }
  }

  /** What holds all along a run. */
  predicate DeadlineKept(s: Server, its: seq<Iteration>)
    decreases |its|
  {
    ExactPipes(s) && (its == [] || (SweepSpares(s, its[0]) && DeadlineKept(Iterate(s, its[0]), its[1..])))
  }

  lemma OnTimeIsExact(s: Server, t: int, d: int)
    requires Inv(s) && AllOnTime(s, t, d)
    ensures ExactPipes(s)
  {
    forall id | id in s.heap && s.heap[id].state.WAITING_FOR_CGI? ensures s.heap[id].pipe in s.pipes {
      LiveFacts(s, {}, id);
    }
    OnTimeOwners(s, t, d);
  }

  /** If no iteration of the loop takes longer than `d` seconds and 10 + 2d <= 60, then in every safe run
      the idle sweep never hits a connection that waits for its CGI, and at every loop boundary a
      pipe is registered exactly while its owner waits. */
  lemma {:induction false} CgiDeadlineFirst(s: Server, its: seq<Iteration>, t: int, d: int)
    requires Inv(s) && SafeRun(s, its) && AllOnTime(s, t, d) && AllPaced(s, its, t, d)
    requires CGI_TIMEOUT_S + 2 * d <= CONNECTION_TIMEOUT_S
    ensures DeadlineKept(s, its)
    decreases |its|
  {
    hide Good, AfterSweeps, HandleBatch, NoFatal, AllOnTime, Paced, ExactPipes, SweepSpares;
    OnTimeIsExact(s, t, d);
    if its != [] {
      var it := its[0];
      var s1 := AfterSweeps(s, it);
      SweepsKeepInv(s, it);
      SweepsOnTime(s, it, t, d);
      BatchKeepsInv(s1, it.events);
      BatchOnTime(s1, it.events, it.cgiNow, d);
      CgiDeadlineFirst(Iterate(s, it), its[1..], it.cgiNow, d);
    }
  }

  /** The same from the start of the server, whenever that is. */
  lemma DeadlineFromStart(listeners: set<Fd>, its: seq<Iteration>, t: int, d: int)
    requires SafeRun(Start(listeners), its) && AllPaced(Start(listeners), its, t, d)
    requires CGI_TIMEOUT_S + 2 * d <= CONNECTION_TIMEOUT_S
    ensures DeadlineKept(Start(listeners), its)
  {
    hide SafeRun, AllPaced, DeadlineKept, Good;
    StartInv(listeners);
    CgiDeadlineFirst(Start(listeners), its, t, d);
  }
}
