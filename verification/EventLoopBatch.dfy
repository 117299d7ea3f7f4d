/** The invariant over batches, passes and whole runs, and the states that only move forward. */
module EventLoopBatch {
  import opened ConnectionIntake
  import opened EventLoop
  import opened EventLoopPointers
  import opened EventLoopInvariant

  // ---------------------------------------------------------------- effects

  /** What dropping a client does to the tables of live objects. */
  lemma DropEffect(s: Server, fd: Fd)
    requires Inv(s) || exists loose :: Good(s, loose)
    ensures var s1 := DropConnection(s, fd);
            if fd in s.connections
            then s.connections[fd] in s.heap && s1.heap == s.heap - {s.connections[fd]} &&
                 s1.pipes == s.pipes - {s.heap[s.connections[fd]].pipe} && s1.connections == s.connections - {fd}
            else s1.heap == s.heap && s1.pipes == s.pipes && s1.connections == s.connections
  {
    if fd in s.connections {
      var loose :| Good(s, loose);
      LiveEntry(s, loose, fd);
      var id := s.connections[fd];
      if s.heap[id].pipe < 0 {
        NegativePipe(s, loose, s.heap[id].pipe);
      }
      assert s.heap[id := s.heap[id].(pipe := -1)] - {id} == s.heap - {id};
    }
  }

  lemma NegativePipe(s: Server, loose: set<Id>, pipe: Fd)
    requires Good(s, loose) && pipe < 0
    ensures s.pipes - {pipe} == s.pipes
  {
    if pipe in s.pipes {
      OwnerOf(s, pipe);
    }
  }

  // ---------------------------------------------------------------- other connections

  /** Handling an event for `fd`: connections keep their descriptors and pipes or are new; only the
      client on `fd` may become PROCESSING; only the pipe `fd` may be orphaned. */
  predicate Touches(s: Server, s1: Server, fd: Fd) {
    && (forall id :: id in s1.heap ==> KeptOrNew(s, s1, id, fd))
    && (forall p :: p in s.pipes && p != fd ==> p in s1.pipes || !Owned(s1, p))
  }

  predicate KeptOrNew(s: Server, s1: Server, id: Id, fd: Fd)
    requires id in s1.heap
  {
    var c1 := s1.heap[id];
    if id in s.heap then
      var c := s.heap[id];
      c1.fd == c.fd && (c1.state.PROCESSING? ==> c.state.PROCESSING? || c.fd == fd) && (c1.pipe >= 0 ==>
            c1.pipe == c.pipe)
    else c1.state.READING? && c1.pipe == -1
  }

  predicate Owned(s: Server, pipe: Fd) {
    exists id :: id in s.heap && s.heap[id].pipe == pipe
  }

  lemma StaysHarmless(s: Server, s1: Server, fd: Fd, e: Event)
    requires Inv(s) && Inv(s1) && Touches(s, s1, fd) && e.fd != fd && Harmless(s, e)
    ensures Harmless(s1, e)
  {
    hide Good;
    if e.events.input && e.fd in s1.connections {
      LiveEntry(s1, {}, e.fd);
      var id := s1.connections[e.fd];
      assert KeptOrNew(s, s1, id, fd);
      if id in s.heap {
        LiveFacts(s, {}, id);
      }
    }
  }

  lemma DropTouches(s: Server, loose: set<Id>, fd: Fd, about: Fd)
    requires Good(s, loose)
    ensures Touches(s, DropConnection(s, fd), about)
  {
    DropEffect(s, fd);
    var s1 := DropConnection(s, fd);
    if fd in s.connections {
      var gone := s.connections[fd];
      forall p | p in s.pipes && p !in s1.pipes ensures !Owned(s1, p) {
        forall id | id in s1.heap ensures s1.heap[id].pipe != p {
          OwnerOf(s, p);
          LiveFacts(s, loose, id);
        }
      }
    }
  }

  lemma IoTouches(s: Server, id: Id, ev: Events, env: IoEnv)
    requires Inv(s) && id in s.heap
    ensures Touches(s, HandleConnection(s, id, ev, env), s.heap[id].fd)
    ensures Forward(s, HandleConnection(s, id, ev, env))
  {
    hide AfterIo, DropConnection, AddPollFd, Good;
    var c := s.heap[id];
    LiveFacts(s, {}, id);
    var d := AfterIo(c, ev, env);
    IoKeeps(c, ev, env);
    IoShape(c, ev, env);
    IoForward(c, ev, env);
    var s1 := Set(s, id, d);
    var s2 := if ev.input && d.state.PROCESSING? then Enqueue(s1, id) else s1;
    EnqueueKeeps(s1, id);
    if d.state.FINISHED? {
      SetGood(s, {}, id, d);
      EnqueueGood(s1, {} + {id}, id);
      var loose := if ev.input && d.state.PROCESSING? then {} + {id} + {id} else {} + {id};
      DropTouches(s2, loose, d.fd, d.fd);
      DropEffect(s2, d.fd);
      LiveFacts(s2, loose, id);
      GoneIsForward(s, s2, id, d.fd);
    } else {
      AddPollFdEffect(s2, d.fd, MaskOf(d.state));
    }
  }

  lemma GoneIsForward(s: Server, s2: Server, id: Id, fd: Fd)
    requires id in s.heap && id in s2.heap && s2.heap == s.heap[id := s2.heap[id]]
    requires DropConnection(s2, fd).heap == s2.heap - {id} && s2.pipes == s.pipes
    requires Touches(s2, DropConnection(s2, fd), fd) && s2.heap[id].fd == s.heap[id].fd == fd
    ensures Touches(s, DropConnection(s2, fd), fd) && Forward(s, DropConnection(s2, fd))
  {
    var s3 := DropConnection(s2, fd);
    forall x | x in s3.heap ensures x != id && s3.heap[x] == s.heap[x] {}
    hide DropConnection, Owned;
  }

  lemma AcceptTouches(s: Server, a: Accepted)
    ensures var s1 := AcceptOne(s, a);
            (forall id :: id in s.heap ==> id in s1.heap && s1.heap[id] == s.heap[id]) &&
            (forall id :: id in s1.heap && id !in s.heap ==> s1.heap[id].state.READING? && s1.heap[id].pipe == -1) &&
            s1.pipes == s.pipes
  {
    hide AddPollFd;
    if a.fd >= 0 && a.fd !in s.open && a.id !in s.heap {
      var s1 := Set(s, a.id, Conn(a.fd, READING, a.now, -1, a.hasConf));
      AddPollFdEffect(s1.(connections := s1.connections[a.fd := a.id], open := s1.open + {a.fd}), a.fd, INPUT);
    }
  }

  lemma {:induction false} AcceptAllTouches(s: Server, accepts: seq<Accepted>)
    ensures var s1 := AcceptAll(s, accepts);
            (forall id :: id in s.heap ==> id in s1.heap && s1.heap[id] == s.heap[id]) &&
            (forall id :: id in s1.heap && id !in s.heap ==> s1.heap[id].state.READING? && s1.heap[id].pipe == -1) &&
            s1.pipes == s.pipes
    decreases |accepts|
  {
    hide AcceptOne;
    if accepts != [] {
      AcceptTouches(s, accepts[0]);
      AcceptAllTouches(AcceptOne(s, accepts[0]), accepts[1..]);
    }
  }

  lemma FinishTouches(s: Server, pipe: Fd, release: bool)
    requires Inv(s) && pipe in s.pipes
    ensures var s1 := Unregister(s, pipe);
            var s2 := StartWriting(if release then ReleasePipe(s1, s.pipes[pipe]) else s1, s.pipes[pipe]);
            Touches(s, s2, pipe) && Forward(s, s2)
  {
    hide AddPollFd;
    OwnerNotWaiting(s, pipe);
    var id := s.pipes[pipe];
    LiveFacts(s, {}, id);
    var s1 := Unregister(s, pipe);
    var s1' := if release then ReleasePipe(s1, id) else s1;
    var s3 := Set(s1', id, s1'.heap[id].(state := WRITING));
    AddPollFdEffect(s3, s1'.heap[id].fd, INPUT_OUTPUT);
    hide Good, Owned;
  }

  lemma EventTouches(s: Server, e: Event)
    requires Inv(s)
    ensures Touches(s, HandleEvent(s, e), e.fd) && Forward(s, HandleEvent(s, e))
  {
    hide Good, DropConnection, AcceptAll, HandleConnection, Orphan, StartWriting, Unregister, ReleasePipe, Touches,
          Forward;
    NothingTouched(s, e.fd);
    if e.fd in s.pipes {
      OwnerNotWaiting(s, e.fd);
      FinishTouches(s, e.fd, false);
      FinishTouches(s, e.fd, true);
    } else if e.events.hangup {
      DropTouches(s, {}, e.fd, e.fd);
      DropForward(s, e.fd);
    } else if e.fd in s.listeners {
      AcceptAllTouches(s, e.accepts);
      OnlyNew(s, AcceptAll(s, e.accepts), e.fd);
    } else if e.fd in s.connections {
      LiveEntry(s, {}, e.fd);
      IoTouches(s, s.connections[e.fd], e.events, e.io);
    }
  }

  lemma NothingTouched(s: Server, fd: Fd)
    ensures Touches(s, s, fd) && Forward(s, s)
  {}

  lemma OnlyNew(s: Server, s1: Server, fd: Fd)
    requires forall id :: id in s.heap ==> id in s1.heap && s1.heap[id] == s.heap[id]
    requires forall id :: id in s1.heap && id !in s.heap ==> s1.heap[id].state.READING? && s1.heap[id].pipe == -1
    requires s1.pipes == s.pipes
    ensures Touches(s, s1, fd) && Forward(s, s1)
  {}

  lemma DropForward(s: Server, fd: Fd)
    requires Inv(s)
    ensures Forward(s, DropConnection(s, fd))
  {
    DropEffect(s, fd);
  }

  // ---------------------------------------------------------------- forward states

  function Rank(state: ConnState): nat {
    match state
    case READING => 0
    case PROCESSING => 1
    case WAITING_FOR_CGI => 2
    case WRITING => 3
    case FINISHED => 4
  }

  /** No connection that survives the step has moved backwards. */
  predicate Forward(s: Server, s1: Server) {
    forall id :: id in s.heap && id in s1.heap ==> Rank(s.heap[id].state) <= Rank(s1.heap[id].state)
  }

  lemma IoForward(c: Conn, ev: Events, env: IoEnv)
    ensures Rank(c.state) <= Rank(AfterIo(c, ev, env).state)
  {}

  // ---------------------------------------------------------------- the batch

  /** No event of the batch is fatal in the state it is handled in. */
  predicate NoFatal(s: Server, events: seq<Event>)
    decreases |events|
  {
    events == [] || (!Fatal(s, events[0]) && NoFatal(HandleEvent(s, events[0]), events[1..]))
  }

  /** The invariant holds before and after every event of the batch. */
  predicate InvThroughout(s: Server, events: seq<Event>)
    decreases |events|
  {
    Inv(s) && (events == [] || InvThroughout(HandleEvent(s, events[0]), events[1..]))
  }

  /** For every list of events, stale and repeated ones included: the invariant holds throughout the
      batch exactly if no event is fatal when its turn comes. */
  lemma {:induction false} BatchIff(s: Server, events: seq<Event>)
    requires Inv(s)
    ensures InvThroughout(s, events) <==> NoFatal(s, events)
    decreases |events|
  {
    hide Good, HandleEvent, Fatal;
    if events != [] {
      HandleEventIff(s, events[0]);
      if Inv(HandleEvent(s, events[0])) {
        BatchIff(HandleEvent(s, events[0]), events[1..]);
      }
    }
  }

  lemma {:induction false} BatchKeepsInv(s: Server, events: seq<Event>)
    requires Inv(s) && NoFatal(s, events)
    ensures Inv(HandleBatch(s, events))
    decreases |events|
  {
    hide Good, HandleEvent, Fatal;
    if events != [] {
      HandleEventGood(s, events[0]);
      BatchKeepsInv(HandleEvent(s, events[0]), events[1..]);
    }
  }

  /** What epoll_wait reports holds no fatal event, not even after the events before it were handled:
      descriptors that were closed, or closed and handed out again, earlier in the same batch. */
  lemma ReportedIsSafe(s: Server, events: seq<Event>)
    requires Inv(s) && Reported(s, events)
    ensures NoFatal(s, events)
  {
    hide Inv, Harmless, NoFatal;
    ReportedIsHarmless(s, events);
    HarmlessBatch(s, events);
  }

  lemma {:induction false} HarmlessBatch(s: Server, events: seq<Event>)
    requires Inv(s) && AllHarmless(s, events)
    requires forall i, j :: 0 <= i < j < |events| ==> events[i].fd != events[j].fd
    ensures NoFatal(s, events)
    decreases |events|
  {
    hide Good, HandleEvent, Harmless, Touches, Forward, Fatal;
    if events != [] {
      var e := events[0];
      var rest := events[1..];
      assert Harmless(s, e);
      HarmlessIsNotFatal(s, e);
      HandleEventGood(s, e);
      EventTouches(s, e);
      var s1 := HandleEvent(s, e);
      forall i | 0 <= i < |rest| ensures Harmless(s1, rest[i]) {
        assert rest[i] == events[i + 1] && Harmless(s, events[i + 1]);
        StaysHarmless(s, s1, e.fd, rest[i]);
      }
      HarmlessBatch(s1, rest);
    }
  }

  // ---------------------------------------------------------------- the scheduler

  /** The entry being served is off the queue and, for the time being, not waiting. */
  function Taken(s: Server): Server
    requires s.queue != []
  {
    Dequeue(Pop(s), s.queue[0])
  }

  lemma TakenGood(s: Server)
    requires Inv(s) && s.queue != []
    ensures Good(Taken(s), {s.queue[0]})
    ensures s.queue[0] !in s.waiting ==> Inv(Pop(s))
  {
    hide Reachable, PipesApart, TableOk, PipesOk, ShapesOk, MaskOf;
    forall x | x in s.queue && x != s.queue[0] ensures x in s.queue[1..] {}
  }

  /** Starting a CGI: a pipe that was not open before now belongs to the connection. */
  lemma NewPipeGood(s: Server, loose: set<Id>, id: Id, c: Conn)
    requires Good(s, loose) && id in s.heap && s.heap[id].pipe < 0
    requires c.fd == s.heap[id].fd && c.pipe >= 0 && c.pipe !in s.open && ShapeOk(c)
    ensures Good(Set(s, id, c).(open := s.open + {c.pipe}), loose + {id})
    ensures c.pipe !in s.pipes
  {
    LiveFacts(s, loose, id);
    var s1 := Set(s, id, c).(open := s.open + {c.pipe});
    PipelessOwnsNone(s, id);
    SetHeap(s.heap, id, c, s.connections, s.waiting, s.queue);
    SetHeapPipes(s.heap, id, c, s.pipes);
    NewPipeBooks(s, id, c);
    if c.pipe in s.pipes {
      PipeOpen(s, c.pipe);
    }
    hide Books, TableOk, WaitingOk, PipesOk, ShapesOk, MaskOf, ShapeOk;
  }

  lemma PipelessOwnsNone(s: Server, id: Id)
    requires Pointers(s) && id in s.heap && s.heap[id].pipe < 0
    ensures forall p :: p in s.pipes ==> s.pipes[p] != id
  {}

  lemma PipeOpen(s: Server, pipe: Fd)
    requires Books(s) && pipe in s.pipes
    ensures pipe in s.open
  {}

  lemma NewPipeBooks(s: Server, id: Id, c: Conn)
    requires Books(s) && id in s.heap && c.fd == s.heap[id].fd && c.pipe !in s.open
    ensures Books(Set(s, id, c).(open := s.open + {c.pipe}))
  {}

  lemma ProcessGood(s: Server, id: Id, call: Call)
    requires Good(s, {id}) && id in s.heap && s.heap[id].state.PROCESSING?
    ensures var s1 := Process(s, id, call);
            && Good(s1, {id}) && id in s1.heap && s1.heap[id] == Processed(s.heap[id], s.open, call)
            && s1.waiting == s.waiting && s1.pipes == s.pipes && s1.interest == s.interest && s1.queue == s.queue
            && (s1.heap[id].state.WAITING_FOR_CGI? ==> s1.heap[id].pipe >= 0 && s1.heap[id].pipe !in s.pipes)
  {
    hide Good;
    var c := s.heap[id];
    var d := Processed(c, s.open, call);
    LiveFacts(s, {id}, id);
    ProcessedShape(c, s.open, call);
    assert {id} + {id} == {id};
    if d.state.WAITING_FOR_CGI? {
      NewPipeGood(s, {id}, id, d);
    } else {
      SetGood(s, {id}, id, d);
    }
  }

  /** Registering a pipe always gets EPOLL_CTL_ADD right. */
  lemma RegisterGood(s: Server, loose: set<Id>, id: Id, now: int)
    requires Good(s, loose) && id in s.heap && s.heap[id].pipe >= 0 && s.heap[id].pipe !in s.pipes
    ensures var s1 := Register(s, id, now);
            && Good(s1, loose + {id}) && s1.heap == s.heap && s1.waiting == s.waiting &&
                  s1.pipes == s.pipes[s.heap[id].pipe := id]
            && s1.interest == s.interest[s.heap[id].pipe := INPUT]
  {
    var pipe := s.heap[id].pipe;
    LiveFacts(s, loose, id);
    RegisterPointers(s, id, now);
    assert pipe !in s.fdEvents && pipe in s.open;
    var s1 := Register(s, id, now);
    assert Polled(s1);
    forall other | other in s.heap ensures s.heap[other].fd != pipe {
      LiveFacts(s, loose, other);
    }
    hide Pointers, Polled, MaskOf;
  }

  lemma FinalizeGood(s: Server, id: Id, now: int)
    requires Good(s, {id}) && id in s.heap && id !in s.waiting
    requires s.heap[id].state.WRITING? ||
             (s.heap[id].state.WAITING_FOR_CGI? && s.heap[id].pipe >= 0 && s.heap[id].pipe !in s.pipes)
    ensures Inv(Finalize(s, id, now))
  {
    hide Good, AddPollFd, Register;
    var c := s.heap[id];
    LiveFacts(s, {id}, id);
    assert {id} + {id} == {id} && {id} - {id} == {};
    if c.state.WRITING? {
      PollGood(s, {id}, id, INPUT_OUTPUT);
      Settle(AddPollFd(s, c.fd, INPUT_OUTPUT), {id}, id);
    } else {
      PollGood(s, {id}, id, NOTHING);
      var s1 := AddPollFd(s, c.fd, NOTHING);
      RegisterGood(s1, {id}, id, now);
      Settle(Register(s1, id, now), {id}, id);
    }
  }

  lemma ServeGood(s: Server, call: Call)
    requires Inv(s) && s.queue != [] && s.queue[0] in s.waiting
    ensures Inv(Serve(Pop(s), s.queue[0], call))
    ensures s.queue[0] in s.heap && s.heap[s.queue[0]].state.PROCESSING?
  {
    hide Good, Process, Finalize, Processed;
    var id := s.queue[0];
    WaitingIsProcessing(s, id);
    TakenGood(s);
    var t := Taken(s);
    ProcessGood(t, id, call);
    var t1 := Process(t, id, call);
    ProcessIgnoresWaiting(Pop(s), id, call);
    var s1 := Process(Pop(s), id, call);
    assert Dequeue(s1, id) == t1;
    ProcessedStates(t.heap[id], t.open, call);
    if t1.heap[id].state.PROCESSING? {
      EnqueueGood(t1, {id}, id);
      var s2 := Enqueue(t1, id);
      assert {id} + {id} == {id} && {id} - {id} == {};
      LiveFacts(s, {}, id);
      StaysSettled(s, s2, id);
      Settle(s2, {id}, id);
      assert s.waiting - {id} + {id} == s.waiting;
      assert s2 == s1.(queue := s1.queue + [id]);
    } else {
      FinalizeGood(t1, id, call.registered);
    }
  }

  lemma WaitingIsProcessing(s: Server, id: Id)
    requires Inv(s) && id in s.waiting
    ensures id in s.heap && s.heap[id].state.PROCESSING?
  {}

  lemma ProcessEffect(s: Server, id: Id, call: Call)
    requires id in s.heap && s.heap[id].state.PROCESSING?
    ensures var d := Processed(s.heap[id], s.open, call);
            var open1 := if d.state.WAITING_FOR_CGI? then s.open + {d.pipe} else s.open;
            Process(s, id, call) == s.(heap := s.heap[id := d], open := open1)
  {
    hide Processed;
  }

  lemma ProcessIgnoresWaiting(s: Server, id: Id, call: Call)
    requires id in s.heap
    ensures Dequeue(Process(s, id, call), id) == Process(Dequeue(s, id), id, call)
    ensures Process(s, id, call).heap == Process(Dequeue(s, id), id, call).heap
    ensures Process(s, id, call).waiting == s.waiting
    ensures Process(s, id, call).queue == s.queue
  {
    hide Processed;
    if s.heap[id].state.PROCESSING? {
      hide Process;
      ProcessEffect(s, id, call);
      ProcessEffect(Dequeue(s, id), id, call);
    }
  }

  lemma ProcessedStates(c: Conn, open: set<Fd>, call: Call)
    requires c.state.PROCESSING?
    ensures var d := Processed(c, open, call);
            (d.state.PROCESSING? || d.state.WAITING_FOR_CGI? || d.state.WRITING?) && d.fd == c.fd
    ensures Rank(c.state) <= Rank(Processed(c, open, call).state)
  {}

  lemma StaysSettled(s: Server, s2: Server, id: Id)
    requires id in s.heap && Settled(s, id) && s.heap[id].state.PROCESSING?
    requires id in s2.heap && s2.heap[id].state.PROCESSING? && s2.heap[id].fd == s.heap[id].fd
    requires id in s2.waiting && s2.interest == s.interest
    ensures Settled(s2, id)
  {}

  lemma {:induction false} PassKeepsInv(s: Server, served: nat, calls: nat -> Call)
    requires Inv(s) && served <= BUDGET
    ensures Inv(RoundRobin(s, served, calls))
    decreases BUDGET - served, |s.queue|
  {
    hide Good, Serve;
    if s.queue != [] && served < BUDGET {
      if s.queue[0] !in s.waiting {
        TakenGood(s);
        PassKeepsInv(Pop(s), served, calls);
      } else {
        ServeGood(s, calls(served));
        PassKeepsInv(Serve(Pop(s), s.queue[0], calls(served)), served + 1, calls);
      }
    }
  }

  // ---------------------------------------------------------------- the sweeps

  lemma TimeOutGood(s: Server, fd: Fd)
    requires Inv(s)
    ensures Inv(TimeOut(s, fd))
  {
    hide Good, Finalize;
    if fd in s.connections {
      LiveEntry(s, {}, fd);
      var id := s.connections[fd];
      LiveFacts(s, {}, id);
      var s1 := Set(s, id, s.heap[id].(state := WRITING));
      SetGood(s, {}, id, s.heap[id].(state := WRITING));
      DequeueGood(s1, {} + {id}, id);
      assert {} + {id} + {id} == {id};
      FinalizeGood(Dequeue(s1, id), id, 0);
    }
  }

  lemma {:induction false} TimeOutAllGood(s: Server, fds: seq<Fd>)
    requires Inv(s)
    ensures Inv(TimeOutAll(s, fds))
    decreases |fds|
  {
    hide Good, TimeOut;
    if fds != [] {
      TimeOutGood(s, fds[0]);
      TimeOutAllGood(TimeOut(s, fds[0]), fds[1..]);
    }
  }

  lemma {:induction false} KillAllGood(s: Server, fds: seq<Fd>)
    requires Inv(s)
    ensures Inv(KillAll(s, fds))
    decreases |fds|
  {
    hide Good, Kill;
    if fds != [] {
      KillGood(s, fds[0]);
      KillAllGood(Kill(s, fds[0]), fds[1..]);
    }
  }

  lemma LastSweepGood(s: Server, now: int)
    requires Inv(s)
    ensures Inv(s.(lastSweep := now))
  {}

  lemma SweepsKeepInv(s: Server, it: Iteration)
    requires Inv(s)
    ensures Inv(AfterPass(s, it)) && Inv(AfterSweeps(s, it))
  {
    hide Good, RoundRobin, TimeOutAll, KillAll;
    PassKeepsInv(s, 0, it.calls);
    var s1 := AfterPass(s, it);
    LastSweepGood(s1, it.idleNow);
    TimeOutAllGood(s1.(lastSweep := it.idleNow), it.idle);
    KillAllGood(SweepIdle(s1, it.idleNow, it.idle), it.overdue);
  }

  // ---------------------------------------------------------------- whole runs

  /** No event of the run is fatal in the state it is handled in. */
  predicate SafeRun(s: Server, its: seq<Iteration>)
    decreases |its|
  {
    its == [] || (NoFatal(AfterSweeps(s, its[0]), its[0].events) && SafeRun(Iterate(s, its[0]), its[1..]))
  }

  /** The invariant holds at every point of the run: at its end, and in every iteration after the
      pass, after the sweeps and after each event. */
  predicate AlwaysInv(s: Server, its: seq<Iteration>)
    decreases |its|
  {
    Inv(s) && (its == [] ||
               (Inv(AfterPass(s, its[0])) && InvThroughout(AfterSweeps(s, its[0]), its[0].events) &&
                AlwaysInv(Iterate(s, its[0]), its[1..])))
  }

  /** The event-loop invariant over arbitrary runs: it holds throughout a run exactly if no event of
      the run is fatal. */
  lemma {:induction false} RunIff(s: Server, its: seq<Iteration>)
    requires Inv(s)
    ensures AlwaysInv(s, its) <==> SafeRun(s, its)
    decreases |its|
  {
    hide Inv, AfterPass, AfterSweeps, HandleBatch, NoFatal, InvThroughout;
    if its != [] {
      var s1 := AfterSweeps(s, its[0]);
      SweepsKeepInv(s, its[0]);
      BatchIff(s1, its[0].events);
      if NoFatal(s1, its[0].events) {
        BatchKeepsInv(s1, its[0].events);
        RunIff(Iterate(s, its[0]), its[1..]);
      }
    }
  }

  lemma {:induction false} RunKeepsInv(s: Server, its: seq<Iteration>)
    requires Inv(s) && SafeRun(s, its)
    ensures Inv(Run(s, its))
    decreases |its|
  {
    hide Inv, AfterSweeps, HandleBatch, NoFatal;
    if its != [] {
      SweepsKeepInv(s, its[0]);
      BatchKeepsInv(AfterSweeps(s, its[0]), its[0].events);
      RunKeepsInv(Iterate(s, its[0]), its[1..]);
    }
  }

  /** Every batch is one that epoll_wait can report in the state it is called in. */
  predicate EpollKept(s: Server, its: seq<Iteration>)
    decreases |its|
  {
    its == [] || (Reported(AfterSweeps(s, its[0]), its[0].events) && EpollKept(Iterate(s, its[0]), its[1..]))
  }

  /** With epoll as the source of events nothing fatal ever happens. */
  lemma {:induction false} EpollIsSafe(s: Server, its: seq<Iteration>)
    requires Inv(s) && EpollKept(s, its)
    ensures SafeRun(s, its) && AlwaysInv(s, its)
    decreases |its|
  {
    hide Inv, AfterPass, AfterSweeps, HandleBatch, Reported, NoFatal, InvThroughout;
    if its != [] {
      var s1 := AfterSweeps(s, its[0]);
      SweepsKeepInv(s, its[0]);
      ReportedIsSafe(s1, its[0].events);
      BatchKeepsInv(s1, its[0].events);
      EpollIsSafe(Iterate(s, its[0]), its[1..]);
    }
    RunIff(s, its);
  }

  /** What the invariant says of a single connection. */
  lemma InvMeans(s: Server, id: Id)
    requires Inv(s) && id in s.heap
    ensures !s.heap[id].state.FINISHED?
    ensures s.heap[id].state.PROCESSING? <==> id in s.waiting
    ensures id in s.waiting ==> id in s.queue
    ensures s.heap[id].fd in s.interest && s.interest[s.heap[id].fd] ==
              (if s.heap[id].state.READING? then INPUT else if s.heap[id].state.WRITING? then INPUT_OUTPUT else NOTHING)
    ensures s.heap[id].state.WAITING_FOR_CGI? ==> s.heap[id].pipe in s.pipes && s.pipes[s.heap[id].pipe] == id
    ensures s.fdEvents == s.interest && !s.ctlFailed && !s.dangling
  {
    LiveFacts(s, {}, id);
  }

  // ---------------------------------------------------------------- moving forward

  lemma ServeForward(s: Server, call: Call)
    requires Inv(s) && s.queue != [] && s.queue[0] in s.waiting
    ensures Forward(s, Serve(Pop(s), s.queue[0], call))
    ensures forall x :: x in Serve(Pop(s), s.queue[0], call).heap ==> x in s.heap
  {
    ServeHeap(s, call);
    hide Good, Processed, Serve;
    var id := s.queue[0];
    WaitingIsProcessing(s, id);
    ProcessedStates(s.heap[id], s.open, call);
  }

  lemma ServeHeap(s: Server, call: Call)
    requires Inv(s) && s.queue != [] && s.queue[0] in s.waiting
    ensures s.queue[0] in s.heap
    ensures Serve(Pop(s), s.queue[0], call).heap ==
              s.heap[s.queue[0] := Processed(s.heap[s.queue[0]], s.open, call)]
  {
    hide Good, Processed, Process, Finalize;
    var id := s.queue[0];
    WaitingIsProcessing(s, id);
    ProcessedStates(s.heap[id], s.open, call);
    ProcessEffect(Pop(s), id, call);
    var s1 := Process(Pop(s), id, call);
    if !s1.heap[id].state.PROCESSING? {
      FinalizeKeepsHeap(Dequeue(s1, id), id, call.registered);
    }
  }

  lemma FinalizeKeepsHeap(s: Server, id: Id, now: int)
    requires id in s.heap && !s.heap[id].state.FINISHED?
    ensures Finalize(s, id, now).heap == s.heap
  {
    hide AddPollFd;
    AddPollFdEffect(s, s.heap[id].fd, NOTHING);
    AddPollFdEffect(s, s.heap[id].fd, INPUT_OUTPUT);
    var s1 := AddPollFd(s, s.heap[id].fd, NOTHING);
    AddPollFdEffect(s1.(pipes := s1.pipes[s.heap[id].pipe := id], starts := s1.starts[s.heap[id].pipe := now]),
                    s.heap[id].pipe, INPUT);
  }

  lemma {:induction false} PassForward(s: Server, served: nat, calls: nat -> Call)
    requires Inv(s) && served <= BUDGET
    ensures Forward(s, RoundRobin(s, served, calls))
    ensures forall x :: x in RoundRobin(s, served, calls).heap ==> x in s.heap
    decreases BUDGET - served, |s.queue|
  {
    hide Good, Serve;
    if s.queue != [] && served < BUDGET {
      if s.queue[0] !in s.waiting {
        TakenGood(s);
        PassForward(Pop(s), served, calls);
      } else {
        var s1 := Serve(Pop(s), s.queue[0], calls(served));
        ServeGood(s, calls(served));
        ServeForward(s, calls(served));
        PassForward(s1, served + 1, calls);
        ForwardChain(s, s1, RoundRobin(s1, served + 1, calls));
      }
    }
  }

  lemma ForwardChain(s: Server, s1: Server, s2: Server)
    requires Forward(s, s1) && Forward(s1, s2)
    requires forall x :: x in s2.heap ==> x in s1.heap
    ensures Forward(s, s2)
  {}

  lemma TimeOutForward(s: Server, fd: Fd)
    requires Inv(s)
    ensures Forward(s, TimeOut(s, fd))
  {
    hide Good, Finalize;
    if fd in s.connections {
      LiveEntry(s, {}, fd);
      var id := s.connections[fd];
      LiveFacts(s, {}, id);
      FinalizeKeepsHeap(Dequeue(Set(s, id, s.heap[id].(state := WRITING)), id), id, 0);
    }
  }

  lemma KillForward(s: Server, pipe: Fd)
    requires Inv(s)
    ensures Forward(s, Kill(s, pipe))
  {
    hide Good, Unregister, ReleasePipe, StartWriting, Touches, Forward;
    NothingTouched(s, pipe);
    if pipe in s.pipes {
      OwnerNotWaiting(s, pipe);
      FinishTouches(s, pipe, true);
    }
  }

  /** A state never moves backwards in READING < PROCESSING < WAITING_FOR_CGI < WRITING < FINISHED:
      not in a scheduler pass, not in a sweep, not in the handling of any event. */
  lemma StatesMoveForward(s: Server, calls: nat -> Call, fd: Fd, e: Event)
    requires Inv(s)
    ensures Forward(s, RoundRobin(s, 0, calls)) && Forward(s, TimeOut(s, fd)) && Forward(s, Kill(s, fd))
    ensures Forward(s, HandleEvent(s, e))
  {
    hide Good, RoundRobin, TimeOut, Kill, HandleEvent, Forward;
    PassForward(s, 0, calls);
    TimeOutForward(s, fd);
    KillForward(s, fd);
    EventTouches(s, e);
  }
}
