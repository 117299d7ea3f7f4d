/** The full invariant of the event loop: all its tables, the kernel's interest set and the states
    of the connections agree at every loop boundary. */
module EventLoopInvariant {
  import opened ConnectionIntake
  import opened EventLoop
  import opened EventLoopPointers

  /** epoll watches exactly the listening sockets, the clients and the registered pipes, all of them
      open, and epoll_ctl has not failed. */
  predicate Polled(s: Server) {
    && !s.ctlFailed
    && s.fdEvents.Keys == s.listeners + s.connections.Keys + s.pipes.Keys
    && s.fdEvents.Keys <= s.open
    && s.listeners !! s.connections.Keys
  }

  /** Every live connection is in the table under its descriptor. */
  predicate Reachable(heap: map<Id, Conn>, connections: map<Fd, Id>) {
    forall id :: id in heap ==> heap[id].fd in connections && connections[heap[id].fd] == id
  }

  /** Pipes owned by live connections are open and distinct from each other and from sockets. */
  predicate PipesApart(heap: map<Id, Conn>, connections: map<Fd, Id>, open: set<Fd>, listeners: set<Fd>) {
    && (forall id :: id in heap && heap[id].pipe >= 0 ==>
          heap[id].pipe in open && heap[id].pipe !in listeners && heap[id].pipe !in connections)
    && (forall a, b :: a in heap && b in heap && heap[a].pipe >= 0 && heap[a].pipe == heap[b].pipe ==> a == b)
  }

  predicate Books(s: Server) {
    Polled(s) && Reachable(s.heap, s.connections) && PipesApart(s.heap, s.connections, s.open, s.listeners)
  }

  /** What holds of a connection at a loop boundary: it is not finished, it is PROCESSING exactly if
      it is waiting for a call, epoll watches it as its state prescribes, and while it waits for a
      CGI the pipe is registered. */
  predicate Settled(s: Server, id: Id)
    requires id in s.heap
  {
    var c := s.heap[id];
    && !c.state.FINISHED?
    && (c.state.PROCESSING? <==> id in s.waiting)
    && (c.fd in s.interest ==> s.interest[c.fd] == MaskOf(c.state))
    && (c.state.WAITING_FOR_CGI? ==> c.pipe in s.pipes)
  }

  predicate SettledBut(s: Server, loose: set<Id>) {
    forall id :: id in s.heap && id !in loose ==> Settled(s, id)
  }

  predicate Good(s: Server, loose: set<Id>) {
    Pointers(s) && Books(s) && SettledBut(s, loose)
  }

  predicate Inv(s: Server) {
    Good(s, {})
  }

  lemma StartInv(listeners: set<Fd>)
    ensures Inv(Start(listeners))
  {}

  // ---------------------------------------------------------------- primitives

  lemma PipeIsNoClient(s: Server, pipe: Fd)
    requires Pointers(s) && Books(s) && pipe in s.pipes
    ensures pipe !in s.connections && pipe !in s.listeners
  {
    OwnerOf(s, pipe);
    LivePipeApart(s, s.pipes[pipe]);
  }

  lemma LivePipeApart(s: Server, id: Id)
    requires Books(s) && id in s.heap && s.heap[id].pipe >= 0
    ensures s.heap[id].pipe !in s.connections && s.heap[id].pipe !in s.listeners && s.heap[id].pipe in s.open
  {}

  /** Facts about one live connection, for use with the big predicates hidden. */
  lemma LiveFacts(s: Server, loose: set<Id>, id: Id)
    requires Good(s, loose) && id in s.heap
    ensures var c := s.heap[id];
            && c.fd in s.connections && s.connections[c.fd] == id && ShapeOk(c)
            && c.fd in s.interest && c.fd !in s.pipes && c.fd !in s.listeners
            && (c.pipe >= 0 ==> c.pipe != c.fd && c.pipe in s.open && c.pipe !in s.connections &&
                                c.pipe !in s.listeners)
            && (c.pipe in s.pipes ==> s.pipes[c.pipe] == id)
            && (id !in loose ==> Settled(s, id))
  {
    var c := s.heap[id];
    if c.fd in s.pipes {
      PipeIsNoClient(s, c.fd);
    }
    if c.pipe in s.pipes {
      OwnerOf(s, c.pipe);
    }
  }

  lemma Settle(s: Server, loose: set<Id>, id: Id)
    requires Good(s, loose) && (id in s.heap ==> Settled(s, id))
    ensures Good(s, loose - {id})
  {}

  lemma SetGood(s: Server, loose: set<Id>, id: Id, c: Conn)
    requires Good(s, loose) && id in s.heap
    requires c.fd == s.heap[id].fd && c.pipe == s.heap[id].pipe && c.hasConf == s.heap[id].hasConf && ShapeOk(c)
    ensures Good(Set(s, id, c), loose + {id})
  {
    SetPointers(s, id, c);
    hide Pointers, Polled, MaskOf;
  }

  lemma EnqueueGood(s: Server, loose: set<Id>, id: Id)
    requires Good(s, loose) && id in s.heap
    ensures Good(Enqueue(s, id), loose + {id})
  {
    EnqueuePointers(s, id);
    hide Pointers, Polled, MaskOf, Reachable, PipesApart;
  }

  lemma DequeueGood(s: Server, loose: set<Id>, id: Id)
    requires Good(s, loose)
    ensures Good(Dequeue(s, id), loose + {id})
  {
    DequeuePointers(s, id);
    hide Pointers, Polled, MaskOf, Reachable, PipesApart;
  }

  /** epoll_ctl always gets the right operation for a client. */
  lemma PollGood(s: Server, loose: set<Id>, id: Id, mask: Mask)
    requires Good(s, loose) && id in s.heap
    ensures var s1 := AddPollFd(s, s.heap[id].fd, mask);
            && Good(s1, loose + {id})
            && s1 == s.(interest := s.interest[s.heap[id].fd := mask], fdEvents := s.interest[s.heap[id].fd := mask])
  {
    LiveFacts(s, loose, id);
    AddPollFdPointers(s, s.heap[id].fd, mask);
    forall other | other in s.heap && other != id ensures s.heap[other].fd != s.heap[id].fd {
      LiveFacts(s, loose, other);
    }
    hide Pointers, MaskOf, PipesApart;
  }

  /** epoll_ctl concerns nothing but the masks. */
  lemma AddPollFdEffect(s: Server, fd: Fd, mask: Mask)
    ensures var s1 := AddPollFd(s, fd, mask);
            && s1.heap == s.heap && s1.connections == s.connections && s1.queue == s.queue
            && s1.pipes == s.pipes && s1.starts == s.starts && s1.open == s.open
    ensures AddPollFd(s, fd, mask).waiting == s.waiting
  {}

  lemma UnregisterGood(s: Server, loose: set<Id>, id: Id)
    requires Good(s, loose) && id in s.heap
    ensures Good(Unregister(s, s.heap[id].pipe), loose + {id})
    ensures NoPipeOf(Unregister(s, s.heap[id].pipe), id)
  {
    var pipe := s.heap[id].pipe;
    LiveFacts(s, loose, id);
    UnregisterPointers(s, pipe);
    UnregisteredOwner(s, id);
    forall other | other in s.heap && other != id ensures pipe >= 0 ==>
          s.heap[other].fd != pipe && s.heap[other].pipe != pipe {
      LiveFacts(s, loose, other);
    }
    hide Pointers, MaskOf;
  }

  lemma ReleaseGood(s: Server, loose: set<Id>, id: Id)
    requires Good(s, loose) && id in s.heap && NoPipeOf(s, id)
    ensures var s1 := ReleasePipe(s, id);
            && Good(s1, loose + {id}) && id in s1.heap && s1.heap[id] == s.heap[id].(pipe := s1.heap[id].pipe)
            && s1.heap[id].pipe < 0 && NoPipeOf(s1, id)
  {
    LiveFacts(s, loose, id);
    ReleasePointers(s, id);
    ReleaseBooks(s, loose, id);
    forall other | other in s.heap && other != id ensures s.heap[other].fd != s.heap[id].pipe || s.heap[id].pipe < 0 {
      LiveFacts(s, loose, other);
    }
    hide Pointers, Books, MaskOf;
  }

  lemma ReleaseBooks(s: Server, loose: set<Id>, id: Id)
    requires Good(s, loose) && id in s.heap && NoPipeOf(s, id)
    ensures Books(ReleasePipe(s, id))
  {
    LiveFacts(s, loose, id);
    var pipe := s.heap[id].pipe;
    assert pipe >= 0 ==> pipe !in s.pipes;
    hide Pointers, SettledBut;
  }

  // ---------------------------------------------------------------- dropping and accepting

  /** Deleting a connection and everything the loop knows about it. */
  lemma DropGood(s: Server, loose: set<Id>, fd: Fd)
    requires Good(s, loose) && fd in s.connections
    ensures Good(DropConnection(s, fd), loose - {s.connections[fd]})
    ensures s.connections[fd] !in DropConnection(s, fd).heap
  {
    hide Unregister, ReleasePipe, NoPipeOf, Good, Settled;
    var id := s.connections[fd];
    LiveEntry(s, loose, fd);
    UnregisterGood(s, loose, id);
    var s1 := Unregister(s, s.heap[id].pipe);
    UnregisterKeeps(s, s.heap[id].pipe);
    DequeueGood(s1, loose + {id}, id);
    var s2 := Dequeue(s1, id);
    NoPipeKept(s1, id);
    ReleaseGood(s2, loose + {id}, id);
    ReleaseKeeps(s2, id);
    assert loose + {id} + {id} == loose + {id} && loose + {id} - {id} == loose - {id};
    RemoveGood(ReleasePipe(s2, id), loose + {id}, id);
  }

  lemma LiveEntry(s: Server, loose: set<Id>, fd: Fd)
    requires Good(s, loose) && fd in s.connections
    ensures s.connections[fd] in s.heap && s.heap[s.connections[fd]].fd == fd
  {}

  lemma UnregisterKeeps(s: Server, pipe: Fd)
    ensures Unregister(s, pipe).heap == s.heap && Unregister(s, pipe).connections == s.connections
  {}

  lemma NoPipeKept(s: Server, id: Id)
    requires NoPipeOf(s, id)
    ensures NoPipeOf(Dequeue(s, id), id) && id !in Dequeue(s, id).waiting
  {}

  lemma ReleaseKeeps(s: Server, id: Id)
    requires id in s.heap
    ensures ReleasePipe(s, id).connections == s.connections && ReleasePipe(s, id).waiting == s.waiting
  {}

  /** The last part of _dropConnection, once the connection has no pipe and is not waiting. */
  lemma RemoveGood(s: Server, loose: set<Id>, id: Id)
    requires Good(s, loose) && id in s.heap && s.heap[id].pipe < 0 && id !in s.waiting && NoPipeOf(s, id)
    ensures var fd := s.heap[id].fd;
            var s1 := s.(heap := s.heap - {id}, connections := s.connections - {fd});
            var s2 := Close(s1, fd);
            Good(s2.(fdEvents := s2.fdEvents - {fd}), loose - {id})
  {
    var fd := s.heap[id].fd;
    LiveFacts(s, loose, id);
    var s2 := Close(s.(heap := s.heap - {id}, connections := s.connections - {fd}), fd);
    var s3 := s2.(fdEvents := s2.fdEvents - {fd});
    RemovePointers(s, id);
    assert s3.heap.Keys == s.heap.Keys - {id};
    forall other | other in s3.heap ensures s3.heap[other] == s.heap[other] && s.heap[other].fd != fd {
      LiveFacts(s, loose, other);
    }
    assert Polled(s3);
    hide Pointers, Polled, MaskOf;
  }

  lemma RemovePointers(s: Server, id: Id)
    requires Pointers(s) && Reachable(s.heap, s.connections) && id in s.heap && id !in s.waiting && NoPipeOf(s, id)
    ensures var fd := s.heap[id].fd;
            var s1 := s.(heap := s.heap - {id}, connections := s.connections - {fd}, fdEvents := s.fdEvents - {fd});
            Pointers(Close(s1, fd))
  {}

  /** A pipe that is still open although it is no longer registered: its owner failed while reading
      from it. */
  predicate Orphan(s: Server, fd: Fd) {
    fd >= 0 && fd !in s.pipes && exists id :: id in s.heap && s.heap[id].pipe == fd
  }

  /** A hang-up reported for a descriptor the loop does not know only closes that descriptor. */
  lemma DropUnknownGood(s: Server, loose: set<Id>, fd: Fd)
    requires Good(s, loose) && fd !in s.interest && !Orphan(s, fd)
    ensures Good(DropConnection(s, fd), loose)
  {
    DropPointers(s, fd);
    assert fd !in s.connections;
    var s1 := DropConnection(s, fd);
    assert s1.fdEvents == s.fdEvents && s1.interest == s.interest && s1.heap == s.heap;
    assert Polled(s1);
    hide Pointers, Polled, MaskOf;
  }

  /** Exactly an orphan pipe must not be hung up on: closing it takes the descriptor away from a
      connection that still owns it. */
  lemma DropUnknownIff(s: Server, fd: Fd)
    requires Inv(s) && fd !in s.interest
    ensures Inv(DropConnection(s, fd)) <==> !Orphan(s, fd)
  {
    if Orphan(s, fd) {
      assert fd !in s.connections;
      var id :| id in s.heap && s.heap[id].pipe == fd;
      var s1 := DropConnection(s, fd);
      assert s1.heap == s.heap && fd !in s1.open;
      assert !PipesApart(s1.heap, s1.connections, s1.open, s1.listeners);
    } else {
      DropUnknownGood(s, {}, fd);
    }
  }

  lemma AcceptGood(s: Server, loose: set<Id>, a: Accepted)
    requires Good(s, loose)
    ensures Good(AcceptOne(s, a), loose)
  {
    AcceptOnePointers(s, a);
    if a.fd >= 0 && a.fd !in s.open && a.id !in s.heap {
      NewIsUnknown(s, loose, a);
      var s1 := AcceptOne(s, a);
      assert s1.fdEvents == s.fdEvents[a.fd := INPUT] && s1.interest == s.interest[a.fd := INPUT];
      assert Polled(s1);
      AcceptBooks(s, loose, a);
      hide Pointers, Books, Polled;
    }
  }

  lemma NewIsUnknown(s: Server, loose: set<Id>, a: Accepted)
    requires Good(s, loose) && a.fd !in s.open
    ensures a.fd !in s.interest && a.fd !in s.fdEvents && a.fd !in s.connections
    ensures forall id :: id in s.heap ==> s.heap[id].fd != a.fd
  {}

  lemma AcceptBooks(s: Server, loose: set<Id>, a: Accepted)
    requires Good(s, loose) && a.fd >= 0 && a.fd !in s.open && a.id !in s.heap
    ensures var s1 := AcceptOne(s, a);
            Reachable(s1.heap, s1.connections) && PipesApart(s1.heap, s1.connections, s1.open, s1.listeners)
  {
    hide Pointers, SettledBut;
  }

  lemma {:induction false} AcceptAllGood(s: Server, accepts: seq<Accepted>)
    requires Inv(s)
    ensures Inv(AcceptAll(s, accepts))
    decreases |accepts|
  {
    hide Good, AcceptOne;
    if accepts != [] {
      AcceptGood(s, {}, accepts[0]);
      AcceptAllGood(AcceptOne(s, accepts[0]), accepts[1..]);
    }
  }

  // ---------------------------------------------------------------- client events

  /** Input for a connection whose request is complete rewinds the stored body again. If that throws,
      the connection goes on to write although it still waits for a process() call. */
  predicate RewindFails(c: Conn, ev: Events, env: IoEnv) {
    ev.input && c.state.PROCESSING? && !env.resetOk
  }

  lemma IoStates(c: Conn, ev: Events, env: IoEnv)
    ensures var d := AfterIo(c, ev, env);
            && (d.state.PROCESSING? ==> (ev.input || c.state.PROCESSING?))
            && (c.state.PROCESSING? ==> if RewindFails(c, ev, env) then d.state.WRITING? else d.state.PROCESSING?)
            && (d.state.WAITING_FOR_CGI? ==> c.state.WAITING_FOR_CGI?)
  {}

  lemma HandleConnectionGood(s: Server, id: Id, ev: Events, env: IoEnv)
    requires Inv(s) && id in s.heap && !RewindFails(s.heap[id], ev, env)
    ensures Inv(HandleConnection(s, id, ev, env))
  {
    hide AfterIo, DropConnection, AddPollFd, Good, Enqueue, ShapeOk, Settled;
    var c := s.heap[id];
    LiveFacts(s, {}, id);
    var d := AfterIo(c, ev, env);
    IoKeeps(c, ev, env);
    IoStates(c, ev, env);
    IoShape(c, ev, env);
    SetGood(s, {}, id, d);
    var s1 := Set(s, id, d);
    EnqueueGood(s1, {} + {id}, id);
    var s2 := if ev.input && d.state.PROCESSING? then Enqueue(s1, id) else s1;
    assert {} + {id} + {id} == {} + {id} && {} + {id} == {id} && {id} - {id} == {};
    EnqueueKeeps(s1, id);
    if d.state.FINISHED? {
      LiveFacts(s2, {id}, id);
      DropGood(s2, {id}, d.fd);
    } else {
      PollGood(s2, {id}, id, MaskOf(d.state));
      var s3 := AddPollFd(s2, d.fd, MaskOf(d.state));
      assert {id} + {id} == {id};
      BecomesSettled(s, s3, id, ev, env);
      Settle(s3, {id}, id);
    }
  }

  lemma IoShape(c: Conn, ev: Events, env: IoEnv)
    requires ShapeOk(c)
    ensures ShapeOk(AfterIo(c, ev, env))
  {
    IoKeeps(c, ev, env);
  }

  lemma EnqueueKeeps(s: Server, id: Id)
    ensures var s1 := Enqueue(s, id);
            s1.heap == s.heap && s1.pipes == s.pipes && s1.waiting == s.waiting + {id} &&
                  s1.connections == s.connections
  {
    if id in s.waiting {
      assert s.waiting + {id} == s.waiting;
    }
  }

  lemma BecomesSettled(s: Server, s3: Server, id: Id, ev: Events, env: IoEnv)
    requires id in s.heap && Settled(s, id) && id in s3.heap
    requires !RewindFails(s.heap[id], ev, env)
    requires s3.heap[id] == AfterIo(s.heap[id], ev, env) && !s3.heap[id].state.FINISHED?
    requires s3.pipes == s.pipes && s3.heap[id].fd in s3.interest
    requires s3.interest[s3.heap[id].fd] == MaskOf(s3.heap[id].state)
    requires s3.waiting == if ev.input && s3.heap[id].state.PROCESSING? then s.waiting + {id} else s.waiting
    ensures Settled(s3, id)
  {
    hide AfterIo, MaskOf;
    IoKeeps(s.heap[id], ev, env);
    IoStates(s.heap[id], ev, env);
  }

  /** A client event does damage just when the rewind of a complete request fails. */
  lemma HandleConnectionIff(s: Server, id: Id, ev: Events, env: IoEnv)
    requires Inv(s) && id in s.heap
    ensures Inv(HandleConnection(s, id, ev, env)) <==> !RewindFails(s.heap[id], ev, env)
  {
    if RewindFails(s.heap[id], ev, env) {
      RewindBreaks(s, id, ev, env);
    } else {
      HandleConnectionGood(s, id, ev, env);
    }
  }

  lemma RewindBreaks(s: Server, id: Id, ev: Events, env: IoEnv)
    requires Inv(s) && id in s.heap && RewindFails(s.heap[id], ev, env)
    ensures !Inv(HandleConnection(s, id, ev, env))
  {
    LiveFacts(s, {}, id);
    assert id in s.waiting;
    hide AddPollFd, Good;
    var c := s.heap[id].(state := WRITING);
    var s1 := HandleConnection(s, id, ev, env);
    assert s1 == AddPollFd(Set(s, id, c), c.fd, INPUT_OUTPUT);
    AddPollFdEffect(Set(s, id, c), c.fd, INPUT_OUTPUT);
    if Inv(s1) {
      LiveFacts(s1, {}, id);
      assert false;
    }
  }

  // ---------------------------------------------------------------- pipe events

  lemma StartWritingGood(s: Server, loose: set<Id>, id: Id)
    requires Good(s, loose) && id in s.heap && id !in s.waiting
    ensures Good(StartWriting(s, id), loose - {id})
  {
    hide Good, AddPollFd;
    var c := s.heap[id].(state := WRITING);
    LiveFacts(s, loose, id);
    SetGood(s, loose, id, c);
    var s1 := Set(s, id, c);
    PollGood(s1, loose + {id}, id, INPUT_OUTPUT);
    assert loose + {id} + {id} - {id} == loose - {id};
    Settle(AddPollFd(s1, c.fd, INPUT_OUTPUT), loose + {id} + {id}, id);
  }

  /** The owner of a pipe is not waiting for a process() call. */
  lemma OwnerNotWaiting(s: Server, pipe: Fd)
    requires Inv(s) && pipe in s.pipes
    ensures s.pipes[pipe] in s.heap && s.heap[s.pipes[pipe]].pipe == pipe && s.heap[s.pipes[pipe]].hasConf
    ensures s.pipes[pipe] !in s.waiting
  {
    OwnerOf(s, pipe);
    LiveFacts(s, {}, s.pipes[pipe]);
  }

  lemma FinishGood(s: Server, pipe: Fd)
    requires Inv(s) && pipe in s.pipes
    ensures Inv(StartWriting(Unregister(s, pipe), s.pipes[pipe]))
    ensures Inv(StartWriting(ReleasePipe(Unregister(s, pipe), s.pipes[pipe]), s.pipes[pipe]))
  {
    hide Good, Unregister, ReleasePipe, StartWriting, NoPipeOf;
    var id := s.pipes[pipe];
    OwnerNotWaiting(s, pipe);
    UnregisterGood(s, {}, id);
    var s1 := Unregister(s, pipe);
    UnregisterKeeps(s, pipe);
    UnregisterWaiting(s, pipe);
    assert {} + {id} - {id} == {} && {} + {id} + {id} - {id} == {};
    StartWritingGood(s1, {} + {id}, id);
    ReleaseGood(s1, {} + {id}, id);
    ReleaseKeeps(s1, id);
    StartWritingGood(ReleasePipe(s1, id), {} + {id} + {id}, id);
  }

  lemma UnregisterWaiting(s: Server, pipe: Fd)
    ensures Unregister(s, pipe).waiting == s.waiting
  {}

  lemma PipeEventGood(s: Server, pipe: Fd, ev: Events, outcome: PipeOutcome)
    requires Inv(s)
    ensures Inv(PipeEvent(s, pipe, ev, outcome))
  {
    hide Good, Unregister, ReleasePipe, StartWriting;
    if pipe in s.pipes {
      OwnerNotWaiting(s, pipe);
      FinishGood(s, pipe);
    }
  }

  lemma KillGood(s: Server, pipe: Fd)
    requires Inv(s)
    ensures Inv(Kill(s, pipe))
  {
    hide Good, Unregister, ReleasePipe, StartWriting;
    if pipe in s.pipes {
      OwnerNotWaiting(s, pipe);
      FinishGood(s, pipe);
    }
  }

  // ---------------------------------------------------------------- the batch

  /** The two events that do damage: a hang-up on an orphan pipe, which closes a descriptor that a
      connection still owns, and input for a complete request whose body cannot be rewound. */
  predicate Fatal(s: Server, e: Event) {
    if e.events.hangup then Orphan(s, e.fd)
    else
      && e.fd !in s.pipes && e.fd !in s.listeners && e.fd in s.connections && s.connections[e.fd] in s.heap
      && RewindFails(s.heap[s.connections[e.fd]], e.events, e.io)
  }

  /** Every event that is not fatal keeps the invariant: stale, repeated or made up. */
  lemma HandleEventGood(s: Server, e: Event)
    requires Inv(s) && !Fatal(s, e)
    ensures Inv(HandleEvent(s, e))
  {
    hide Good, PipeEvent, DropConnection, AcceptAll, HandleConnection, Orphan;
    PipeEventGood(s, e.fd, e.events, e.pipe);
    AcceptAllGood(s, e.accepts);
    if e.fd in s.connections {
      LiveEntry(s, {}, e.fd);
      DropGood(s, {}, e.fd);
      assert {} - {s.connections[e.fd]} == {};
      if e.fd !in s.pipes && !e.events.hangup && e.fd !in s.listeners {
        HandleConnectionGood(s, s.connections[e.fd], e.events, e.io);
      }
    } else if e.fd !in s.pipes && e.fd !in s.listeners && e.events.hangup {
      UnknownFd(s, e.fd);
      DropUnknownGood(s, {}, e.fd);
    }
  }

  /** The exact condition, for every event whatsoever. */
  lemma HandleEventIff(s: Server, e: Event)
    requires Inv(s)
    ensures Inv(HandleEvent(s, e)) <==> !Fatal(s, e)
  {
    hide Good, DropConnection, HandleConnection;
    if !Fatal(s, e) {
      HandleEventGood(s, e);
    } else if e.events.hangup {
      OrphanIsUnknown(s, e.fd);
      DropUnknownIff(s, e.fd);
    } else {
      HandleConnectionIff(s, s.connections[e.fd], e.events, e.io);
    }
  }

  lemma OrphanIsUnknown(s: Server, fd: Fd)
    requires Inv(s) && Orphan(s, fd)
    ensures fd !in s.pipes && fd !in s.listeners && fd !in s.connections && fd !in s.interest
  {
    hide Good;
    var id :| id in s.heap && s.heap[id].pipe == fd;
    LiveFacts(s, {}, id);
    UnknownFd(s, fd);
  }

  lemma UnknownFd(s: Server, fd: Fd)
    requires Inv(s) && fd !in s.connections && fd !in s.pipes && fd !in s.listeners
    ensures fd !in s.interest
  {}

  /** Events as epoll_wait reports them: each descriptor once, only descriptors in the interest set,
      and input only where it was asked for. Hang-ups are reported whatever the mask. */
  predicate Reported(s: Server, events: seq<Event>) {
    && (forall i, j :: 0 <= i < j < |events| ==> events[i].fd != events[j].fd)
    && (forall i :: 0 <= i < |events| ==> Watched(s, events[i]))
  }

  predicate Watched(s: Server, e: Event) {
    e.fd in s.interest && (e.events.input ==> s.interest[e.fd].input)
  }

  /** What cannot turn fatal while other descriptors are handled: an event on no orphan pipe that
      brings no input to a connection that is PROCESSING. */
  predicate Harmless(s: Server, e: Event) {
    && !Orphan(s, e.fd)
    && (e.events.input && e.fd in s.connections && s.connections[e.fd] in s.heap ==>
          !s.heap[s.connections[e.fd]].state.PROCESSING?)
  }

  predicate AllHarmless(s: Server, events: seq<Event>) {
    forall i :: 0 <= i < |events| ==> Harmless(s, events[i])
  }

  lemma HarmlessIsNotFatal(s: Server, e: Event)
    requires Harmless(s, e)
    ensures !Fatal(s, e)
  {}

  lemma ReportedIsHarmless(s: Server, events: seq<Event>)
    requires Inv(s) && Reported(s, events)
    ensures AllHarmless(s, events)
  {
    forall i | 0 <= i < |events| ensures Harmless(s, events[i]) {
      EventIsHarmless(s, events[i]);
    }
  }

  lemma EventIsHarmless(s: Server, e: Event)
    requires Inv(s) && Watched(s, e)
    ensures Harmless(s, e)
  {
    hide Good;
    if Orphan(s, e.fd) {
      OrphanIsUnknown(s, e.fd);
    }
    if e.fd in s.connections {
      LiveEntry(s, {}, e.fd);
      LiveFacts(s, {}, s.connections[e.fd]);
    }
  }
}
