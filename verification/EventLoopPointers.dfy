/** No use of a deleted connection, for any events whatsoever: stale, repeated or made up. */
module EventLoopPointers {
  import opened ConnectionIntake
  import opened EventLoop

  /** The table of connections leads to live objects with the right descriptor. */
  predicate TableOk(heap: map<Id, Conn>, connections: map<Fd, Id>) {
    forall fd :: fd in connections ==> connections[fd] in heap && heap[connections[fd]].fd == fd
  }

  /** Every waiting connection is live and has an entry in the queue. */
  predicate WaitingOk(heap: map<Id, Conn>, waiting: set<Id>, queue: seq<Id>) {
    forall id :: id in waiting ==> id in heap && id in queue
  }

  /** Every registered pipe belongs to a live connection that owns it. */
  predicate PipesOk(heap: map<Id, Conn>, pipes: map<Fd, Id>) {
    forall p :: p in pipes ==> pipes[p] in heap && heap[pipes[p]].pipe == p && p >= 0
  }

  /** No pipe before a CGI is started, and none without a configuration. */
  predicate ShapeOk(c: Conn) {
    (c.state.READING? || c.state.PROCESSING? ==> c.pipe == -1) && (c.pipe >= 0 ==> c.hasConf)
  }

  predicate ShapesOk(heap: map<Id, Conn>) {
    forall id :: id in heap ==> ShapeOk(heap[id])
  }

  /** Every reference the loop follows leads to a live connection, and the server's own table of masks
      is the kernel's interest set. */
  predicate Pointers(s: Server) {
    && !s.dangling && s.starts.Keys == s.pipes.Keys && s.fdEvents == s.interest
    && TableOk(s.heap, s.connections) && WaitingOk(s.heap, s.waiting, s.queue)
    && PipesOk(s.heap, s.pipes) && ShapesOk(s.heap)
  }

  lemma StartPointers(listeners: set<Fd>)
    ensures Pointers(Start(listeners))
  {}

  lemma AddPollFdPointers(s: Server, fd: Fd, mask: Mask)
    requires Pointers(s)
    ensures Pointers(AddPollFd(s, fd, mask))
    ensures AddPollFd(s, fd, mask).heap == s.heap && AddPollFd(s, fd, mask).waiting == s.waiting
  {
    hide TableOk, WaitingOk, PipesOk, ShapesOk;
  }

  lemma UnregisterPointers(s: Server, pipe: Fd)
    requires Pointers(s)
    ensures Pointers(Unregister(s, pipe))
    ensures pipe >= 0 ==> pipe !in Unregister(s, pipe).pipes && pipe !in Unregister(s, pipe).interest
    ensures Unregister(s, pipe).heap == s.heap && Unregister(s, pipe).connections == s.connections
  {
    hide TableOk, WaitingOk, ShapesOk;
  }

  /** No registered pipe belongs to the connection. */
  predicate NoPipeOf(s: Server, id: Id) {
    forall p :: p in s.pipes ==> s.pipes[p] != id
  }

  lemma UnregisteredOwner(s: Server, id: Id)
    requires Pointers(s) && id in s.heap
    ensures NoPipeOf(Unregister(s, s.heap[id].pipe), id)
  {}

  lemma ReleasePointers(s: Server, id: Id)
    requires Pointers(s) && id in s.heap && NoPipeOf(s, id)
    requires s.heap[id].pipe >= 0 ==> s.heap[id].pipe !in s.interest
    ensures Pointers(ReleasePipe(s, id)) && id in ReleasePipe(s, id).heap && NoPipeOf(ReleasePipe(s, id), id)
  {
    var c := s.heap[id].(pipe := -1);
    SetHeap(s.heap, id, c, s.connections, s.waiting, s.queue);
    SetHeapPipes(s.heap, id, c, s.pipes);
    hide TableOk, WaitingOk, PipesOk, ShapesOk, NoPipeOf;
  }

  /** Changing a live connection, its descriptor aside, disturbs neither table nor queue. */
  lemma SetHeap(heap: map<Id, Conn>, id: Id, c: Conn, connections: map<Fd, Id>, waiting: set<Id>, queue: seq<Id>)
    requires id in heap && c.fd == heap[id].fd
    requires TableOk(heap, connections) && WaitingOk(heap, waiting, queue)
    ensures TableOk(heap[id := c], connections) && WaitingOk(heap[id := c], waiting, queue)
    ensures ShapesOk(heap) && ShapeOk(c) ==> ShapesOk(heap[id := c])
  {}

  lemma SetHeapPipes(heap: map<Id, Conn>, id: Id, c: Conn, pipes: map<Fd, Id>)
    requires id in heap && PipesOk(heap, pipes)
    requires c.pipe == heap[id].pipe || forall p :: p in pipes ==> pipes[p] != id
    ensures PipesOk(heap[id := c], pipes)
  {}

  lemma DropPointers(s: Server, fd: Fd)
    requires Pointers(s)
    ensures Pointers(DropConnection(s, fd))
  {
    hide Pointers, Unregister, ReleasePipe, NoPipeOf;
    if fd in s.connections {
      LiveConnection(s, fd);
      var id := s.connections[fd];
      var s1 := Unregister(s, s.heap[id].pipe);
      UnregisterPointers(s, s.heap[id].pipe);
      UnregisteredOwner(s, id);
      DequeuePointers(s1, id);
      DeletePointers(Dequeue(s1, id), id, fd);
      ClosePointers(Delete(Dequeue(s1, id), id).(connections := s.connections - {fd}), fd);
    } else {
      ClosePointers(s, fd);
    }
  }

  lemma LiveConnection(s: Server, fd: Fd)
    requires Pointers(s) && fd in s.connections
    ensures s.connections[fd] in s.heap
  {}

  lemma DequeuePointers(s: Server, id: Id)
    requires Pointers(s)
    ensures Pointers(Dequeue(s, id)) && id !in Dequeue(s, id).waiting
    ensures NoPipeOf(s, id) ==> NoPipeOf(Dequeue(s, id), id)
  {}

  lemma DeletePointers(s: Server, id: Id, fd: Fd)
    requires Pointers(s) && id in s.heap && NoPipeOf(s, id) && id !in s.waiting
    requires s.heap[id].pipe >= 0 ==> s.heap[id].pipe !in s.interest
    requires fd in s.connections && s.connections[fd] == id
    ensures Delete(s, id).connections == s.connections
    ensures Pointers(Delete(s, id).(connections := s.connections - {fd}))
  {
    ReleasePointers(s, id);
  }

  lemma ClosePointers(s: Server, fd: Fd)
    requires Pointers(s)
    ensures Pointers(Close(s, fd).(fdEvents := Close(s, fd).fdEvents - {fd}))
  {}

  /** A connection may be changed as long as it keeps its descriptor and pipe. */
  lemma SetPointers(s: Server, id: Id, c: Conn)
    requires Pointers(s) && id in s.heap
    requires c.fd == s.heap[id].fd && c.pipe == s.heap[id].pipe && c.hasConf == s.heap[id].hasConf
    requires c.state.READING? || c.state.PROCESSING? ==> c.pipe == -1
    ensures Pointers(Set(s, id, c))
  {
    LiveShape(s, id);
    SetHeap(s.heap, id, c, s.connections, s.waiting, s.queue);
    SetHeapPipes(s.heap, id, c, s.pipes);
    hide TableOk, WaitingOk, PipesOk, ShapesOk;
  }

  lemma IoKeeps(c: Conn, ev: Events, env: IoEnv)
    ensures var d := AfterIo(c, ev, env);
            && d.fd == c.fd && d.pipe == c.pipe && d.hasConf == c.hasConf
            && (d.state.READING? || d.state.PROCESSING? ==> c.state.READING? || c.state.PROCESSING?)
  {}

  lemma HandleConnectionPointers(s: Server, id: Id, ev: Events, env: IoEnv)
    requires Pointers(s) && id in s.heap
    ensures Pointers(HandleConnection(s, id, ev, env))
  {
    hide AfterIo, DropConnection, AddPollFd, Pointers;
    var c := AfterIo(s.heap[id], ev, env);
    IoKeeps(s.heap[id], ev, env);
    LiveShape(s, id);
    SetPointers(s, id, c);
    var s1 := Set(s, id, c);
    EnqueuePointers(s1, id);
    var s2 := if ev.input && c.state.PROCESSING? then Enqueue(s1, id) else s1;
    DropPointers(s2, c.fd);
    AddPollFdPointers(s2, c.fd, MaskOf(c.state));
  }

  lemma LiveShape(s: Server, id: Id)
    requires Pointers(s) && id in s.heap
    ensures ShapeOk(s.heap[id])
  {}

  lemma EnqueuePointers(s: Server, id: Id)
    requires Pointers(s) && id in s.heap
    ensures Pointers(Enqueue(s, id))
  {
    hide TableOk, PipesOk, ShapesOk;
    assert forall x :: x in s.queue ==> x in s.queue + [id];
    assert (s.queue + [id])[|s.queue|] == id;
  }

  lemma AcceptOnePointers(s: Server, a: Accepted)
    requires Pointers(s)
    ensures Pointers(AcceptOne(s, a))
  {
    hide AddPollFd, Pointers;
    if a.fd >= 0 && a.fd !in s.open && a.id !in s.heap {
      var s1 := Set(s, a.id, Conn(a.fd, READING, a.now, -1, a.hasConf));
      var s2 := s1.(connections := s1.connections[a.fd := a.id], open := s1.open + {a.fd});
      NewConnectionPointers(s, a);
      AddPollFdPointers(s2, a.fd, INPUT);
    }
  }

  /** A new object at an address that is not in use disturbs no reference. */
  lemma NewConnectionPointers(s: Server, a: Accepted)
    requires Pointers(s) && a.id !in s.heap
    ensures var s1 := Set(s, a.id, Conn(a.fd, READING, a.now, -1, a.hasConf));
            Pointers(s1.(connections := s1.connections[a.fd := a.id], open := s1.open + {a.fd}))
  {}

  lemma {:induction false} AcceptAllPointers(s: Server, accepts: seq<Accepted>)
    requires Pointers(s)
    ensures Pointers(AcceptAll(s, accepts))
    decreases |accepts|
  {
    hide Pointers, AcceptOne;
    if accepts != [] {
      AcceptOnePointers(s, accepts[0]);
      AcceptAllPointers(AcceptOne(s, accepts[0]), accepts[1..]);
    }
  }

  lemma StartWritingPointers(s: Server, id: Id)
    requires Pointers(s) && id in s.heap
    ensures Pointers(StartWriting(s, id))
  {
    hide Pointers, AddPollFd;
    var s1 := Set(s, id, s.heap[id].(state := WRITING));
    SetPointers(s, id, s.heap[id].(state := WRITING));
    AddPollFdPointers(s1, s.heap[id].fd, INPUT_OUTPUT);
  }

  lemma OwnerOf(s: Server, pipe: Fd)
    requires Pointers(s) && pipe in s.pipes
    ensures s.pipes[pipe] in s.heap && s.heap[s.pipes[pipe]].pipe == pipe && pipe >= 0
    ensures s.heap[s.pipes[pipe]].hasConf
  {
    LiveShape(s, s.pipes[pipe]);
  }

  lemma PipeEventPointers(s: Server, pipe: Fd, ev: Events, outcome: PipeOutcome)
    requires Pointers(s)
    ensures Pointers(PipeEvent(s, pipe, ev, outcome))
  {
    hide Pointers, Unregister, ReleasePipe, StartWriting, NoPipeOf;
    if pipe in s.pipes {
      OwnerOf(s, pipe);
      FinishPointers(s, pipe);
    }
  }

  lemma FinishPointers(s: Server, pipe: Fd)
    requires Pointers(s) && pipe in s.pipes && s.pipes[pipe] in s.heap && s.heap[s.pipes[pipe]].pipe == pipe
    ensures Pointers(StartWriting(Unregister(s, pipe), s.pipes[pipe]))
    ensures Pointers(StartWriting(ReleasePipe(Unregister(s, pipe), s.pipes[pipe]), s.pipes[pipe]))
  {
    hide Pointers, Unregister, ReleasePipe, StartWriting, NoPipeOf;
    var id := s.pipes[pipe];
    UnregisterPointers(s, pipe);
    UnregisteredOwner(s, id);
    ReleasePointers(Unregister(s, pipe), id);
    StartWritingPointers(Unregister(s, pipe), id);
    StartWritingPointers(ReleasePipe(Unregister(s, pipe), id), id);
  }

  lemma HandleEventPointers(s: Server, e: Event)
    requires Pointers(s)
    ensures Pointers(HandleEvent(s, e))
  {
    hide Pointers, PipeEvent, DropConnection, AcceptAll, HandleConnection;
    PipeEventPointers(s, e.fd, e.events, e.pipe);
    DropPointers(s, e.fd);
    AcceptAllPointers(s, e.accepts);
    if e.fd in s.connections {
      LiveConnection(s, e.fd);
      HandleConnectionPointers(s, s.connections[e.fd], e.events, e.io);
    }
  }

  lemma {:induction false} HandleBatchPointers(s: Server, events: seq<Event>)
    requires Pointers(s)
    ensures Pointers(HandleBatch(s, events))
    decreases |events|
  {
    hide Pointers, HandleEvent;
    if events != [] {
      HandleEventPointers(s, events[0]);
      HandleBatchPointers(HandleEvent(s, events[0]), events[1..]);
    }
  }

  // ---------------------------------------------------------------- scheduler and sweeps

  /** Between Pop and the end of Serve the served entry need not be queued. */
  predicate PointersBut(s: Server, id: Id) {
    Pointers(s.(waiting := s.waiting - {id})) && id in s.heap
  }

  lemma PopPointers(s: Server)
    requires Pointers(s) && s.queue != []
    ensures s.queue[0] in s.waiting ==> PointersBut(Pop(s), s.queue[0])
    ensures s.queue[0] !in s.waiting ==> Pointers(Pop(s))
  {
    hide TableOk, PipesOk, ShapesOk;
    forall x | x in s.queue && x != s.queue[0] ensures x in s.queue[1..] {}
  }

  lemma ProcessPointers(s: Server, id: Id, call: Call)
    requires PointersBut(s, id)
    ensures PointersBut(Process(s, id, call), id)
    ensures Process(s, id, call).waiting == s.waiting
  {
    var c := s.heap[id];
    LiveShape(s.(waiting := s.waiting - {id}), id);
    if c.state.PROCESSING? {
      var d := Processed(c, s.open, call);
      ProcessedShape(c, s.open, call);
      hide Processed;
      UnownedPipes(s.heap, id, s.pipes);
      SetHeap(s.heap, id, d, s.connections, s.waiting - {id}, s.queue);
      SetHeapPipes(s.heap, id, d, s.pipes);
      hide TableOk, WaitingOk, PipesOk, ShapesOk;
    }
  }

  lemma ProcessedShape(c: Conn, open: set<Fd>, call: Call)
    requires ShapeOk(c) && c.state.PROCESSING?
    ensures ShapeOk(Processed(c, open, call)) && Processed(c, open, call).fd == c.fd
  {}

  lemma UnownedPipes(heap: map<Id, Conn>, id: Id, pipes: map<Fd, Id>)
    requires PipesOk(heap, pipes) && id in heap && heap[id].pipe == -1
    ensures forall p :: p in pipes ==> pipes[p] != id
  {}

  lemma RequeuePointers(s: Server, id: Id)
    requires PointersBut(s, id)
    ensures Pointers(s.(queue := s.queue + [id]))
  {
    hide TableOk, PipesOk, ShapesOk;
    assert (s.queue + [id])[|s.queue|] == id;
    forall x | x in s.queue ensures x in s.queue + [id] {}
  }

  lemma RegisterPointers(s: Server, id: Id, now: int)
    requires Pointers(s) && id in s.heap
    ensures Pointers(Register(s, id, now))
  {
    hide AddPollFd, TableOk, WaitingOk, ShapesOk;
    if s.heap[id].pipe >= 0 {
      var pipe := s.heap[id].pipe;
      var s1 := s.(pipes := s.pipes[pipe := id], starts := s.starts[pipe := now]);
      assert Pointers(s1);
      AddPollFdPointers(s1, pipe, INPUT);
    }
  }

  lemma FinalizePointers(s: Server, id: Id, now: int)
    requires Pointers(s) && id in s.heap
    ensures Pointers(Finalize(s, id, now))
  {
    hide Pointers, AddPollFd, Register, DropConnection;
    var c := s.heap[id];
    AddPollFdPointers(s, c.fd, INPUT_OUTPUT);
    AddPollFdPointers(s, c.fd, NOTHING);
    RegisterPointers(AddPollFd(s, c.fd, NOTHING), id, now);
    DropPointers(s, c.fd);
  }

  lemma ServePointers(s: Server, id: Id, call: Call)
    requires PointersBut(s, id)
    ensures Pointers(Serve(s, id, call))
  {
    hide Pointers, Process, Finalize;
    ProcessPointers(s, id, call);
    var s1 := Process(s, id, call);
    if s1.heap[id].state.PROCESSING? {
      RequeuePointers(s1, id);
    } else {
      FinalizePointers(Dequeue(s1, id), id, call.registered);
    }
  }

  lemma {:induction false} RoundRobinPointers(s: Server, served: nat, calls: nat -> Call)
    requires Pointers(s) && served <= BUDGET
    ensures Pointers(RoundRobin(s, served, calls))
    decreases BUDGET - served, |s.queue|
  {
    hide Pointers, Serve, PointersBut;
    if s.queue != [] && served < BUDGET {
      PopPointers(s);
      if s.queue[0] !in s.waiting {
        RoundRobinPointers(Pop(s), served, calls);
      } else {
        ServePointers(Pop(s), s.queue[0], calls(served));
        RoundRobinPointers(Serve(Pop(s), s.queue[0], calls(served)), served + 1, calls);
      }
    }
  }

  lemma TimeOutPointers(s: Server, fd: Fd)
    requires Pointers(s)
    ensures Pointers(TimeOut(s, fd))
  {
    hide Pointers, Finalize;
    if fd in s.connections {
      LiveConnection(s, fd);
      var id := s.connections[fd];
      var s1 := Set(s, id, s.heap[id].(state := WRITING));
      SetPointers(s, id, s.heap[id].(state := WRITING));
      DequeuePointers(s1, id);
      FinalizePointers(Dequeue(s1, id), id, 0);
    }
  }

  lemma {:induction false} TimeOutAllPointers(s: Server, fds: seq<Fd>)
    requires Pointers(s)
    ensures Pointers(TimeOutAll(s, fds))
    decreases |fds|
  {
    hide Pointers, TimeOut;
    if fds != [] {
      TimeOutPointers(s, fds[0]);
      TimeOutAllPointers(TimeOut(s, fds[0]), fds[1..]);
    }
  }

  lemma KillPointers(s: Server, pipe: Fd)
    requires Pointers(s)
    ensures Pointers(Kill(s, pipe))
  {
    hide Pointers, Unregister, ReleasePipe, StartWriting;
    if pipe in s.pipes {
      OwnerOf(s, pipe);
      FinishPointers(s, pipe);
    }
  }

  lemma {:induction false} KillAllPointers(s: Server, fds: seq<Fd>)
    requires Pointers(s)
    ensures Pointers(KillAll(s, fds))
    decreases |fds|
  {
    hide Pointers, Kill;
    if fds != [] {
      KillPointers(s, fds[0]);
      KillAllPointers(Kill(s, fds[0]), fds[1..]);
    }
  }

  lemma LastSweepPointers(s: Server, now: int)
    requires Pointers(s)
    ensures Pointers(s.(lastSweep := now))
  {}

  lemma SweepsPointers(s: Server, it: Iteration)
    requires Pointers(s)
    ensures Pointers(AfterSweeps(s, it))
  {
    hide Pointers, RoundRobin, TimeOutAll, KillAll;
    RoundRobinPointers(s, 0, it.calls);
    var s1 := AfterPass(s, it);
    LastSweepPointers(s1, it.idleNow);
    TimeOutAllPointers(s1.(lastSweep := it.idleNow), it.idle);
    KillAllPointers(SweepIdle(s1, it.idleNow, it.idle), it.overdue);
  }

  /** Whatever events are reported, whatever the clock says and however addresses are reused: from
      the start of the server no iteration ever touches a deleted connection, every waiting entry
      is live and queued, every registered pipe belongs to a live connection, and the server's table
      of masks is the kernel's. */
  lemma {:induction false} NoDanglingReference(s: Server, its: seq<Iteration>)
    requires Pointers(s)
    ensures Pointers(Run(s, its))
    decreases |its|
  {
    hide Pointers, AfterSweeps, HandleBatch;
    if its != [] {
      SweepsPointers(s, its[0]);
      HandleBatchPointers(AfterSweeps(s, its[0]), its[0].events);
      NoDanglingReference(Iterate(s, its[0]), its[1..]);
    }
  }
}
