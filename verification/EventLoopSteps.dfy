/** What the handling of one event, one sweep and one pass does to every connection, with the numbers
    written out. */
module EventLoopSteps {
  import opened ConnectionIntake
  import opened EventLoop
  import opened EventLoopPointers
  import opened EventLoopInvariant
  import opened EventLoopBatch
  import opened EventLoopFairness
  import opened EventLoopTiming
  import opened EventLoopEffects

  // ---------------------------------------------------------------- one after the other

  /** A batch handles its events one after the other, none left out. */
  lemma {:induction false} BatchGoesOn(s: Server, events: seq<Event>, e: Event)
    ensures HandleBatch(s, events + [e]) == HandleEvent(HandleBatch(s, events), e)
    decreases |events|
  {
    hide HandleEvent;
    if events == [] {
      assert [] + [e] == [e] && [e][1..] == [];
      assert HandleBatch(HandleEvent(s, e), []) == HandleEvent(s, e);
    } else {
      assert (events + [e])[1..] == events[1..] + [e];
      BatchGoesOn(HandleEvent(s, events[0]), events[1..], e);
    }
  }

  /** The loop goes round and round: the pass, the idle sweep, the CGI sweep, the events. */
  lemma {:induction false} RunGoesOn(s: Server, its: seq<Iteration>, it: Iteration)
    ensures var t := Run(s, its);
            var swept := KillAll(SweepIdle(RoundRobin(t, 0, it.calls), it.idleNow, it.idle), it.overdue);
            Run(s, its + [it]) == HandleBatch(swept, it.events)
    decreases |its|
  {
    hide Iterate;
    if its == [] {
      assert [] + [it] == [it] && [it][1..] == [];
      assert Run(Iterate(s, it), []) == Iterate(s, it);
      NoPipesNothingKilled(s, it);
    } else {
      assert (its + [it])[1..] == its[1..] + [it];
      RunGoesOn(Iterate(s, its[0]), its[1..], it);
    }
  }

  lemma NoPipesNothingKilled(s: Server, it: Iteration)
    ensures Iterate(s, it) ==
              HandleBatch(KillAll(SweepIdle(RoundRobin(s, 0, it.calls), it.idleNow, it.idle), it.overdue), it.events)
  {
    hide RoundRobin, TimeOutAll, HandleBatch;
    var s1 := SweepIdle(AfterPass(s, it), it.idleNow, it.idle);
    if s1.pipes == map[] {
      NothingToKill(s1, it.overdue);
    }
  }

  lemma {:induction false} NothingToKill(s: Server, fds: seq<Fd>)
    requires s.pipes == map[]
    ensures KillAll(s, fds) == s
    decreases |fds|
  {
    if fds != [] {
      NothingToKill(s, fds[1..]);
    }
  }

  // ---------------------------------------------------------------- events of a client

  /** The event is for this client. */
  predicate ForClient(s: Server, id: Id, e: Event) {
    && id in s.heap && e.fd == s.heap[id].fd && e.fd in s.connections && s.connections[e.fd] == id
    && !e.events.hangup
  }

  /** The client is still there, like this, and epoll watches it for just these events; everyone else is
      as before. */
  predicate GoesOn(s: Server, s1: Server, id: Id, c: Conn, input: bool, output: bool)
    requires id in s.heap
  {
    && s1.heap == s.heap[id := c]
    && s1.connections == s.connections && s1.pipes == s.pipes && s1.starts == s.starts
    && c.fd in s1.interest && s1.interest[c.fd] == Mask(input, output)
  }

  /** The client is gone, and only it. */
  predicate IsGone(s: Server, s1: Server, id: Id)
    requires id in s.heap
  {
    && s1.heap == s.heap - {id} && s1.connections == s.connections - {s.heap[id].fd}
    && s.heap[id].fd !in s1.interest && s.heap[id].fd !in s1.open && id !in s1.waiting
  }

  lemma ClientIsHandled(s: Server, id: Id, e: Event)
    requires Inv(s) && ForClient(s, id, e)
    ensures HandleEvent(s, e) == HandleConnection(s, id, e.events, e.io)
  {
    LiveFacts(s, {}, id);
    hide Inv, HandleConnection;
  }

  /** Reading: the timer is refreshed, and what was received decides how the connection goes on. A
      refusal may be answered at once; after an exception it is not. */
  lemma ReadingClient(s: Server, id: Id, e: Event)
    requires Inv(s) && ForClient(s, id, e) && s.heap[id].state.READING? && e.events.input
    ensures var s1 := HandleEvent(s, e);
            var c := s.heap[id].(lastActivity := e.io.now);
            match e.io.read
            case StillReading => GoesOn(s, s1, id, c, true, false)
            case RequestComplete =>
              if e.io.resetOk then
                GoesOn(s, s1, id, c.(state := PROCESSING), false, false) && id in s1.waiting &&
                s1.queue == s.queue + [id]
              else GoesOn(s, s1, id, c.(state := WRITING), true, true) && id !in s1.waiting
            case RequestRefused =>
              if e.events.output && e.io.write.WriteDone? then IsGone(s, s1, id)
              else GoesOn(s, s1, id, c.(state := WRITING), true, true) && id !in s1.waiting
            case ReadThrew => GoesOn(s, s1, id, c.(state := WRITING), true, true) && id !in s1.waiting
            case PeerClosed => IsGone(s, s1, id)
  {
    ClientIsHandled(s, id, e);
    ReadingStays(s, id);
    var d := AfterIo(s.heap[id], e.events, e.io);
    if d.state.FINISHED? {
      GoneMeans(s, id, e);
    } else {
      StayMeans(s, id, e);
    }
    hide HandleEvent, HandleConnection, Inv;
  }

  lemma ReadingStays(s: Server, id: Id)
    requires Inv(s) && id in s.heap
    ensures s.heap[id].state.PROCESSING? <==> id in s.waiting
    ensures !s.heap[id].state.FINISHED?
  {
    InvMeans(s, id);
  }

  /** A client that is not finished by its event. */
  lemma StayMeans(s: Server, id: Id, e: Event)
    requires Inv(s) && ForClient(s, id, e) && !AfterIo(s.heap[id], e.events, e.io).state.FINISHED?
    ensures var s1 := HandleConnection(s, id, e.events, e.io);
            var d := AfterIo(s.heap[id], e.events, e.io);
            && GoesOn(s, s1, id, d, MaskOf(d.state).input, MaskOf(d.state).output)
            && var queued := e.events.input && d.state.PROCESSING?;
               && s1.waiting == (if queued then s.waiting + {id} else s.waiting)
               && s1.queue == (if queued && id !in s.waiting then s.queue + [id] else s.queue)
  {
    hide AfterIo, AddPollFd, MaskOf, DropConnection, Good;
    var d := AfterIo(s.heap[id], e.events, e.io);
    LiveFacts(s, {}, id);
    IoKeeps(s.heap[id], e.events, e.io);
    IoShape(s.heap[id], e.events, e.io);
    SetGood(s, {}, id, d);
    var s1 := Set(s, id, d);
    EnqueueGood(s1, {} + {id}, id);
    EnqueueKeeps(s1, id);
    EnqueueQueue(s1, id);
    var s2 := if e.events.input && d.state.PROCESSING? then Enqueue(s1, id) else s1;
    assert {} + {id} + {id} == {} + {id};
    PollGood(s2, {} + {id}, id, MaskOf(d.state));
    hide Enqueue;
  }

  lemma EnqueueQueue(s: Server, id: Id)
    ensures Enqueue(s, id).queue == if id in s.waiting then s.queue else s.queue + [id]
    ensures Enqueue(s, id).starts == s.starts
  {}

  /** A client that is finished by its event. */
  lemma GoneMeans(s: Server, id: Id, e: Event)
    requires Inv(s) && ForClient(s, id, e) && AfterIo(s.heap[id], e.events, e.io).state.FINISHED?
    ensures IsGone(s, HandleConnection(s, id, e.events, e.io), id)
  {
    hide AfterIo, Good, DropConnection;
    var d := AfterIo(s.heap[id], e.events, e.io);
    LiveFacts(s, {}, id);
    IoKeeps(s.heap[id], e.events, e.io);
    IoShape(s.heap[id], e.events, e.io);
    SetGood(s, {}, id, d);
    var s1 := Set(s, id, d);
    DropEffect(s1, d.fd);
    DropKernel(s1, {} + {id}, d.fd);
    assert s1.heap - {id} == s.heap - {id};
  }

  lemma DropKernel(s: Server, loose: set<Id>, fd: Fd)
    requires Good(s, loose) && fd in s.connections
    ensures var s1 := DropConnection(s, fd);
            fd !in s1.interest && fd !in s1.open && s.connections[fd] !in s1.waiting
  {
    LiveEntry(s, loose, fd);
    hide Good;
  }

  /** Writing: input does not matter, the timer is refreshed by every slice, and the end of the response
      is the end of the connection; an exception is not. */
  lemma WritingClient(s: Server, id: Id, e: Event)
    requires Inv(s) && ForClient(s, id, e) && s.heap[id].state.WRITING?
    ensures var s1 := HandleEvent(s, e);
            if !e.events.output then GoesOn(s, s1, id, s.heap[id], true, true)
            else match e.io.write
              case WriteDone => IsGone(s, s1, id)
              case _ => GoesOn(s, s1, id, s.heap[id].(lastActivity := e.io.now), true, true)
  {
    ClientIsHandled(s, id, e);
    if AfterIo(s.heap[id], e.events, e.io).state.FINISHED? {
      GoneMeans(s, id, e);
    } else {
      StayMeans(s, id, e);
    }
    hide HandleEvent, HandleConnection, Inv;
  }

  /** A client that is being processed or waits for its CGI is left alone, as long as a stored body can
      be rewound. */
  lemma BusyClient(s: Server, id: Id, e: Event)
    requires Inv(s) && ForClient(s, id, e) && (e.events.input ==> e.io.resetOk)
    requires s.heap[id].state.PROCESSING? || s.heap[id].state.WAITING_FOR_CGI?
    ensures var s1 := HandleEvent(s, e);
            GoesOn(s, s1, id, s.heap[id], false, false) && s1.waiting == s.waiting && s1.queue == s.queue
  {
    ClientIsHandled(s, id, e);
    ReadingStays(s, id);
    StayMeans(s, id, e);
    assert id in s.waiting ==> s.waiting + {id} == s.waiting;
    hide HandleEvent, HandleConnection, Inv;
  }

  /** A reading client that is only writable has nothing to do. */
  lemma IdleReader(s: Server, id: Id, e: Event)
    requires Inv(s) && ForClient(s, id, e) && s.heap[id].state.READING? && !e.events.input
    ensures var s1 := HandleEvent(s, e);
            GoesOn(s, s1, id, s.heap[id], true, false) && s1.waiting == s.waiting && s1.queue == s.queue
  {
    ClientIsHandled(s, id, e);
    StayMeans(s, id, e);
    hide HandleEvent, HandleConnection, Inv;
  }

  /** A client that hangs up is gone, whatever it was doing. */
  lemma ClientHangsUp(s: Server, id: Id, e: Event)
    requires Inv(s) && id in s.heap && e.fd == s.heap[id].fd && e.events.hangup
    ensures IsGone(s, HandleEvent(s, e), id)
  {
    LiveFacts(s, {}, id);
    assert HandleEvent(s, e) == DropConnection(s, e.fd);
    hide HandleEvent, Good, DropConnection;
    DropMeans(s, e.fd);
  }

  /** Nothing happens for a listening socket that hangs up, nor for a descriptor nobody knows. */
  lemma IgnoredEvents(s: Server, e: Event)
    requires Inv(s) && e.fd !in s.pipes && e.fd !in s.connections
    requires if e.events.hangup then e.fd in s.listeners else e.fd !in s.listeners
    ensures HandleEvent(s, e) == s
  {}

  /** Pipes come before everything else: the end of a CGI is noticed whatever else the event says. */
  lemma PipeIsHandled(s: Server, e: Event)
    requires Inv(s) && e.fd in s.pipes
    ensures var id := s.pipes[e.fd];
            var s1 := HandleEvent(s, e);
            if e.events.hangup || (e.events.input && !e.pipe.MoreOutput?) then
              && id in s1.heap && s1.heap[id].state.WRITING? && e.fd !in s1.pipes && e.fd !in s1.starts
              && s1.heap[id].fd in s1.interest && s1.interest[s1.heap[id].fd] == Mask(true, true)
              && (e.fd in s1.open <==> !e.events.hangup && e.pipe.PipeThrew?)
            else s1 == s
  {
    hide Inv, PipeEvent;
    CgiEndMeans(s, e.fd, e.events, e.pipe);
  }

  // ---------------------------------------------------------------- accepting

  /** Descriptors and addresses that can be handed out, all different. */
  predicate CanAccept(s: Server, accepts: seq<Accepted>) {
    && (forall i :: 0 <= i < |accepts| ==>
          accepts[i].fd >= 0 && accepts[i].fd !in s.open && accepts[i].id !in s.heap)
    && (forall i, j :: 0 <= i < j < |accepts| ==>
          accepts[i].fd != accepts[j].fd && accepts[i].id != accepts[j].id)
  }

  /** The new client is read from, and its timer runs from the time it was accepted. */
  predicate IsNew(s1: Server, a: Accepted) {
    && a.id in s1.heap && s1.heap[a.id] == Conn(a.fd, READING, a.now, -1, a.hasConf)
    && a.fd in s1.connections && s1.connections[a.fd] == a.id
    && a.fd in s1.interest && s1.interest[a.fd] == Mask(true, false)
  }

  /** Every client that is waiting at a listening socket is accepted by one event. */
  lemma ListenerAccepts(s: Server, e: Event)
    requires Inv(s) && e.fd in s.listeners && e.fd !in s.pipes && !e.events.hangup && CanAccept(s, e.accepts)
    ensures var s1 := HandleEvent(s, e);
            && (forall i :: 0 <= i < |e.accepts| ==> IsNew(s1, e.accepts[i]))
            && (forall id :: id in s.heap ==> id in s1.heap && s1.heap[id] == s.heap[id])
  {
    assert HandleEvent(s, e) == AcceptAll(s, e.accepts);
    hide HandleEvent, Inv, AcceptAll, IsNew, CanAccept;
    AllAccepted(s, e.accepts);
    AcceptAllTouches(s, e.accepts);
  }

  lemma {:induction false} AllAccepted(s: Server, accepts: seq<Accepted>)
    requires Inv(s) && CanAccept(s, accepts)
    ensures forall i :: 0 <= i < |accepts| ==> IsNew(AcceptAll(s, accepts), accepts[i])
    decreases |accepts|
  {
    hide Good, AcceptOne;
    if accepts != [] {
      var a := accepts[0];
      var s1 := AcceptOne(s, a);
      AcceptGood(s, {}, a);
      AcceptMeans(s, a);
      AcceptOpens(s, a);
      AllAccepted(s1, accepts[1..]);
      var s2 := AcceptAll(s1, accepts[1..]);
      AcceptAllKeeps(s1, accepts[1..], a);
      forall i | 0 <= i < |accepts| ensures IsNew(s2, accepts[i]) {
        assert i > 0 ==> accepts[i] == accepts[1..][i - 1];
      }
    }
  }

  lemma AcceptOpens(s: Server, a: Accepted)
    requires a.fd >= 0 && a.fd !in s.open && a.id !in s.heap
    ensures AcceptOne(s, a).open == s.open + {a.fd} && AcceptOne(s, a).heap.Keys == s.heap.Keys + {a.id}
  {
    hide AddPollFd;
    var s1 := Set(s, a.id, Conn(a.fd, READING, a.now, -1, a.hasConf));
    AddPollFdEffect(s1.(connections := s1.connections[a.fd := a.id], open := s1.open + {a.fd}), a.fd, INPUT);
  }

  /** Accepting others does not disturb a new client. */
  lemma {:induction false} AcceptAllKeeps(s: Server, accepts: seq<Accepted>, a: Accepted)
    requires Inv(s) && CanAccept(s, accepts) && IsNew(s, a)
    ensures IsNew(AcceptAll(s, accepts), a)
    decreases |accepts|
  {
    hide Good, AcceptOne;
    if accepts != [] {
      LiveFacts(s, {}, a.id);
      AcceptGood(s, {}, accepts[0]);
      AcceptMeans(s, accepts[0]);
      AcceptOpens(s, accepts[0]);
      OtherPolled(s, accepts[0], a);
      AcceptAllKeeps(AcceptOne(s, accepts[0]), accepts[1..], a);
    }
  }

  lemma OtherPolled(s: Server, a: Accepted, other: Accepted)
    requires Inv(s) && IsNew(s, other) && a.fd >= 0 && a.fd !in s.open && a.id !in s.heap
    ensures a.fd != other.fd && IsNew(AcceptOne(s, a), other)
  {
    KnownIsOpen(s, other.fd);
    hide Good;
  }

  lemma KnownIsOpen(s: Server, fd: Fd)
    requires Inv(s) && fd in s.connections
    ensures fd in s.open
  {}

  // ---------------------------------------------------------------- the sweeps

  /** Just the connections that have been quiet for 60 seconds are idle. */
  lemma IdleIff(s: Server, fd: Fd, clock: Fd -> int)
    requires Inv(s) && fd in s.connections
    ensures s.connections[fd] in s.heap
    ensures Idle(s, fd, clock) <==> clock(fd) - s.heap[s.connections[fd]].lastActivity >= 60
  {
    LiveEntry(s, {}, fd);
  }

  /** Just the CGIs that were started 10 seconds ago are overdue. */
  lemma OverdueIff(s: Server, pipe: Fd, now: int)
    requires Inv(s) && pipe in s.pipes
    ensures pipe in s.starts && (Overdue(s, pipe, now) <==> now - s.starts[pipe] >= 10)
  {
    StartsKnown(s);
  }

  /** The idle sweep runs at most every 5 seconds; it makes every listed connection write, refreshes no
      timer and leaves the others alone. */
  lemma IdleSweepMeans(s: Server, now: int, fds: seq<Fd>)
    requires Inv(s) && forall fd :: fd in fds ==> fd in s.connections
    ensures var s1 := SweepIdle(s, now, fds);
            if now - s.lastSweep < 5 then s1 == s
            else
              && s1.lastSweep == now && s1.heap.Keys == s.heap.Keys
              && forall id :: id in s.heap ==>
                   s1.heap[id] == if s.heap[id].fd in fds then s.heap[id].(state := WRITING) else s.heap[id]
  {
    if now - s.lastSweep >= 5 {
      LastSweepGood(s, now);
      hide Good, TimeOutAll;
      TimeOutAllMeans(s.(lastSweep := now), fds);
    }
  }

  lemma {:induction false} TimeOutAllMeans(s: Server, fds: seq<Fd>)
    requires Inv(s) && forall fd :: fd in fds ==> fd in s.connections
    ensures var s1 := TimeOutAll(s, fds);
            && s1.lastSweep == s.lastSweep && s1.heap.Keys == s.heap.Keys
            && forall id :: id in s.heap ==>
                 s1.heap[id] == if s.heap[id].fd in fds then s.heap[id].(state := WRITING) else s.heap[id]
    decreases |fds|
  {
    hide Good, TimeOut;
    if fds != [] {
      var fd := fds[0];
      assert fd in s.connections;
      TimeOutEffect(s, fd);
      TimeOutGood(s, fd);
      TimeOutClock(s, fd);
      var s1 := TimeOut(s, fd);
      TimeOutAllMeans(s1, fds[1..]);
      LiveEntry(s, {}, fd);
      forall id | id in s.heap
        ensures TimeOutAll(s, fds).heap[id] ==
                  if s.heap[id].fd in fds then s.heap[id].(state := WRITING) else s.heap[id]
      {
        LiveFacts(s, {}, id);
        assert s.heap[id].fd in fds <==> s.heap[id].fd == fd || s.heap[id].fd in fds[1..];
      }
    }
  }

  lemma TimeOutClock(s: Server, fd: Fd)
    requires fd in s.connections && s.connections[fd] in s.heap
    ensures TimeOut(s, fd).lastSweep == s.lastSweep
  {
    var id := s.connections[fd];
    var s1 := Dequeue(Set(s, id, s.heap[id].(state := WRITING)), id);
    assert s1.lastSweep == s.lastSweep;
    assert TimeOut(s, fd) == AddPollFd(s1, s.heap[id].fd, INPUT_OUTPUT);
  }

  /** A CGI that is killed: its connection goes on to write, its pipe is closed and off the tables, its
      timer is not refreshed, and nobody else notices. */
  lemma KillMeans(s: Server, pipe: Fd)
    requires Inv(s) && pipe in s.pipes
    ensures var id := s.pipes[pipe];
            var s1 := Kill(s, pipe);
            && id in s.heap && s1.heap == s.heap[id := s.heap[id].(state := WRITING, pipe := -1)]
            && s1.pipes == s.pipes - {pipe} && s1.starts == s.starts - {pipe}
            && pipe !in s1.interest && pipe !in s1.open
            && s.heap[id].fd in s1.interest && s1.interest[s.heap[id].fd] == Mask(true, true)
  {
    OwnerOf(s, pipe);
    var id := s.pipes[pipe];
    LiveFacts(s, {}, id);
    var s2 := ReleasePipe(Unregister(s, pipe), id);
    EndEffect(s2, id);
    hide Good;
  }
}
