/** What the single steps of the event loop achieve: where a connection ends up, and what is left of
    it. */
module EventLoopEffects {
  import opened ConnectionIntake
  import opened EventLoop
  import opened EventLoopPointers
  import opened EventLoopInvariant
  import opened EventLoopBatch
  import opened EventLoopFairness
  import opened EventLoopTiming

  /** A new client is read from; a descriptor or address that is taken changes nothing. */
  lemma AcceptMeans(s: Server, a: Accepted)
    requires Inv(s)
    ensures var s1 := AcceptOne(s, a);
            if a.fd >= 0 && a.fd !in s.open && a.id !in s.heap then
              && s1.heap == s.heap[a.id := Conn(a.fd, READING, a.now, -1, a.hasConf)]
              && s1.connections == s.connections[a.fd := a.id]
              && a.fd in s1.interest && s1.interest[a.fd] == INPUT && a.id !in s1.waiting
            else s1 == s
  {
    hide Good, AddPollFd, MaskOf;
    if a.fd >= 0 && a.fd !in s.open && a.id !in s.heap {
      var s1 := Set(s, a.id, Conn(a.fd, READING, a.now, -1, a.hasConf));
      var s2 := s1.(connections := s1.connections[a.fd := a.id], open := s1.open + {a.fd});
      AddPollFdEffect(s2, a.fd, INPUT);
      AcceptGood(s, {}, a);
      InvMeans(AcceptOne(s, a), a.id);
    }
  }

  /** A dropped client leaves no trace, its pipe included, and nobody else notices. */
  lemma DropMeans(s: Server, fd: Fd)
    requires Inv(s) && fd in s.connections
    ensures var id := s.connections[fd];
            var s1 := DropConnection(s, fd);
            && id in s.heap && s1.heap == s.heap - {id} && s1.connections == s.connections - {fd}
            && id !in s1.waiting && fd !in s1.interest && fd !in s1.fdEvents && fd !in s1.open
            && (s.heap[id].pipe >= 0 ==>
                  var pipe := s.heap[id].pipe;
                  pipe !in s1.pipes && pipe !in s1.starts && pipe !in s1.interest && pipe !in s1.open)
  {
    DropEffect(s, fd);
    DropStarts(s, fd);
    LiveEntry(s, {}, fd);
    LiveFacts(s, {}, s.connections[fd]);
    hide Good;
  }

  /** A complete request is queued and its client is not listened to meanwhile. */
  lemma CompleteRequestMeans(s: Server, id: Id, ev: Events, env: IoEnv)
    requires Inv(s) && id in s.heap && s.heap[id].state.READING?
    requires ev.input && env.read.RequestComplete? && env.resetOk
    ensures var s1 := HandleConnection(s, id, ev, env);
            && id in s1.heap && s1.heap[id] == s.heap[id].(state := PROCESSING, lastActivity := env.now)
            && id in s1.waiting && s1.queue == s.queue + [id]
            && s1.heap[id].fd in s1.interest && s1.interest[s1.heap[id].fd] == NOTHING
  {
    hide Good, AddPollFd;
    InvMeans(s, id);
    LiveFacts(s, {}, id);
    HandleConnectionGood(s, id, ev, env);
    var c := s.heap[id].(state := PROCESSING, lastActivity := env.now);
    AddPollFdEffect(Enqueue(Set(s, id, c), id), c.fd, NOTHING);
    InvMeans(HandleConnection(s, id, ev, env), id);
  }

  /** A response that is out ends the connection, and so does a client that hangs up while its
      request is read. */
  lemma FinishedMeans(s: Server, id: Id, ev: Events, env: IoEnv)
    requires Inv(s) && id in s.heap
    requires (s.heap[id].state.WRITING? && ev.output && env.write.WriteDone?) ||
             (s.heap[id].state.READING? && ev.input && env.read.PeerClosed?)
    ensures id !in HandleConnection(s, id, ev, env).heap
  {
    hide Good, DropConnection, AfterIo, ShapeOk, MaskOf, Settled;
    LiveFacts(s, {}, id);
    var d := AfterIo(s.heap[id], ev, env);
    IoEnds(s.heap[id], ev, env);
    IoKeeps(s.heap[id], ev, env);
    IoShape(s.heap[id], ev, env);
    SetGood(s, {}, id, d);
    assert s.connections[d.fd] == id;
    DropEffect(Set(s, id, d), d.fd);
  }

  lemma IoEnds(c: Conn, ev: Events, env: IoEnv)
    requires (c.state.WRITING? && ev.output && env.write.WriteDone?) ||
             (c.state.READING? && ev.input && env.read.PeerClosed?)
    ensures AfterIo(c, ev, env).state.FINISHED?
  {}

  /** A process() call requeues the connection, or hands it on with the mask and pipe it needs. */
  lemma ServeMeans(s: Server, call: Call)
    requires Inv(s) && s.queue != [] && s.queue[0] in s.waiting
    ensures var id := s.queue[0];
            var s1 := Serve(Pop(s), id, call);
            id in s.heap && id in s1.heap &&
            var c := s1.heap[id];
            && c.lastActivity == call.now && c.fd == s.heap[id].fd && c.fd in s1.interest
            && match call.outcome
               case StaysProcessing =>
                 c.state.PROCESSING? && id in s1.waiting && s1.queue == s.queue[1..] + [id]
               case Answers => c.state.WRITING? && id !in s1.waiting && s1.interest[c.fd] == INPUT_OUTPUT
               case StartsCgi(pipe) =>
                 if pipe < 0 || pipe in s.open || !c.hasConf then
                   c.state.WRITING? && id !in s1.waiting && s1.interest[c.fd] == INPUT_OUTPUT
                 else
                   && c.state.WAITING_FOR_CGI? && id !in s1.waiting && s1.interest[c.fd] == NOTHING
                   && pipe in s1.pipes && s1.pipes[pipe] == id && s1.starts[pipe] == call.registered
  {
    var id := s.queue[0];
    ServeEffect(s, call);
    ServeGood(s, call);
    var s1 := Serve(Pop(s), id, call);
    hide Good, Serve;
    InvMeans(s1, id);
    StartsKnown(s1);
    if call.outcome.StaysProcessing? {
      StaysQueued(s, id, call);
    }
  }

  lemma StartsKnown(s: Server)
    requires Inv(s)
    ensures s.starts.Keys == s.pipes.Keys
  {}

  lemma StaysQueued(s: Server, id: Id, call: Call)
    requires s.queue != [] && id in s.heap && s.heap[id].state.PROCESSING? && call.outcome.StaysProcessing?
    ensures Serve(Pop(s), id, call).queue == s.queue[1..] + [id]
  {
    hide Finalize;
  }

  /** The end of a CGI: the client is written to and the pipe is off the tables; it stays open only
      if reading from it threw. */
  lemma CgiEndMeans(s: Server, pipe: Fd, ev: Events, outcome: PipeOutcome)
    requires Inv(s) && pipe in s.pipes
    ensures var id := s.pipes[pipe];
            var s1 := PipeEvent(s, pipe, ev, outcome);
            if ev.hangup || (ev.input && !outcome.MoreOutput?) then
              && id in s1.heap && s1.heap[id].state.WRITING?
              && s1.heap[id].fd in s1.interest && s1.interest[s1.heap[id].fd] == INPUT_OUTPUT
              && pipe !in s1.pipes && pipe !in s1.starts
              && (pipe in s1.open <==> !ev.hangup && outcome.PipeThrew?)
            else s1 == s
  {
    if ev.hangup || (ev.input && !outcome.MoreOutput?) {
      PipeEventGood(s, pipe, ev, outcome);
      OwnerNotWaiting(s, pipe);
      OwnerOf(s, pipe);
      LivePipeApart(s, s.pipes[pipe]);
      var id := s.pipes[pipe];
      var s1 := Unregister(s, pipe);
      var s2 := if !ev.hangup && outcome.PipeThrew? then s1 else ReleasePipe(s1, id);
      EndEffect(s2, id);
      hide Good, StartWriting;
      InvMeans(PipeEvent(s, pipe, ev, outcome), id);
    }
  }

  lemma EndEffect(s: Server, id: Id)
    requires id in s.heap
    ensures var s1 := StartWriting(s, id);
            && s1.heap == s.heap[id := s.heap[id].(state := WRITING)]
            && s1.pipes == s.pipes && s1.starts == s.starts && s1.open == s.open
  {
    hide AddPollFd;
    var s1 := Set(s, id, s.heap[id].(state := WRITING));
    AddPollFdEffect(s1, s.heap[id].fd, INPUT_OUTPUT);
  }

  /** A client that is timed out is answered, whatever it was doing. */
  lemma TimedOutMeans(s: Server, fd: Fd)
    requires Inv(s) && fd in s.connections
    ensures var id := s.connections[fd];
            var s1 := TimeOut(s, fd);
            && id in s.heap && id in s1.heap && s1.heap[id] == s.heap[id].(state := WRITING)
            && id !in s1.waiting && fd in s1.interest && s1.interest[fd] == INPUT_OUTPUT
  {
    TimeOutEffect(s, fd);
    TimeOutGood(s, fd);
    LiveEntry(s, {}, fd);
    hide Good, TimeOut;
    InvMeans(TimeOut(s, fd), s.connections[fd]);
  }

  // ---------------------------------------------------------------- events that do damage

  /** Reading from a pipe threw: the pipe stays open without being registered, and a hang-up that is
      still to come for it closes it under its owner. */
  lemma ThrowingPipeIsOrphaned(s: Server, e: Event, hangup: Event)
    requires Inv(s) && e.fd in s.pipes && e.events.input && !e.events.hangup && e.pipe.PipeThrew?
    requires hangup.fd == e.fd && hangup.events.hangup
    ensures Orphan(HandleEvent(s, e), e.fd) && !NoFatal(s, [e, hangup]) && !Inv(HandleBatch(s, [e, hangup]))
  {
    var id := s.pipes[e.fd];
    OwnerOf(s, e.fd);
    EndEffect(Unregister(s, e.fd), id);
    HandleEventGood(s, e);
    var s1 := HandleEvent(s, e);
    assert s1.heap[id].pipe == e.fd;
    HandleEventIff(s1, hangup);
    hide Good, HandleEvent, Orphan;
    assert Orphan(s1, e.fd) && Fatal(s1, hangup);
    TwoEvents(s, e, hangup);
  }

  lemma TwoEvents(s: Server, e: Event, f: Event)
    ensures NoFatal(s, [e, f]) <==> !Fatal(s, e) && !Fatal(HandleEvent(s, e), f)
    ensures HandleBatch(s, [e, f]) == HandleEvent(HandleEvent(s, e), f)
  {
    hide HandleEvent, Fatal;
    assert [e, f][1..] == [f] && [f][1..] == [];
    var s1 := HandleEvent(s, e);
    assert NoFatal(HandleEvent(s1, f), []);
    assert NoFatal(s1, [f]) <==> !Fatal(s1, f);
    assert HandleBatch(HandleEvent(s1, f), []) == HandleEvent(s1, f);
  }

  /** Input for a connection on descriptor 5, under the conditions of its handling. */
  function ClientInput(read: ReadOutcome, resetOk: bool): Event {
    Event(5, Events(true, false, false), IoEnv(0, read, resetOk, WriteMore), [], MoreOutput)
  }

  /** An accepted client, its complete request, and the input event again while its body cannot be
      rewound. */
  function RepeatedInput(): seq<Event> {
    [Event(3, Events(true, false, false), IoEnv(0, StillReading, true, WriteMore), [Accepted(5, 7, true, 0)],
           MoreOutput),
     ClientInput(RequestComplete, true), ClientInput(StillReading, false)]
  }

  /** A batch that names a client twice can break the invariant. */
  lemma RepeatedInputBreaks()
    ensures !NoFatal(Start({3}), RepeatedInput()) && !InvThroughout(Start({3}), RepeatedInput())
  {
    var s0 := Start({3});
    var es := RepeatedInput();
    var s1 := HandleEvent(s0, es[0]);
    var c := Conn(5, READING, 0, -1, true);
    assert AcceptAll(s0, [Accepted(5, 7, true, 0)]) == AcceptOne(s0, Accepted(5, 7, true, 0)) by {
      assert [Accepted(5, 7, true, 0)][1..] == [];
    }
    assert s1.heap == map[7 := c] && s1.connections == map[5 := 7] && s1.pipes == map[] && s1.listeners == {3};
    var s2 := HandleEvent(s1, es[1]);
    hide Good, AddPollFd;
    assert AfterIo(c, es[1].events, es[1].io) == c.(state := PROCESSING);
    AddPollFdEffect(Enqueue(Set(s1, 7, c.(state := PROCESSING)), 7), 5, NOTHING);
    assert 5 in s2.connections && s2.connections[5] == 7 && s2.heap[7] == c.(state := PROCESSING);
    assert s2.pipes == map[] && s2.listeners == {3};
    assert Fatal(s2, es[2]);
    hide Fatal, HandleEvent;
    assert es[1..][1..] == [es[2]] && es[1..][0] == es[1];
    StartInv({3});
    BatchIff(s0, es);
  }
}
