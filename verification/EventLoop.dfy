/** The event loop of ServerManager as functions on its state. Connection objects live in `heap`
    under their address; an address is reused as soon as its object is deleted, even while stale
    copies of it are still queued. What happens outside (ready events, what recv, send and the CGI
    do, the clock) is an argument, so the functions cover every behaviour. */
module EventLoop {
  import opened ConnectionIntake

  type Fd = int
  type Id = int

  datatype Mask = Mask(input: bool, output: bool)

  const NOTHING := Mask(false, false)
  const INPUT := Mask(true, false)
  const INPUT_OUTPUT := Mask(true, true)

  const BUDGET: nat := 64              // BACKLOG / 2
  const CONNECTION_TIMEOUT_S: int := 60
  const CGI_TIMEOUT_S: int := 10
  const SWEEP_INTERVAL_S: int := 5

  /** What the loop knows of a connection; `pipe` is the CGI output pipe it owns, or -1. */
  datatype Conn = Conn(fd: Fd, state: ConnState, lastActivity: int, pipe: Fd, hasConf: bool)

  /** `interest` and `open` belong to the kernel: the epoll interest set, and the descriptors of
      sockets and pipes that are open. `dangling` is raised when a deleted connection is used,
      `ctlFailed` when epoll_ctl is asked to add what is there or to change what is not. */
  datatype Server = Server(
    heap: map<Id, Conn>, connections: map<Fd, Id>,
    queue: seq<Id>, waiting: set<Id>,
    pipes: map<Fd, Id>, starts: map<Fd, int>,
    fdEvents: map<Fd, Mask>, interest: map<Fd, Mask>, open: set<Fd>, listeners: set<Fd>,
    lastSweep: int, dangling: bool, ctlFailed: bool)

  function Dangling(s: Server): Server {
    s.(dangling := true)
  }

  function Set(s: Server, id: Id, c: Conn): Server {
    s.(heap := s.heap[id := c])
  }

  // ---------------------------------------------------------------- the tables

  /** addPollFd: the server's own table decides between EPOLL_CTL_MOD and EPOLL_CTL_ADD. */
  function AddPollFd(s: Server, fd: Fd, mask: Mask): Server {
    var known := fd in s.fdEvents;
    var done := if known then fd in s.interest else fd !in s.interest && fd in s.open;
    s.(fdEvents := if known || done then s.fdEvents[fd := mask] else s.fdEvents,
       interest := if done then s.interest[fd := mask] else s.interest,
       ctlFailed := s.ctlFailed || !done)
  }

  function Enqueue(s: Server, id: Id): Server {
    if id in s.waiting then s else s.(waiting := s.waiting + {id}, queue := s.queue + [id])
  }

  /** The queue entry stays behind and is skipped later. */
  function Dequeue(s: Server, id: Id): Server {
    s.(waiting := s.waiting - {id})
  }

  function Unregister(s: Server, pipe: Fd): Server {
    if pipe < 0 then s
    else s.(interest := s.interest - {pipe}, fdEvents := s.fdEvents - {pipe},
            pipes := s.pipes - {pipe}, starts := s.starts - {pipe})
  }

  function Register(s: Server, id: Id, now: int): Server {
    if id !in s.heap then Dangling(s)
    else if s.heap[id].pipe < 0 then s
    else
      var pipe := s.heap[id].pipe;
      AddPollFd(s.(pipes := s.pipes[pipe := id], starts := s.starts[pipe := now]), pipe, INPUT)
  }

  /** close(2): a closed descriptor also leaves the interest set. */
  function Close(s: Server, fd: Fd): Server {
    s.(open := s.open - {fd}, interest := s.interest - {fd})
  }

  /** Deleting the CGI manager of a connection closes its pipe. */
  function ReleasePipe(s: Server, id: Id): Server {
    if id !in s.heap then Dangling(s)
    else if s.heap[id].pipe < 0 then s
    else Close(Set(s, id, s.heap[id].(pipe := -1)), s.heap[id].pipe)
  }

  /** The connection object is deleted, its pipe with it. */
  function Delete(s: Server, id: Id): Server {
    var s1 := ReleasePipe(s, id);
    s1.(heap := s1.heap - {id})
  }

  function DropConnection(s: Server, fd: Fd): Server {
    var s1 :=
      if fd !in s.connections then s
      else
        var id := s.connections[fd];
        if id !in s.heap then Dangling(s)
        else
          var s2 := Delete(Dequeue(Unregister(s, s.heap[id].pipe), id), id);
          s2.(connections := s2.connections - {fd});
    var s3 := Close(s1, fd);
    s3.(fdEvents := s3.fdEvents - {fd})
  }

  function MaskOf(state: ConnState): Mask {
    match state
    case READING => INPUT
    case WRITING => INPUT_OUTPUT
    case _ => NOTHING
  }

  // ---------------------------------------------------------------- client events

  datatype Events = Events(input: bool, output: bool, hangup: bool)

  datatype ReadOutcome = StillReading | RequestComplete | RequestRefused | ReadThrew | PeerClosed

  datatype WriteOutcome = WriteMore | WriteDone | WriteThrew

  /** What the calls made for one client event come to; `resetOk` is false if rewinding the stored
      body throws. */
  datatype IoEnv = IoEnv(now: int, read: ReadOutcome, resetOk: bool, write: WriteOutcome)

  /** The try block of _handleConnection up to the rewind: the connection and whether it threw. */
  function ReadPart(c: Conn, env: IoEnv): (Conn, bool) {
    var (c1, threw) :=
      if !c.state.READING? then (c, false)
      else match env.read
        case StillReading => (c.(lastActivity := env.now), false)
        case RequestComplete => (c.(lastActivity := env.now, state := PROCESSING), false)
        case RequestRefused => (c.(lastActivity := env.now, state := WRITING), false)
        case ReadThrew => (c.(lastActivity := env.now, state := WRITING), true)
        case PeerClosed => (c.(state := FINISHED), false);
    if c1.state.PROCESSING? && !env.resetOk then (c1.(state := WRITING), true) else (c1, threw)
  }

  function WritePart(c: Conn, env: IoEnv): Conn {
    if !c.state.WRITING? then c
    else match env.write
      case WriteMore => c.(lastActivity := env.now)
      case WriteDone => c.(lastActivity := env.now, state := FINISHED)
      case WriteThrew => c.(lastActivity := env.now)
  }

  function AfterIo(c: Conn, ev: Events, env: IoEnv): Conn {
    var (c1, threw) := if ev.input then ReadPart(c, env) else (c, false);
    if ev.output && !threw then WritePart(c1, env) else c1
  }

  function HandleConnection(s: Server, id: Id, ev: Events, env: IoEnv): Server {
    if id !in s.heap then Dangling(s)
    else
      var c := AfterIo(s.heap[id], ev, env);
      var s1 := Set(s, id, c);
      var s2 := if ev.input && c.state.PROCESSING? then Enqueue(s1, id) else s1;
      if c.state.FINISHED? then DropConnection(s2, c.fd) else AddPollFd(s2, c.fd, MaskOf(c.state))
  }

  /** What accept hands out. A descriptor that is open or an address that is in use cannot be handed
      out; such a candidate stands for accept failing. */
  datatype Accepted = Accepted(fd: Fd, id: Id, hasConf: bool, now: int)

  function AcceptOne(s: Server, a: Accepted): Server {
    if a.fd < 0 || a.fd in s.open || a.id in s.heap then s
    else
      var s1 := Set(s, a.id, Conn(a.fd, READING, a.now, -1, a.hasConf));
      AddPollFd(s1.(connections := s1.connections[a.fd := a.id], open := s1.open + {a.fd}), a.fd, INPUT)
  }

  function AcceptAll(s: Server, accepts: seq<Accepted>): Server
    decreases |accepts|
  {
    if accepts == [] then s else AcceptAll(AcceptOne(s, accepts[0]), accepts[1..])
  }

  // ---------------------------------------------------------------- CGI pipes

  datatype PipeOutcome = MoreOutput | OutputDone | PipeThrew

  /** The response is ready: the connection goes on to write it. */
  function StartWriting(s: Server, id: Id): Server {
    if id !in s.heap then Dangling(s)
    else AddPollFd(Set(s, id, s.heap[id].(state := WRITING)), s.heap[id].fd, INPUT_OUTPUT)
  }

  /** A hang-up finishes the response without reading on; an exception leaves the CGI manager, and
      with it the pipe, to the connection. */
  function PipeEvent(s: Server, pipe: Fd, ev: Events, outcome: PipeOutcome): Server {
    if pipe !in s.pipes then s
    else
      var id := s.pipes[pipe];
      if id !in s.heap then Dangling(s)
      else if !ev.hangup && ev.input && outcome.PipeThrew? then StartWriting(Unregister(s, pipe), id)
      else if ev.hangup || (ev.input && outcome.OutputDone?) then
        StartWriting(ReleasePipe(Unregister(s, pipe), id), id)
      else s
  }

  // ---------------------------------------------------------------- the batch

  /** One ready event with everything its handling may meet. */
  datatype Event = Event(fd: Fd, events: Events, io: IoEnv, accepts: seq<Accepted>, pipe: PipeOutcome)

  function HandleEvent(s: Server, e: Event): Server {
    if e.fd in s.pipes then PipeEvent(s, e.fd, e.events, e.pipe)
    else if e.events.hangup then (if e.fd in s.listeners then s else DropConnection(s, e.fd))
    else if e.fd in s.listeners then AcceptAll(s, e.accepts)
    else if e.fd !in s.connections then s
    else HandleConnection(s, s.connections[e.fd], e.events, e.io)
  }

  function HandleBatch(s: Server, events: seq<Event>): Server
    decreases |events|
  {
    if events == [] then s else HandleBatch(HandleEvent(s, events[0]), events[1..])
  }

  // ---------------------------------------------------------------- the scheduler

  datatype Outcome = StaysProcessing | Answers | StartsCgi(pipe: Fd)

  /** One process() call: its outcome, the clock at its start and when its pipe is registered. */
  datatype Call = Call(outcome: Outcome, now: int, registered: int)

  /** The connection after process(). A pipe descriptor that is already open cannot be handed out;
      such a candidate stands for pipe() failing. */
  function Processed(c: Conn, open: set<Fd>, call: Call): Conn {
    var c1 := c.(lastActivity := call.now);
    match call.outcome
    case StaysProcessing => c1
    case Answers => c1.(state := WRITING)
    case StartsCgi(pipe) =>
      if pipe < 0 || pipe in open || !c.hasConf then c1.(state := WRITING)
      else c1.(state := WAITING_FOR_CGI, pipe := pipe)
  }

  /** process() does nothing for a connection that is not PROCESSING. */
  function Process(s: Server, id: Id, call: Call): Server {
    if id !in s.heap then Dangling(s)
    else if !s.heap[id].state.PROCESSING? then s
    else
      var c := Processed(s.heap[id], s.open, call);
      var s1 := Set(s, id, c);
      if c.state.WAITING_FOR_CGI? then s1.(open := s1.open + {c.pipe}) else s1
  }

  function Finalize(s: Server, id: Id, now: int): Server {
    if id !in s.heap then Dangling(s)
    else
      var c := s.heap[id];
      match c.state
      case WRITING => AddPollFd(s, c.fd, INPUT_OUTPUT)
      case WAITING_FOR_CGI => Register(AddPollFd(s, c.fd, NOTHING), id, now)
      case FINISHED => DropConnection(s, c.fd)
      case _ => s
  }

  /** One queue entry that is still waiting gets its call. */
  function Serve(s: Server, id: Id, call: Call): Server {
    var s1 := Process(s, id, call);
    if id !in s1.heap then Dangling(s1)
    else if s1.heap[id].state.PROCESSING? then s1.(queue := s1.queue + [id])
    else Finalize(Dequeue(s1, id), id, call.registered)
  }

  function Pop(s: Server): Server
    requires s.queue != []
  {
    s.(queue := s.queue[1..])
  }

  /** The pass so far: the state, the entries taken off the queue, and how many got a call. Stale
      entries cost no budget, so the measure is (budget left, queue length). */
  function RoundRobin(s: Server, served: nat, calls: nat -> Call): Server
    requires served <= BUDGET
    decreases BUDGET - served, |s.queue|
  {
    if s.queue == [] || served == BUDGET then s
    else if s.queue[0] !in s.waiting then RoundRobin(Pop(s), served, calls)
    else RoundRobin(Serve(Pop(s), s.queue[0], calls(served)), served + 1, calls)
  }

  // ---------------------------------------------------------------- the sweeps

  function TimeOut(s: Server, fd: Fd): Server {
    if fd !in s.connections then s
    else
      var id := s.connections[fd];
      if id !in s.heap then Dangling(s)
      else Finalize(Dequeue(Set(s, id, s.heap[id].(state := WRITING)), id), id, 0)
  }

  /** hasTimedOut */
  predicate HasTimedOut(c: Conn, timeoutSeconds: int, now: int) {
    now - c.lastActivity >= timeoutSeconds
  }

  /** `clock` is what time() returns when a connection is looked at. */
  predicate Idle(s: Server, fd: Fd, clock: Fd -> int) {
    fd in s.connections && s.connections[fd] in s.heap &&
    HasTimedOut(s.heap[s.connections[fd]], CONNECTION_TIMEOUT_S, clock(fd))
  }

  function TimeOutAll(s: Server, fds: seq<Fd>): Server
    decreases |fds|
  {
    if fds == [] then s else TimeOutAll(TimeOut(s, fds[0]), fds[1..])
  }

  /** The idle sweep; `fds` are the idle descriptors in the order of the table. */
  function SweepIdle(s: Server, now: int, fds: seq<Fd>): Server {
    if now - s.lastSweep < SWEEP_INTERVAL_S then s else TimeOutAll(s.(lastSweep := now), fds)
  }

  /** The CGI is killed and its manager deleted; a connection with a CGI has a configuration. */
  function Kill(s: Server, pipe: Fd): Server {
    if pipe !in s.pipes then s
    else
      var id := s.pipes[pipe];
      if id !in s.heap then Dangling(s)
      else
        var s1 := Unregister(s, pipe);
        StartWriting(if s.heap[id].hasConf then ReleasePipe(s1, id) else s1, id)
  }

  function KillAll(s: Server, fds: seq<Fd>): Server
    decreases |fds|
  {
    if fds == [] then s else KillAll(Kill(s, fds[0]), fds[1..])
  }

  predicate Overdue(s: Server, pipe: Fd, now: int) {
    pipe in s.starts && now - s.starts[pipe] >= CGI_TIMEOUT_S
  }

  function SweepCgi(s: Server, fds: seq<Fd>): Server {
    if s.pipes == map[] then s else KillAll(s, fds)
  }

  // ---------------------------------------------------------------- one iteration of run()

  datatype Iteration = Iteration(calls: nat -> Call, idleNow: int, clock: Fd -> int, idle: seq<Fd>,
                                 cgiNow: int, overdue: seq<Fd>, events: seq<Event>)

  function AfterPass(s: Server, it: Iteration): Server {
    RoundRobin(s, 0, it.calls)
  }

  function AfterSweeps(s: Server, it: Iteration): Server {
    SweepCgi(SweepIdle(AfterPass(s, it), it.idleNow, it.idle), it.overdue)
  }

  function Iterate(s: Server, it: Iteration): Server {
    HandleBatch(AfterSweeps(s, it), it.events)
  }

  function Run(s: Server, its: seq<Iteration>): Server
    decreases |its|
  {
    if its == [] then s else Run(Iterate(s, its[0]), its[1..])
  }

  /** The server when run() is entered: nothing but its listening sockets. */
  function Start(listeners: set<Fd>): Server {
    var polled := map fd | fd in listeners :: INPUT;
    Server(map[], map[], [], {}, map[], map[], polled, polled, listeners, listeners, 0, false, false)
  }
}
