/** What the event loop assumes of a connection is what a connection does: the state it sees change is
    the state of the connection that received, processed or sent. */
module ConnectionOutcomes {
  import opened ByteStrings
  import opened ConnectionIntake
  import opened RequestBody
  import opened RequestHead
  import opened ResponseModel
  import ResponseWire
  import Run = ConnectionRun
  import Loop = EventLoop

  /** The loop's view of a connection. */
  predicate Views(l: Loop.Conn, c: Run.Conn) {
    l.state == c.intake.state && l.hasConf == c.hasConf
  }

  function ReadOutcomeOf(c: Run.Conn, received: Option<string>): Loop.ReadOutcome {
    match HandleRead(c.intake, received).state
    case READING => Loop.StillReading
    case PROCESSING => Loop.RequestComplete
    case FINISHED => Loop.PeerClosed
    case _ => Loop.RequestRefused
  }

  lemma IntakeStates(c: Intake, received: Option<string>)
    requires c.state.READING?
    ensures var s := HandleRead(c, received).state;
            (s.FINISHED? <==> received.None?) && (s.READING? || s.PROCESSING? || s.WRITING? || s.FINISHED?)
  {
    hide ParseHeaders, ChunkedDone;
  }

  /** handleRead: the loop sees the state the connection reaches, and its activity is noted whenever
      bytes came in. */
  lemma ReadIsCovered(l: Loop.Conn, c: Run.Conn, received: Option<string>, pages: Pages, env: Loop.IoEnv)
    requires Views(l, c) && env.resetOk && env.read == ReadOutcomeOf(c, received)
    ensures var (l1, threw) := Loop.ReadPart(l, env);
            && Views(l1, Run.ReceiveOne(c, received, pages)) && !threw
            && l1.lastActivity == if l.state.READING? && received.Some? then env.now else l.lastActivity
  {
    if l.state.READING? {
      IntakeStates(c.intake, received);
    }
    hide HandleRead, Page;
  }

  function OutcomeOf(c: Run.Conn, env: Run.ProcessEnv, pipe: Loop.Fd): Loop.Outcome
    requires Run.ValidConn(c)
  {
    match Run.Process(c, env).intake.state
    case PROCESSING => Loop.StaysProcessing
    case WAITING_FOR_CGI => Loop.StartsCgi(pipe)
    case _ => Loop.Answers
  }

  lemma ProcessStates(c: Run.Conn, env: Run.ProcessEnv)
    requires Run.ValidConn(c) && c.intake.state.PROCESSING?
    ensures var next := Run.Process(c, env);
            && next.hasConf == c.hasConf
            && (next.intake.state.PROCESSING? || next.intake.state.WRITING? ||
                (next.intake.state.WAITING_FOR_CGI? && c.hasConf))
  {
    hide ProcessSlice, Run.Build;
    SliceKeepsValid(c.intake.request);
    var chunked := c.intake.request.head.state.REQ_CHUNKED?;
    var (request, result) := if chunked then ProcessSlice(c.intake.request) else (c.intake.request, Ready);
    BuildStates(Run.WithRequest(c, request), env);
  }

  lemma BuildStates(c: Run.Conn, env: Run.ProcessEnv)
    requires Run.ValidConn(c) && c.intake.state.PROCESSING?
    ensures var next := Run.Build(c, env);
            && next.hasConf == c.hasConf
            && (next.intake.state.PROCESSING? || next.intake.state.WRITING? ||
                (next.intake.state.WAITING_FOR_CGI? && c.hasConf))
  {
    hide Run.Posting, Page;
  }

  /** process(): a new pipe descriptor is one that was not open before. */
  lemma ProcessIsCovered(l: Loop.Conn, c: Run.Conn, env: Run.ProcessEnv, open: set<Loop.Fd>, call: Loop.Call,
        pipe: Loop.Fd)
    requires Views(l, c) && Run.ValidConn(c) && c.intake.state.PROCESSING?
    requires pipe >= 0 && pipe !in open && call.outcome == OutcomeOf(c, env, pipe)
    ensures Views(Loop.Processed(l, open, call), Run.Process(c, env))
  {
    ProcessStates(c, env);
    hide Run.Process;
  }

  function WriteOutcomeOf(s: Sent): Loop.WriteOutcome {
    match s.end
    case More => Loop.WriteMore
    case Done => Loop.WriteDone
    case Threw => Loop.WriteThrew
  }

  /** handleWrite: only a finished response finishes the connection. */
  lemma WriteIsCovered(l: Loop.Conn, r: Resp, wire: string, send: SendEnv, env: Loop.IoEnv)
    requires l.state.WRITING? && ValidResp(r) && env.write == WriteOutcomeOf(SendSlice(r, wire, send))
    ensures Loop.WritePart(l, env).state == if SendSlice(r, wire, send).end.Done? then FINISHED else WRITING
    ensures Loop.WritePart(l, env).lastActivity == env.now
  {
    hide SendSlice;
  }

  lemma AccountedIsValid(r: Resp, wire: string)
    requires ResponseWire.Accounted(r, wire)
    ensures ValidResp(r)
  {}

  /** As long as no call fails, the connection is finished by the slice that brings the last byte out,
      unless SIGPIPE is noticed in it, and by no earlier one. */
  lemma WriteFinishesIff(l: Loop.Conn, r: Resp, wire: string, send: SendEnv, env: Loop.IoEnv)
    requires l.state.WRITING? && ResponseWire.Accounted(r, wire) && ResponseWire.NoFailure(send)
    requires env.write == WriteOutcomeOf(SendSlice(r, wire, send))
    ensures var s := SendSlice(r, wire, send);
            Loop.WritePart(l, env).state.FINISHED? <==> !s.end.Threw? && s.wire == ResponseWire.Message(r)
    ensures ResponseWire.Quiet(send) ==>
              (Loop.WritePart(l, env).state.FINISHED? <==> SendSlice(r, wire, send).wire == ResponseWire.Message(r))
  {
    if ResponseWire.Quiet(send) {
      AccountedIsValid(r, wire);
      ResponseWire.QuietNeverThrows(r, wire, send);
    }
    WriteIsCovered(l, r, wire, send, env);
    ResponseWire.SliceIsCorrect(r, wire, send);
    hide SendSlice, ResponseWire.Message, ResponseWire.Accounted;
  }
}
