/** What a client is answered, and that it gets it: every way in which process() or a refused request
    ends in a response, and the bytes that then go out. */
module ProcessAnswers {
  import opened ByteStrings
  import opened ByteStore
  import opened CNumbers
  import opened RequestHead
  import opened RequestBody
  import opened ChunkedDecoder
  import opened ChunkedCoding
  import opened ConnectionIntake
  import opened ResponseModel
  import opened ConnectionRun
  import opened UploadWrites
  import opened UploadCompletion
  import opened ChunkedRefusals
  import ResponseWire
  import SpooledWire

  // ---------------------------------------------------------------- a response that is ready

  /** A response with this status, header and page of which nothing has been sent; the page is in memory
      exactly if it fits there. */
  predicate Shows(r: Resp, status: nat, header: string, page: string, memory: nat) {
    && r.status == status && r.header == header && r.body.data == page && r.body.cursor == 0 && r.file.NoFile?
    && r.sent == 0 && r.streamBuf == "" && r.streamSent == 0 && r.sending.SENDING_RES_HEAD? && r.phase.BUILD_DONE?
    && (r.body.mode.Ram? <==> |page| <= memory) && Valid(r.body)
  }

  lemma PageShows(r: Resp, status: nat, header: string, page: string)
    ensures Shows(Page(r, status, header, page), status, header, page, r.body.limit)
  {
    assert "" + page == page;
  }

  /** What is ready arrives: header and page, whole and in order, when no call fails and SIGPIPE is not
      noticed; and in any case nothing but a prefix of them. */
  lemma ShownArrives(r: Resp, status: nat, header: string, page: string, memory: nat, envs: seq<SendEnv>)
    requires Shows(r, status, header, page, memory) && header != "" && |page| <= memory
    ensures ValidResp(r) && ResponseWire.SendAll(r, "", envs).wire <= header + page
    ensures ResponseWire.FailureFree(envs) && ResponseWire.AllQuiet(envs) && |envs| >= |header + page| ==>
              ResponseWire.SendAll(r, "", envs).end.Done? && ResponseWire.SendAll(r, "", envs).wire == header + page
  {
    hide ResponseWire.SendAll, ResponseWire.FailureFree, ResponseWire.AllQuiet;
    assert ResponseWire.Message(r) == header + page;
    ResponseWire.BuiltResponseArrives(r, envs);
    if ResponseWire.FailureFree(envs) && ResponseWire.AllQuiet(envs) && |envs| >= |header + page| {
      ResponseWire.BuiltResponseCompletes(r, envs);
    }
  }

  /** The same for a page that was spooled, if it consists of whole blocks equal to the first. */
  lemma SpooledShownArrives(r: Resp, status: nat, header: string, page: string, memory: nat, envs: seq<SendEnv>)
    requires Shows(r, status, header, page, memory) && header != "" && |page| > memory
    requires SpooledWire.RepeatsFirstBlock(page) && SpooledWire.WholeBlocks(page)
    requires ResponseWire.FailureFree(envs) && ResponseWire.AllQuiet(envs) && |envs| >= |header + page|
    ensures ValidResp(r)
    ensures ResponseWire.SendAll(r, "", envs).end.Done? && ResponseWire.SendAll(r, "", envs).wire == header + page
  {
    hide ResponseWire.SendAll, SpooledWire.RepeatsFirstBlock, SpooledWire.WholeBlocks;
    assert SpooledWire.InHeader(r, "");
    assert ResponseWire.Message(r) == header + page;
    SpooledWire.EqualBlocksComplete(r, "", envs);
  }

  /** Without a configuration there is no page: the first slice sends nothing and is the last. */
  lemma NothingToShow(r: Resp, status: nat, env: SendEnv)
    requires r == FRESH_RESP.(status := status) && ResponseWire.Quiet(env)
    ensures SendSlice(r, "", env) == Sent(r, "", Done)
  {}

  // ---------------------------------------------------------------- process()

  /** The error page for this status, or the bare status without a configuration. */
  predicate ShowsError(before: Conn, after: Conn, status: nat, pages: Pages) {
    && after.intake.state.WRITING? && after.intake.error == status && after.hasConf == before.hasConf
    && after.out == before.out
    && if before.hasConf
       then Shows(after.resp, status, pages.errorHeader, pages.errorPage, before.resp.body.limit)
       else after.resp == before.resp.(status := status)
  }

  lemma FailShows(c: Conn, status: nat, pages: Pages)
    ensures ShowsError(c, Fail(c, status, pages), status, pages)
  {
    PageShows(c.resp, status, pages.errorHeader, pages.errorPage);
    hide Page, Shows;
  }

  /** The client of a refused request receives the error page, whole if no call fails. */
  lemma ErrorArrives(before: Conn, after: Conn, status: nat, pages: Pages, envs: seq<SendEnv>)
    requires ShowsError(before, after, status, pages) && before.hasConf
    requires pages.errorHeader != "" && |pages.errorPage| <= before.resp.body.limit
    requires ResponseWire.FailureFree(envs) && ResponseWire.AllQuiet(envs)
    requires |envs| >= |pages.errorHeader + pages.errorPage|
    ensures ValidResp(after.resp)
    ensures var s := ResponseWire.SendAll(after.resp, "", envs);
            s.end.Done? && s.wire == pages.errorHeader + pages.errorPage
  {
    hide ResponseWire.SendAll;
    ShownArrives(after.resp, status, pages.errorHeader, pages.errorPage, before.resp.body.limit, envs);
  }

  /** A request whose body needs no decoding any more. */
  predicate Decoded(r: RequestModel) {
    !r.head.state.REQ_CHUNKED? || BodySettled(r)
  }

  lemma ProcessIsBuild(c: Conn, env: ProcessEnv)
    requires ValidConn(c) && c.intake.state.PROCESSING? && Decoded(c.intake.request)
    ensures Process(c, env) == Build(c, env)
  {
    hide Build;
    assert WithRequest(c, c.intake.request) == c;
  }

  /** A page that is answered at once is what the response then holds, and the connection writes it. */
  lemma ImmediateAnswered(c: Conn, env: ProcessEnv)
    requires ValidConn(c) && c.intake.state.PROCESSING? && Decoded(c.intake.request)
    requires c.hasConf && c.intake.request.head.status == 200 && !c.resp.phase.BUILD_POST_WRITING?
    requires env.route.Immediate?
    ensures var next := Process(c, env);
            && next.intake == c.intake.(state := WRITING) && next.out == c.out && next.hasConf
            && Shows(next.resp, env.route.status, env.route.header, env.route.page, c.resp.body.limit)
  {
    ProcessIsBuild(c, env);
    PageShows(c.resp, env.route.status, env.route.header, env.route.page);
    hide Page, Shows, Process;
  }

  /** So a client whose request is answered at once receives header and page. */
  lemma ImmediateArrives(c: Conn, env: ProcessEnv, envs: seq<SendEnv>)
    requires ValidConn(c) && c.intake.state.PROCESSING? && Decoded(c.intake.request)
    requires c.hasConf && c.intake.request.head.status == 200 && !c.resp.phase.BUILD_POST_WRITING?
    requires env.route.Immediate? && env.route.header != "" && |env.route.page| <= c.resp.body.limit
    requires ResponseWire.FailureFree(envs) && ResponseWire.AllQuiet(envs)
    requires |envs| >= |env.route.header + env.route.page|
    ensures var next := Process(c, env);
            && next.intake.state.WRITING? && next.resp.status == env.route.status && ValidResp(next.resp)
            && var s := ResponseWire.SendAll(next.resp, "", envs);
               s.end.Done? && s.wire == env.route.header + env.route.page
  {
    ImmediateAnswered(c, env);
    hide Process, ResponseWire.SendAll;
    var next := Process(c, env);
    ShownArrives(next.resp, env.route.status, env.route.header, env.route.page, c.resp.body.limit, envs);
  }

  /** The first answer of a connection is sent from memory if it has at most 1 MiB. */
  lemma FirstAnswerArrives(c: Conn, env: ProcessEnv, envs: seq<SendEnv>)
    requires ValidConn(c) && c.intake.state.PROCESSING? && Decoded(c.intake.request)
    requires c.hasConf && c.intake.request.head.status == 200 && c.resp == FRESH_RESP
    requires env.route.Immediate? && env.route.header != "" && |env.route.page| <= 1048576
    requires ResponseWire.FailureFree(envs) && ResponseWire.AllQuiet(envs)
    requires |envs| >= |env.route.header + env.route.page|
    ensures var next := Process(c, env);
            && ValidResp(next.resp)
            && ResponseWire.SendAll(next.resp, "", envs).wire == env.route.header + env.route.page
  {
    hide Process, ResponseWire.SendAll;
    ImmediateArrives(c, env, envs);
  }

  /** A CGI that is started is waited for; nothing is answered yet. */
  lemma CgiWaitedFor(c: Conn, env: ProcessEnv)
    requires ValidConn(c) && c.intake.state.PROCESSING? && Decoded(c.intake.request)
    requires c.hasConf && c.intake.request.head.status == 200 && !c.resp.phase.BUILD_POST_WRITING?
    requires env.route.CgiStarted?
    ensures Process(c, env) ==
              c.(intake := c.intake.(state := WAITING_FOR_CGI), resp := c.resp.(phase := BUILD_CGI_RUNNING))
  {
    ProcessIsBuild(c, env);
  }

  /** A refused request is answered with its status, configuration or not; a request that is fine, but
      for which there is no configuration, with 500. */
  lemma RefusalAnswered(c: Conn, env: ProcessEnv)
    requires ValidConn(c) && c.intake.state.PROCESSING? && Decoded(c.intake.request)
    requires c.intake.request.head.status != 200 || !c.hasConf
    ensures var status := c.intake.request.head.status;
            ShowsError(c, Process(c, env), if status != 200 then status else 500, env.pages)
  {
    ProcessIsBuild(c, env);
    var status := c.intake.request.head.status;
    FailShows(c, if status != 200 then status else 500, env.pages);
    hide Process, Fail, ShowsError;
  }

  /** A connection that is not PROCESSING is left alone. */
  lemma NotProcessingKept(c: Conn, env: ProcessEnv)
    requires ValidConn(c) && !c.intake.state.PROCESSING?
    ensures Process(c, env) == c
  {}

  // ---------------------------------------------------------------- uploads

  /** A response on which nothing has been built but the state of an upload. */
  predicate Unbuilt(r: Resp) {
    r == FRESH_RESP.(phase := r.phase, postPos := r.postPos)
  }

  lemma DoneShows(r: Resp, body: Store, out: string, pages: Pages)
    requires Unbuilt(r)
    ensures Shows(FinishPost(r, body, out, true, pages).resp, 201, pages.doneHeader, pages.donePage, BUFFER_LIMIT)
  {
    assert "" + pages.donePage == pages.donePage;
  }

  /** What one write call comes to when `at` bytes of the body are in the file, by the bytes that are
      offered and taken: SIGPIPE ends in an exception, nothing taken or a spooled block cut short in a
      500 page, and the last byte in the 201 page. */
  predicate Decides(r: Resp, body: Store, out: string, at: nat, write: Call, pages: Pages, p: Posted)
    requires at <= |body.data|
  {
    var offered := Min(|body.data| - at, 16384);
    var taken := Taken(write, offered);
    if write.pipeBefore then p.end.Threw? && p.resp == r && p.out == out
    else if offered == 0 then
      p.end.Done? && p.out == out && Shows(p.resp, 201, pages.doneHeader, pages.donePage, BUFFER_LIMIT)
    else
      && p.out == out + body.data[at..at + taken]
      && if write.pipeAfter then p.end.Threw? && p.resp == r
         else if taken == 0 || (body.mode.File? && taken < offered) then
           p.end.Done? && Shows(p.resp, 500, pages.errorHeader, pages.errorPage, BUFFER_LIMIT)
         else if at + taken == |body.data| then
           p.end.Done? && Shows(p.resp, 201, pages.doneHeader, pages.donePage, BUFFER_LIMIT)
         else p.end.More? && Unbuilt(p.resp)
  }

  lemma PostVerdict(r: Resp, body: Store, out: string, write: Call, pages: Pages)
    requires Uploading(r, body, out) && Unbuilt(r)
    ensures Decides(r, body, out, Written(r, body), write, pages, ContinuePost(r, body, out, write, pages))
  {
    if body.mode.File? {
      SpooledVerdict(r, body, out, write, pages);
    } else {
      PageShows(r, 500, pages.errorHeader, pages.errorPage);
      DoneShowsAlways(r, pages);
      hide Shows, Page, FinishPost;
      FinishKeeps(pages);
      assert out + "" == out;
    }
  }

  lemma FinishKeeps(pages: Pages)
    ensures forall r: Resp, body: Store, out: string ::
              var p := FinishPost(r, body, out, true, pages); p.end.Done? && p.out == out
    ensures forall r: Resp, body: Store, out: string ::
              FinishPost(r, body, out, false, pages) == Posted(r, body, out, More)
  {}

  lemma SpooledVerdict(r: Resp, body: Store, out: string, write: Call, pages: Pages)
    requires Uploading(r, body, out) && Unbuilt(r) && body.mode.File?
    ensures Decides(r, body, out, body.cursor, write, pages, ContinuePost(r, body, out, write, pages))
  {
    BlockRead(body);
    PageShows(r, 500, pages.errorHeader, pages.errorPage);
    DoneShowsAlways(r, pages);
    hide Shows, Page, FinishPost, ReadBytes, AfterRead;
    FinishKeeps(pages);
    var at := body.cursor;
    var offered := Min(|body.data| - at, CHUNK);
    var taken := Taken(write, offered);
    SliceOfSlice(body.data, at, offered, taken);
    assert out + "" == out;
  }

  lemma SliceOfSlice(s: string, at: nat, offered: nat, taken: nat)
    requires taken <= offered && at + offered <= |s|
    ensures s[at..at + offered][..taken] == s[at..at + taken]
  {}

  lemma BlockRead(body: Store)
    requires Valid(body) && body.mode.File? && InStep(body, false)
    ensures var offered := Min(|body.data| - body.cursor, CHUNK);
            && ReadBytes(body, CHUNK) == body.data[body.cursor..body.cursor + offered]
            && AfterRead(body, CHUNK).cursor == body.cursor + offered && AfterRead(body, CHUNK).data == body.data
  {}

  lemma DoneShowsAlways(r: Resp, pages: Pages)
    requires Unbuilt(r)
    ensures forall n: nat, body: Store, out: string ::
              Shows(FinishPost(r.(postPos := n), body, out, true, pages).resp, 201, pages.doneHeader, pages.donePage,
                    BUFFER_LIMIT)
    ensures forall body: Store, out: string ::
              Shows(FinishPost(r, body, out, true, pages).resp, 201, pages.doneHeader, pages.donePage, BUFFER_LIMIT)
  {
    forall n: nat, body: Store, out: string
      ensures Shows(FinishPost(r.(postPos := n), body, out, true, pages).resp, 201, pages.doneHeader, pages.donePage,
                    BUFFER_LIMIT)
    {
      DoneShows(r.(postPos := n), body, out, pages);
    }
    forall body: Store, out: string
      ensures Shows(FinishPost(r, body, out, true, pages).resp, 201, pages.doneHeader, pages.donePage, BUFFER_LIMIT)
    {
      DoneShows(r, body, out, pages);
    }
  }

  /** How the end of a write call shows in the connection: 502 with an error page after SIGPIPE, else the
      response that was built, or another call. */
  predicate PostShown(c: Conn, next: Conn, p: Posted, pages: Pages) {
    && next.out == p.out && next.hasConf == c.hasConf && next.intake.request == c.intake.request.(body := p.body)
    && match p.end
       case More => next.intake.state == c.intake.state && next.resp == p.resp
       case Done => next.intake.state.WRITING? && next.resp == p.resp
       case Threw =>
         && next.intake.state.WRITING? && next.intake.error == 502
         && Shows(next.resp, 502, pages.errorHeader, pages.errorPage, p.resp.body.limit)
  }

  /** A call of process() on an upload in progress makes one write call, whatever the route. */
  lemma UploadGoesOn(c: Conn, env: ProcessEnv)
    requires ValidConn(c) && c.intake.state.PROCESSING? && Decoded(c.intake.request)
    requires c.hasConf && c.intake.request.head.status == 200 && c.resp.phase.BUILD_POST_WRITING?
    ensures PostShown(c, Process(c, env),
                      ContinuePost(c.resp, c.intake.request.body, c.out, env.write, env.pages), env.pages)
  {
    ProcessIsBuild(c, env);
    hide ContinuePost, Shows, Page, Process;
    PostIsShown(c, ContinuePost(c.resp, c.intake.request.body, c.out, env.write, env.pages), env);
  }

  lemma PostIsShown(c: Conn, p: Posted, env: ProcessEnv)
    requires c.hasConf
    ensures PostShown(c, AfterPost(c, p, env), p, env.pages)
  {
    PageShows(p.resp, 502, env.pages.errorHeader, env.pages.errorPage);
    hide Shows, Page;
  }

  /** An upload starts with an empty file and the body at its start, or with 500 if the file cannot be
      opened. */
  lemma UploadStarts(c: Conn, env: ProcessEnv)
    requires ValidConn(c) && c.intake.state.PROCESSING? && Decoded(c.intake.request)
    requires c.hasConf && c.intake.request.head.status == 200 && !c.resp.phase.BUILD_POST_WRITING?
    requires env.route.Upload?
    ensures var next := Process(c, env);
            if !env.route.fileOpens then
              && next.intake.state.WRITING? && next.out == c.out
              && Shows(next.resp, 500, env.pages.errorHeader, env.pages.errorPage, c.resp.body.limit)
            else
              var r := c.resp.(postPos := 0, phase := BUILD_POST_WRITING);
              var body := if c.intake.request.body.mode.Ram? then c.intake.request.body
                          else Rewound(c.intake.request.body);
              && Uploading(r, body, "") && body.data == c.intake.request.body.data
              && PostShown(c, next, ContinuePost(r, body, "", env.write, env.pages), env.pages)
  {
    ProcessIsBuild(c, env);
    PageShows(c.resp, 500, env.pages.errorHeader, env.pages.errorPage);
    hide ContinuePost, Shows, Page, Process;
    var p := Posting(c, env);
    PostIsShown(c, p, env);
  }

  // ---------------------------------------------------------------- refused requests

  /** A request that is refused while it is read is answered with the error page of its status, or with
      the bare status without a configuration. */
  lemma ReadRefusalShown(c: Conn, received: Option<string>, pages: Pages)
    requires c.intake.state.READING? && HandleRead(c.intake, received).state.WRITING?
    ensures ShowsError(c, ReceiveOne(c, received, pages), HandleRead(c.intake, received).error, pages)
  {
    hide HandleRead, Shows;
    var next := HandleRead(c.intake, received);
    FailShows(c.(intake := next), next.error, pages);
  }

  /** The call that settles a body that cannot be decoded shows the refusal; calls before it change
      nothing but the request. */
  lemma StepShown(c: Conn, env: ProcessEnv, status: nat)
    requires Undecided(c) && RefusalStatus(Whole(c.intake.request).outcome) == Some(status)
    ensures var next := Process(c, env);
            ShowsError(c, next, status, env.pages) ||
            (Undecided(next) && next == WithRequest(c, next.intake.request) &&
             Whole(next.intake.request) == Whole(c.intake.request) &&
             0 < CallsFor(|next.intake.request.body.data| - next.intake.request.body.cursor)
               < CallsFor(|c.intake.request.body.data| - c.intake.request.body.cursor))
  {
    hide ProcessSlice, Build, Drain, Traps, Decoding, AfterRead, Page, CallsFor, Shows;
    var r := c.intake.request;
    SliceStep(r);
    SliceKeepsValid(r);
    var (next, result) := ProcessSlice(r);
    match result {
      case Pending =>
        SameWhole(r, next);
        PendingMovesOn(r, next);
      case Thrown =>
        FailShows(WithRequest(c, next), 500, env.pages);
      case Ready =>
        BuildRefuses(WithRequest(c, next), env);
        FailShows(WithRequest(c, next), next.head.status, env.pages);
    }
  }

  lemma BuildRefuses(c: Conn, env: ProcessEnv)
    requires ValidConn(c) && c.intake.request.head.status != 200
    ensures Build(c, env) == Fail(c, c.intake.request.head.status, env.pages)
  {}

  lemma {:induction false} RefusalShown(c: Conn, envs: seq<ProcessEnv>, status: nat)
    requires Undecided(c) && RefusalStatus(Whole(c.intake.request).outcome) == Some(status)
    requires envs != [] && |envs| >= CallsFor(|c.intake.request.body.data| - c.intake.request.body.cursor)
    ensures ValidConn(c) && exists i :: 0 <= i < |envs| && ShowsError(c, ProcessAll(c, envs), status, envs[i].pages)
    decreases |envs|
  {
    hide Process, Undecided, Whole, CallsFor, ValidConn, Shows;
    UndecidedIsValid(c);
    StepShown(c, envs[0], status);
    ProcessKeepsValid(c, envs[0]);
    var next := Process(c, envs[0]);
    if ShowsError(c, next, status, envs[0].pages) {
      NotProcessed(next, envs[1..]);
    } else {
      RefusalShown(next, envs[1..], status);
      var i :| 0 <= i < |envs[1..]| && ShowsError(next, ProcessAll(next, envs[1..]), status, envs[1..][i].pages);
      assert envs[1..][i] == envs[i + 1];
    }
  }

  /** From the received bytes to the answer: well-formed chunks followed by a chunk without its closing
      CRLF, or by a last chunk with a trailer, however they arrive, are answered with 400 within
      ceil(n / 8192) calls of process() once the end marker has been seen behind them, with 413 if the
      limit is exceeded before, and nothing is written. */
  lemma BrokenUploadAnswered(pieces: seq<string>, headLength: nat, limit: nat, hasConf: bool, envs: seq<ProcessEnv>,
                             chunks: seq<Chunk>, b: Broken)
    requires RecvPieces(pieces) && HeadEndsAt(Concat(pieces), headLength) && headLength <= |Concat(pieces)|
    requires HeadOf(Concat(pieces), limit).state.REQ_CHUNKED? && HeadArrival(pieces, headLength) <= 8192
    requires ValidChunks(chunks) && IsBroken(b)
    requires var bodyPieces := BodyPieces(pieces, headLength);
             && MarkerSeen(bodyPieces)
             && Concat(bodyPieces[..UpToMarker(bodyPieces)]) == Front(chunks) + BrokenText(b)
    requires |envs| >= CallsFor(|Front(chunks) + BrokenText(b)|)
    ensures var c := HandedOn(Receive(FreshIntake(limit), pieces), hasConf);
            var status := if limit > 0 && |Payload(chunks)| > limit then 413 else 400;
            && ValidConn(c) && c.out == ""
            && exists i :: 0 <= i < |envs| && ShowsError(c, ProcessAll(c, envs), status, envs[i].pages)
  {
    hide Drain, Traps, ParseHeaders, Receive, ProcessAll, Find, MarkerSeen, UpToMarker, CallsFor, Front, BrokenText,
         IsBroken, ValidChunks, Payload, Shows, RecvPieces, HeadArrival, BodyPieces;
    var stream := Concat(pieces);
    var body := Front(chunks) + BrokenText(b);
    FragmentationInvariance(pieces, headLength, limit);
    var c := HandedOn(Receive(FreshIntake(limit), pieces), hasConf);
    ChunkedHeadIsFine(stream, limit);
    BrokenIsRefused(chunks, b, "", limit);
    assert "" + body == body && "" + Payload(chunks) == Payload(chunks);
    StoredUndecided(c, body);
    BrokenNotEmpty(chunks, b);
    RefusalShown(c, envs, if limit > 0 && |Payload(chunks)| > limit then 413 else 400);
  }

  lemma StoredUndecided(c: Conn, body: string)
    requires c.intake.state.PROCESSING? && c.out == ""
    requires var r := c.intake.request;
             && r == FreshRequest(r.limit).(head := r.head, body := Rewound(Appended(Empty(BUFFER_LIMIT), body)))
             && r.head.state.REQ_CHUNKED? && r.head.status == 200 && r.head.contentLength == -1
             && !Traps(body, "", r.limit)
    ensures Undecided(c) && c.intake.request.body.data == body && c.intake.request.body.cursor == 0
  {
    hide Drain, Traps, Decoding;
    assert "" + body == body;
    StartsDecoding(c.intake.request);
  }

  lemma BrokenNotEmpty(chunks: seq<Chunk>, b: Broken)
    requires IsBroken(b)
    ensures CallsFor(|Front(chunks) + BrokenText(b)|) > 0
  {
    assert |BrokenText(b)| >= 2;
  }
}
