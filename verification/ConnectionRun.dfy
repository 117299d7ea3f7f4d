/** Connection::process as a function, and the upload of a chunked body from the first received
    byte to the finished file. */
module ConnectionRun {
  import opened ByteStrings
  import opened CNumbers
  import opened ByteStore
  import opened RequestHead
  import opened RequestBody
  import opened ChunkedDecoder
  import opened ChunkedCoding
  import opened ConnectionIntake
  import opened ResponseModel
  import opened UploadWrites

  /** A connection; `out` is the content of the file an upload is written to. */
  datatype Conn = Conn(intake: Intake, resp: Resp, out: string, hasConf: bool)

  /** What buildResponse comes to for this request: routing and the file system are not modelled. */
  datatype Route =
    | Upload(fileOpens: bool)
    | Immediate(status: nat, header: string, page: string)
    | CgiStarted

  /** What happens outside during one process call. */
  datatype ProcessEnv = ProcessEnv(route: Route, write: Call, pages: Pages)

  /** triggerError */
  function Fail(c: Conn, status: nat, pages: Pages): Conn {
    c.(intake := Failed(c.intake, status),
       resp := if c.hasConf then Page(c.resp, status, pages.errorHeader,
             pages.errorPage) else c.resp.(status := status))
  }

  function InState(c: Conn, state: ConnState): Conn {
    c.(intake := c.intake.(state := state))
  }

  function WithRequest(c: Conn, r: RequestModel): Conn {
    c.(intake := c.intake.(request := r))
  }

  predicate ValidConn(c: Conn) {
    ValidRequest(c.intake.request)
  }

  function Process(c: Conn, env: ProcessEnv): Conn
    requires ValidConn(c)
  {
    if !c.intake.state.PROCESSING? then c
    else
      var chunked := c.intake.request.head.state.REQ_CHUNKED?;
      var (request, result) := if chunked then ProcessSlice(c.intake.request) else (c.intake.request, Ready);
      SliceKeepsValid(c.intake.request);
      var c1 := WithRequest(c, request);
      match result
      case Pending => c1
      case Thrown => Fail(c1, 500, env.pages)
      case Ready => Build(c1, env)
  }

  function Build(c: Conn, env: ProcessEnv): Conn
    requires ValidConn(c)
  {
    var request := c.intake.request;
    if request.head.status != 200 then Fail(c, request.head.status, env.pages)
    else if !c.hasConf then Fail(c, 500, env.pages)
    else if c.resp.phase.BUILD_POST_WRITING? then AfterPost(c, Posting(c, env), env)
    else
      match env.route
      case Upload(_) => AfterPost(c, Posting(c, env), env)
      case Immediate(status, header, page) =>
        InState(c.(resp := Page(c.resp, status, header, page)), WRITING)
      case CgiStarted => InState(c.(resp := c.resp.(phase := BUILD_CGI_RUNNING)), WAITING_FOR_CGI)
  }

  /** The upload goes on or starts. */
  function Posting(c: Conn, env: ProcessEnv): Posted
    requires ValidConn(c) && (c.resp.phase.BUILD_POST_WRITING? || env.route.Upload?)
  {
    if c.resp.phase.BUILD_POST_WRITING? then
      ContinuePost(c.resp, c.intake.request.body, c.out, env.write, env.pages)
    else
      StartPost(c.resp, c.intake.request.body, c.out, env.route.fileOpens, env.write, env.pages)
  }

  function Holding(c: Conn, p: Posted): Conn {
    WithRequest(c.(resp := p.resp, out := p.out), c.intake.request.(body := p.body))
  }

  /** A SIGPIPE while writing the upload becomes a 502 page. */
  function AfterPost(c: Conn, p: Posted, env: ProcessEnv): Conn {
    var c1 := Holding(c, p);
    match p.end
    case More => c1
    case Done => InState(c1, WRITING)
    case Threw => Fail(c1, 502, env.pages)
  }

  function ProcessAll(c: Conn, envs: seq<ProcessEnv>): Conn
    requires ValidConn(c)
    decreases |envs|
  {
    if envs == [] then c
    else
      ProcessKeepsValid(c, envs[0]);
      ProcessAll(Process(c, envs[0]), envs[1..])
  }

  lemma ProcessKeepsValid(c: Conn, env: ProcessEnv)
    requires ValidConn(c)
    ensures ValidConn(Process(c, env))
  {
    hide ProcessSlice, BodySettled, Drain;
    SliceKeepsValid(c.intake.request);
    var chunked := c.intake.request.head.state.REQ_CHUNKED?;
    var (request, result) := if chunked then ProcessSlice(c.intake.request) else (c.intake.request, Ready);
    BuildKeepsValid(WithRequest(c, request), env);
  }

  lemma BuildKeepsValid(c: Conn, env: ProcessEnv)
    requires ValidConn(c)
    ensures ValidConn(Build(c, env))
  {
    hide ContinuePost, Page;
    var body := c.intake.request.body;
    PostKeepsValid(c.resp, body, c.out, env.write, env.pages);
    if env.route.Upload? {
      StartKeepsValid(c.resp, body, c.out, env.route.fileOpens, env.write, env.pages);
    }
  }

  lemma StartKeepsValid(r: Resp, body: Store, out: string, fileOpens: bool, write: Call, pages: Pages)
    requires Valid(body)
    ensures Valid(StartPost(r, body, out, fileOpens, write, pages).body)
  {
    hide ContinuePost, Page;
    PostKeepsValid(r.(postPos := 0, phase := BUILD_POST_WRITING),
                   if body.mode.Ram? then body else Rewound(body), "", write, pages);
  }

  /** The connection when its request is complete, as the event loop hands it on: the stored body
      is rewound. */
  function HandedOn(intake: Intake, hasConf: bool): Conn {
    Conn(intake.(request := intake.request.(body := Rewound(intake.request.body))), FRESH_RESP, "", hasConf)
  }

  /** handleRead with the error page it may build. */
  function ReceiveOne(c: Conn, received: Option<string>, pages: Pages): Conn {
    Answering(c, HandleRead(c.intake, received), pages)
  }

  function Answering(c: Conn, next: Intake, pages: Pages): Conn {
    if c.intake.state.READING? && next.state.WRITING? then Fail(c.(intake := next), next.error, pages)
    else c.(intake := next)
  }

  // ---------------------------------------------------------------- the run of an upload

  /** What decoding the stored body will come to: the payload, or a refusal of its size. */
  predicate WillYield(r: RequestModel, payload: string) {
    Whole(r) == Decoder("", payload, Finished) || Whole(r).outcome.TooLarge?
  }

  predicate StillDecoding(c: Conn, payload: string) {
    && ValidConn(c) && c.intake.state.PROCESSING? && Decoding(c.intake.request) && Untrapped(c.intake.request)
    && c.intake.request.head.state.REQ_CHUNKED? && c.intake.request.head.status == 200
    && WillYield(c.intake.request, payload)
    && c.resp.phase.BUILD_IDLE? && c.resp.status == 200 && c.out == ""
  }

  predicate BeingWritten(c: Conn, payload: string) {
    && ValidConn(c) && c.intake.state.PROCESSING? && c.intake.request.processed
    && c.intake.request.head.status == 200 && c.intake.request.body.data == payload
    && Uploading(c.resp, c.intake.request.body, c.out)
  }

  /** The request is answered: the file is part of the payload, all of it if the answer is 201. */
  predicate Answered(c: Conn, payload: string) {
    && ValidConn(c) && c.intake.state.WRITING? && c.out <= payload
    && (c.resp.status == 201 ==> c.out == payload)
  }

  predicate OnCourse(c: Conn, payload: string) {
    StillDecoding(c, payload) || BeingWritten(c, payload) || Answered(c, payload)
  }

  lemma FailAnswers(c: Conn, status: nat, pages: Pages, payload: string)
    requires ValidConn(c) && c.out <= payload && status != 201
    ensures Answered(Fail(c, status, pages), payload)
  {}

  /** Writing goes on, starts or ends without ever leaving the payload. */
  lemma BuildOnCourse(c: Conn, env: ProcessEnv, payload: string)
    requires ValidConn(c) && c.intake.state.PROCESSING? && env.route.Upload? && c.intake.request.processed
    requires c.intake.request.head.status == 200 && c.intake.request.body.data == payload
    requires if c.resp.phase.BUILD_POST_WRITING? then Uploading(c.resp, c.intake.request.body, c.out)
             else c.out == ""
    ensures OnCourse(Build(c, env), payload)
  {
    hide ContinuePost, Page;
    var body := c.intake.request.body;
    if !c.hasConf {
      assert c.out <= payload by {
        if c.resp.phase.BUILD_POST_WRITING? {
          TakeMore(body.data, Written(c.resp, body), |body.data|);
        }
      }
      FailAnswers(c, 500, env.pages, payload);
    } else {
      var p := if c.resp.phase.BUILD_POST_WRITING? then ContinuePost(c.resp, body, c.out, env.write, env.pages)
               else StartPost(c.resp, body, c.out, env.route.fileOpens, env.write, env.pages);
      if c.resp.phase.BUILD_POST_WRITING? {
        PostIsCorrect(c.resp, body, c.out, env.write, env.pages);
      } else if env.route.fileOpens {
        StartedUpload(c.resp, body, c.out, env.write, env.pages);
      } else {
        FailedOpen(c.resp, body, c.out, env.write, env.pages);
      }
      PostLeadsOn(c, p, env, payload);
    }
  }

  lemma FailedOpen(r: Resp, body: Store, out: string, write: Call, pages: Pages)
    requires Valid(body)
    ensures var p := StartPost(r, body, out, false, write, pages);
            p.end.Done? && p.resp.status == 500 && p.out == out && p.body == body
  {}

  lemma PostLeadsOn(c: Conn, p: Posted, env: ProcessEnv, payload: string)
    requires ValidConn(c) && c.intake.state.PROCESSING? && c.intake.request.processed
    requires c.intake.request.head.status == 200
    requires p.body.data == payload && p.out <= payload && Valid(p.body)
    requires p.end.More? ==> Uploading(p.resp, p.body, p.out)
    requires p.end.Done? ==> (p.resp.status == 201 ==> p.out == payload)
    ensures OnCourse(AfterPost(c, p, env), payload)
  {
    hide Uploading, Page;
    if p.end.Threw? {
      var c1 := WithRequest(c.(resp := p.resp, out := p.out), c.intake.request.(body := p.body));
      FailAnswers(c1, 502, env.pages, payload);
    }
  }

  lemma ProcessOnCourse(c: Conn, env: ProcessEnv, payload: string)
    requires ValidConn(c) && OnCourse(c, payload) && env.route.Upload?
    ensures OnCourse(Process(c, env), payload)
  {
    hide ProcessSlice, Build, Drain, Traps, Uploading, Answered, Decoding, Verdict;
    if StillDecoding(c, payload) {
      DecodingOnCourse(c, env, payload);
    } else if BeingWritten(c, payload) {
      WritingOnCourse(c, env, payload);
    } else {
      assert Answered(c, payload);
      AnsweredStays(c, env, payload);
    }
  }

  lemma AnsweredStays(c: Conn, env: ProcessEnv, payload: string)
    requires Answered(c, payload)
    ensures Process(c, env) == c
  {}

  lemma WritingOnCourse(c: Conn, env: ProcessEnv, payload: string)
    requires BeingWritten(c, payload) && env.route.Upload?
    ensures OnCourse(Process(c, env), payload)
  {
    hide Build, Uploading, DecodeSlice, OnCourse;
    assert BodySettled(c.intake.request);
    assert WithRequest(c, c.intake.request) == c;
    UploadingIsWriting(c);
    BuildOnCourse(c, env, payload);
  }

  lemma UploadingIsWriting(c: Conn)
    requires Uploading(c.resp, c.intake.request.body, c.out)
    ensures c.resp.phase.BUILD_POST_WRITING?
  {}

  lemma DecodingOnCourse(c: Conn, env: ProcessEnv, payload: string)
    requires StillDecoding(c, payload) && env.route.Upload?
    ensures OnCourse(Process(c, env), payload)
  {
    hide ProcessSlice, Build, Drain, Traps, Uploading, Answered, Decoding, AfterRead;
    var r := c.intake.request;
    SliceStep(r);
    SliceKeepsValid(r);
    var (next, result) := ProcessSlice(r);
    var c1 := WithRequest(c, next);
    match result {
      case Pending =>
        SameWhole(r, next);
        assert StillDecoding(c1, payload);
      case Thrown =>
        assert false;
      case Ready =>
        if Whole(r).outcome.TooLarge? {
          RefusedSizeAnswers(c1, env, payload);
        } else {
          BuildOnCourse(c1, env, payload);
        }
    }
  }

  lemma SameWhole(r: RequestModel, next: RequestModel)
    requires ValidRequest(r) && next.body == AfterRead(r.body, SLICE) && next.limit == r.limit
    ensures Whole(next) == Whole(r) && (Untrapped(next) <==> Untrapped(r))
  {}

  lemma RefusedSizeAnswers(c: Conn, env: ProcessEnv, payload: string)
    requires ValidConn(c) && c.intake.request.head.status == 413 && c.out == ""
    ensures Answered(Build(c, env), payload)
  {}

  lemma {:induction false} ProcessAllOnCourse(c: Conn, envs: seq<ProcessEnv>, payload: string)
    requires ValidConn(c) && OnCourse(c, payload)
    requires forall i :: 0 <= i < |envs| ==> envs[i].route.Upload?
    ensures OnCourse(ProcessAll(c, envs), payload)
    decreases |envs|
  {
    hide Process, OnCourse, ValidConn;
    if envs != [] {
      ProcessKeepsValid(c, envs[0]);
      ProcessOnCourse(c, envs[0], payload);
      ProcessAllOnCourse(Process(c, envs[0]), envs[1..], payload);
    }
  }

  // ---------------------------------------------------------------- end to end

  /** The stream carries a request that announces a chunked body, and its encoded body. */
  predicate ChunkedStream(pieces: seq<string>, headLength: nat, b: Body, limit: nat) {
    var stream := Concat(pieces);
    && RecvPieces(pieces) && HeadEndsAt(stream, headLength) && headLength <= |stream|
    && HeadOf(stream, limit).state.REQ_CHUNKED?
    && ValidBody(b) && stream[headLength..] == Encode(b.chunks, b.last)
  }

  /** The last piece, and no other, shows the end marker. */
  predicate ChunkedUpload(pieces: seq<string>, headLength: nat, b: Body, limit: nat) {
    ChunkedStream(pieces, headLength, b, limit) && MarkerInLastOnly(BodyPieces(pieces, headLength))
  }

  lemma BodyPiecesExist(pieces: seq<string>, headLength: nat, b: Body, limit: nat)
    requires ChunkedStream(pieces, headLength, b, limit)
    ensures BodyPieces(pieces, headLength) != []
    ensures Concat(BodyPieces(pieces, headLength)) == Encode(b.chunks, b.last)
  {
    hide Find, ParseHeaders, Encode, RecvPieces;
    BodyPiecesConcat(pieces, headLength);
    EncodedNotEmpty(b);
  }

  lemma {:induction false} LinesFailOrStay(section: string, start: nat, h: Head, first: bool)
    requires h.status == 200 || (h.state.REQ_ERROR? && !first)
    ensures var p := ParseLines(section, start, h, first); p.status == 200 || p.state.REQ_ERROR?
    decreases |section| - start
  {
    hide Find, MethodOf;
    if start < |section| {
      var lineEnd := LineEndFrom(section, start);
      var line := section[start..lineEnd];
      LinesFailOrStay(section, lineEnd + 2, h, first);
      LineFailsOrStays(h, line, first);
      LinesFailOrStay(section, lineEnd + 2, ParseOne(h, line, first), false);
    }
  }

  lemma LineFailsOrStays(h: Head, line: string, first: bool)
    requires h.status == 200 || (h.state.REQ_ERROR? && !first)
    ensures ParseOne(h, line, first).status == 200 || ParseOne(h, line, first).state.REQ_ERROR?
  {
    hide Find, MethodOf, Trim, ToLower;
  }

  lemma ChunkedHeadIsFine(stream: string, limit: nat)
    requires HeadOf(stream, limit).state.REQ_CHUNKED?
    ensures HeadOf(stream, limit).status == 200 && HeadOf(stream, limit).contentLength == -1
  {
    hide Find, Header, StrToLl10, ToLower, ParseLines;
    if Find(stream, BLANK_LINE, 0).Some? {
      LinesFailOrStay(stream[..Find(stream, BLANK_LINE, 0).value], 0, FRESH_HEAD, true);
    }
  }

  lemma HandedOnIsDecoding(intake: Intake, stream: string, headLength: nat, b: Body, limit: nat, hasConf: bool)
    requires headLength <= |stream| && HeadOf(stream, limit).state.REQ_CHUNKED?
    requires intake.state.PROCESSING? && intake.request == OneShot(stream, headLength, limit)
    requires ValidBody(b) && stream[headLength..] == Encode(b.chunks, b.last)
    ensures ValidConn(HandedOn(intake, hasConf)) && StillDecoding(HandedOn(intake, hasConf), Payload(b.chunks))
  {
    hide Drain, Traps, ParseHeaders, Encode, Payload;
    ChunkedHeadIsFine(stream, limit);
    var r := HandedOn(intake, hasConf).intake.request;
    assert "" + stream[headLength..] == stream[headLength..];
    assert r.body.data == Encode(b.chunks, b.last);
    StartsDecoding(r);
    EncodedNeverTraps(b.chunks, b.last, "", limit);
    DecodeEncoded(b.chunks, b.last, "", limit);
    assert "" + Payload(b.chunks) == Payload(b.chunks);
  }

  /** End to end: whatever the recv fragmentation, the spill to disk, the number of process calls
      and the short writes, the uploaded file is always a prefix of the payload, and an answer of
      201 means that it is the concatenation of the chunks. */
  lemma ChunkedUploadEndToEnd(pieces: seq<string>, headLength: nat, b: Body, limit: nat, hasConf: bool,
                              envs: seq<ProcessEnv>)
    requires ChunkedUpload(pieces, headLength, b, limit)
    requires HeadArrival(pieces, headLength) <= MAX_HEADER_SIZE
    requires forall i :: 0 <= i < |envs| ==> envs[i].route.Upload?
    ensures var intake := Receive(FreshIntake(limit), pieces);
            && intake.state.PROCESSING? && ValidConn(HandedOn(intake, hasConf))
            && var end := ProcessAll(HandedOn(intake, hasConf), envs);
               end.out <= Payload(b.chunks) &&
               (end.intake.state.WRITING? && end.resp.status == 201 ==> end.out == Payload(b.chunks))
  {
    hide Drain, ParseHeaders, Encode, Payload, Receive, ProcessAll, Find, MarkerInLastOnly, ValidConn;
    var stream := Concat(pieces);
    BodyPiecesExist(pieces, headLength, b, limit);
    FragmentationInvariance(pieces, headLength, limit);
    var intake := Receive(FreshIntake(limit), pieces);
    HandedOnIsDecoding(intake, stream, headLength, b, limit, hasConf);
    ProcessAllOnCourse(HandedOn(intake, hasConf), envs, Payload(b.chunks));
    var end := ProcessAll(HandedOn(intake, hasConf), envs);
    OnCoursePrefix(end, Payload(b.chunks));
  }

  lemma OnCoursePrefix(c: Conn, payload: string)
    requires OnCourse(c, payload)
    ensures c.out <= payload
    ensures c.intake.state.WRITING? && c.resp.status == 201 ==> c.out == payload
  {
    hide Decoding, Untrapped;
    if BeingWritten(c, payload) {
      TakeMore(payload, Written(c.resp, c.intake.request.body), |payload|);
    }
  }
}
