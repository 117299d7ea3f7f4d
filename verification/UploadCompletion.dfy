/** The other half of the chunked upload: when nothing outside fails, it does end with 201, within a
    number of process calls that the sizes of the request bound. */
module UploadCompletion {
  import opened ByteStrings
  import opened ByteStore
  import opened CNumbers
  import opened RequestHead
  import opened RequestBody
  import opened ChunkedDecoder
  import opened ChunkedCoding
  import opened ConnectionIntake
  import opened ResponseModel
  import opened UploadWrites
  import opened ConnectionRun

  /** The upload file can be opened and the write of this call goes through: it takes something, and
      of a payload that is too large for RAM, all that it is offered. */
  predicate Serves(env: ProcessEnv, payload: string) {
    && env.route == Upload(true) && !env.write.pipeBefore && !env.write.pipeAfter
    && env.write.result >= if |payload| <= BUFFER_LIMIT then 1 else CHUNK
  }

  /** A store is in file mode only because its bytes do not fit in RAM. */
  predicate SpilledByNeed(s: Store) {
    s.mode.File? ==> |s.data| > BUFFER_LIMIT
  }

  predicate Succeeded(c: Conn, payload: string) {
    Answered(c, payload) && c.resp.status == 201
  }

  predicate WillFinish(c: Conn, payload: string) {
    && StillDecoding(c, payload) && Whole(c.intake.request) == Decoder("", payload, Finished)
    && PlainlyDecoded(c.intake.request)
  }

  predicate PlainlyDecoded(r: RequestModel) {
    r.decoded.limit == BUFFER_LIMIT && SpilledByNeed(r.decoded)
  }

  predicate PlainlyWritten(c: Conn, payload: string) {
    BeingWritten(c, payload) && SpilledByNeed(c.intake.request.body)
  }

  predicate Succeeding(c: Conn, payload: string) {
    c.hasConf && (WillFinish(c, payload) || PlainlyWritten(c, payload) || Succeeded(c, payload))
  }

  /** How many process calls may still be needed. */
  function CallsLeft(c: Conn, payload: string): int
    requires ValidConn(c)
  {
    if c.intake.state.WRITING? then 0
    else if c.resp.phase.BUILD_POST_WRITING? then |payload| - |c.out| + 1
    else CallsFor(|c.intake.request.body.data| - c.intake.request.body.cursor) + |payload| + 1
  }

  /** The call that writes: what is left shrinks, or the upload is complete. */
  lemma BuildSucceeds(c: Conn, env: ProcessEnv, payload: string)
    requires ValidConn(c) && c.intake.state.PROCESSING? && c.intake.request.processed && c.hasConf
    requires Serves(env, payload)
    requires c.intake.request.head.status == 200 && c.intake.request.body.data == payload
    requires SpilledByNeed(c.intake.request.body)
    requires if c.resp.phase.BUILD_POST_WRITING? then Uploading(c.resp, c.intake.request.body, c.out)
             else c.out == ""
    ensures var next := Build(c, env);
            ValidConn(next) && Succeeding(next, payload) && CallsLeft(next, payload) <= |payload| - |c.out|
  {
    hide ContinuePost, Page;
    var body := c.intake.request.body;
    var p := Posting(c, env);
    if c.resp.phase.BUILD_POST_WRITING? {
      UploadedPart(c, payload);
      PostIsCorrect(c.resp, body, c.out, env.write, env.pages);
      AcceptedPostGoesOn(c.resp, body, c.out, env.write, env.pages);
    } else {
      StartedUpload(c.resp, body, c.out, env.write, env.pages);
      var started := if body.mode.Ram? then body else Rewound(body);
      AcceptedPostGoesOn(c.resp.(postPos := 0, phase := BUILD_POST_WRITING), started, "", env.write, env.pages);
    }
    assert Build(c, env) == AfterPost(c, p, env);
    hide Build, Posting;
    PostSucceeds(c, p, env, payload);
  }

  lemma UploadedPart(c: Conn, payload: string)
    requires Uploading(c.resp, c.intake.request.body, c.out) && c.intake.request.body.data == payload
    ensures |c.out| <= |payload|
  {}

  lemma PostSucceeds(c: Conn, p: Posted, env: ProcessEnv, payload: string)
    requires ValidConn(c) && c.intake.state.PROCESSING? && c.intake.request.processed && c.hasConf
    requires c.intake.request.head.status == 200 && Valid(p.body) && p.body.data == payload && p.out <= payload
    requires p.end.More? ==> Uploading(p.resp, p.body, p.out) && |c.out| < |p.out|
    requires p.end.Done? ==> p.resp.status == 201 && p.out == payload
    requires !p.end.Threw? && |c.out| <= |payload| && SpilledByNeed(p.body)
    ensures var next := AfterPost(c, p, env);
            ValidConn(next) && Succeeding(next, payload) && CallsLeft(next, payload) <= |payload| - |c.out|
  {
    hide InStep, Written, WillFinish;
  }

  lemma DecodingSucceeds(c: Conn, env: ProcessEnv, payload: string)
    requires WillFinish(c, payload) && c.hasConf && Serves(env, payload)
    ensures var next := Process(c, env);
            ValidConn(next) && Succeeding(next, payload) && CallsLeft(next, payload) < CallsLeft(c, payload)
  {
    assert !BodySettled(c.intake.request);
    hide ProcessSlice, Build, Drain, Traps, Uploading, Answered, Decoding, AfterRead, PlainlyDecoded;
    var r := c.intake.request;
    SliceStep(r);
    SliceKeepsValid(r);
    SliceStoresPlainly(r);
    var (next, result) := ProcessSlice(r);
    var c1 := WithRequest(c, next);
    match result {
      case Pending =>
        SameWhole(r, next);
        assert StillDecoding(c1, payload);
        PendingMovesOn(r, next);
      case Thrown =>
        assert false;
      case Ready =>
        assert c1.intake.request.processed && c1.intake.request.body.data == payload;
        BuildSucceeds(c1, env, payload);
    }
  }

  /** Decoding spills to disk only what does not fit in RAM. */
  lemma SliceStoresPlainly(r: RequestModel)
    requires ValidRequest(r) && !BodySettled(r) && PlainlyDecoded(r)
    ensures var (next, result) := ProcessSlice(r);
            PlainlyDecoded(next) && (result.Ready? && next.processed ==> SpilledByNeed(next.body))
  {
    hide Drain, ReadBytes, AfterRead;
    var d := Drain(r.chunkBuffer + ReadBytes(r.body, SLICE), r.decoded.data, r.limit);
    DrainGrows(r.chunkBuffer + ReadBytes(r.body, SLICE), r.decoded.data, r.limit);
    GrownPlainly(r.decoded, d.decoded);
  }

  lemma GrownPlainly(s: Store, data: string)
    requires s.data <= data && s.limit == BUFFER_LIMIT && SpilledByNeed(s)
    ensures Grown(s, data).limit == BUFFER_LIMIT && SpilledByNeed(Grown(s, data))
  {}

  /** A slice that leaves a complete body pending has read a whole slice. */
  lemma PendingMovesOn(r: RequestModel, next: RequestModel)
    requires Decoding(r) && Untrapped(r) && !Whole(r).outcome.NeedMore?
    requires (next, Pending) == ProcessSlice(r) && next.body == AfterRead(r.body, SLICE)
    ensures 0 < CallsFor(|next.body.data| - next.body.cursor) < CallsFor(|r.body.data| - r.body.cursor)
  {
    hide Drain, Traps, ProcessSlice;
    assert r.body.data[..|r.body.data|] == r.body.data;
    SliceStep(r);
    FewerCalls(|r.body.data| - r.body.cursor);
  }

  lemma FewerCalls(n: nat)
    ensures n >= SLICE ==> CallsFor(n - SLICE) == CallsFor(n) - 1
  {}

  lemma WritingSucceeds(c: Conn, env: ProcessEnv, payload: string)
    requires PlainlyWritten(c, payload) && c.hasConf && Serves(env, payload)
    ensures var next := Process(c, env);
            ValidConn(next) && Succeeding(next, payload) && CallsLeft(next, payload) < CallsLeft(c, payload)
  {
    hide Build, Uploading, DecodeSlice, Succeeding;
    assert BodySettled(c.intake.request);
    assert WithRequest(c, c.intake.request) == c;
    UploadingIsWriting(c);
    BuildSucceeds(c, env, payload);
  }

  lemma ProcessSucceeds(c: Conn, env: ProcessEnv, payload: string)
    requires ValidConn(c) && Succeeding(c, payload) && Serves(env, payload)
    ensures var next := Process(c, env);
            && ValidConn(next) && Succeeding(next, payload)
            && (c.intake.state.WRITING? ==> next == c)
            && (!c.intake.state.WRITING? ==> CallsLeft(next, payload) < CallsLeft(c, payload))
  {
    hide Process, StillDecoding, BeingWritten, Answered, CallsLeft;
    if WillFinish(c, payload) {
      DecodingSucceeds(c, env, payload);
      DecodingIsProcessing(c, payload);
    } else if PlainlyWritten(c, payload) {
      WritingSucceeds(c, env, payload);
      WritingIsProcessing(c, payload);
    } else {
      AnsweredStays(c, env, payload);
      AnsweredIsWriting(c, payload);
    }
  }

  lemma DecodingIsProcessing(c: Conn, payload: string)
    requires StillDecoding(c, payload)
    ensures c.intake.state.PROCESSING?
  {}

  lemma WritingIsProcessing(c: Conn, payload: string)
    requires BeingWritten(c, payload)
    ensures c.intake.state.PROCESSING?
  {}

  lemma AnsweredIsWriting(c: Conn, payload: string)
    requires Answered(c, payload)
    ensures c.intake.state.WRITING?
  {}

  lemma SuccessMeans(c: Conn, payload: string)
    requires ValidConn(c) && Succeeding(c, payload) && CallsLeft(c, payload) <= 0
    ensures c.intake.state.WRITING? && c.resp.status == 201 && c.out == payload
  {
    if BeingWritten(c, payload) {
      UploadedPart(c, payload);
    }
  }

  lemma {:induction false} ProcessAllSucceeds(c: Conn, envs: seq<ProcessEnv>, payload: string)
    requires ValidConn(c) && Succeeding(c, payload) && |envs| >= CallsLeft(c, payload)
    requires forall i :: 0 <= i < |envs| ==> Serves(envs[i], payload)
    ensures var end := ProcessAll(c, envs);
            end.intake.state.WRITING? && end.resp.status == 201 && end.out == payload
    decreases |envs|
  {
    hide Process, Succeeding, CallsLeft, ValidConn;
    if envs == [] {
      SuccessMeans(c, payload);
    } else {
      ProcessKeepsValid(c, envs[0]);
      ProcessSucceeds(c, envs[0], payload);
      if c.intake.state.WRITING? {
        NothingLeft(c, payload);
      }
      ProcessAllSucceeds(Process(c, envs[0]), envs[1..], payload);
    }
  }

  lemma NothingLeft(c: Conn, payload: string)
    requires ValidConn(c) && c.intake.state.WRITING?
    ensures CallsLeft(c, payload) == 0
  {}

  /** The upload is answered with 201, and the file holds the payload. */
  predicate Uploaded(c: Conn, payload: string) {
    c.intake.state.WRITING? && c.resp.status == 201 && c.out == payload
  }

  /** End to end, when nothing outside fails and the payload is within the limit: whatever the recv
      fragmentation and the spill to disk, the upload is answered with 201 and the file holds the
      payload, within ceil(n / 8192) + |payload| + 1 process calls for an encoded body of n bytes. */
  lemma ChunkedUploadCompletes(pieces: seq<string>, headLength: nat, b: Body, limit: nat, envs: seq<ProcessEnv>)
    requires ChunkedUpload(pieces, headLength, b, limit)
    requires HeadArrival(pieces, headLength) <= MAX_HEADER_SIZE && !OverLimit(|Payload(b.chunks)|, limit)
    requires forall i :: 0 <= i < |envs| ==> Serves(envs[i], Payload(b.chunks))
    requires |envs| >= CallsFor(|Concat(pieces)| - headLength) + |Payload(b.chunks)| + 1
    ensures var intake := Receive(FreshIntake(limit), pieces);
            && intake.state.PROCESSING? && ValidConn(HandedOn(intake, true))
            && var end := ProcessAll(HandedOn(intake, true), envs);
               Uploaded(end, Payload(b.chunks))
  {
    hide Drain, ParseHeaders, Encode, Payload, Receive, ProcessAll, Find, ValidConn, ChunkedUpload, CallsFor;
    var payload := Payload(b.chunks);
    ChunkedUploadEndToEnd(pieces, headLength, b, limit, true, []);
    var intake := Receive(FreshIntake(limit), pieces);
    var c := HandedOn(intake, true);
    UploadWillFinish(pieces, headLength, b, limit);
    ProcessAllSucceeds(c, envs, payload);
  }

  /** The connection that is handed on will decode to the payload. */
  lemma UploadWillFinish(pieces: seq<string>, headLength: nat, b: Body, limit: nat)
    requires ChunkedUpload(pieces, headLength, b, limit)
    requires HeadArrival(pieces, headLength) <= MAX_HEADER_SIZE && !OverLimit(|Payload(b.chunks)|, limit)
    ensures var c := HandedOn(Receive(FreshIntake(limit), pieces), true);
            && ValidConn(c) && Succeeding(c, Payload(b.chunks))
            && CallsLeft(c, Payload(b.chunks)) == CallsFor(|Concat(pieces)| - headLength) + |Payload(b.chunks)| + 1
  {
    hide Drain, Traps, ParseHeaders, Encode, Payload, Receive, Find, MarkerInLastOnly, CallsFor;
    var stream := Concat(pieces);
    BodyPiecesExist(pieces, headLength, b, limit);
    FragmentationInvariance(pieces, headLength, limit);
    var intake := Receive(FreshIntake(limit), pieces);
    HandedOnIsDecoding(intake, stream, headLength, b, limit, true);
    DecodeEncoded(b.chunks, b.last, "", limit);
    assert "" + Payload(b.chunks) == Payload(b.chunks);
    assert "" + stream[headLength..] == stream[headLength..];
  }

  // ---------------------------------------------------------------- uploads that never end

  /** A stored body that is incomplete is polled for ever. */
  lemma {:induction false} NeverAnswered(c: Conn, envs: seq<ProcessEnv>)
    requires Undecided(c) && Whole(c.intake.request).outcome == NeedMore
    ensures ProcessAll(c, envs).intake.state.PROCESSING?
    decreases |envs|
  {
    hide Process, Undecided, Whole, ValidConn;
    UndecidedIsValid(c);
    if envs != [] {
      StaysUndecided(c, envs[0]);
      NeverAnswered(Process(c, envs[0]), envs[1..]);
    }
  }

  lemma StaysUndecided(c: Conn, env: ProcessEnv)
    requires Undecided(c) && Whole(c.intake.request).outcome == NeedMore
    ensures Undecided(Process(c, env)) && Whole(Process(c, env).intake.request).outcome == NeedMore
  {
    hide ProcessSlice, Build, Drain, Traps, Decoding, AfterRead;
    var r := c.intake.request;
    SliceStep(r);
    SliceKeepsValid(r);
    var (next, result) := ProcessSlice(r);
    assert result == Pending;
    SameWhole(r, next);
  }

  lemma {:induction false} NotProcessed(c: Conn, envs: seq<ProcessEnv>)
    requires ValidConn(c) && !c.intake.state.PROCESSING?
    ensures ProcessAll(c, envs) == c
    decreases |envs|
  {
    if envs != [] {
      NotProcessed(c, envs[1..]);
    }
  }

  /** Without the marker in the last piece alone, an upload is never answered: it is read from for
      ever, or what was stored before an early marker is polled for ever. */
  lemma UploadLost(pieces: seq<string>, headLength: nat, b: Body, limit: nat, envs: seq<ProcessEnv>)
    requires ChunkedStream(pieces, headLength, b, limit) && !ChunkedUpload(pieces, headLength, b, limit)
    requires HeadArrival(pieces, headLength) <= MAX_HEADER_SIZE && !OverLimit(|Payload(b.chunks)|, limit)
    ensures var c := HandedOn(Receive(FreshIntake(limit), pieces), true);
            ValidConn(c) && !ProcessAll(c, envs).intake.state.WRITING?
  {
    hide Drain, Traps, ParseHeaders, Encode, Payload, Receive, ProcessAll, Find, MarkerInLastOnly, MarkerSeen;
    var bodyPieces := BodyPieces(pieces, headLength);
    BodyPiecesExist(pieces, headLength, b, limit);
    FragmentationInvariance(pieces, headLength, limit);
    var c := HandedOn(Receive(FreshIntake(limit), pieces), true);
    if !MarkerSeen(bodyPieces) {
      NotProcessed(c, envs);
    } else {
      SeenBeforeLast(bodyPieces);
      var n := UpToMarker(bodyPieces);
      assert c.intake.request.body.data == Concat(bodyPieces[..n]);
      BodyPiecesAreRecv(pieces, headLength);
      ConcatSplit(bodyPieces[..n], bodyPieces[n..]);
      assert bodyPieces[..n] + bodyPieces[n..] == bodyPieces;
      NotEmpty(bodyPieces[n..]);
      ChunkedHeadIsFine(Concat(pieces), limit);
      CutUploadPends(c, b, Concat(bodyPieces[..n]), Concat(bodyPieces[n..]));
      NeverAnswered(c, envs);
    }
  }

  lemma CutUploadPends(c: Conn, b: Body, front: string, missing: string)
    requires ValidConn(c) && c.intake.state.PROCESSING? && c.out == "" && ValidBody(b)
    requires front + missing == Encode(b.chunks, b.last) && missing != ""
    requires var r := c.intake.request;
             && r == FreshRequest(r.limit).(head := r.head, body := Rewound(Appended(Empty(BUFFER_LIMIT), front)))
             && r.head.state.REQ_CHUNKED? && r.head.status == 200 && r.head.contentLength == -1
             && !OverLimit(|Payload(b.chunks)|, r.limit)
    ensures Undecided(c) && Whole(c.intake.request).outcome == NeedMore
  {
    hide Drain, Traps, Encode, Payload, Decoding;
    var r := c.intake.request;
    assert "" + front == front && "" + Payload(b.chunks) == Payload(b.chunks);
    assert r.body.data == front;
    StartsDecoding(r);
    EncodedNeverTraps(b.chunks, b.last, "", r.limit);
    PrefixUntrapped(front, missing, "", r.limit);
    PrefixPends(b.chunks, b.last, front, missing, "", r.limit);
  }

  /** A marker that is seen, but not in the last piece alone, ends the body early. */
  lemma {:induction false} SeenBeforeLast(pieces: seq<string>)
    requires MarkerSeen(pieces) && !MarkerInLastOnly(pieces)
    ensures UpToMarker(pieces) < |pieces|
    decreases |pieces|
  {
    hide ChunkedDone;
    if !ChunkedDone(pieces[0]) {
      MarkerSeenLater(pieces);
      if MarkerInLastOnly(pieces[1..]) {
        forall i | 0 <= i < |pieces| ensures ChunkedDone(pieces[i]) <==> i == |pieces| - 1 {
          assert i > 0 ==> pieces[1..][i - 1] == pieces[i];
        }
      }
      SeenBeforeLast(pieces[1..]);
    }
  }

  /** The exact condition, from the first received byte to the file: when nothing outside fails, the
      upload succeeds if and only if the last piece, and no other, shows the end marker. */
  lemma UploadIff(pieces: seq<string>, headLength: nat, b: Body, limit: nat, envs: seq<ProcessEnv>)
    requires ChunkedStream(pieces, headLength, b, limit)
    requires HeadArrival(pieces, headLength) <= MAX_HEADER_SIZE && !OverLimit(|Payload(b.chunks)|, limit)
    requires forall i :: 0 <= i < |envs| ==> Serves(envs[i], Payload(b.chunks))
    requires |envs| >= CallsFor(|Concat(pieces)| - headLength) + |Payload(b.chunks)| + 1
    ensures var c := HandedOn(Receive(FreshIntake(limit), pieces), true);
            && ValidConn(c)
            && (Uploaded(ProcessAll(c, envs), Payload(b.chunks)) <==> MarkerInLastOnly(BodyPieces(pieces, headLength)))
  {
    hide ChunkedStream, CallsFor, Payload, Receive, ProcessAll, ValidConn, MarkerInLastOnly, Serves;
    if MarkerInLastOnly(BodyPieces(pieces, headLength)) {
      ChunkedUploadCompletes(pieces, headLength, b, limit, envs);
    } else {
      UploadLost(pieces, headLength, b, limit, envs);
    }
  }

  // ---------------------------------------------------------------- refused uploads

  /** A chunked request on its way through the decoder, nothing written yet. */
  predicate Undecided(c: Conn) {
    && ValidConn(c) && c.intake.state.PROCESSING? && Decoding(c.intake.request) && Untrapped(c.intake.request)
    && c.intake.request.head.state.REQ_CHUNKED? && c.intake.request.head.status == 200 && c.out == ""
  }

  /** The status with which a body that cannot be decoded is refused. */
  function RefusalStatus(outcome: Outcome): Option<nat> {
    match outcome
    case BadRequest => Some(400)
    case TooLarge => Some(413)
    case Threw => Some(500)
    case _ => None
  }

  predicate RefusedBy(c: Conn, status: nat) {
    ValidConn(c) && c.intake.state.WRITING? && c.resp.status == status && c.out == ""
  }

  lemma ProcessRefuses(c: Conn, env: ProcessEnv, status: nat)
    requires Undecided(c) && RefusalStatus(Whole(c.intake.request).outcome) == Some(status)
    ensures var next := Process(c, env);
            RefusedBy(next, status) ||
            (Undecided(next) && Whole(next.intake.request) == Whole(c.intake.request) &&
             0 < CallsFor(|next.intake.request.body.data| - next.intake.request.body.cursor)
               < CallsFor(|c.intake.request.body.data| - c.intake.request.body.cursor))
  {
    hide ProcessSlice, Build, Drain, Traps, Decoding, AfterRead, Page, CallsFor;
    var r := c.intake.request;
    SliceStep(r);
    SliceKeepsValid(r);
    var (next, result) := ProcessSlice(r);
    match result {
      case Pending =>
        SameWhole(r, next);
        PendingMovesOn(r, next);
      case Thrown =>
        FailMeans(WithRequest(c, next), 500, env.pages);
      case Ready =>
        RefusedStatusAnswers(WithRequest(c, next), env);
        BuildKeepsValid(WithRequest(c, next), env);
    }
  }

  lemma FailMeans(c: Conn, status: nat, pages: Pages)
    ensures var next := Fail(c, status, pages);
            next.intake.state.WRITING? && next.resp.status == status && next.out == c.out
  {}

  /** A request with an error status is answered with that status. */
  lemma RefusedStatusAnswers(c: Conn, env: ProcessEnv)
    requires ValidConn(c) && c.intake.request.head.status != 200
    ensures var next := Build(c, env);
            next.intake.state.WRITING? && next.resp.status == c.intake.request.head.status && next.out == c.out
  {}

  /** A chunked body that cannot be decoded is refused within ceil(n / 8192) process calls, with the
      status the one-shot decoding would give, and nothing is ever written. */
  lemma {:induction false} UploadRefused(c: Conn, envs: seq<ProcessEnv>, status: nat)
    requires Undecided(c) && RefusalStatus(Whole(c.intake.request).outcome) == Some(status)
    requires envs != [] && |envs| >= CallsFor(|c.intake.request.body.data| - c.intake.request.body.cursor)
    ensures RefusedBy(ProcessAll(c, envs), status)
    decreases |envs|
  {
    hide Process, Undecided, Whole, CallsFor, ValidConn;
    UndecidedIsValid(c);
    ProcessRefuses(c, envs[0], status);
    var next := Process(c, envs[0]);
    ProcessKeepsValid(c, envs[0]);
    if RefusedBy(next, status) {
      RefusedStays(next, envs[1..], status);
    } else {
      UploadRefused(next, envs[1..], status);
    }
  }

  /** The same from the received pieces on: whatever bytes follow the head, if their last piece and
      no other shows the end marker and they reach no trap, the answer is the refusal that one-shot
      decoding calls for. */
  lemma ReceivedUploadRefused(pieces: seq<string>, headLength: nat, limit: nat, hasConf: bool, envs: seq<ProcessEnv>,
                              status: nat)
    requires RecvPieces(pieces) && HeadEndsAt(Concat(pieces), headLength) && headLength <= |Concat(pieces)|
    requires HeadOf(Concat(pieces), limit).state.REQ_CHUNKED? && HeadArrival(pieces, headLength) <= MAX_HEADER_SIZE
    requires BodyPieces(pieces, headLength) != [] && MarkerInLastOnly(BodyPieces(pieces, headLength))
    requires var body := Concat(pieces)[headLength..];
             && !Traps(body, "", limit) && RefusalStatus(Drain(body, "", limit).outcome) == Some(status)
             && envs != [] && |envs| >= CallsFor(|body|)
    ensures var intake := Receive(FreshIntake(limit), pieces);
            && intake.state.PROCESSING? && ValidConn(HandedOn(intake, hasConf))
            && RefusedBy(ProcessAll(HandedOn(intake, hasConf), envs), status)
  {
    hide Drain, Traps, ParseHeaders, Receive, ProcessAll, Find, MarkerInLastOnly, CallsFor;
    var stream := Concat(pieces);
    FragmentationInvariance(pieces, headLength, limit);
    var intake := Receive(FreshIntake(limit), pieces);
    ChunkedHeadIsFine(stream, limit);
    var c := HandedOn(intake, hasConf);
    assert "" + stream[headLength..] == stream[headLength..];
    StartsDecoding(c.intake.request);
    UploadRefused(c, envs, status);
  }

  lemma UndecidedIsValid(c: Conn)
    requires Undecided(c)
    ensures ValidConn(c) && c.intake.state.PROCESSING?
  {}

  lemma {:induction false} RefusedStays(c: Conn, envs: seq<ProcessEnv>, status: nat)
    requires RefusedBy(c, status)
    ensures ProcessAll(c, envs) == c
    decreases |envs|
  {
    if envs != [] {
      assert Process(c, envs[0]) == c;
      RefusedStays(c, envs[1..], status);
    }
  }

  // ---------------------------------------------------------------- from the client to the file

  /** The printed request announces a chunked body. */
  predicate AnnouncesChunks(r: RequestText) {
    Find(ToLower(Header(Described(r), "transfer-encoding")), "chunked", 0).Some?
  }

  /** The bytes a client sends for a chunked request. */
  function Transmitted(r: RequestText, b: Body): string {
    PrintRequest(r) + Encode(b.chunks, b.last)
  }

  /** The bytes come in recv pieces, with the headers within the first 8192 bytes. */
  predicate Delivered(pieces: seq<string>, r: RequestText, b: Body) {
    && RecvPieces(pieces) && Concat(pieces) == Transmitted(r, b)
    && HeadArrival(pieces, |PrintRequest(r)|) <= MAX_HEADER_SIZE
  }

  /** The last of the pieces, and no other of the body, shows the end marker. */
  predicate Arrives(pieces: seq<string>, r: RequestText, b: Body) {
    Delivered(pieces, r, b) && MarkerInLastOnly(BodyPieces(pieces, |PrintRequest(r)|))
  }

  /** For that it is enough that the marker occurs once in the encoded body and is not cut. */
  lemma UncutArrives(pieces: seq<string>, r: RequestText, b: Body)
    requires Delivered(pieces, r, b)
    requires var encoded := Encode(b.chunks, b.last);
             |encoded| >= |LAST_CHUNK| && Find(encoded, LAST_CHUNK, 0) == Some(|encoded| - |LAST_CHUNK|)
    requires var bodyPieces := BodyPieces(pieces, |PrintRequest(r)|);
             bodyPieces != [] && |bodyPieces[|bodyPieces| - 1]| >= |LAST_CHUNK|
    ensures Arrives(pieces, r, b)
  {
    hide Find, PrintRequest, Encode, MarkerInLastOnly;
    BodyPiecesConcat(pieces, |PrintRequest(r)|);
    assert Transmitted(r, b)[|PrintRequest(r)|..] == Encode(b.chunks, b.last);
    UncutMarkerSeenLast(BodyPieces(pieces, |PrintRequest(r)|));
  }

  /** A printed chunked request is a stream of the upload theorems however it is delivered. */
  lemma PrintedIsUpload(pieces: seq<string>, r: RequestText, b: Body, limit: nat)
    requires WellFormed(r) && AnnouncesChunks(r) && ValidBody(b) && Delivered(pieces, r, b)
    ensures ChunkedStream(pieces, |PrintRequest(r)|, b, limit)
  {
    hide Find, PrintRequest, Encode, ParseLines, Described, ToLower;
    var encoded := Encode(b.chunks, b.last);
    PrintedRequestParses(r, encoded, limit);
    PrintedNotEmpty(r);
    assert Transmitted(r, b)[|PrintRequest(r)|..] == encoded;
  }

  lemma PrintedNotEmpty(r: RequestText)
    ensures PrintRequest(r) != ""
  {}

  /** From the client to the file: any well-formed request with any chunked body within the limit,
      printed, encoded and delivered in any pieces, ends with 201 and the concatenated chunks in the
      file. */
  lemma SentUploadArrives(pieces: seq<string>, r: RequestText, b: Body, limit: nat, envs: seq<ProcessEnv>)
    requires WellFormed(r) && AnnouncesChunks(r) && ValidBody(b) && Arrives(pieces, r, b)
    requires !OverLimit(|Payload(b.chunks)|, limit)
    requires forall i :: 0 <= i < |envs| ==> Serves(envs[i], Payload(b.chunks))
    requires |envs| >= CallsFor(|Encode(b.chunks, b.last)|) + |Payload(b.chunks)| + 1
    ensures var intake := Receive(FreshIntake(limit), pieces);
            && intake.state.PROCESSING? && ValidConn(HandedOn(intake, true))
            && var end := ProcessAll(HandedOn(intake, true), envs);
               Uploaded(end, Payload(b.chunks))
  {
    hide ChunkedStream, CallsFor, Payload, Encode, PrintRequest, Receive, ProcessAll, ValidConn, Find;
    PrintedIsUpload(pieces, r, b, limit);
    assert Transmitted(r, b)[|PrintRequest(r)|..] == Encode(b.chunks, b.last);
    ChunkedUploadCompletes(pieces, |PrintRequest(r)|, b, limit, envs);
  }

  /** However a well-formed chunked request is delivered: it is uploaded if and only if its last piece,
      and no other of the body, shows the end marker. */
  lemma SentUploadIff(pieces: seq<string>, r: RequestText, b: Body, limit: nat, envs: seq<ProcessEnv>)
    requires WellFormed(r) && AnnouncesChunks(r) && ValidBody(b) && Delivered(pieces, r, b)
    requires !OverLimit(|Payload(b.chunks)|, limit)
    requires forall i :: 0 <= i < |envs| ==> Serves(envs[i], Payload(b.chunks))
    requires |envs| >= CallsFor(|Encode(b.chunks, b.last)|) + |Payload(b.chunks)| + 1
    ensures var c := HandedOn(Receive(FreshIntake(limit), pieces), true);
            ValidConn(c) && (Uploaded(ProcessAll(c, envs), Payload(b.chunks)) <==> Arrives(pieces, r, b))
  {
    hide ChunkedStream, CallsFor, Payload, Encode, PrintRequest, Receive, ProcessAll, ValidConn, Find;
    hide WellFormed, AnnouncesChunks, ValidBody, Serves, MarkerInLastOnly, BodyPieces, HeadArrival, RecvPieces;
    hide Uploaded;
    PrintedIsUpload(pieces, r, b, limit);
    assert Transmitted(r, b)[|PrintRequest(r)|..] == Encode(b.chunks, b.last);
    UploadIff(pieces, |PrintRequest(r)|, b, limit, envs);
  }

  // ---------------------------------------------------------------- an example

  const EXAMPLE_REQUEST := RequestText(POST, "/a", None, "HTTP/1.0", [Field("transfer-encoding", "chunked")])

  const EXAMPLE_BODY := Body([Chunk("1", "", "x")], Chunk("0", "", ""))

  lemma ExampleRequest()
    ensures WellFormed(EXAMPLE_REQUEST) && AnnouncesChunks(EXAMPLE_REQUEST)
    ensures |PrintRequest(EXAMPLE_REQUEST)| <= 100
  {
    ExampleWellFormed();
    ExampleAnnounces();
    hide WellFormed, AnnouncesChunks;
    var r := EXAMPLE_REQUEST;
    var lines := [RequestLine(r)] + FieldLines(r.fields);
    assert |lines[0]| == 16 && |lines[1]| == 26;
    assert |Lines(lines[1..])| == 28 + |Lines(lines[1..][1..])|;
  }

  lemma ExampleWellFormed()
    ensures WellFormed(EXAMPLE_REQUEST)
  {
    ExampleField();
    hide WellFormedField, OneLine;
    NoReturnOneLine("/a");
  }

  /** Lower-case letters and hyphens. */
  predicate Plain(s: string) {
    s != "" && forall i :: 0 <= i < |s| ==> s[i] == '-' || 'a' <= s[i] <= 'z'
  }

  lemma PlainWords()
    ensures Plain("transfer-encoding") && Plain("chunked")
  {
    assert Plain("transfer") && Plain("-encoding");
    assert "transfer" + "-encoding" == "transfer-encoding";
  }

  lemma PlainMeans(s: string)
    requires Plain(s)
    ensures OneLine(s) && IsTrimmed(s) && Lacks(s, ':') && ToLower(s) == s
  {
    NoReturnOneLine(s);
  }

  lemma ExampleField()
    ensures WellFormedField(Field("transfer-encoding", "chunked"))
  {
    hide Plain, OneLine, IsTrimmed, Lacks, ToLower;
    PlainWords();
    PlainMeans("transfer-encoding");
    PlainMeans("chunked");
  }

  lemma ExampleAnnounces()
    ensures AnnouncesChunks(EXAMPLE_REQUEST)
  {
    var r := EXAMPLE_REQUEST;
    hide ToLower, Plain;
    PlainWords();
    PlainMeans("transfer-encoding");
    PlainMeans("chunked");
    assert FieldMap(r.fields[1..], map["transfer-encoding" := "chunked"]) == map["transfer-encoding" := "chunked"];
    assert OccursAt("chunked", "chunked", 0);
  }

  lemma ExampleBody()
    ensures ValidBody(EXAMPLE_BODY) && Payload(EXAMPLE_BODY.chunks) == "x"
    ensures Encode(EXAMPLE_BODY.chunks, EXAMPLE_BODY.last) == "1\r\nx\r\n0\r\n\r\n"
    ensures Find(Encode(EXAMPLE_BODY.chunks, EXAMPLE_BODY.last), LAST_CHUNK, 0) == Some(6)
  {
    var b := EXAMPLE_BODY;
    assert NumberOf("1", 16) == 1 && NumberOf("0", 16) == 0;
    var s := "1\r\nx\r\n0\r\n\r\n";
    assert EncodeChunk(b.last) == "0\r\n\r\n";
    assert EncodeChunk(b.chunks[0]) == "1\r\nx\r\n";
    forall j: nat | j < 6 ensures !OccursAt(s, LAST_CHUNK, j) {
      assert s[j] != LAST_CHUNK[0];
    }
    assert OccursAt(s, LAST_CHUNK, 6);
  }

  /** The premises can be met: one byte uploaded in a single piece. */
  lemma ExampleArrives()
    ensures exists pieces :: Arrives(pieces, EXAMPLE_REQUEST, EXAMPLE_BODY)
  {
    hide Find, PrintRequest, Encode;
    ExampleRequest();
    ExampleBody();
    var whole := Transmitted(EXAMPLE_REQUEST, EXAMPLE_BODY);
    var head := PrintRequest(EXAMPLE_REQUEST);
    var encoded := Encode(EXAMPLE_BODY.chunks, EXAMPLE_BODY.last);
    assert Concat([whole]) == whole;
    assert whole[|head|..] == encoded;
    assert BodyPieces([whole], |head|) == [encoded];
    UncutArrives([whole], EXAMPLE_REQUEST, EXAMPLE_BODY);
  }
}
