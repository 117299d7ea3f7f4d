/** Connection: the state machine of one client. `ok` is false when a temporary file failed and the
    exception goes on: in process() to its own handler, in handleRead and handleWrite to the event
    loop. */
module Connections {
  import opened ByteStrings
  import opened ByteStore
  import opened DataStores
  import opened RequestHead
  import opened RequestBody
  import opened Requests
  import opened ConnectionIntake
  import opened ResponseModel
  import opened Responses
  import opened ConnectionRun

  class Connection {
    var state: ConnState
    var readBuffer: string
    const request: Request
    const response: Response
    const hasConf: bool
    var lastActivity: int
    /** The status of the error page asked for last. */
    ghost var error: nat

    /** The objects a call may change besides the connection itself. */
    ghost function Parts(): set<object>
      reads this, request, request.body, request.decodedBody, response, response.responseDataStore
    {
      request.Repr() + response.Repr()
    }

    /** Ownership only; holds even after a call that threw. */
    ghost predicate Owned()
      reads this, request, request.body, request.decodedBody, request.body.Repr, request.decodedBody.Repr,
            response, response.responseDataStore, response.responseDataStore.Repr
    {
      && request.Owned() && response.Owned()
      && this !in Parts() && request.Repr() !! response.Repr()
    }

    ghost predicate Valid()
      reads this, request, request.body, request.decodedBody, request.body.Repr, request.decodedBody.Repr,
            response, response.responseDataStore, response.responseDataStore.Repr
      ensures Valid() ==> Owned()
    {
      Owned() && request.Valid() && response.Valid()
    }

    ghost function Model(): (c: Conn)
      requires Valid()
      reads this, request, request.body, request.decodedBody, request.body.Repr, request.decodedBody.Repr,
            response, response.fileFd, response.responseDataStore, response.responseDataStore.Repr, response.upload
      ensures ValidConn(c)
    {
      Conn(Intake(state, readBuffer, request.Model(), error), response.Model(), response.upload.bytes, hasConf)
    }

    constructor (hasConf: bool, maxBodySize: nat, now: int)
      ensures Valid() && fresh(Parts())
      ensures Model() == Conn(FreshIntake(maxBodySize), FRESH_RESP, "", hasConf)
      ensures lastActivity == now
    {
      hide DataStore.Valid, DataStore.Owned, DataStore.Model, ByteStore.Valid, Request.Valid, Request.Model;
      state, readBuffer, lastActivity, error := READING, "", now, 0;
      this.hasConf := hasConf;
      request := new Request(maxBodySize);
      response := new Response();
    }

    method TriggerError(status: nat, pages: Pages) returns (ok: bool)
      requires Owned()
      modifies this`state, this`error, response, response.responseDataStore.Repr
      ensures Owned() && fresh(Parts() - old(Parts()))
      ensures state == WRITING && response.statusCode == status && error == status
      ensures ok && request.Valid() && old(response.Valid()) ==>
                Valid() && Model() == Fail(old(Model()), status, pages)
    {
      hide DataStore.Valid, DataStore.Owned, DataStore.Model, ByteStore.Valid;
      hide Page;
      ok := true;
      if hasConf {
        ok := response.BuildErrorPage(status, pages.errorHeader, pages.errorPage);
      } else {
        response.statusCode := status;
      }
      error := status;
      state := WRITING;
    }

    method HandleRead(received: Option<string>, now: int, pages: Pages) returns (ok: bool)
      requires Valid()
      modifies this, Parts()
      ensures Owned() && fresh(Parts() - old(Parts()))
      ensures ok ==> Valid() && Model() == ReceiveOne(old(Model()), received, pages)
      ensures lastActivity == if old(state) == READING && received.Some? then now else old(lastActivity)
      ensures old(state) != READING ==> ok
      ensures !ok ==> state == READING || (state == WRITING && response.statusCode == error)
    {
      hide DataStore.Valid, DataStore.Owned, DataStore.Model, ByteStore.Valid;
      hide ConnectionIntake.ReadHeaders, ReadMore, Fail;
      ok := true;
      if state != READING {
        return;
      }
      match received {
        case None =>
          state := FINISHED;
        case Some(piece) =>
          lastActivity := now;
          ReadMoreState(Model().intake, piece);
          match request.head.state {
            case REQ_HEADERS => ok := ReadHeaders(piece, pages);
            case REQ_BODY => ok := ReadBody(piece);
            case REQ_CHUNKED => ok := ReadChunked(piece);
            case _ =>
          }
      }
    }

    method ReadHeaders(piece: string, pages: Pages) returns (ok: bool)
      requires Valid() && state == READING && request.head.state == REQ_HEADERS
      modifies this`state, this`error, this`readBuffer, Parts()
      ensures Owned() && fresh(Parts() - old(Parts()))
      ensures ok ==> Valid() && Model() == ReceiveOne(old(Model()), Some(piece), pages)
      ensures !ok ==> state == READING || (state == WRITING && response.statusCode == error)
    {
      hide DataStore.Valid, DataStore.Owned, DataStore.Model, ByteStore.Valid;
      hide ConnectionIntake.ParseBuffer, Answering;
      ghost var c := Model();
      readBuffer := readBuffer + piece;
      AnsweringFrom(c, Model(), pages);
      ok := ParseBuffer(pages);
    }

    method ParseBuffer(pages: Pages) returns (ok: bool)
      requires Valid() && state == READING && request.head.state == REQ_HEADERS
      modifies this`state, this`error, this`readBuffer, Parts()
      ensures Owned() && fresh(Parts() - old(Parts()))
      ensures ok ==> Valid() &&
                     Model() == Answering(old(Model()), ConnectionIntake.ParseBuffer(old(Model()).intake), pages)
      ensures !ok ==> state == READING || (state == WRITING && response.statusCode == error)
    {
      hide DataStore.Valid, DataStore.Owned, DataStore.Model, ByteStore.Valid;
      hide ParseHeaders, AfterParse, Fail, Answering;
      ghost var c := Model();
      if |readBuffer| > MAX_HEADER_SIZE {
        ok := TriggerError(431, pages);
        AnsweringTooLarge(c, c, pages);
        return;
      }
      var bodyStart := request.ParseHeaders(readBuffer);
      AnsweringFrom(c, Model(), pages);
      ok := UseHead(bodyStart, pages);
    }

    method UseHead(bodyStart: nat, pages: Pages) returns (ok: bool)
      requires Valid() && state == READING && bodyStart <= |readBuffer|
      modifies this`state, this`error, this`readBuffer, Parts()
      ensures Owned() && fresh(Parts() - old(Parts()))
      ensures ok ==> Valid() && Model() == Answering(old(Model()), AfterParse(old(Model()).intake, bodyStart), pages)
      ensures !ok ==> state == READING || (state == WRITING && response.statusCode == error)
    {
      hide DataStore.Valid, DataStore.Owned, DataStore.Model, ByteStore.Valid;
      hide Page, AfterHeaders, Fail;
      ghost var c := Model();
      match request.head.state {
        case REQ_ERROR =>
          ok := TriggerError(request.head.status, pages);
          FailTwice(c, c.intake.request.head.status, pages);
        case REQ_HEADERS =>
          ok := true;
        case REQ_DONE =>
          readBuffer := "";
          state := PROCESSING;
          ok := true;
        case _ =>
          LeftoverState(c.intake.(readBuffer := ""), readBuffer, bodyStart);
          ok := StoreLeftover(bodyStart);
      }
    }

    method StoreLeftover(bodyStart: nat) returns (ok: bool)
      requires Valid() && (request.head.state == REQ_BODY || request.head.state == REQ_CHUNKED)
      requires bodyStart <= |readBuffer|
      modifies this`state, this`readBuffer, request.body.Repr
      ensures Owned() && fresh(Parts() - old(Parts()))
      ensures ok ==> Valid() && var c := old(Model());
                     Model() == c.(intake := AfterHeaders(c.intake.(readBuffer := ""), c.intake.readBuffer, bodyStart))
      ensures !ok ==> state == old(state)
    {
      hide DataStore.Valid, DataStore.Owned, DataStore.Model, ByteStore.Valid;
      hide ReadMore;
      var leftover := readBuffer[bodyStart..];
      readBuffer := "";
      ok := true;
      if leftover != "" {
        ok := StoreBody(leftover);
      }
    }

    /** Body bytes are stored and the state advances when the body is complete. */
    method StoreBody(piece: string) returns (ok: bool)
      requires Valid() && (request.head.state == REQ_BODY || request.head.state == REQ_CHUNKED)
      modifies this`state, request.body.Repr
      ensures Owned() && fresh(Parts() - old(Parts()))
      ensures ok ==> Valid() && Model() == old(Model()).(intake := ReadMore(old(Model()).intake, piece))
      ensures !ok ==> state == old(state)
    {
      hide DataStore.Valid, DataStore.Owned, DataStore.Model, ByteStore.Valid;
      if request.head.state == REQ_CHUNKED {
        ok := ReadChunked(piece);
      } else {
        ok := ReadBody(piece);
      }
    }

    method ReadBody(piece: string) returns (ok: bool)
      requires Valid() && request.head.state == REQ_BODY
      modifies this`state, request.body.Repr
      ensures Owned() && fresh(Parts() - old(Parts()))
      ensures ok ==> Valid() && Model() == old(Model()).(intake := ReadMore(old(Model()).intake, piece))
      ensures !ok ==> state == old(state)
    {
      hide DataStore.Valid, DataStore.Owned, DataStore.Model, ByteStore.Valid;
      hide WithBody;
      ok := AppendBody(piece);
      if ok && request.body.currentSize >= request.head.contentLength {
        state := PROCESSING;
      }
    }

    method ReadChunked(piece: string) returns (ok: bool)
      requires Valid() && request.head.state == REQ_CHUNKED
      modifies this`state, request.body.Repr
      ensures Owned() && fresh(Parts() - old(Parts()))
      ensures ok ==> Valid() && Model() == old(Model()).(intake := ReadMore(old(Model()).intake, piece))
      ensures !ok ==> state == old(state)
    {
      hide DataStore.Valid, DataStore.Owned, DataStore.Model, ByteStore.Valid;
      hide WithBody, Find;
      ok := AppendBody(piece);
      if ok && request.IsChunkedDone(piece) {
        state := PROCESSING;
      }
    }

    method AppendBody(piece: string) returns (ok: bool)
      requires Valid()
      modifies request.body.Repr
      ensures Owned() && fresh(Parts() - old(Parts()))
      ensures ok ==> Valid() && Model() == old(Model()).(intake := WithBody(old(Model()).intake, piece))
    {
      hide DataStore.Valid, DataStore.Owned, DataStore.Model, ByteStore.Valid;
      hide Appended;
      ok := request.body.Append(piece);
    }

    /** `ok` is false when a temporary file failed; that, too, is answered with 500. */
    method Process(route: Route, now: int, pages: Pages) returns (ok: bool, ghost env: ProcessEnv)
      requires Valid()
      modifies this, Parts()
      ensures Owned() && fresh(Parts() - old(Parts()))
      ensures ok ==> Valid() && Model() == ConnectionRun.Process(old(Model()), env)
      ensures !ok ==> old(state) == PROCESSING && state == WRITING && response.statusCode == 500 && error == 500
      ensures env.pages == pages && env.route.Upload? == route.Upload?
      ensures lastActivity == if old(state) == PROCESSING then now else old(lastActivity)
    {
      hide DataStore.Valid, DataStore.Owned, DataStore.Model, ByteStore.Valid;
      hide ConnectionRun.Process;
      ok, env := true, ProcessEnv(route, Call(0, false, false), pages);
      if state != PROCESSING {
        NotProcessing(Model(), env);
        return;
      }
      lastActivity := now;
      ok, env := DecodeAndBuild(route, pages);
      if !ok {
        var built := TriggerError(500, pages);
      }
    }

    /** The try block of process(). */
    method DecodeAndBuild(route: Route, pages: Pages) returns (ok: bool, ghost env: ProcessEnv)
      requires Valid() && state == PROCESSING
      modifies this`state, this`error, Parts()
      ensures Owned() && fresh(Parts() - old(Parts()))
      ensures ok ==> Valid() && Model() == ConnectionRun.Process(old(Model()), env)
      ensures env.pages == pages && env.route.Upload? == route.Upload?
    {
      hide DataStore.Valid, DataStore.Owned, DataStore.Model, ByteStore.Valid;
      hide ConnectionRun.Process, ConnectionRun.Build, Fail, ProcessSlice;
      hide Request.Valid, Response.Valid, Response.Model;
      env := ProcessEnv(route, Call(0, false, false), pages);
      ghost var c := Model();
      ghost var c1 := c;
      var result := Ready;
      ok := true;
      if request.head.state == REQ_CHUNKED {
        ok, result := DecodeBody();
        if !ok {
          return;
        }
        c1 := Model();
      }
      match result {
        case Pending =>
        case Thrown => ok := TriggerError(500, pages);
        case Ready => ok, env := Build(route, pages);
      }
      Decoded(c, c1, result, env);
    }

    method DecodeBody() returns (ok: bool, result: SliceResult)
      requires Valid()
      modifies request, request.body.Repr, request.decodedBody.Repr
      ensures Owned() && fresh(Parts() - old(Parts()))
      ensures ok ==> Valid() && ProcessSlice(old(Model()).intake.request) == (Model().intake.request, result)
      ensures ok ==> Model() == WithRequest(old(Model()), Model().intake.request)
    {
      hide DataStore.Valid, DataStore.Owned, DataStore.Model, ByteStore.Valid;
      hide ProcessSlice;
      ok, result := request.ProcessBodySlice();
    }

    method Build(route: Route, pages: Pages) returns (ok: bool, ghost env: ProcessEnv)
      requires Valid()
      modifies this`state, this`error, Parts()
      ensures Owned() && fresh(Parts() - old(Parts()))
      ensures ok ==> Valid() && Model() == ConnectionRun.Build(old(Model()), env)
      ensures env.pages == pages && env.route.Upload? == route.Upload?
    {
      hide DataStore.Valid, DataStore.Owned, DataStore.Model, ByteStore.Valid;
      hide Page, AfterPost, StartPost, ContinuePost;
      env := ProcessEnv(route, Call(0, false, false), pages);
      if request.head.status != 200 {
        ok := TriggerError(request.head.status, pages);
        return;
      }
      if !hasConf {
        ok := TriggerError(500, pages);
        return;
      }
      if response.buildPhase == BUILD_POST_WRITING || route.Upload? {
        ok, env := Post(route, pages);
        return;
      }
      ok := true;
      match route {
        case Immediate(status, header, page) =>
          ok := response.BuildErrorPage(status, header, page);
          state := WRITING;
        case CgiStarted =>
          response.buildPhase := BUILD_CGI_RUNNING;
          state := WAITING_FOR_CGI;
      }
    }

    method Post(route: Route, pages: Pages) returns (ok: bool, ghost env: ProcessEnv)
      requires Valid() && hasConf && (response.buildPhase == BUILD_POST_WRITING || route.Upload?)
      modifies this`state, this`error, Parts()
      ensures Owned() && fresh(Parts() - old(Parts()))
      ensures env.pages == pages && env.route.Upload? == route.Upload?
      ensures ok ==> Valid() && Model() == AfterPost(old(Model()), Posting(old(Model()), env), env)
    {
      hide DataStore.Valid, DataStore.Owned, DataStore.Model, ByteStore.Valid;
      hide Fail, Posting, Holding;
      var end;
      ok, end, env := RunPost(route, pages);
      if !ok {
        return;
      }
      match end {
        case More =>
        case Done => state := WRITING;
        case Threw => ok := TriggerError(502, pages);
      }
    }

    method RunPost(route: Route, pages: Pages) returns (ok: bool, end: End, ghost env: ProcessEnv)
      requires Valid() && hasConf && (response.buildPhase == BUILD_POST_WRITING || route.Upload?)
      modifies Parts()
      ensures Owned() && fresh(Parts() - old(Parts()))
      ensures env.pages == pages && env.route.Upload? == route.Upload?
      ensures ok ==> Valid() && var p := Posting(old(Model()), env);
                     p.end == end && Model() == Holding(old(Model()), p)
    {
      hide DataStore.Valid, DataStore.Owned, DataStore.Model, ByteStore.Valid;
      hide StartPost, ContinuePost;
      ghost var write, fileOpens;
      if response.buildPhase == BUILD_POST_WRITING {
        ok, end, write := response.ContinuePostWrite(request.body, pages);
        env := ProcessEnv(route, write, pages);
      } else {
        ok, end, fileOpens, write := response.HandlePost(request.body, pages);
        env := ProcessEnv(Upload(fileOpens), write, pages);
      }
    }

    method HandleWrite(socket: Socket, now: int) returns (ok: bool, threw: bool, ghost env: SendEnv)
      requires Valid() && ValidResp(response.Model())
      requires socket !in Parts()
      modifies this, response, response.fileFd, response.responseDataStore.Repr, socket
      ensures old(state) != WRITING ==> ok && !threw && unchanged(this) && socket.wire == old(socket.wire)
      ensures old(state) == WRITING && ok ==>
                var s := ResponseModel.SendSlice(old(response.Model()), old(socket.wire), env);
                response.Valid() && socket.wire == s.wire && response.Model() == s.resp &&
                threw == s.end.Threw? && state == (if s.end.Done? then FINISHED else WRITING) && lastActivity == now
      ensures !ok ==> threw && state == WRITING && lastActivity == now
    {
      hide ResponseModel.SendSlice, ValidResp, ByteStore.Valid;
      ok, threw, env := true, false, SendEnv(Call(0, false, false), 0, Call(0, false, false));
      if state != WRITING {
        return;
      }
      lastActivity := now;
      var end;
      ok, end, env := response.SendSlice(socket);
      threw := end == Threw;
      if ok && end == Done {
        state := FINISHED;
      }
    }
  }

  lemma ReadMoreState(c: Intake, piece: string)
    ensures ReadMore(c, piece).state == c.state || ReadMore(c, piece).state.PROCESSING?
  {}

  lemma LeftoverState(c: Intake, buffer: string, bodyStart: nat)
    ensures AfterHeaders(c, buffer, bodyStart).state == c.state || AfterHeaders(c, buffer, bodyStart).state.PROCESSING?
  {}

  lemma NotProcessing(c: Conn, env: ProcessEnv)
    requires ValidConn(c) && !c.intake.state.PROCESSING?
    ensures ConnectionRun.Process(c, env) == c
  {}

  /** process() once the slice of a chunked body, if there is one, is decoded. */
  lemma Decoded(c: Conn, c1: Conn, result: SliceResult, env: ProcessEnv)
    requires ValidConn(c) && ValidConn(c1) && c.intake.state.PROCESSING?
    requires c1 == WithRequest(c, c1.intake.request)
    requires if c.intake.request.head.state.REQ_CHUNKED?
             then ProcessSlice(c.intake.request) == (c1.intake.request, result)
             else c1 == c && result.Ready?
    ensures ConnectionRun.Process(c, env) ==
              match result
              case Pending => c1
              case Thrown => Fail(c1, 500, env.pages)
              case Ready => ConnectionRun.Build(c1, env)
  {
    hide ConnectionRun.Build, ProcessSlice, Fail;
  }

  /** An answer depends on the intake only through the new one. */
  lemma AnsweringFrom(c: Conn, d: Conn, pages: Pages)
    requires d == c.(intake := d.intake) && d.intake.state == c.intake.state
    ensures forall next :: Answering(c, next, pages) == Answering(d, next, pages)
  {
    hide Page;
  }

  lemma AnsweringTooLarge(c: Conn, d: Conn, pages: Pages)
    requires d == c.(intake := d.intake) && c.intake.state.READING? && d.intake.state.READING?
    ensures Answering(c, Failed(d.intake, 431), pages) == Fail(d, 431, pages)
  {
    hide Page;
  }

  lemma FailTwice(c: Conn, status: nat, pages: Pages)
    ensures Fail(c.(intake := Failed(c.intake, status)), status, pages) == Fail(c, status, pages)
  {}
}
