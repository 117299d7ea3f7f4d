/** The response as a value: sending it in slices, and writing an uploaded body to its file. What
    the system calls return is an argument, so every behaviour of the kernel is covered. */
module ResponseModel {
  import opened ByteStrings
  import opened ByteStore

  /** RESPONSE_SEND_CHUNK */
  const CHUNK: nat := 16384

  datatype BuildPhase = BUILD_IDLE | BUILD_POST_WRITING | BUILD_CGI_RUNNING | BUILD_DONE

  datatype SendPhase = SENDING_RES_HEAD | SENDING_BODY_STATIC

  /** The open file behind the response: its bytes, the read offset, the size stat() reported. */
  datatype ServedFile = NoFile | ServedFile(bytes: string, pos: nat, size: nat)

  /** `streamBuf` is the filled part of the stream buffer, `streamSent` how much of it is out. */
  datatype Resp = Resp(status: nat, header: string, body: Store, file: ServedFile, sent: nat,
                       streamBuf: string, streamSent: nat, sending: SendPhase,
                       phase: BuildPhase, postPos: nat)

  const FRESH_RESP := Resp(200, "", Empty(BUFFER_LIMIT), NoFile, 0, "", 0, SENDING_RES_HEAD, BUILD_IDLE, 0)

  /** A send or write call: what it returned, and whether SIGPIPE is noticed before or after it. */
  datatype Call = Call(result: int, pipeBefore: bool, pipeAfter: bool)

  /** How many of `offered` bytes the call took: the kernel never takes more than it was given. */
  function Taken(c: Call, offered: nat): nat {
    if c.result <= 0 then 0 else Min(c.result, offered)
  }

  datatype End = More | Done | Threw

  // ---------------------------------------------------------------- sending

  /** The calls made by one sendSlice: a send of header bytes, a read of the served file, and a
      send of body bytes; not all of them are reached in every slice. */
  datatype SendEnv = SendEnv(head: Call, fileRead: int, body: Call)

  /** The response after a slice, what has gone out on the wire, and how the slice ended. */
  datatype Sent = Sent(resp: Resp, wire: string, end: End)

  predicate ValidResp(r: Resp) {
    && Valid(r.body) && r.streamSent <= |r.streamBuf|
    && (r.file.ServedFile? ==> r.file.pos <= |r.file.bytes|)
    && (r.sending.SENDING_RES_HEAD? ==> r.sent <= |r.header|)
    && (r.sending.SENDING_BODY_STATIC? ==> |r.header| <= r.sent)
    && (r.sending.SENDING_BODY_STATIC? && r.file.NoFile? && r.body.mode.Ram? ==> r.sent <= |r.header| + |r.body.data|)
  }

  function SendSlice(r: Resp, wire: string, env: SendEnv): Sent
    requires ValidResp(r)
  {
    if r.sending.SENDING_RES_HEAD? then SendHeader(r, wire, env) else SendBody(r, wire, env)
  }

  function SendHeader(r: Resp, wire: string, env: SendEnv): Sent
    requires ValidResp(r) && r.sending.SENDING_RES_HEAD?
  {
    var s := SendHeaderBytes(r, wire, env.head);
    if !s.end.Done? || s.resp.sent == r.sent || (r.body.data == "" && r.file.NoFile?) then s
    else SendBody(s.resp.(sending := SENDING_BODY_STATIC), s.wire, env)
  }

  /** `Done` after something was taken means that the header is out. */
  function SendHeaderBytes(r: Resp, wire: string, call: Call): Sent
    requires r.sent <= |r.header|
  {
    if call.pipeBefore then Sent(r, wire, Threw)
    else
      var n := Taken(call, Min(|r.header| - r.sent, CHUNK));
      var wire1 := wire + r.header[r.sent..r.sent + n];
      if call.pipeAfter then Sent(r, wire1, Threw)
      else if n == 0 then Sent(r, wire, Done)
      else Sent(r.(sent := r.sent + n), wire1, if r.sent + n < |r.header| then More else Done)
  }

  function SendBody(r: Resp, wire: string, env: SendEnv): Sent
    requires ValidResp(r) && r.sending.SENDING_BODY_STATIC?
  {
    if r.file.ServedFile? then SendFile(r, wire, env)
    else SendStore(r.(body := Rewound(r.body)), wire, env)
  }

  function SendFile(r: Resp, wire: string, env: SendEnv): Sent
    requires ValidResp(r) && r.sending.SENDING_BODY_STATIC? && r.file.ServedFile?
  {
    if env.body.pipeBefore then Sent(r, wire, Threw)
    else
      var fill := FillCount(r, env);
      if r.streamBuf == "" && fill == 0 then Sent(r.(file := NoFile), wire, Done)
      else SendBuffered(Filled(r, fill), wire, env)
  }

  /** How much of the served file is read into an empty stream buffer. */
  function FillCount(r: Resp, env: SendEnv): (n: nat)
    requires ValidResp(r) && r.file.ServedFile?
    ensures r.file.pos + n <= |r.file.bytes|
  {
    if r.streamBuf != "" || env.fileRead <= 0 then 0
    else Min(env.fileRead, Min(CHUNK, |r.file.bytes| - r.file.pos))
  }

  function Filled(r: Resp, fill: nat): Resp
    requires r.file.ServedFile? && r.file.pos + fill <= |r.file.bytes|
  {
    if r.streamBuf != "" then r
    else r.(streamBuf := r.file.bytes[r.file.pos..r.file.pos + fill], streamSent := 0,
            file := r.file.(pos := r.file.pos + fill))
  }

  function SendBuffered(r: Resp, wire: string, env: SendEnv): Sent
    requires r.file.ServedFile? && r.streamSent <= |r.streamBuf| && |r.header| <= r.sent
  {
    var n := Taken(env.body, |r.streamBuf| - r.streamSent);
    var wire1 := wire + r.streamBuf[r.streamSent..r.streamSent + n];
    if env.body.pipeAfter then Sent(r, wire1, Threw)
    else if n == 0 then Sent(r.(file := NoFile), wire, Done)
    else
      var next := Consumed(r, n);
      if next.sent - |next.header| >= next.file.size then Sent(next.(file := NoFile), wire1, Done)
      else Sent(next, wire1, More)
  }

  /** `n` bytes of the stream buffer are out; an empty buffer is refilled by the next slice. */
  function Consumed(r: Resp, n: nat): Resp
    requires r.streamSent + n <= |r.streamBuf|
  {
    if r.streamSent + n == |r.streamBuf| then r.(sent := r.sent + n, streamBuf := "", streamSent := 0)
    else r.(sent := r.sent + n, streamSent := r.streamSent + n)
  }

  function SendStore(r: Resp, wire: string, env: SendEnv): Sent
    requires ValidResp(r) && r.sending.SENDING_BODY_STATIC? && r.file.NoFile?
  {
    if env.body.pipeBefore then Sent(r, wire, Threw)
    else if r.body.mode.Ram? then
      var offset := r.sent - |r.header|;
      if |r.body.data| == offset then Sent(r, wire, Done)
      else
        var n := Taken(env.body, Min(|r.body.data| - offset, CHUNK));
        var wire1 := wire + r.body.data[offset..offset + n];
        if env.body.pipeAfter then Sent(r, wire1, Threw)
        else if n == 0 then Sent(r, wire, Done)
        else
          var r1 := r.(sent := r.sent + n);
          Sent(r1, wire1, if r1.sent == |r.header| + |r.body.data| then Done else More)
    else
      if r.streamBuf == "" && ReadBytes(r.body, CHUNK) == "" then Sent(r, wire, Done)
      else SendSpooled(Refilled(r), wire, env)
  }

  /** The stream buffer of a spooled store, refilled through the store's cursor if it is empty. */
  function Refilled(r: Resp): Resp
    requires Valid(r.body)
  {
    if r.streamBuf != "" then r
    else r.(streamBuf := ReadBytes(r.body, CHUNK), streamSent := 0, body := AfterRead(r.body, CHUNK))
  }

  function SendSpooled(r: Resp, wire: string, env: SendEnv): Sent
    requires r.streamSent <= |r.streamBuf|
  {
    var n := Taken(env.body, |r.streamBuf| - r.streamSent);
    var wire1 := wire + r.streamBuf[r.streamSent..r.streamSent + n];
    if env.body.pipeAfter then Sent(r, wire1, Threw)
    else if n == 0 then Sent(r, wire, Done)
    else
      var next := Consumed(r, n);
      Sent(next, wire1, if next.sent == |next.header| + |next.body.data| then Done else More)
  }

  // ---------------------------------------------------------------- building

  /** A response built in memory: an error page or a finished success page. */
  function Page(r: Resp, status: nat, header: string, page: string): Resp {
    r.(status := status, header := header, body := Appended(Empty(r.body.limit), page), file := NoFile, sent := 0,
       streamBuf := "", streamSent := 0, sending := SENDING_RES_HEAD, phase := BUILD_DONE)
  }

  /** One call of _continuePostWrite: the response, the request body it reads from, the bytes in the
      upload file, and how it ended: `More` while the upload is unfinished. */
  datatype Posted = Posted(resp: Resp, body: Store, out: string, end: End)

  /** The page texts carry a date and a configured error page; they are arguments. */
  datatype Pages = Pages(errorHeader: string, errorPage: string, doneHeader: string, donePage: string)

  function ContinuePost(r: Resp, body: Store, out: string, write: Call, pages: Pages): Posted
    requires Valid(body)
  {
    if write.pipeBefore then Posted(r, body, out, Threw)
    else if body.mode.Ram? then
      if body.data != "" && r.postPos < |body.data| then
        var n := Taken(write, Min(|body.data| - r.postPos, CHUNK));
        var out1 := out + body.data[r.postPos..r.postPos + n];
        if write.pipeAfter then Posted(r, body, out1, Threw)
        else if n == 0 then Posted(Page(r, 500, pages.errorHeader, pages.errorPage), body, out, Done)
        else FinishPost(r.(postPos := r.postPos + n), body, out1, r.postPos + n >= |body.data|, pages)
      else FinishPost(r, body, out, true, pages)
    else
      var piece := ReadBytes(body, CHUNK);
      var body1 := AfterRead(body, CHUNK);
      if piece != "" then
        var n := Taken(write, |piece|);
        var out1 := out + piece[..n];
        if write.pipeAfter then Posted(r, body1, out1, Threw)
        else if n != |piece| then Posted(Page(r, 500, pages.errorHeader, pages.errorPage), body1, out1, Done)
        else FinishPost(r, body1, out1, body1.cursor >= |body1.data|, pages)
      else FinishPost(r, body1, out, body1.cursor >= |body1.data|, pages)
  }

  function FinishPost(r: Resp, body: Store, out: string, wroteAll: bool, pages: Pages): Posted {
    if !wroteAll then Posted(r, body, out, More)
    else Posted(r.(status := 201, header := pages.doneHeader, body := Appended(r.body, pages.donePage),
                   sending := SENDING_RES_HEAD, phase := BUILD_DONE), body, out, Done)
  }

  /** _handlePost: the upload file is created empty and a spooled body is rewound. */
  function StartPost(r: Resp, body: Store, out: string, fileOpens: bool, write: Call, pages: Pages): Posted
    requires Valid(body)
  {
    if !fileOpens then Posted(Page(r, 500, pages.errorHeader, pages.errorPage), body, out, Done)
    else ContinuePost(r.(postPos := 0, phase := BUILD_POST_WRITING),
                      if body.mode.Ram? then body else Rewound(body), "", write, pages)
  }
}
