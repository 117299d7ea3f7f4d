/** Response: sending in slices and writing uploads. The ghost result of a method records what the
    kernel did during the call; `ok` is false when the store's file failed and the call threw. */
module Responses {
  import opened ByteStrings
  import opened ByteStore
  import opened DataStores
  import opened ResponseModel

  /** The client's socket: `wire` is everything it has accepted. */
  class Socket {
    var wire: string

    constructor ()
      ensures wire == ""
    {
      wire := "";
    }

    /** send(2) with MSG_DONTWAIT: any part of the data may be taken, or the call fails. */
    method Send(data: string) returns (n: int)
      modifies this
      ensures n <= |data| && wire == old(wire) + data[..if n <= 0 then 0 else n]
    {
      n :| -1 <= n <= |data|;
      wire := wire + data[..if n <= 0 then 0 else n];
    }
  }

  /** The file an upload is written to. */
  class UploadFile {
    var bytes: string

    constructor ()
      ensures bytes == ""
    {
      bytes := "";
    }

    method Write(data: string) returns (n: int)
      modifies this
      ensures n <= |data| && bytes == old(bytes) + data[..if n <= 0 then 0 else n]
    {
      n :| -1 <= n <= |data|;
      bytes := bytes + data[..if n <= 0 then 0 else n];
    }
  }

  /** A regular file being served; its content does not change meanwhile. */
  class FileHandle {
    const bytes: string
    var pos: nat

    constructor (bytes: string)
      ensures this.bytes == bytes && pos == 0
    {
      this.bytes := bytes;
      pos := 0;
    }

    /** read(2): a short count is possible, and so is an error. */
    method Read(count: nat) returns (n: int, data: string)
      requires pos <= |bytes|
      modifies this
      ensures var got := if n <= 0 then 0 else Min(n, Min(count, |bytes| - old(pos)));
              pos == old(pos) + got <= |bytes| && data == bytes[old(pos)..pos]
    {
      n := *;
      var got := if n <= 0 then 0 else Min(n, Min(count, |bytes| - pos));
      data := bytes[pos..pos + got];
      pos := pos + got;
    }
  }

  /** Whether SIGPIPE has been noticed since the flag was last cleared. */
  method SigpipeSeen() returns (seen: bool)
  {
    seen := *;
  }

  /** send(2) on a part of a buffer. */
  method SendPiece(socket: Socket, data: string, from: nat, toSend: nat) returns (sent: int)
    requires from + toSend <= |data|
    modifies socket
    ensures sent <= toSend
    ensures socket.wire == old(socket.wire) + data[from..from + Taken(Call(sent, false, false), toSend)]
    ensures sent <= 0 ==> socket.wire == old(socket.wire)
  {
    sent := socket.Send(data[from..from + toSend]);
    TakeOfSlice(data, from, from + toSend, if sent <= 0 then 0 else sent);
  }

  class Response {
    var statusCode: nat
    var headerBuffer: string
    const responseDataStore: DataStore
    var totalBytesSent: nat
    var fileFd: FileHandle?
    var fileSize: nat
    var streamBuf: string
    var streamBufSent: nat
    var responseState: SendPhase
    var buildPhase: BuildPhase
    const upload: UploadFile
    var postWritePos: nat

    ghost function Repr(): set<object>
      reads this, responseDataStore
    {
      {this, upload} + responseDataStore.Repr + if fileFd == null then {} else {fileFd}
    }

    /** Ownership only; holds even after a call that threw. */
    ghost predicate Owned()
      reads this, responseDataStore, responseDataStore.Repr
    {
      && this !in responseDataStore.Repr && upload !in responseDataStore.Repr
      && fileFd !in responseDataStore.Repr
      && responseDataStore.Owned()
    }

    ghost predicate Valid()
      reads this, responseDataStore, responseDataStore.Repr
      ensures Valid() ==> Owned()
    {
      Owned() && responseDataStore.Valid()
    }

    ghost function Model(): Resp
      requires Valid()
      reads this, fileFd, responseDataStore, responseDataStore.Repr
    {
      Resp(statusCode, headerBuffer, responseDataStore.Model(),
           if fileFd == null then NoFile else ServedFile(fileFd.bytes, fileFd.pos, fileSize),
           totalBytesSent, streamBuf, streamBufSent, responseState, buildPhase, postWritePos)
    }

    constructor ()
      ensures Valid() && Model() == FRESH_RESP && upload.bytes == ""
      ensures fresh(responseDataStore.Repr) && fresh(upload) && fileFd == null
    {
      statusCode, headerBuffer, totalBytesSent, fileFd, fileSize := 200, "", 0, null, 0;
      streamBuf, streamBufSent, responseState, buildPhase, postWritePos := "", 0, SENDING_RES_HEAD, BUILD_IDLE, 0;
      responseDataStore := new DataStore();
      upload := new UploadFile();
    }

    // ------------------------------------------------------------ sending

    method SendSlice(socket: Socket) returns (ok: bool, end: End, ghost env: SendEnv)
      requires Valid() && ValidResp(Model()) && socket !in responseDataStore.Repr
      modifies this, fileFd, responseDataStore.Repr, socket
      ensures ok ==> Valid() &&
                     ResponseModel.SendSlice(old(Model()), old(socket.wire), env) == Sent(Model(), socket.wire, end)
      ensures old(responseDataStore.mode) == Ram || old(fileFd) != null ==> ok
      ensures !ok ==> end == Threw && headerBuffer == old(headerBuffer) &&
                      var from := Min(old(totalBytesSent), |headerBuffer|);
                      socket.wire == old(socket.wire) + headerBuffer[from..]
    {
      if responseState == SENDING_RES_HEAD {
        ok, end, env := SendHeader(socket);
      } else {
        ok, end, env := SendBodyStatic(socket);
      }
    }

    method SendHeader(socket: Socket) returns (ok: bool, end: End, ghost env: SendEnv)
      requires Valid() && ValidResp(Model()) && socket !in responseDataStore.Repr
      requires responseState == SENDING_RES_HEAD
      modifies this, fileFd, responseDataStore.Repr, socket
      ensures ok ==> Valid() &&
                     ResponseModel.SendHeader(old(Model()), old(socket.wire), env) == Sent(Model(), socket.wire, end)
      ensures old(responseDataStore.mode) == Ram || old(fileFd) != null ==> ok
      ensures !ok ==> end == Threw && headerBuffer == old(headerBuffer) &&
                      socket.wire == old(socket.wire) + headerBuffer[old(totalBytesSent)..]
    {
      hide DataStore.Valid, DataStore.Owned, DataStore.Model;
      hide ResponseModel.SendBody, ResponseModel.SendHeaderBytes;
      var before := totalBytesSent;
      ghost var call;
      ok := true;
      end, call := SendHeaderBytes(socket);
      env := SendEnv(call, 0, Call(0, false, false));
      if end != Done || totalBytesSent == before {
        return;
      }
      if responseDataStore.currentSize == 0 && fileFd == null {
        return;
      }
      responseState := SENDING_BODY_STATIC;
      ghost var r, wire := Model(), socket.wire;
      ok, end, env := SendBodyStatic(socket);
      HeadUnused(r, wire, env, call);
      env := env.(head := call);
    }

    method SendHeaderBytes(socket: Socket) returns (end: End, ghost call: Call)
      requires Valid() && ValidResp(Model()) && socket !in responseDataStore.Repr
      requires responseState == SENDING_RES_HEAD
      modifies this`totalBytesSent, socket
      ensures Valid() && old(totalBytesSent) <= totalBytesSent <= |headerBuffer|
      ensures end == Done && totalBytesSent > old(totalBytesSent) ==> totalBytesSent == |headerBuffer|
      ensures end == Done ==> socket.wire == old(socket.wire) + headerBuffer[old(totalBytesSent)..totalBytesSent]
      ensures ResponseModel.SendHeaderBytes(old(Model()), old(socket.wire), call) == Sent(Model(), socket.wire, end)
    {
      hide DataStore.Valid, DataStore.Owned, DataStore.Model;
      hide ByteStore.Valid;
      var seen := SigpipeSeen();
      call := Call(0, seen, false);
      end := Threw;
      if seen {
        return;
      }
      var headerSize := |headerBuffer|;
      var toSend := Min(headerSize - totalBytesSent, CHUNK);
      var sent := SendPiece(socket, headerBuffer, totalBytesSent, toSend);
      var after := SigpipeSeen();
      call := Call(sent, false, after);
      if after {
        return;
      }
      end := Done;
      if sent <= 0 {
        return;
      }
      totalBytesSent := totalBytesSent + sent;
      if totalBytesSent < headerSize {
        end := More;
      }
    }

    method SendBodyStatic(socket: Socket) returns (ok: bool, end: End, ghost env: SendEnv)
      requires Valid() && ValidResp(Model()) && socket !in responseDataStore.Repr
      requires responseState == SENDING_BODY_STATIC
      modifies this, fileFd, responseDataStore.Repr, socket
      ensures ok ==> Valid() &&
                     ResponseModel.SendBody(old(Model()), old(socket.wire), env) == Sent(Model(), socket.wire, end)
      ensures old(responseDataStore.mode) == Ram || old(fileFd) != null ==> ok
      ensures !ok ==> end == Threw && socket.wire == old(socket.wire) && headerBuffer == old(headerBuffer)
    {
      hide DataStore.Valid, DataStore.Owned, DataStore.Model;
      hide ResponseModel.SendFile, ResponseModel.SendStore;
      if fileFd != null {
        ok := true;
        end, env := SendBodyFile(socket);
        return;
      }
      ok := responseDataStore.ResetReadPosition();
      end, env := Threw, SendEnv(Call(0, false, false), 0, Call(0, false, false));
      if ok {
        ok, end, env := SendBodyDataStore(socket);
      }
    }

    method SendBodyFile(socket: Socket) returns (end: End, ghost env: SendEnv)
      requires Valid() && ValidResp(Model()) && socket !in responseDataStore.Repr
      requires responseState == SENDING_BODY_STATIC && fileFd != null
      modifies this, fileFd, socket
      ensures Valid() && ResponseModel.SendFile(old(Model()), old(socket.wire), env) == Sent(Model(), socket.wire, end)
    {
      hide DataStore.Valid, DataStore.Owned, DataStore.Model;
      hide SendBuffered, Filled;
      var seen := SigpipeSeen();
      env := SendEnv(Call(0, false, false), 0, Call(0, seen, false));
      if seen {
        end := Threw;
        return;
      }
      var bytesRead := FillStreamBuf();
      env := env.(fileRead := bytesRead);
      if streamBuf == "" {
        fileFd := null;
        end := Done;
        return;
      }
      ghost var r := Model();
      ghost var call;
      end, call := SendStreamBuf(socket);
      ReadUnused(r, old(socket.wire), env, call);
      env := env.(body := call);
    }

    /** An empty stream buffer is filled from the file. */
    method FillStreamBuf() returns (bytesRead: int)
      requires Valid() && ValidResp(Model()) && fileFd != null
      modifies this`streamBuf, this`streamBufSent, fileFd
      ensures Valid() && fileFd.pos <= |fileFd.bytes| && streamBufSent <= |streamBuf|
      ensures var fill := FillCount(old(Model()), SendEnv(Call(0, false, false), bytesRead, Call(0, false, false)));
              if old(streamBuf) == "" && fill == 0 then Model() == old(Model()) && streamBuf == ""
              else Model() == Filled(old(Model()), fill) && streamBuf != ""
    {
      hide DataStore.Valid, DataStore.Owned, DataStore.Model;
      bytesRead := 0;
      if streamBuf == "" {
        var piece;
        bytesRead, piece := fileFd.Read(CHUNK);
        if piece != "" {
          streamBuf := piece;
          streamBufSent := 0;
        }
      }
    }

    method SendStreamBuf(socket: Socket) returns (end: End, ghost call: Call)
      requires Valid() && socket !in responseDataStore.Repr && fileFd != null && fileFd.pos <= |fileFd.bytes|
      requires streamBufSent <= |streamBuf| && |headerBuffer| <= totalBytesSent
      modifies this, socket
      ensures Valid() && !call.pipeBefore
      ensures SendBuffered(old(Model()), old(socket.wire), SendEnv(Call(0, false, false), 0, call)) ==
              Sent(Model(), socket.wire, end)
    {
      hide DataStore.Valid, DataStore.Owned, DataStore.Model;
      var sent := SendPiece(socket, streamBuf, streamBufSent, |streamBuf| - streamBufSent);
      var after := SigpipeSeen();
      call := Call(sent, false, after);
      if after {
        end := Threw;
        return;
      }
      if sent <= 0 {
        fileFd := null;
        end := Done;
        return;
      }
      AdvanceStreamBuf(sent);
      end := More;
      if totalBytesSent - |headerBuffer| >= fileSize {
        fileFd := null;
        end := Done;
      }
    }

    method AdvanceStreamBuf(sent: nat)
      requires Valid() && streamBufSent + sent <= |streamBuf|
      modifies this`totalBytesSent, this`streamBuf, this`streamBufSent
      ensures Valid() && Model() == Consumed(old(Model()), sent)
    {
      streamBufSent := streamBufSent + sent;
      totalBytesSent := totalBytesSent + sent;
      if streamBufSent == |streamBuf| {
        streamBuf := "";
        streamBufSent := 0;
      }
    }

    method SendBodyDataStore(socket: Socket) returns (ok: bool, end: End, ghost env: SendEnv)
      requires Valid() && ValidResp(Model()) && socket !in responseDataStore.Repr
      requires responseState == SENDING_BODY_STATIC && fileFd == null
      modifies this, responseDataStore.Repr, socket
      ensures ok ==> Valid() &&
                     ResponseModel.SendStore(old(Model()), old(socket.wire), env) == Sent(Model(), socket.wire, end)
      ensures old(responseDataStore.mode) == Ram ==> ok
      ensures !ok ==> end == Threw && socket.wire == old(socket.wire) && headerBuffer == old(headerBuffer)
    {
      var seen := SigpipeSeen();
      if seen {
        ok, end, env := true, Threw, SendEnv(Call(0, false, false), 0, Call(0, true, false));
        return;
      }
      if responseDataStore.mode == Ram {
        ok := true;
        end, env := SendBodyRam(socket);
      } else {
        ok, end, env := SendBodySpooled(socket);
      }
    }

    method SendBodyRam(socket: Socket) returns (end: End, ghost env: SendEnv)
      requires Valid() && ValidResp(Model()) && socket !in responseDataStore.Repr
      requires responseState == SENDING_BODY_STATIC && fileFd == null && responseDataStore.mode == Ram
      modifies this`totalBytesSent, socket
      ensures Valid() && ResponseModel.SendStore(old(Model()), old(socket.wire), env) == Sent(Model(), socket.wire, end)
    {
      hide ByteStore.Valid;
      ghost var unused := Call(0, false, false);
      env := SendEnv(unused, 0, unused);
      end := Done;
      var bodySize := responseDataStore.currentSize;
      var bodyOffset := totalBytesSent - |headerBuffer|;
      if bodySize - bodyOffset == 0 {
        return;
      }
      var toSend := Min(bodySize - bodyOffset, CHUNK);
      var sent := SendPiece(socket, responseDataStore.dataBuffer, bodyOffset, toSend);
      var after := SigpipeSeen();
      env := SendEnv(unused, 0, Call(sent, false, after));
      if after {
        end := Threw;
        return;
      }
      if sent <= 0 {
        return;
      }
      totalBytesSent := totalBytesSent + sent;
      if totalBytesSent != |headerBuffer| + bodySize {
        end := More;
      }
    }

    method SendBodySpooled(socket: Socket) returns (ok: bool, end: End, ghost env: SendEnv)
      requires Valid() && ValidResp(Model()) && socket !in responseDataStore.Repr
      requires responseState == SENDING_BODY_STATIC && fileFd == null && responseDataStore.mode == File
      modifies this, responseDataStore.Repr, socket
      ensures ok ==> Valid() &&
                     ResponseModel.SendStore(old(Model()), old(socket.wire), env) == Sent(Model(), socket.wire, end)
      ensures !ok ==> end == Threw && socket.wire == old(socket.wire) && headerBuffer == old(headerBuffer)
    {
      hide DataStore.Valid, DataStore.Owned, DataStore.Model;
      ok, end := true, Threw;
      ghost var unused := Call(0, false, false);
      env := SendEnv(unused, 0, Call(0, false, false));
      if streamBuf == "" {
        var piece;
        ok, piece := responseDataStore.Read(CHUNK);
        if !ok {
          return;
        }
        if piece == "" {
          end := Done;
          return;
        }
        streamBuf := piece;
        streamBufSent := 0;
      }
      ghost var r := Model();
      ghost var call;
      end, call := SendSpooledBuf(socket);
      env := SendEnv(unused, 0, call);
      ReadUnusedSpooled(r, old(socket.wire), env, call);
    }

    method SendSpooledBuf(socket: Socket) returns (end: End, ghost call: Call)
      requires Valid() && socket !in responseDataStore.Repr && streamBufSent <= |streamBuf|
      modifies this, socket
      ensures Valid() && !call.pipeBefore
      ensures SendSpooled(old(Model()), old(socket.wire), SendEnv(Call(0, false, false), 0, call)) ==
              Sent(Model(), socket.wire, end)
    {
      hide DataStore.Valid, DataStore.Owned, DataStore.Model;
      var sent := SendPiece(socket, streamBuf, streamBufSent, |streamBuf| - streamBufSent);
      var after := SigpipeSeen();
      call := Call(sent, false, after);
      if after {
        end := Threw;
        return;
      }
      if sent <= 0 {
        end := Done;
        return;
      }
      AdvanceStreamBuf(sent);
      end := if totalBytesSent == |headerBuffer| + responseDataStore.currentSize then Done else More;
    }

    // ------------------------------------------------------------ building

    method BuildErrorPage(status: nat, header: string, page: string) returns (ok: bool)
      requires Owned()
      modifies this, responseDataStore.Repr
      ensures Owned() && fresh(Repr() - old(Repr())) && fileFd == null && statusCode == status
      ensures ok ==> Valid()
      ensures ok && old(Valid()) ==> Model() == Page(old(Model()), status, header, page)
    {
      hide DataStore.Valid, DataStore.Owned, DataStore.Model, Appended;
      Discard(status);
      ok := responseDataStore.Append(page);
      if ok {
        FinalizeSuccess(header);
      }
    }

    /** Nothing is stored or sent any more and no file is open. */
    method Discard(status: nat)
      requires Owned()
      modifies this, responseDataStore.Repr
      ensures Valid() && fileFd == null && statusCode == status
      ensures fresh(responseDataStore.Repr - old(responseDataStore.Repr))
      ensures old(Valid()) ==>
                var r := old(Model());
                Model() == r.(status := status, header := "", body := Empty(r.body.limit), file := NoFile, sent := 0,
                              streamBuf := "", streamSent := 0, phase := BUILD_DONE)
    {
      responseDataStore.Clear();
      totalBytesSent, headerBuffer, fileFd, fileSize, streamBuf, streamBufSent := 0, "", null, 0, "", 0;
      buildPhase, statusCode := BUILD_DONE, status;
    }

    method FinalizeSuccess(header: string)
      requires Valid()
      modifies this`headerBuffer, this`responseState
      ensures Valid() && Model() == old(Model()).(header := header, sending := SENDING_RES_HEAD)
    {
      headerBuffer, responseState := header, SENDING_RES_HEAD;
    }

    method HandlePost(body: DataStore, pages: Pages)
      returns (ok: bool, end: End, ghost fileOpens: bool, ghost write: Call)
      requires Valid() && body.Valid() && Apart(body)
      modifies this, upload, responseDataStore.Repr, body.Repr
      ensures Owned() && fresh(Repr() - old(Repr()))
      ensures body.Owned() && Apart(body) && fresh(body.Repr - old(body.Repr))
      ensures ok ==> Valid() && body.Valid()
      ensures ok ==> StartPost(old(Model()), old(body.Model()), old(upload.bytes), fileOpens, write, pages) ==
                     Posted(Model(), body.Model(), upload.bytes, end)
    {
      hide ContinuePost, DataStore.Valid, DataStore.Owned, DataStore.Model, ByteStore.Valid, Page, Rewound;
      var opens: bool := *;
      fileOpens, write, end := opens, Call(0, false, false), Done;
      if !opens {
        ok := BuildErrorPage(500, pages.errorHeader, pages.errorPage);
        return;
      }
      ok := BeginPost(body);
      if !ok {
        return;
      }
      ok, end, write := ContinuePostWrite(body, pages);
    }

    /** An empty file to write to, and the body to be read from its start. */
    method BeginPost(body: DataStore) returns (ok: bool)
      requires Valid() && body.Valid() && Apart(body)
      modifies this`postWritePos, this`buildPhase, upload, body.Repr
      ensures Valid() && body.Owned() && Apart(body) && fresh(body.Repr - old(body.Repr))
      ensures Model() == old(Model()).(postPos := 0, phase := BUILD_POST_WRITING) && upload.bytes == ""
      ensures ok ==> body.Valid() && body.Model() == if old(body.mode) == Ram then old(body.Model())
                                                     else Rewound(old(body.Model()))
    {
      hide ByteStore.Valid, Rewound;
      upload.bytes := "";
      postWritePos := 0;
      buildPhase := BUILD_POST_WRITING;
      ok := true;
      if body.mode != Ram {
        ok := body.ResetReadPosition();
      }
    }

    /** The request body is not part of the response. */
    ghost predicate Apart(body: DataStore)
      reads this, responseDataStore, body
    {
      body.Repr !! Repr()
    }

    method ContinuePostWrite(body: DataStore, pages: Pages) returns (ok: bool, end: End, ghost write: Call)
      requires Valid() && body.Valid() && Apart(body)
      modifies this, upload, responseDataStore.Repr, body.Repr
      ensures Owned() && fresh(Repr() - old(Repr()))
      ensures body.Owned() && Apart(body) && fresh(body.Repr - old(body.Repr))
      ensures ok ==> Valid() && body.Valid()
      ensures ok ==> ContinuePost(old(Model()), old(body.Model()), old(upload.bytes), write, pages) ==
                     Posted(Model(), body.Model(), upload.bytes, end)
    {
      var seen := SigpipeSeen();
      if seen {
        ok, end, write := true, Threw, Call(0, true, false);
        return;
      }
      if body.mode == Ram {
        ok, end, write := WriteFromRam(body, pages);
      } else {
        ok, end, write := WriteFromFile(body, pages);
      }
    }

    /** A short write is resumed by the next call. */
    method WriteFromRam(body: DataStore, pages: Pages) returns (ok: bool, end: End, ghost write: Call)
      requires Valid() && body.Valid() && Apart(body) && body.mode == Ram
      modifies this, upload, responseDataStore.Repr
      ensures Owned() && fresh(Repr() - old(Repr())) && Apart(body)
      ensures ok ==> Valid() && body.Valid() && !write.pipeBefore
      ensures ok ==> ContinuePost(old(Model()), old(body.Model()), old(upload.bytes), write, pages) ==
                     Posted(Model(), body.Model(), upload.bytes, end)
    {
      assert body.Model().data == body.dataBuffer;
      hide Page, FinishPost, Taken, DataStore.Valid, DataStore.Owned, DataStore.Model;
      ok, write := true, Call(0, false, false);
      if body.dataBuffer != "" && postWritePos < |body.dataBuffer| {
        end, write := WriteRamPiece(body.dataBuffer);
        if end == Threw {
          return;
        }
        if end == Done {
          ok := BuildErrorPage(500, pages.errorHeader, pages.errorPage);
          return;
        }
      }
      var wroteAll := body.dataBuffer == "" || postWritePos >= |body.dataBuffer|;
      ok, end := FinishPostWrite(wroteAll, pages);
    }

    /** One write from the write position: `Done` means that nothing was taken, `Threw` SIGPIPE. */
    method WriteRamPiece(data: string) returns (end: End, ghost write: Call)
      requires postWritePos < |data|
      modifies this`postWritePos, upload
      ensures !write.pipeBefore
      ensures var n := Taken(write, Min(|data| - old(postWritePos), CHUNK));
              && upload.bytes == old(upload.bytes) + data[old(postWritePos)..old(postWritePos) + n]
              && end == (if write.pipeAfter then Threw else if n == 0 then Done else More)
              && postWritePos == old(postWritePos) + if end == More then n else 0
    {
      var toWrite := Min(|data| - postWritePos, CHUNK);
      var written := upload.Write(data[postWritePos..postWritePos + toWrite]);
      TakeOfSlice(data, postWritePos, postWritePos + toWrite, if written <= 0 then 0 else written);
      var after := SigpipeSeen();
      write := Call(written, false, after);
      end := if after then Threw else if written <= 0 then Done else More;
      if end == More {
        postWritePos := postWritePos + written;
      }
    }

    /** A spooled body is read through its cursor; here a short write is an error. */
    method WriteFromFile(body: DataStore, pages: Pages) returns (ok: bool, end: End, ghost write: Call)
      requires Valid() && body.Valid() && Apart(body) && body.mode == File
      modifies this, upload, responseDataStore.Repr, body.Repr
      ensures Owned() && fresh(Repr() - old(Repr()))
      ensures body.Owned() && Apart(body) && fresh(body.Repr - old(body.Repr))
      ensures ok ==> Valid() && body.Valid() && !write.pipeBefore
      ensures ok ==> ContinuePost(old(Model()), old(body.Model()), old(upload.bytes), write, pages) ==
                     Posted(Model(), body.Model(), upload.bytes, end)
    {
      hide DataStore.Valid, DataStore.Owned, DataStore.Model, ByteStore.Valid, Taken;
      hide Page, FinishPost, ReadBytes, AfterRead;
      var piece;
      end, write := Threw, Call(0, false, false);
      ok, piece := body.Read(CHUNK);
      if !ok {
        return;
      }
      if piece != "" {
        end, write := WriteBlock(piece);
        if end == Threw {
          return;
        }
        if end == Done {
          ok := BuildErrorPage(500, pages.errorHeader, pages.errorPage);
          return;
        }
      }
      ok, end := FinishPostWrite(body.readOffset >= body.currentSize, pages);
    }

    /** One write of a whole block: `Done` means that it was not taken whole, `Threw` SIGPIPE. */
    method WriteBlock(block: string) returns (end: End, ghost write: Call)
      requires block != ""
      modifies upload
      ensures !write.pipeBefore
      ensures var n := Taken(write, |block|);
              && upload.bytes == old(upload.bytes) + block[..n]
              && end == (if write.pipeAfter then Threw else if n != |block| then Done else More)
    {
      var written := upload.Write(block);
      var after := SigpipeSeen();
      write := Call(written, false, after);
      end := if after then Threw else if written != |block| then Done else More;
    }

    method FinishPostWrite(wroteAll: bool, pages: Pages) returns (ok: bool, end: End)
      requires Valid()
      modifies this, responseDataStore.Repr
      ensures Owned() && fresh(Repr() - old(Repr())) && fileFd == old(fileFd)
      ensures ok ==> Valid() && fileFd == old(fileFd)
      ensures ok ==> forall body: Store, out: string ::
                       FinishPost(old(Model()), body, out, wroteAll, pages) == Posted(Model(), body, out, end)
    {
      hide DataStore.Valid, DataStore.Owned, DataStore.Model, Appended, ByteStore.Valid;
      ok, end := true, More;
      if !wroteAll {
        return;
      }
      buildPhase := BUILD_DONE;
      ok := responseDataStore.Append(pages.donePage);
      if !ok {
        return;
      }
      statusCode := 201;
      FinalizeSuccess(pages.doneHeader);
      end := Done;
    }
  }

  lemma HeadUnused(r: Resp, wire: string, env: SendEnv, call: Call)
    requires ValidResp(r) && r.sending.SENDING_BODY_STATIC?
    ensures ResponseModel.SendBody(r, wire, env.(head := call)) == ResponseModel.SendBody(r, wire, env)
  {
    hide Consumed, Filled, Refilled, Taken, ReadBytes;
  }

  lemma TakeOfSlice(s: string, a: nat, b: nat, n: nat)
    requires a <= b <= |s| && n <= b - a
    ensures s[a..b][..n] == s[a..a + n]
  {}

  lemma ReadUnused(r: Resp, wire: string, env: SendEnv, call: Call)
    requires r.file.ServedFile? && r.streamSent <= |r.streamBuf| && |r.header| <= r.sent
    ensures SendBuffered(r, wire, env.(body := call)) == SendBuffered(r, wire, SendEnv(Call(0, false, false), 0, call))
  {}

  lemma ReadUnusedSpooled(r: Resp, wire: string, env: SendEnv, call: Call)
    requires r.streamSent <= |r.streamBuf|
    ensures SendSpooled(r, wire, env.(body := call)) == SendSpooled(r, wire, SendEnv(Call(0, false, false), 0, call))
  {}
}
