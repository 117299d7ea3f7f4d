/** Request: the parser and body decoder that Connection drives. The fields the header parser fills
    in are kept together in `head`. A method says in `ok` whether the temporary files obeyed. */
module Requests {
  import opened ByteStrings
  import opened CNumbers
  import opened ByteStore
  import opened DataStores
  import opened ChunkedDecoder
  import opened RequestBody
  import opened RequestHead

  class Request {
    var head: Head
    const maxBodySize: nat
    const body: DataStore
    const decodedBody: DataStore
    var chunkBuffer: string
    var isBodyProcessed: bool

    ghost function Repr(): set<object>
      reads this, body, decodedBody
    {
      {this} + body.Repr + decodedBody.Repr
    }

    /** Ownership only; holds even after a call that threw. */
    ghost predicate Owned()
      reads this, body, decodedBody, body.Repr, decodedBody.Repr
    {
      && this !in body.Repr && this !in decodedBody.Repr && body.Repr !! decodedBody.Repr
      && body.Owned() && decodedBody.Owned()
    }

    ghost predicate Valid()
      reads this, body, decodedBody, body.Repr, decodedBody.Repr
      ensures Valid() ==> Owned()
    {
      Owned() && body.Valid() && decodedBody.Valid()
    }

    ghost function Model(): (r: RequestModel)
      requires Valid()
      reads this, body, decodedBody, body.Repr, decodedBody.Repr
      ensures ValidRequest(r)
    {
      RequestModel(head, maxBodySize, body.Model(), decodedBody.Model(), chunkBuffer, isBodyProcessed)
    }

    constructor (maxBodySize: nat)
      ensures Valid() && fresh(Repr())
      ensures Model() == RequestModel(FRESH_HEAD, maxBodySize, Empty(BUFFER_LIMIT), Empty(BUFFER_LIMIT), "", false)
    {
      head := FRESH_HEAD;
      this.maxBodySize := maxBodySize;
      chunkBuffer := "";
      isBodyProcessed := false;
      body := new DataStore();
      decodedBody := new DataStore();
    }

    method Refuse(status: nat)
      modifies this`head
      ensures head == Refused(old(head), status)
    {
      head := head.(state := REQ_ERROR, status := status);
    }

    method ExtractQueryFromUrl()
      modifies this`head
      ensures head == ExtractQuery(old(head))
    {
      var queryPos := Find(head.url, "?", 0);
      if queryPos.Some? {
        head := head.(query := head.url[queryPos.value + 1..]);
        head := head.(url := head.url[..queryPos.value]);
      }
    }

    method ParseRequestLine(line: string)
      modifies this`head
      ensures head == RequestHead.ParseRequestLine(old(head), line)
    {
      var firstSpace := Find(line, " ", 0);
      if firstSpace.None? {
        Refuse(400);
        return;
      }
      head := head.(verb := MethodOf(line[..firstSpace.value]));
      if head.verb.UNKNOWN_METHOD? {
        Refuse(501);
        return;
      }
      var secondSpace := Find(line, " ", firstSpace.value + 1);
      if secondSpace.None? {
        head := head.(url := line[firstSpace.value + 1..]);
        if head.url == "" || head.url[0] != '/' {
          Refuse(400);
          return;
        }
        head := head.(protocol := "HTTP/0.9");
        ExtractQueryFromUrl();
        head := head.(state := REQ_DONE);
        return;
      }
      head := head.(url := line[firstSpace.value + 1..secondSpace.value]);
      head := head.(protocol := line[secondSpace.value + 1..]);
      if head.protocol != "HTTP/1.0" && head.protocol != "HTTP/1.1" {
        Refuse(505);
        return;
      }
      if head.url == "" || head.url[0] != '/' {
        Refuse(400);
        return;
      }
      ExtractQueryFromUrl();
    }

    method ParseHeaderLine(line: string)
      modifies this`head
      ensures head == RequestHead.ParseHeaderLine(old(head), line)
    {
      var colonPos := Find(line, ":", 0);
      if colonPos.None? {
        return;
      }
      var key := ToLower(Trim(line[..colonPos.value]));
      var value := Trim(line[colonPos.value + 1..]);
      if key != "" {
        head := head.(headers := head.headers[key := value]);
      }
    }

    method TypeOfReq()
      modifies this`head
      ensures head == TypeOfRequest(old(head), maxBodySize)
    {
      var transferEncoding := Header(head, "transfer-encoding");
      var contentLength := Header(head, "content-length");
      if Find(ToLower(transferEncoding), "chunked", 0).Some? {
        head := head.(contentLength := -1, state := REQ_CHUNKED);
      } else if contentLength != "" {
        var cl := StrToLl10(contentLength);
        if (cl.stop < |contentLength| && contentLength[cl.stop] != '\0') || cl.value < 0 {
          Refuse(400);
          return;
        }
        head := head.(contentLength := cl.value);
        if maxBodySize > 0 && head.contentLength > maxBodySize {
          Refuse(413);
          return;
        }
        head := head.(state := if head.contentLength == 0 then REQ_DONE else REQ_BODY);
      } else {
        head := head.(contentLength := 0, state := REQ_DONE);
      }
    }

    method ParseHeaders(rawBuffer: string) returns (bodyStart: nat)
      modifies this`head
      ensures (head, bodyStart) == RequestHead.ParseHeaders(rawBuffer, old(head), maxBodySize)
      ensures bodyStart <= |rawBuffer|
    {
      hide Find, RequestHead.ParseRequestLine, RequestHead.ParseHeaderLine, TypeOfRequest;
      var headerEnd := Find(rawBuffer, BLANK_LINE, 0);
      if headerEnd.None? {
        return 0;
      }
      var headerSection := rawBuffer[..headerEnd.value];
      var lineStart := 0;
      var firstLine := true;
      while lineStart < |headerSection|
        invariant ParseLines(headerSection, lineStart, head, firstLine) ==
                  ParseLines(headerSection, 0, old(head), true)
        decreases |headerSection| - lineStart
      {
        var found := Find(headerSection, CRLF, lineStart);
        var lineEnd := if found.Some? then found.value else |headerSection|;
        var line := headerSection[lineStart..lineEnd];
        if line != "" {
          if firstLine {
            ParseRequestLine(line);
          } else {
            ParseHeaderLine(line);
          }
          firstLine := false;
        }
        lineStart := lineEnd + 2;
      }
      if !head.state.REQ_ERROR? {
        TypeOfReq();
      }
      bodyStart := headerEnd.value + 4;
    }

    /** One slice of a chunked body. `Thrown` is the exception of the decoder; `ok` is false when a
        temporary file failed. */
    method ProcessBodySlice() returns (ok: bool, result: SliceResult)
      requires Valid()
      modifies this, body.Repr, decodedBody.Repr
      ensures Owned() && fresh(Repr() - old(Repr()))
      ensures ok ==> Valid() && ProcessSlice(old(Model())) == (Model(), result)
    {
      hide RequestBody.DecodeSlice, Completed;
      if head.contentLength >= 0 || isBodyProcessed || head.state.REQ_ERROR? {
        return true, Ready;
      }
      var outcome;
      ok, outcome := DecodeSlice();
      result := Pending;
      if !ok {
        return;
      }
      match outcome {
        case NeedMore =>
        case Threw =>
          result := Thrown;
        case BadRequest =>
          Refuse(400);
          result := Ready;
        case TooLarge =>
          Refuse(413);
          result := Ready;
        case Finished =>
          ok := TakeDecodedBody();
          result := Ready;
      }
    }

    /** Reads the next slice of the body and decodes the chunks it completes. */
    method DecodeSlice() returns (ok: bool, outcome: Outcome)
      requires Valid()
      modifies this`chunkBuffer, body.Repr, decodedBody.Repr
      ensures Owned() && fresh(Repr() - old(Repr()))
      ensures ok ==> Valid() && (Model(), outcome) == RequestBody.DecodeSlice(old(Model()))
    {
      hide Drain, Appended, ReadBytes;
      var piece;
      outcome := NeedMore;
      ok, piece := body.Read(SLICE);
      if !ok {
        return;
      }
      DrainGrows(chunkBuffer + piece, decodedBody.Model().data, maxBodySize);
      ok, chunkBuffer, outcome := DecodeInto(decodedBody, chunkBuffer + piece, maxBodySize);
    }

    /** The decoded bytes become the body, to be read from the start. */
    method TakeDecodedBody() returns (ok: bool)
      requires Valid()
      modifies this, body.Repr
      ensures Owned() && fresh(Repr() - old(Repr()))
      ensures ok ==> Valid() && Model() == Completed(old(Model()))
    {
      isBodyProcessed := true;
      ok := body.Assign(decodedBody);
      if !ok {
        return;
      }
      chunkBuffer := "";
      ok := body.ResetReadPosition();
      if !ok {
        return;
      }
      head := head.(headers := head.headers["content-length" := Decimal(body.currentSize)]);
    }

    /** isChunkedDone looks at the newest bytes only. */
    function IsChunkedDone(newData: string): bool {
      Find(newData, "0\r\n\r\n", 0).Some?
    }
  }

  /** The inner loop of processBodySlice; it terminates because every accepted chunk takes at least
      its header off the buffer. */
  method DecodeInto(store: DataStore, chunkBuffer: string, maxBodySize: nat)
    returns (ok: bool, rest: string, outcome: Outcome)
    requires store.Valid()
    modifies store.Repr
    ensures store.Owned() && fresh(store.Repr - old(store.Repr))
    ensures ok ==> store.Valid() && old(store.Model()).data <= store.Model().data &&
                   store.Model() == Grown(old(store.Model()), store.Model().data)
    ensures ok ==> Drain(chunkBuffer, old(store.Model()).data, maxBodySize) ==
                   Decoder(rest, store.Model().data, outcome)
  {
    hide ScanChunk, Appended, Grown, Find;
    ghost var store0 := store.Model();
    GrownNothing(store0);
    rest, outcome := chunkBuffer, NeedMore;
    while true
      invariant store.Valid() && fresh(store.Repr - old(store.Repr))
      invariant store0.data <= store.Model().data && store.Model() == Grown(store0, store.Model().data)
      invariant Drain(chunkBuffer, store0.data, maxBodySize) == Drain(rest, store.Model().data, maxBodySize)
      decreases |rest|
    {
      match ScanChunk(rest) {
        case Incomplete => return true, rest, NeedMore;
        case OutOfRange => return true, rest, Threw;
        case Malformed => return true, rest, BadRequest;
        case Final(_) => return true, "", Finished;
        case Data(bytes, behind) =>
          GrownMore(store0, store.Model().data, bytes);
          ok := store.Append(bytes);
          if !ok {
            return false, rest, NeedMore;
          }
          if maxBodySize > 0 && store.currentSize > maxBodySize {
            return true, rest, TooLarge;
          }
          DrainShorter(rest);
          rest := behind;
      }
    }
  }

  lemma GrownNothing(s: Store)
    ensures Grown(s, s.data) == s
  {
    assert s.data[|s.data|..] == "";
  }

  lemma GrownMore(s: Store, data: string, bytes: string)
    requires s.data <= data
    ensures s.data <= data + bytes
    ensures Appended(Grown(s, data), bytes) == Grown(s, data + bytes)
    ensures Grown(s, data + bytes).data == data + bytes
  {
    AppendTwice(s, data[|s.data|..], bytes);
    assert (data + bytes)[|s.data|..] == data[|s.data|..] + bytes;
    GrownData(s, data + bytes);
  }
}
