/** Taking in a request: Connection::handleRead as a function of the pieces recv delivers. */
module ConnectionIntake {
  import opened ByteStrings
  import opened CNumbers
  import opened ByteStore
  import opened RequestHead
  import opened RequestBody

  datatype ConnState = READING | PROCESSING | WAITING_FOR_CGI | WRITING | FINISHED

  /** MAX_HEADER_SIZE, also the size of the recv buffer. */
  const MAX_HEADER_SIZE: nat := 8192

  /** `error` is the status of the error page triggerError asked for, 0 if none. */
  datatype Intake = Intake(state: ConnState, readBuffer: string, request: RequestModel, error: nat)

  function FreshRequest(limit: nat): RequestModel {
    RequestModel(FRESH_HEAD, limit, Empty(BUFFER_LIMIT), Empty(BUFFER_LIMIT), "", false)
  }

  function FreshIntake(limit: nat): Intake {
    Intake(READING, "", FreshRequest(limit), 0)
  }

  function Failed(c: Intake, status: nat): Intake {
    c.(state := WRITING, error := status)
  }

  /** The bytes that end a chunked body. */
  const LAST_CHUNK := "0\r\n\r\n"

  /** isChunkedDone: the marker is looked for in the newest bytes only. */
  predicate ChunkedDone(newData: string) {
    Find(newData, LAST_CHUNK, 0).Some?
  }

  function WithBody(c: Intake, data: string): Intake {
    c.(request := c.request.(body := Appended(c.request.body, data)))
  }

  predicate BodyComplete(c: Intake) {
    |c.request.body.data| >= c.request.head.contentLength
  }

  function Advance(c: Intake, done: bool): Intake {
    if done then c.(state := PROCESSING) else c
  }

  function ReadHeaders(c: Intake, piece: string): Intake {
    ParseBuffer(c.(readBuffer := c.readBuffer + piece))
  }

  function ParseBuffer(c: Intake): Intake {
    if |c.readBuffer| > MAX_HEADER_SIZE then Failed(c, 431)
    else
      var (head, bodyStart) := ParseHeaders(c.readBuffer, c.request.head, c.request.limit);
      AfterParse(c.(request := c.request.(head := head)), bodyStart)
  }

  /** What follows from the parsed head; the header buffer still holds all that was received. */
  function AfterParse(c: Intake, bodyStart: nat): Intake {
    match c.request.head.state
    case REQ_ERROR => Failed(c, c.request.head.status)
    case REQ_HEADERS => c
    case REQ_DONE => c.(readBuffer := "", state := PROCESSING)
    case REQ_BODY => AfterHeaders(c.(readBuffer := ""), c.readBuffer, bodyStart)
    case REQ_CHUNKED => AfterHeaders(c.(readBuffer := ""), c.readBuffer, bodyStart)
  }

  /** Body bytes that arrived together with the end of the header section. */
  function AfterHeaders(c: Intake, buffer: string, bodyStart: nat): Intake {
    if bodyStart >= |buffer| then c else ReadMore(c, buffer[bodyStart..])
  }

  function ReadMore(c: Intake, piece: string): Intake {
    var c1 := WithBody(c, piece);
    Advance(c1, if c.request.head.state.REQ_CHUNKED? then ChunkedDone(piece) else BodyComplete(c1))
  }

  /** handleRead; `None` stands for recv returning 0 or an error. */
  function HandleRead(c: Intake, received: Option<string>): Intake {
    if !c.state.READING? then c
    else match received
      case None => c.(state := FINISHED)
      case Some(piece) =>
        match c.request.head.state
        case REQ_HEADERS => ReadHeaders(c, piece)
        case REQ_BODY => ReadMore(c, piece)
        case REQ_CHUNKED => ReadMore(c, piece)
        case REQ_DONE => c
        case REQ_ERROR => c
  }

  function Receive(c: Intake, pieces: seq<string>): Intake
    decreases |pieces|
  {
    if pieces == [] then c else Receive(HandleRead(c, Some(pieces[0])), pieces[1..])
  }

  // ---------------------------------------------------------------- what a stream says

  /** recv never delivers an empty piece or more than its buffer holds. */
  predicate RecvPieces(pieces: seq<string>) {
    forall i :: 0 <= i < |pieces| ==> 0 < |pieces[i]| <= MAX_HEADER_SIZE
  }

  /** The stream contains a whole header section, `headLength` bytes long. */
  predicate HeadEndsAt(stream: string, headLength: nat) {
    Find(stream, BLANK_LINE, 0).Some? && headLength == Find(stream, BLANK_LINE, 0).value + 4
  }

  /** The head of the stream parsed in one go. */
  function HeadOf(stream: string, limit: nat): Head {
    ParseHeaders(stream, FRESH_HEAD, limit).0
  }

  /** How many bytes have come in when the header section is complete. */
  function HeadArrival(pieces: seq<string>, missing: nat): nat
    decreases |pieces|
  {
    if pieces == [] then 0
    else if |pieces[0]| >= missing then |pieces[0]|
    else |pieces[0]| + HeadArrival(pieces[1..], missing - |pieces[0]|)
  }

  /** The pieces of the body: what is left of the pieces behind the header section. */
  function BodyPieces(pieces: seq<string>, missing: nat): seq<string>
    decreases |pieces|
  {
    if pieces == [] then []
    else if |pieces[0]| > missing then [pieces[0][missing..]] + pieces[1..]
    else if |pieces[0]| == missing then pieces[1..]
    else BodyPieces(pieces[1..], missing - |pieces[0]|)
  }

  // ---------------------------------------------------------------- the header phase

  /** Part of the header section has arrived and nothing else has happened. */
  predicate AwaitingHead(c: Intake, received: string, limit: nat) {
    c == FreshIntake(limit).(readBuffer := received) && |received| <= MAX_HEADER_SIZE
  }

  /** The header section is complete and its head parsed; body bytes follow. */
  function HeadDone(stream: string, limit: nat): Intake {
    FreshIntake(limit).(request := FreshRequest(limit).(head := HeadOf(stream, limit)))
  }

  lemma ParsedHeadSettles(raw: string, limit: nat)
    requires Find(raw, BLANK_LINE, 0).Some?
    ensures !HeadOf(raw, limit).state.REQ_HEADERS?
  {
    hide ParseLines, Find, Header;
  }

  /** A piece that does not complete the header section is only buffered; if the buffer overflows
      the answer is 431. */
  lemma HeadStillMissing(c: Intake, received: string, piece: string, more: string, limit: nat)
    requires AwaitingHead(c, received, limit)
    requires Find(received + piece + more, BLANK_LINE, 0).Some?
    requires |received + piece| < Find(received + piece + more, BLANK_LINE, 0).value + 4
    ensures var next := HandleRead(c, Some(piece));
            if |received + piece| > MAX_HEADER_SIZE then next.state == WRITING && next.error == 431
            else AwaitingHead(next, received + piece, limit)
  {
    var buffer := received + piece;
    if Find(buffer, BLANK_LINE, 0).Some? {
      FindInExtension(buffer, more, BLANK_LINE, 0);
    }
    hide HandleRead, Find;
    OnlyBuffered(c, received, piece, limit);
  }

  lemma OnlyBuffered(c: Intake, received: string, piece: string, limit: nat)
    requires AwaitingHead(c, received, limit) && Find(received + piece, BLANK_LINE, 0).None?
    ensures var next := HandleRead(c, Some(piece));
            if |received + piece| > MAX_HEADER_SIZE then next.state == WRITING && next.error == 431
            else AwaitingHead(next, received + piece, limit)
  {
    hide ParseLines, TypeOfRequest, Find;
  }

  /** A stream whose header section never ends is buffered, or answered with 431 as soon as more than
      8192 bytes of it have come in. */
  lemma {:induction false} HeadUnfinished(c: Intake, received: string, pieces: seq<string>, limit: nat)
    requires AwaitingHead(c, received, limit) && Find(received + Concat(pieces), BLANK_LINE, 0).None?
    ensures var end := Receive(c, pieces);
            if |received + Concat(pieces)| > MAX_HEADER_SIZE then end.state.WRITING? && end.error == 431
            else AwaitingHead(end, received + Concat(pieces), limit)
    decreases |pieces|
  {
    hide HandleRead, Find;
    if pieces == [] {
      assert received + "" == received;
    } else {
      var buffer := received + pieces[0];
      assert received + Concat(pieces) == buffer + Concat(pieces[1..]);
      if Find(buffer, BLANK_LINE, 0).Some? {
        FindInExtension(buffer, Concat(pieces[1..]), BLANK_LINE, 0);
      }
      OnlyBuffered(c, received, pieces[0], limit);
      var next := HandleRead(c, Some(pieces[0]));
      if |buffer| > MAX_HEADER_SIZE {
        ReceiveSettled(next, pieces[1..]);
      } else {
        HeadUnfinished(next, buffer, pieces[1..], limit);
      }
    }
  }

  /** The piece that completes the header section: 431 if too much has come in, else the head is
      the one parsed from the whole stream and the rest of the piece is body. */
  lemma HeadCompletes(c: Intake, received: string, piece: string, more: string, limit: nat)
    requires AwaitingHead(c, received, limit)
    requires Find(received + piece + more, BLANK_LINE, 0).Some?
    requires |received + piece| >= Find(received + piece + more, BLANK_LINE, 0).value + 4
    ensures var stream := received + piece + more;
            var headLength := Find(stream, BLANK_LINE, 0).value + 4;
            var next := HandleRead(c, Some(piece));
            var ready := HeadDone(stream, limit);
            var rest := (received + piece)[headLength..];
            if |received + piece| > MAX_HEADER_SIZE then next.state == WRITING && next.error == 431
            else match ready.request.head.state
              case REQ_HEADERS => false
              case REQ_ERROR => next.state == WRITING && next.error == ready.request.head.status &&
                    next.request == ready.request
              case REQ_DONE => next == ready.(state := PROCESSING)
              case REQ_BODY => next == if rest == "" then ready else ReadMore(ready, rest)
              case REQ_CHUNKED => next == if rest == "" then ready else ReadMore(ready, rest)
  {
    hide ParseLines, TypeOfRequest, ReadMore;
    var buffer := received + piece;
    var stream := buffer + more;
    var headLength := Find(stream, BLANK_LINE, 0).value + 4;
    assert stream[..|buffer|] == buffer;
    FindInPrefix(stream, |buffer|, BLANK_LINE);
    BodyBytesIgnored(buffer, more, FRESH_HEAD, limit);
    ParsedHeadSettles(stream, limit);
  }

  // ---------------------------------------------------------------- the body phase

  /** A connection that has left READING ignores further pieces. */
  lemma {:induction false} ReceiveSettled(c: Intake, pieces: seq<string>)
    requires !c.state.READING?
    ensures Receive(c, pieces) == c
    decreases |pieces|
  {
    if pieces != [] {
      ReceiveSettled(c, pieces[1..]);
    }
  }

  /** Appending the pieces one by one stores the same bytes as appending them at once. */
  lemma AppendConcat(s: Store, pieces: seq<string>)
    requires pieces != []
    ensures Appended(Appended(s, pieces[0]), Concat(pieces[1..])) == Appended(s, Concat(pieces))
  {
    AppendTwice(s, pieces[0], Concat(pieces[1..]));
  }

  predicate AwaitingBody(c: Intake) {
    c.state.READING? && (c.request.head.state.REQ_BODY? || c.request.head.state.REQ_CHUNKED?)
  }

  /** A body of known length is taken in whole, in any pieces; the connection moves on with the
      very piece that completes it. */
  lemma {:induction false} LengthBodyReceived(c: Intake, pieces: seq<string>)
    requires AwaitingBody(c) && c.request.head.state.REQ_BODY? && RecvPieces(pieces) && pieces != []
    requires |c.request.body.data + Concat(pieces)| == c.request.head.contentLength
    ensures Receive(c, pieces) == WithBody(c, Concat(pieces)).(state := PROCESSING)
    ensures ReadingUntilLast(c, pieces)
    decreases |pieces|
  {
    var next := ReadMore(c, pieces[0]);
    AppendConcat(c.request.body, pieces);
    if pieces[1..] == [] {
      assert Concat(pieces) == pieces[0];
    } else {
      NotEmpty(pieces[1..]);
      LengthBodyReceived(next, pieces[1..]);
    }
    PrefixesShift(c, pieces);
  }

  /** The pieces that bring in `missing` bytes, or all of them. */
  function UpToLength(pieces: seq<string>, missing: int): (n: nat)
    ensures n <= |pieces|
    decreases |pieces|
  {
    if pieces == [] then 0
    else if |pieces[0]| >= missing then 1
    else 1 + UpToLength(pieces[1..], missing - |pieces[0]|)
  }

  /** Whatever the pieces are: those up to the one that brings in the announced length are stored, that
      one in full, the connection moves on exactly if there is one, and nothing behind it is read. */
  lemma {:induction false} LengthPieces(c: Intake, pieces: seq<string>)
    requires AwaitingBody(c) && c.request.head.state.REQ_BODY?
    requires |c.request.body.data| < c.request.head.contentLength
    ensures var missing := c.request.head.contentLength - |c.request.body.data|;
            Receive(c, pieces) ==
              Advance(WithBody(c, Concat(pieces[..UpToLength(pieces, missing)])), |Concat(pieces)| >= missing)
    decreases |pieces|
  {
    if pieces != [] {
      var next := ReadMore(c, pieces[0]);
      var missing := c.request.head.contentLength - |c.request.body.data|;
      if |pieces[0]| >= missing {
        ReceiveSettled(next, pieces[1..]);
        assert pieces[..1] == [pieces[0]] && Concat([pieces[0]]) == pieces[0];
      } else {
        var n := UpToLength(pieces[1..], missing - |pieces[0]|);
        LengthPieces(next, pieces[1..]);
        AppendTwice(c.request.body, pieces[0], Concat(pieces[1..][..n]));
        assert pieces[..n + 1][1..] == pieces[1..][..n];
      }
    }
  }

  lemma NotEmpty(pieces: seq<string>)
    requires RecvPieces(pieces) && pieces != []
    ensures Concat(pieces) != ""
  {}

  /** What holds on the way after the first piece carries over. */
  lemma PrefixesShift(c: Intake, pieces: seq<string>)
    requires pieces != [] && c.state.READING?
    requires var next := HandleRead(c, Some(pieces[0]));
             forall k :: 0 <= k < |pieces| - 1 ==> Receive(next, pieces[1..][..k]).state.READING?
    ensures forall k :: 0 <= k < |pieces| ==> Receive(c, pieces[..k]).state.READING?
  {
    forall k | 0 < k < |pieces| ensures Receive(c, pieces[..k]).state.READING? {
      assert pieces[..k][1..] == pieces[1..][..k - 1];
    }
  }

  /** The end marker shows up in the last body piece and in none before. */
  predicate MarkerInLastOnly(pieces: seq<string>) {
    forall i :: 0 <= i < |pieces| ==> (ChunkedDone(pieces[i]) <==> i == |pieces| - 1)
  }

  predicate MarkerSeen(pieces: seq<string>) {
    exists i :: 0 <= i < |pieces| && ChunkedDone(pieces[i])
  }

  /** The pieces up to the first one that shows the end marker, or all of them. */
  function UpToMarker(pieces: seq<string>): (n: nat)
    ensures n <= |pieces|
    decreases |pieces|
  {
    if pieces == [] then 0
    else if ChunkedDone(pieces[0]) then 1
    else 1 + UpToMarker(pieces[1..])
  }

  /** Whatever the pieces are: those up to the first marker are stored, the connection moves on
      exactly if one shows the marker, and what comes behind that piece is not read. */
  lemma {:induction false} ChunkedPieces(c: Intake, pieces: seq<string>)
    requires AwaitingBody(c) && c.request.head.state.REQ_CHUNKED?
    ensures Receive(c, pieces) == Advance(WithBody(c, Concat(pieces[..UpToMarker(pieces)])), MarkerSeen(pieces))
    decreases |pieces|
  {
    hide ChunkedDone;
    if pieces != [] {
      var next := ReadMore(c, pieces[0]);
      if ChunkedDone(pieces[0]) {
        ReceiveSettled(next, pieces[1..]);
        assert pieces[..1] == [pieces[0]] && Concat([pieces[0]]) == pieces[0];
      } else {
        var n := UpToMarker(pieces[1..]);
        ChunkedPieces(next, pieces[1..]);
        MarkerSeenLater(pieces);
        AppendTwice(c.request.body, pieces[0], Concat(pieces[1..][..n]));
        assert pieces[..n + 1][1..] == pieces[1..][..n];
      }
    }
  }

  lemma MarkerSeenLater(pieces: seq<string>)
    requires pieces != [] && !ChunkedDone(pieces[0])
    ensures MarkerSeen(pieces) <==> MarkerSeen(pieces[1..])
  {
    hide ChunkedDone;
    if i :| 0 <= i < |pieces| && ChunkedDone(pieces[i]) {
      assert pieces[1..][i - 1] == pieces[i];
    }
    if i :| 0 <= i < |pieces[1..]| && ChunkedDone(pieces[1..][i]) {
      assert pieces[i + 1] == pieces[1..][i];
    }
  }

  /** A chunked body is completed by its last piece, and not before, if and only if that piece shows
      the end marker and no other does. All of it is stored then. */
  lemma ChunkedBodyReceived(c: Intake, pieces: seq<string>)
    requires AwaitingBody(c) && c.request.head.state.REQ_CHUNKED?
    ensures var end := Receive(c, pieces);
            && (pieces != [] && MarkerInLastOnly(pieces) <==> end.state.PROCESSING? && ReadingUntilLast(c, pieces))
            && (pieces != [] && MarkerInLastOnly(pieces) ==>
                  end == WithBody(c, Concat(pieces)).(state := PROCESSING))
  {
    hide ChunkedDone, WithBody;
    ChunkedPieces(c, pieces);
    forall k | 0 <= k < |pieces| ensures Receive(c, pieces[..k]).state.READING? <==> !MarkerSeen(pieces[..k]) {
      ChunkedPieces(c, pieces[..k]);
      StateOfBody(c, Concat(pieces[..k][..UpToMarker(pieces[..k])]));
    }
    StateOfBody(c, Concat(pieces[..UpToMarker(pieces)]));
    if pieces != [] {
      LastMarkerOnly(pieces);
    }
    if pieces != [] && MarkerInLastOnly(pieces) {
      AllUpToMarker(pieces);
      assert pieces[..|pieces|] == pieces;
    }
  }

  lemma StateOfBody(c: Intake, data: string)
    ensures WithBody(c, data).state == c.state
  {}

  lemma LastMarkerOnly(pieces: seq<string>)
    requires pieces != []
    ensures MarkerInLastOnly(pieces) <==>
              MarkerSeen(pieces) && forall k :: 0 <= k < |pieces| ==> !MarkerSeen(pieces[..k])
  {
    hide ChunkedDone;
    var last := |pieces| - 1;
    if MarkerSeen(pieces) && forall k :: 0 <= k < |pieces| ==> !MarkerSeen(pieces[..k]) {
      forall i | 0 <= i < last ensures !ChunkedDone(pieces[i]) {
        assert pieces[..last][i] == pieces[i];
      }
    }
    if MarkerInLastOnly(pieces) {
      assert ChunkedDone(pieces[last]);
    }
  }

  lemma {:induction false} AllUpToMarker(pieces: seq<string>)
    requires pieces != [] && MarkerInLastOnly(pieces)
    ensures UpToMarker(pieces) == |pieces|
    decreases |pieces|
  {
    hide ChunkedDone;
    if |pieces| > 1 {
      forall i | 0 <= i < |pieces| - 1 ensures ChunkedDone(pieces[1..][i]) <==> i == |pieces| - 2 {
        assert pieces[1..][i] == pieces[i + 1];
      }
      AllUpToMarker(pieces[1..]);
    }
  }

  /** A marker that is cut is not seen: the same bytes complete the body in one piece and leave the
      connection reading in two. */
  lemma CutMarkerNotSeen(c: Intake)
    requires AwaitingBody(c) && c.request.head.state.REQ_CHUNKED?
    ensures Concat(["0\r\n\r\n"]) == Concat(["0\r\n", "\r\n"])
    ensures Receive(c, ["0\r\n\r\n"]).state.PROCESSING? && Receive(c, ["0\r\n", "\r\n"]).state.READING?
  {
    assert OccursAt("0\r\n\r\n", LAST_CHUNK, 0);
    assert ["0\r\n", "\r\n"][1..] == ["\r\n"] && ["0\r\n\r\n"][1..] == [] && ["\r\n"][1..] == [];
    assert "0\r\n" + "\r\n" == "0\r\n\r\n";
  }

  /** A marker inside the data is taken for the end: what follows the piece that shows it is lost. */
  lemma EarlyMarkerTaken(c: Intake, first: string, more: seq<string>)
    requires AwaitingBody(c) && c.request.head.state.REQ_CHUNKED? && ChunkedDone(first)
    ensures Receive(c, [first] + more) == WithBody(c, first).(state := PROCESSING)
  {
    assert ([first] + more)[1..] == more;
    ReceiveSettled(ReadMore(c, first), more);
  }

  /** The chunk "0\r\n\r\n" cut behind its data: the rest of the encoding is never read. */
  lemma EarlyMarkerExample(c: Intake)
    requires AwaitingBody(c) && c.request.head.state.REQ_CHUNKED?
    ensures Receive(c, ["5\r\n0\r\n\r\n", "\r\n0\r\n\r\n"]) == WithBody(c, "5\r\n0\r\n\r\n").(state := PROCESSING)
  {
    assert OccursAt("5\r\n0\r\n\r\n", LAST_CHUNK, 3);
    EarlyMarkerTaken(c, "5\r\n0\r\n\r\n", ["\r\n0\r\n\r\n"]);
    assert ["5\r\n0\r\n\r\n"] + ["\r\n0\r\n\r\n"] == ["5\r\n0\r\n\r\n", "\r\n0\r\n\r\n"];
  }

  // ---------------------------------------------------------------- whole streams

  lemma {:induction false} BodyPiecesConcat(pieces: seq<string>, missing: nat)
    requires |Concat(pieces)| >= missing
    ensures Concat(BodyPieces(pieces, missing)) == Concat(pieces)[missing..]
    decreases |pieces|
  {
    if pieces != [] {
      var first := pieces[0];
      if |first| > missing {
        var bp := [first[missing..]] + pieces[1..];
        assert bp[0] == first[missing..] && bp[1..] == pieces[1..];
        assert Concat(bp) == first[missing..] + Concat(pieces[1..]);
      } else if |first| < missing {
        BodyPiecesConcat(pieces[1..], missing - |first|);
      }
    }
  }

  /** What becomes of a stream once its header section is complete. */
  function FromHead(stream: string, bodyPieces: seq<string>, limit: nat): Intake {
    var ready := HeadDone(stream, limit);
    match ready.request.head.state
    case REQ_ERROR => Failed(ready, ready.request.head.status)
    case REQ_DONE => ready.(state := PROCESSING)
    case _ => Receive(ready, bodyPieces)
  }

  /** The same up to the contents of the header buffer, which is not looked at again. */
  predicate SameButBuffer(c: Intake, d: Intake) {
    c == d.(readBuffer := c.readBuffer)
  }

  predicate ReadingUntilLast(c: Intake, pieces: seq<string>) {
    forall k :: 0 <= k < |pieces| ==> Receive(c, pieces[..k]).state.READING?
  }

  /** The header phase, for every way the stream is cut: 431 exactly when too much has come in by
      the time the header section is complete, and otherwise the head of the stream is parsed and
      what remains are the body pieces. */
  lemma {:induction false} HeadPhase(c: Intake, received: string, pieces: seq<string>, limit: nat)
    requires AwaitingHead(c, received, limit) && RecvPieces(pieces)
    requires Find(received + Concat(pieces), BLANK_LINE, 0).Some?
    requires |received| < Find(received + Concat(pieces), BLANK_LINE, 0).value + 4
    ensures var stream := received + Concat(pieces);
            var missing := Find(stream, BLANK_LINE, 0).value + 4 - |received|;
            var end := Receive(c, pieces);
            var bodyPieces := BodyPieces(pieces, missing);
            if |received| + HeadArrival(pieces, missing) > MAX_HEADER_SIZE then end.state.WRITING? && end.error == 431
            else SameButBuffer(end, FromHead(stream, bodyPieces, limit)) &&
                 (AwaitingBody(HeadDone(stream, limit)) ==>
                    (ReadingUntilLast(HeadDone(stream, limit), bodyPieces) <==> ReadingUntilLast(c, pieces)))
    decreases |pieces|
  {
    hide Find, ReadMore, HeadDone;
    var stream := received + Concat(pieces);
    var headLength := Find(stream, BLANK_LINE, 0).value + 4;
    assert received + "" == received;
    if pieces != [] {
      var piece := pieces[0];
      var next := HandleRead(c, Some(piece));
      assert stream == received + piece + Concat(pieces[1..]);
      if |received + piece| < headLength {
        HeadStillMissing(c, received, piece, Concat(pieces[1..]), limit);
        if |received + piece| > MAX_HEADER_SIZE {
          ReceiveSettled(next, pieces[1..]);
        } else {
          HeadPhase(next, received + piece, pieces[1..], limit);
          ShiftedReading(c, pieces, next, pieces[1..]);
        }
      } else {
        HeadArrives(c, received, pieces, limit);
      }
    }
  }

  lemma ShiftedReading(c: Intake, pieces: seq<string>, next: Intake, rest: seq<string>)
    requires pieces != [] && c.state.READING? && next == HandleRead(c, Some(pieces[0])) && rest == pieces[1..]
    ensures ReadingUntilLast(next, rest) <==> ReadingUntilLast(c, pieces)
  {
    if ReadingUntilLast(next, rest) {
      forall k | 0 < k < |pieces| ensures Receive(c, pieces[..k]).state.READING? {
        assert pieces[..k][1..] == rest[..k - 1];
      }
    }
    if ReadingUntilLast(c, pieces) {
      forall k | 0 <= k < |rest| ensures Receive(next, rest[..k]).state.READING? {
        assert pieces[..k + 1][1..] == rest[..k];
        assert Receive(c, pieces[..k + 1]).state.READING?;
      }
    }
  }

  lemma HeadArrives(c: Intake, received: string, pieces: seq<string>, limit: nat)
    requires AwaitingHead(c, received, limit) && pieces != []
    requires Find(received + Concat(pieces), BLANK_LINE, 0).Some?
    requires |received| < Find(received + Concat(pieces), BLANK_LINE, 0).value + 4 <= |received + pieces[0]|
    ensures var stream := received + Concat(pieces);
            var missing := Find(stream, BLANK_LINE, 0).value + 4 - |received|;
            var end := Receive(c, pieces);
            var bodyPieces := BodyPieces(pieces, missing);
            if |received| + |pieces[0]| > MAX_HEADER_SIZE then end.state.WRITING? && end.error == 431
            else SameButBuffer(end, FromHead(stream, bodyPieces, limit)) &&
                 (AwaitingBody(HeadDone(stream, limit)) ==>
                    (ReadingUntilLast(HeadDone(stream, limit), bodyPieces) <==> ReadingUntilLast(c, pieces)))
  {
    hide Find, ReadMore, ParseHeaders, ReadingUntilLast, HandleRead, BodyPieces;
    var piece := pieces[0];
    var more := Concat(pieces[1..]);
    var stream := received + Concat(pieces);
    assert stream == received + piece + more;
    var headLength := Find(stream, BLANK_LINE, 0).value + 4;
    var next := HandleRead(c, Some(piece));
    var ready := HeadDone(stream, limit);
    var rest := (received + piece)[headLength..];
    assert rest == piece[headLength - |received|..];
    HeadCompletes(c, received, piece, more, limit);
    FirstBodyPieces(pieces, headLength - |received|);
    if !next.state.READING? {
      ReceiveSettled(next, pieces[1..]);
    }
    if |received + piece| <= MAX_HEADER_SIZE && AwaitingBody(ready) {
      BodyFollows(c, ready, pieces, rest, BodyPieces(pieces, headLength - |received|));
    }
  }

  lemma FirstBodyPieces(pieces: seq<string>, missing: nat)
    requires pieces != [] && missing <= |pieces[0]|
    ensures var rest := pieces[0][missing..];
            BodyPieces(pieces, missing) == if rest == "" then pieces[1..] else [rest] + pieces[1..]
  {}

  /** The piece that completes the header section and the first body bytes count as one. */
  lemma BodyFollows(c: Intake, ready: Intake, pieces: seq<string>, rest: string, bodyPieces: seq<string>)
    requires c.state.READING? && AwaitingBody(ready) && pieces != []
    requires HandleRead(c, Some(pieces[0])) == if rest == "" then ready else ReadMore(ready, rest)
    requires bodyPieces == if rest == "" then pieces[1..] else [rest] + pieces[1..]
    ensures Receive(c, pieces) == Receive(ready, bodyPieces)
    ensures ReadingUntilLast(ready, bodyPieces) <==> ReadingUntilLast(c, pieces)
  {
    hide ReadMore, ReadHeaders, ReadingUntilLast;
    var next := HandleRead(c, Some(pieces[0]));
    ShiftedReading(c, pieces, next, pieces[1..]);
    if rest != "" {
      assert HandleRead(ready, Some(rest)) == next;
      assert bodyPieces[0] == rest && bodyPieces[1..] == pieces[1..];
      ShiftedReading(ready, bodyPieces, next, pieces[1..]);
    }
  }

  /** The request as the one-shot reading of the stream describes it, its body stored. */
  function OneShot(stream: string, headLength: nat, limit: nat): RequestModel
    requires headLength <= |stream|
  {
    FreshRequest(limit).(head := HeadOf(stream, limit),
                         body := Appended(Empty(BUFFER_LIMIT), stream[headLength..]))
  }

  /** Fragmentation invariance: every way of cutting a stream that does not trip 431 leads to the
      same request, status and stored body. A request with an announced length is handed on exactly
      if that many bytes come in, and with its very last piece if there are no more; one with a
      chunked body is handed on with its last piece exactly if that piece, and no other, shows the
      end marker. */
  lemma FragmentationInvariance(pieces: seq<string>, headLength: nat, limit: nat)
    requires RecvPieces(pieces) && HeadEndsAt(Concat(pieces), headLength)
    requires HeadArrival(pieces, headLength) <= MAX_HEADER_SIZE
    ensures var stream := Concat(pieces);
            var end := Receive(FreshIntake(limit), pieces);
            var request := OneShot(stream, headLength, limit);
            match request.head.state
            case REQ_HEADERS => false
            case REQ_ERROR => end.state.WRITING? && end.error == request.head.status && end.request.head == request.head
            case REQ_DONE => end.state.PROCESSING? && end.request == FreshRequest(limit).(head := request.head)
            case REQ_BODY =>
              var announced := request.head.contentLength;
              var bodyPieces := BodyPieces(pieces, headLength);
              var stored := Appended(Empty(BUFFER_LIMIT), Concat(bodyPieces[..UpToLength(bodyPieces, announced)]));
              && end.request == request.(body := stored)
              && end.state == (if |stream| - headLength >= announced then PROCESSING else READING)
              && (|stream| - headLength == announced ==>
                    end.request == request && ReadingUntilLast(FreshIntake(limit), pieces))
            case REQ_CHUNKED =>
              var bodyPieces := BodyPieces(pieces, headLength);
              var stored := Appended(Empty(BUFFER_LIMIT), Concat(bodyPieces[..UpToMarker(bodyPieces)]));
              && end.request == request.(body := stored)
              && end.state == (if MarkerSeen(bodyPieces) then PROCESSING else READING)
              && (bodyPieces != [] && MarkerInLastOnly(bodyPieces) <==>
                    end.state.PROCESSING? && ReadingUntilLast(FreshIntake(limit), pieces))
              && (bodyPieces != [] && MarkerInLastOnly(bodyPieces) ==> end.request == request)
  {
    hide ParseHeaders, Find, MarkerInLastOnly, MarkerSeen, UpToMarker, UpToLength, ReadingUntilLast, Receive;
    hide RecvPieces, HeadArrival, BodyPieces, Appended;
    var stream := Concat(pieces);
    assert "" + stream == stream;
    var start := FreshIntake(limit);
    assert AwaitingHead(start, "", limit);
    HeadPhase(start, "", pieces, limit);
    ParsedHeadSettles(stream, limit);
    BodyPiecesConcat(pieces, headLength);
    var bodyPieces := BodyPieces(pieces, headLength);
    var ready := HeadDone(stream, limit);
    assert "" + Concat(bodyPieces) == Concat(bodyPieces);
    if ready.request.head.state.REQ_BODY? {
      BodyLengthPositive(stream, limit);
      LengthPieces(ready, bodyPieces);
      if |stream| - headLength == ready.request.head.contentLength {
        BodyPiecesAreRecv(pieces, headLength);
        LengthBodyReceived(ready, bodyPieces);
      }
    }
    if ready.request.head.state.REQ_CHUNKED? {
      ChunkedPieces(ready, bodyPieces);
      ChunkedBodyReceived(ready, bodyPieces);
    }
  }

  lemma BodyLengthPositive(stream: string, limit: nat)
    requires HeadOf(stream, limit).state.REQ_BODY?
    ensures HeadOf(stream, limit).contentLength > 0
  {
    hide Find, Header, StrToLl10, ToLower;
    if Find(stream, BLANK_LINE, 0).Some? {
      LinesLeaveBodyOpen(stream[..Find(stream, BLANK_LINE, 0).value], 0, FRESH_HEAD, true);
    }
  }

  /** The line loop itself never announces a body. */
  lemma {:induction false} LinesLeaveBodyOpen(section: string, start: nat, h: Head, first: bool)
    requires !h.state.REQ_BODY?
    ensures !ParseLines(section, start, h, first).state.REQ_BODY?
    decreases |section| - start
  {
    hide Find, MethodOf;
    if start < |section| {
      var lineEnd := LineEndFrom(section, start);
      var line := section[start..lineEnd];
      LinesLeaveBodyOpen(section, lineEnd + 2, h, first);
      LineLeavesBodyOpen(h, line, first);
      LinesLeaveBodyOpen(section, lineEnd + 2, ParseOne(h, line, first), false);
    }
  }

  lemma LineLeavesBodyOpen(h: Head, line: string, first: bool)
    requires !h.state.REQ_BODY?
    ensures !ParseOne(h, line, first).state.REQ_BODY?
  {
    hide Find, MethodOf, Trim, ToLower;
  }

  lemma {:induction false} BodyPiecesAreRecv(pieces: seq<string>, missing: nat)
    requires RecvPieces(pieces)
    ensures RecvPieces(BodyPieces(pieces, missing))
    decreases |pieces|
  {
    if pieces != [] && |pieces[0]| < missing {
      BodyPiecesAreRecv(pieces[1..], missing - |pieces[0]|);
    }
  }

  /** If the marker ends the body, occurs nowhere else in it and is not cut, it is seen exactly
      when the last piece arrives. */
  lemma {:induction false} UncutMarkerSeenLast(pieces: seq<string>)
    requires pieces != [] && |pieces[|pieces| - 1]| >= |LAST_CHUNK|
    requires |Concat(pieces)| >= |LAST_CHUNK|
    requires Find(Concat(pieces), LAST_CHUNK, 0) == Some(|Concat(pieces)| - |LAST_CHUNK|)
    ensures MarkerInLastOnly(pieces)
    decreases |pieces|
  {
    hide Find, OccursAt;
    var first := pieces[0];
    var rest := pieces[1..];
    var body := Concat(pieces);
    if rest == [] {
      assert body == first;
    } else {
      assert body == first + Concat(rest);
      LastNoLonger(rest);
      var e := |Concat(rest)| - |LAST_CHUNK|;
      forall j: nat ensures OccursAt(Concat(rest), LAST_CHUNK, j) <==> OccursAt(body, LAST_CHUNK, |first| + j) {
        OccursBehind(first, Concat(rest), LAST_CHUNK, j);
      }
      assert |first| + e == |body| - |LAST_CHUNK|;
      assert OccursAt(Concat(rest), LAST_CHUNK, e);
      var found := Find(Concat(rest), LAST_CHUNK, 0);
      assert found.Some? && OccursAt(body, LAST_CHUNK, |first| + found.value);
      assert found.value == e;
      UncutMarkerSeenLast(rest);
      if ChunkedDone(first) {
        FindInExtension(first, Concat(rest), LAST_CHUNK, 0);
        OccurrenceFits(first, LAST_CHUNK, Find(first, LAST_CHUNK, 0).value);
        assert false;
      }
      forall i | 0 <= i < |pieces| ensures ChunkedDone(pieces[i]) <==> i == |pieces| - 1 {
        if i > 0 {
          assert pieces[i] == rest[i - 1];
        }
      }
    }
  }

  lemma OccurrenceFits(s: string, pat: string, i: nat)
    requires OccursAt(s, pat, i)
    ensures i + |pat| <= |s|
  {}

  lemma {:induction false} LastNoLonger(pieces: seq<string>)
    requires pieces != []
    ensures |pieces[|pieces| - 1]| <= |Concat(pieces)|
    decreases |pieces|
  {
    if pieces[1..] != [] {
      LastNoLonger(pieces[1..]);
    }
  }

  // ---------------------------------------------------------------- 431

  predicate NoError(c: Intake) {
    c.error == 0 && (c.request.head.state.REQ_BODY? || c.request.head.state.REQ_CHUNKED?)
  }

  lemma {:induction false} BodyNeverFails(c: Intake, pieces: seq<string>)
    requires NoError(c)
    ensures Receive(c, pieces).error == 0
    decreases |pieces|
  {
    if pieces != [] {
      BodyNeverFails(HandleRead(c, Some(pieces[0])), pieces[1..]);
    }
  }

  lemma StatusOfRefusal(stream: string, limit: nat)
    ensures HeadOf(stream, limit).status in {200, 400, 413, 501, 505}
  {
    hide Find, Header, StrToLl10, ToLower, ParseLines;
    if Find(stream, BLANK_LINE, 0).Some? {
      LinesStatus(stream[..Find(stream, BLANK_LINE, 0).value], 0, FRESH_HEAD, true);
    }
  }

  lemma {:induction false} LinesStatus(section: string, start: nat, h: Head, first: bool)
    requires h.status in {200, 400, 501, 505}
    ensures ParseLines(section, start, h, first).status in {200, 400, 501, 505}
    decreases |section| - start
  {
    hide Find, MethodOf;
    if start < |section| {
      var lineEnd := LineEndFrom(section, start);
      var line := section[start..lineEnd];
      LinesStatus(section, lineEnd + 2, h, first);
      LineStatus(h, line, first);
      LinesStatus(section, lineEnd + 2, ParseOne(h, line, first), false);
    }
  }

  lemma LineStatus(h: Head, line: string, first: bool)
    requires h.status in {200, 400, 501, 505}
    ensures ParseOne(h, line, first).status in {200, 400, 501, 505}
  {
    hide Find, MethodOf, Trim, ToLower;
  }

  /** How many bytes have come in when the header section is complete, or in all if it never is. */
  function ArrivedByHead(pieces: seq<string>): nat {
    match Find(Concat(pieces), BLANK_LINE, 0)
    case Some(end) => HeadArrival(pieces, end + 4)
    case None => |Concat(pieces)|
  }

  /** The 431 answer depends on the fragmentation: it comes exactly when more than 8192 bytes, body
      bytes included, have come in by the time the header section is complete, or at all if it never
      is. */
  lemma HeaderTooLargeIff(pieces: seq<string>, limit: nat)
    requires RecvPieces(pieces)
    ensures Receive(FreshIntake(limit), pieces).error == 431 <==> ArrivedByHead(pieces) > 8192
  {
    hide ParseHeaders, Find;
    var stream := Concat(pieces);
    assert "" + stream == stream;
    if Find(stream, BLANK_LINE, 0).None? {
      HeadUnfinished(FreshIntake(limit), "", pieces, limit);
    } else {
      HeadPhase(FreshIntake(limit), "", pieces, limit);
      StatusOfRefusal(stream, limit);
      ParsedHeadSettles(stream, limit);
      if AwaitingBody(HeadDone(stream, limit)) {
        BodyNeverFails(HeadDone(stream, limit), BodyPieces(pieces, Find(stream, BLANK_LINE, 0).value + 4));
      }
    }
  }

  /** One stream, two answers: with a header section of at most 8192 bytes and an 8192-byte body, one
      cutting trips 431 and another does not. */
  lemma SameStreamTwoAnswers(head: string, body: string, limit: nat)
    requires HeadEndsAt(head + body, |head|) && |head| <= MAX_HEADER_SIZE && |body| == MAX_HEADER_SIZE
    ensures exists apart, together ::
              && RecvPieces(apart) && RecvPieces(together) && Concat(apart) == Concat(together) == head + body
              && Receive(FreshIntake(limit), apart).error != 431
              && Receive(FreshIntake(limit), together).error == 431
  {
    hide HeadEndsAt, Receive, RecvPieces, ArrivedByHead;
    CutBehindHead(head, body);
    CutBehindLimit(head, body);
    HeaderTooLargeIff(Apart(head, body), limit);
    HeaderTooLargeIff(Together(head, body), limit);
  }

  /** The header section in a piece of its own. */
  function Apart(head: string, body: string): seq<string> {
    [head, body]
  }

  /** The second piece brings the rest of the header section and just too many body bytes. */
  function Together(head: string, body: string): seq<string>
    requires 1 <= |head| <= MAX_HEADER_SIZE && |body| == MAX_HEADER_SIZE
  {
    var split := MAX_HEADER_SIZE + 1 - |head|;
    [head[..1], head[1..] + body[..split], body[split..]]
  }

  lemma CutBehindHead(head: string, body: string)
    requires HeadEndsAt(head + body, |head|) && |head| <= MAX_HEADER_SIZE && |body| == MAX_HEADER_SIZE
    ensures |head| > 0 && RecvPieces(Apart(head, body)) && Concat(Apart(head, body)) == head + body
    ensures ArrivedByHead(Apart(head, body)) <= MAX_HEADER_SIZE
  {
    hide Find;
    var pieces := Apart(head, body);
    assert pieces[1..] == [body] && Concat([body]) == body;
    assert Concat(pieces) == head + body;
  }

  lemma CutBehindLimit(head: string, body: string)
    requires HeadEndsAt(head + body, |head|) && |head| <= MAX_HEADER_SIZE && |body| == MAX_HEADER_SIZE
    ensures |head| > 0 && RecvPieces(Together(head, body)) && Concat(Together(head, body)) == head + body
    ensures ArrivedByHead(Together(head, body)) > MAX_HEADER_SIZE
  {
    hide Find;
    var split := MAX_HEADER_SIZE + 1 - |head|;
    var pieces := Together(head, body);
    var second := head[1..] + body[..split];
    assert pieces[1..] == [second, body[split..]] && pieces[1..][1..] == [body[split..]];
    assert Concat([body[split..]]) == body[split..];
    assert Concat(pieces) == head[..1] + (second + body[split..]);
    assert Concat(pieces) == head + body;
    assert HeadArrival(pieces[1..], |head| - 1) == |second|;
  }
}
