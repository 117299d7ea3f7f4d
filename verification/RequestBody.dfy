/** The request as a value, and processBodySlice as a function on it: one 8192-byte slice of the
    stored body is decoded per call. */
module RequestBody {
  import opened ByteStrings
  import opened CNumbers
  import opened ByteStore
  import opened RequestHead
  import opened ChunkedDecoder
  import opened ChunkedCoding

  /** PARSE_BYTE_SLICE */
  const SLICE: nat := 8192

  datatype RequestModel = RequestModel(head: Head, limit: nat, body: Store, decoded: Store,
                                       chunkBuffer: string, processed: bool)

  datatype SliceResult = Ready | Pending | Thrown

  predicate ValidRequest(r: RequestModel) {
    Valid(r.body) && Valid(r.decoded)
  }

  predicate BodySettled(r: RequestModel) {
    r.head.contentLength >= 0 || r.processed || r.head.state.REQ_ERROR?
  }

  /** The decoded bytes as the store holds them after the appends of one call. */
  function Grown(s: Store, data: string): Store
    requires s.data <= data
  {
    Appended(s, data[|s.data|..])
  }

  /** The next slice of the stored body is read and all complete chunks are decoded. */
  function DecodeSlice(r: RequestModel): (RequestModel, Outcome)
    requires ValidRequest(r)
  {
    var buffer := r.chunkBuffer + ReadBytes(r.body, SLICE);
    var d := Drain(buffer, r.decoded.data, r.limit);
    DrainGrows(buffer, r.decoded.data, r.limit);
    (r.(body := AfterRead(r.body, SLICE), decoded := Grown(r.decoded, d.decoded), chunkBuffer := d.buffer), d.outcome)
  }

  function ProcessSlice(r: RequestModel): (RequestModel, SliceResult)
    requires ValidRequest(r)
  {
    if BodySettled(r) then (r, Ready)
    else
      var (next, outcome) := DecodeSlice(r);
      match outcome
      case NeedMore => (next, Pending)
      case Threw => (next, Thrown)
      case BadRequest => (next.(head := Refused(r.head, 400)), Ready)
      case TooLarge => (next.(head := Refused(r.head, 413)), Ready)
      case Finished => (Completed(next), Ready)
  }

  /** The decoded bytes replace the received ones, rewound, and the length header is set. */
  function Completed(r: RequestModel): RequestModel {
    var body := Rewound(Copied(r.decoded));
    r.(body := body, processed := true, chunkBuffer := "",
       head := r.head.(headers := r.head.headers["content-length" := Decimal(|body.data|)]))
  }

  lemma {:induction false} DrainGrows(buffer: string, decoded: string, limit: nat)
    ensures decoded <= Drain(buffer, decoded, limit).decoded
    decreases |buffer|
  {
    hide ScanChunk;
    if ScanChunk(buffer).Data? && !OverLimit(|decoded + ScanChunk(buffer).bytes|, limit) {
      DrainShorter(buffer);
      DrainGrows(ScanChunk(buffer).rest, decoded + ScanChunk(buffer).bytes, limit);
    }
  }

  lemma DrainShorter(buffer: string)
    requires ScanChunk(buffer).Data?
    ensures |ScanChunk(buffer).rest| < |buffer|
  {}

  /** Appending piece by piece and appending at once leave the same store. */
  lemma AppendTwice(s: Store, a: string, b: string)
    ensures Appended(Appended(s, a), b) == Appended(s, a + b)
  {
    assert s.data + a + b == s.data + (a + b);
    if b == "" {
      assert a + b == a;
    } else if a == "" {
      assert a + b == b;
    }
  }

  // ---------------------------------------------------------------- repeated calls

  /** At most `calls` calls of processBodySlice, stopping when one does not ask for more. */
  function Slices(r: RequestModel, calls: nat): (RequestModel, SliceResult)
    requires ValidRequest(r)
    decreases calls
  {
    if calls == 0 then (r, Pending)
    else
      var (next, result) := ProcessSlice(r);
      SliceKeepsValid(r);
      if result == Pending then Slices(next, calls - 1) else (next, result)
  }

  lemma SliceKeepsValid(r: RequestModel)
    requires ValidRequest(r)
    ensures ValidRequest(ProcessSlice(r).0)
  {
    hide Drain;
    DrainGrows(r.chunkBuffer + ReadBytes(r.body, SLICE), r.decoded.data, r.limit);
  }

  /** A chunked request part way through decoding: the bytes before the cursor have been drained,
      and the descriptor's offset is where the cursor is. */
  predicate Decoding(r: RequestModel) {
    && ValidRequest(r) && !BodySettled(r) && InStep(r.body, false)
    && Drain(r.body.data[..r.body.cursor], "", r.limit) == Decoder(r.chunkBuffer, r.decoded.data, NeedMore)
  }

  /** A chunked request before its first slice is decoding. */
  lemma StartsDecoding(r: RequestModel)
    requires ValidRequest(r) && !BodySettled(r) && InStep(r.body, false)
    requires r.body.cursor == 0 && r.chunkBuffer == "" && r.decoded.data == ""
    ensures Decoding(r)
  {
    NothingBuffered();
    assert r.body.data[..0] == "";
  }

  predicate Untrapped(r: RequestModel) {
    !Traps(r.body.data, "", r.limit)
  }

  /** The verdict on the whole stored body, decoded in one go. */
  function Whole(r: RequestModel): Decoder {
    Drain(r.body.data, "", r.limit)
  }

  /** One call moves on to the next slice, or ends with the verdict on the whole body. */
  lemma SliceStep(r: RequestModel)
    requires Decoding(r) && Untrapped(r)
    ensures var (next, result) := ProcessSlice(r);
            var d := Drain(r.body.data[..AfterRead(r.body, SLICE).cursor], "", r.limit);
            && (result == Pending <==> d.outcome == NeedMore)
            && (result == Pending ==> Decoding(next) && next.body == AfterRead(r.body, SLICE) &&
                                      next.limit == r.limit && next.head == r.head)
            && (result != Pending ==> SameResult(Whole(r), d) && Verdict(r, Whole(r), next, result))
  {
    hide Drain, Traps;
    SliceKeepsValid(r);
    var body := r.body;
    var after := AfterRead(body, SLICE);
    var slice := ReadBytes(body, SLICE);
    assert slice == body.data[body.cursor..after.cursor];
    var a := body.data[..body.cursor];
    assert body.data[..after.cursor] == a + slice;
    assert body.data == (a + slice) + body.data[after.cursor..];
    DrainSplit(a + slice, body.data[after.cursor..], "", r.limit);
    PrefixUntrapped(a + slice, body.data[after.cursor..], "", r.limit);
    DrainSplit(a, slice, "", r.limit);
    DrainGrows(r.chunkBuffer + slice, r.decoded.data, r.limit);
    GrownData(r.decoded, Drain(r.chunkBuffer + slice, r.decoded.data, r.limit).decoded);
  }

  lemma GrownData(s: Store, data: string)
    requires s.data <= data
    ensures Grown(s, data).data == data
  {
    assert s.data + data[|s.data|..] == data;
  }

  /** A body that does not trap has no prefix that traps. */
  lemma {:induction false} PrefixUntrapped(a: string, b: string, decoded: string, limit: nat)
    requires !Traps(a + b, decoded, limit)
    ensures !Traps(a, decoded, limit)
    decreases |a|
  {
    hide AcceptsWrapped, ScanChunk;
    if ScanChunk(a).Data? {
      var Data(bytes, rest) := ScanChunk(a);
      ScanInExtension(a, b);
      DrainShorter(a);
      if AcceptsWrapped(a) {
        assert rest + b == "";
        assert rest == "";
        NothingBuffered();
      } else if !OverLimit(|decoded + bytes|, limit) {
        PrefixUntrapped(rest, b, decoded + bytes, limit);
      }
    }
  }

  /** The request after the call that settles its body. */
  predicate Verdict(r: RequestModel, d: Decoder, end: RequestModel, result: SliceResult) {
    match d.outcome
    case NeedMore => false
    case Threw => result == Thrown
    case BadRequest => result == Ready && end.head == Refused(r.head, 400)
    case TooLarge => result == Ready && end.head == Refused(r.head, 413)
    case Finished =>
      && result == Ready && end.processed && Valid(end.body)
      && end.body.data == d.decoded && end.body.cursor == 0 && InStep(end.body, false)
      && end.head == r.head.(headers := r.head.headers["content-length" := Decimal(|d.decoded|)])
  }

  /** However the body is stored, enough calls to reach its end decide it exactly as decoding it in
      one go does: same outcome, same bytes, same length header; it stays pending only if the whole
      body is incomplete. */
  lemma {:induction false} SlicesDecideLikeWhole(r: RequestModel, calls: nat)
    requires Decoding(r) && Untrapped(r)
    requires calls > 0 && r.body.cursor + SLICE * calls >= |r.body.data|
    ensures var (end, result) := Slices(r, calls);
            (result == Pending <==> Whole(r).outcome == NeedMore) &&
            (result != Pending ==> Verdict(r, Whole(r), end, result))
    decreases calls
  {
    hide Drain, Traps, Verdict, ProcessSlice;
    SliceStep(r);
    SliceKeepsValid(r);
    var (next, result) := ProcessSlice(r);
    var after := AfterRead(r.body, SLICE);
    if result == Pending {
      if calls == 1 {
        assert after.cursor == |r.body.data|;
        assert r.body.data[..after.cursor] == r.body.data;
      } else {
        SlicesDecideLikeWhole(next, calls - 1);
        VerdictKeeps(r, next, Whole(r), Slices(r, calls).0, Slices(r, calls).1);
      }
    }
  }

  lemma VerdictKeeps(r: RequestModel, next: RequestModel, d: Decoder, end: RequestModel, result: SliceResult)
    requires r.head == next.head
    ensures Verdict(r, d, end, result) <==> Verdict(next, d, end, result)
  {}

  /** Calls after the body is settled change nothing and report it as ready. */
  lemma SettledRequestStays(r: RequestModel, calls: nat)
    requires ValidRequest(r) && calls > 0
    requires r.head.contentLength >= 0 || r.processed || r.head.state.REQ_ERROR?
    ensures Slices(r, calls) == (r, Ready)
  {}

  function CallsFor(length: nat): nat {
    (length + SLICE - 1) / SLICE
  }

  /** Round trip through the stored body: an encoded body of n bytes is decoded to its payload in
      ceil(n / 8192) calls, or refused with 413 exactly when the payload is over the limit. */
  lemma EncodedBodyDecodes(r: RequestModel, b: Body)
    requires ValidRequest(r) && !BodySettled(r) && InStep(r.body, false)
    requires r.body.cursor == 0 && r.chunkBuffer == "" && r.decoded.data == ""
    requires ValidBody(b) && r.body.data == Encode(b.chunks, b.last)
    ensures var (end, result) := Slices(r, (|r.body.data| + 8191) / 8192);
            if OverLimit(|Payload(b.chunks)|, r.limit)
            then result == Ready && end.head == Refused(r.head, 413)
            else Verdict(r, Decoder("", Payload(b.chunks), Finished), end, result)
  {
    hide Drain, Traps, Slices, Encode, Payload;
    var n := |r.body.data|;
    EncodedNotEmpty(b);
    assert SLICE * CallsFor(n) >= n && CallsFor(n) > 0;
    StartsDecoding(r);
    EncodedNeverTraps(b.chunks, b.last, "", r.limit);
    DecodeEncoded(b.chunks, b.last, "", r.limit);
    assert "" + Payload(b.chunks) == Payload(b.chunks);
    SlicesDecideLikeWhole(r, CallsFor(n));
  }

  lemma EncodedNotEmpty(b: Body)
    ensures Encode(b.chunks, b.last) != ""
  {
    if b.chunks != [] {
      assert |EncodeChunk(b.chunks[0])| >= 4;
    } else {
      assert |EncodeChunk(b.last)| >= 4;
    }
  }
}
