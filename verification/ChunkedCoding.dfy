/** Chunked transfer coding (section 7.1 of RFC 9112) as a sender writes it, and the round trip
    through the server's decoder. */
module ChunkedCoding {
  import opened ByteStrings
  import opened CNumbers
  import opened ChunkedDecoder

  /** A chunk header line and its data. The size text is any spelling of the size in hexadecimal;
      the extension is empty or starts with ';'. */
  datatype Chunk = Chunk(sizeText: string, extension: string, data: string)

  predicate ValidHeader(sizeText: string, extension: string, size: nat) {
    && sizeText != "" && AllInBase(sizeText, 16) && NumberOf(sizeText, 16) == size
    && (extension == "" || extension[0] == ';')
    && Find(extension, CRLF, 0).None?
  }

  /** The byte count of the whole chunk must be representable. */
  predicate ValidChunk(c: Chunk) {
    && c.data != ""
    && ValidHeader(c.sizeText, c.extension, |c.data|)
    && |c.sizeText + c.extension| + 4 + |c.data| < SIZE_T_RANGE
  }

  datatype Body = Body(chunks: seq<Chunk>, last: Chunk)

  /** Nonempty chunks and a last chunk of size zero; no trailer section. */
  predicate ValidBody(b: Body) {
    && (forall i :: 0 <= i < |b.chunks| ==> ValidChunk(b.chunks[i]))
    && b.last.data == "" && ValidHeader(b.last.sizeText, b.last.extension, 0)
    && |b.last.sizeText + b.last.extension| + 4 < SIZE_T_RANGE
  }

  function EncodeChunk(c: Chunk): string {
    c.sizeText + c.extension + CRLF + c.data + CRLF
  }

  function Encode(chunks: seq<Chunk>, last: Chunk): string {
    if chunks == [] then EncodeChunk(last)
    else EncodeChunk(chunks[0]) + Encode(chunks[1..], last)
  }

  function Payload(chunks: seq<Chunk>): string {
    if chunks == [] then "" else chunks[0].data + Payload(chunks[1..])
  }

  // ---------------------------------------------------------------- one chunk

  /** A header line announces the size it spells, whatever extension follows. */
  lemma HeaderLine(sizeText: string, extension: string, size: nat)
    requires ValidHeader(sizeText, extension, size) && size < SIZE_T_RANGE
    ensures AnnouncedSize(sizeText + extension) == size
    ensures Find(sizeText + extension, CRLF, 0).None?
  {
    var line := sizeText + extension;
    forall j: nat | j < |sizeText| ensures !OccursAt(line, ";", j) && !OccursAt(line, CRLF, j) {
      assert line[j] == sizeText[j] && DigitValue(line[j]) < 16;
      assert DigitValue(';') == 16 && DigitValue('\r') == 16;
      assert ";"[0] == ';';
      CrlfAt(line, j);
    }
    forall j: nat | |sizeText| <= j ensures !OccursAt(line, CRLF, j) {
      CrlfAt(line, j);
      CrlfAt(extension, j - |sizeText|);
    }
    SizeFieldOf(sizeText, extension);
    StrToUl16OfDigits(sizeText);
  }

  lemma SizeFieldOf(sizeText: string, extension: string)
    requires AllInBase(sizeText, 16) && (extension == "" || extension[0] == ';')
    ensures SizeField(sizeText + extension) == sizeText
  {
    var line := sizeText + extension;
    forall j: nat | j < |sizeText| ensures !OccursAt(line, ";", j) {
      assert line[j] == sizeText[j] && DigitValue(line[j]) < 16;
      assert DigitValue(';') == 16 && ";"[0] == ';';
    }
    if extension == "" {
      assert line == sizeText;
    } else {
      assert OccursAt(line, ";", |sizeText|);
      assert Find(line, ";", 0) == Some(|sizeText|);
      assert line[..|sizeText|] == sizeText;
    }
  }

  /** The decoder takes exactly the encoded chunk off the buffer. */
  lemma ScanEncoded(c: Chunk, size: nat, rest: string)
    requires ValidHeader(c.sizeText, c.extension, size) && size == |c.data|
    requires |c.sizeText + c.extension| + 4 + size < SIZE_T_RANGE
    ensures ScanChunk(EncodeChunk(c) + rest) == if size == 0 then Final(rest) else Data(c.data, rest)
  {
    hide AnnouncedSize, Find;
    var line := c.sizeText + c.extension;
    HeaderLine(c.sizeText, c.extension, size);
    var buffer := EncodeChunk(c) + rest;
    var behind := c.data + CRLF + rest;
    assert buffer == line + CRLF + behind;
    LineEnd(line, behind);
    assert buffer[..|line|] == line;
    SizedScanEncoded(line + CRLF, c.data, rest);
    assert buffer == line + CRLF + c.data + CRLF + rest;
  }

  lemma SizedScanEncoded(head: string, data: string, rest: string)
    requires |head| + |data| + 2 < SIZE_T_RANGE
    ensures ScanSized(head + data + CRLF + rest, |head|, |data|) ==
            if data == "" then Final(rest) else Data(data, rest)
  {
    var buffer := head + data + CRLF + rest;
    var total := |head| + |data| + 2;
    assert buffer[total..] == rest;
    assert buffer[|head|..|head| + |data|] == data;
    CrlfAt(buffer, total - 2);
  }

  // ---------------------------------------------------------------- whole bodies

  /** The decoder stays clear of the wrap-around on every encoded body. */
  lemma {:induction false} EncodedNeverTraps(chunks: seq<Chunk>, last: Chunk, decoded: string, limit: nat)
    requires ValidBody(Body(chunks, last))
    ensures !Traps(Encode(chunks, last), decoded, limit)
    decreases |chunks|
  {
    hide ScanChunk, AcceptsWrapped;
    if chunks == [] {
      ScanEncoded(last, 0, "");
      assert EncodeChunk(last) + "" == EncodeChunk(last);
    } else {
      ScanEncoded(chunks[0], |chunks[0].data|, Encode(chunks[1..], last));
      EncodedNotWrapped(chunks[0], Encode(chunks[1..], last));
      EncodedNeverTraps(chunks[1..], last, decoded + chunks[0].data, limit);
    }
  }

  lemma EncodedNotWrapped(c: Chunk, rest: string)
    requires ValidChunk(c)
    ensures !AcceptsWrapped(EncodeChunk(c) + rest)
  {
    hide AnnouncedSize, Find, ScanChunk;
    var line := c.sizeText + c.extension;
    HeaderLine(c.sizeText, c.extension, |c.data|);
    var behind := c.data + CRLF + rest;
    assert EncodeChunk(c) + rest == line + CRLF + behind;
    LineEnd(line, behind);
    assert (line + CRLF + behind)[..|line|] == line;
  }

  /** Decoding an encoded body yields its payload; it is refused exactly when the payload is over
      the limit. */
  lemma {:induction false} DecodeEncoded(chunks: seq<Chunk>, last: Chunk, decoded: string, limit: nat)
    requires ValidBody(Body(chunks, last)) && !OverLimit(|decoded|, limit)
    ensures var d := Drain(Encode(chunks, last), decoded, limit);
            if OverLimit(|decoded + Payload(chunks)|, limit) then d.outcome == TooLarge
            else d == Decoder("", decoded + Payload(chunks), Finished)
    decreases |chunks|
  {
    hide ScanChunk;
    if chunks == [] {
      ScanEncoded(last, 0, "");
      assert EncodeChunk(last) + "" == EncodeChunk(last);
      assert decoded + "" == decoded;
    } else {
      ScanEncoded(chunks[0], |chunks[0].data|, Encode(chunks[1..], last));
      var more := decoded + chunks[0].data;
      assert decoded + Payload(chunks) == more + Payload(chunks[1..]);
      if !OverLimit(|more|, limit) {
        DecodeEncoded(chunks[1..], last, more, limit);
      }
    }
  }

  /** An encoding that is cut short keeps the decoder asking for more. */
  lemma {:induction false} PrefixPends(chunks: seq<Chunk>, last: Chunk, front: string, missing: string,
                                       decoded: string, limit: nat)
    requires ValidBody(Body(chunks, last)) && !OverLimit(|decoded + Payload(chunks)|, limit)
    requires front + missing == Encode(chunks, last) && missing != ""
    ensures Drain(front, decoded, limit).outcome == NeedMore
    decreases |chunks|
  {
    hide ScanChunk, AcceptsWrapped;
    if !ScanChunk(front).Incomplete? {
      if chunks == [] {
        ScanEncoded(last, 0, "");
        assert EncodeChunk(last) + "" == EncodeChunk(last);
        ScanInExtension(front, missing);
      } else {
        ScanInExtension(front, missing);
        var c := chunks[0];
        ScanEncoded(c, |c.data|, Encode(chunks[1..], last));
        EncodedNotWrapped(c, Encode(chunks[1..], last));
        assert ScanChunk(front).Data? && ScanChunk(front).bytes == c.data;
        assert decoded + Payload(chunks) == (decoded + c.data) + Payload(chunks[1..]);
        PrefixPends(chunks[1..], last, ScanChunk(front).rest, missing, decoded + c.data, limit);
      }
    }
  }

  /** Round trip: however the encoded body is sliced, feeding the slices decodes the payload, and
      fails with "too large" exactly when the payload is over the limit. */
  lemma RoundTrip(b: Body, slices: seq<string>, limit: nat)
    requires ValidBody(b) && Concat(slices) == Encode(b.chunks, b.last)
    ensures var d := FeedAll(START, slices, limit);
            if OverLimit(|Payload(b.chunks)|, limit) then d.outcome == TooLarge
            else d.outcome == Finished && d.decoded == Payload(b.chunks)
  {
    hide Drain, FeedAll, Traps, Encode, Payload;
    EncodedNeverTraps(b.chunks, b.last, "", limit);
    assert "" + Concat(slices) == Concat(slices);
    NothingBuffered();
    SliceInvariance(START, slices, limit);
    DecodeEncoded(b.chunks, b.last, "", limit);
    assert "" + Payload(b.chunks) == Payload(b.chunks);
  }
}
