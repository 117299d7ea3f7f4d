/** Bodies that are not a chunked coding: what the decoder makes of them, byte by byte. */
module ChunkedRefusals {
  import opened ByteStrings
  import opened CNumbers
  import opened ChunkedDecoder
  import opened ChunkedCoding

  /** A chunk whose data is not followed by CRLF, and whatever comes then. With no data it is a last
      chunk that something other than an empty line follows. */
  datatype Broken = Broken(sizeText: string, extension: string, data: string, closing: string, rest: string)

  predicate IsBroken(b: Broken) {
    && ValidHeader(b.sizeText, b.extension, |b.data|)
    && |b.sizeText + b.extension| + 4 + |b.data| < SIZE_T_RANGE
    && |b.closing| == 2 && b.closing != CRLF
  }

  function BrokenText(b: Broken): string {
    b.sizeText + b.extension + CRLF + b.data + b.closing + b.rest
  }

  /** Well-formed chunks one after the other. */
  function Front(chunks: seq<Chunk>): string {
    if chunks == [] then "" else EncodeChunk(chunks[0]) + Front(chunks[1..])
  }

  predicate ValidChunks(chunks: seq<Chunk>) {
    forall i :: 0 <= i < |chunks| ==> ValidChunk(chunks[i])
  }

  lemma BrokenIsMalformed(b: Broken)
    requires IsBroken(b)
    ensures ScanChunk(BrokenText(b)) == Malformed
  {
    hide AnnouncedSize, Find, ScanSized, AllInBase, NumberOf;
    var line := b.sizeText + b.extension;
    HeaderLine(b.sizeText, b.extension, |b.data|);
    var behind := b.data + b.closing + b.rest;
    var buffer := BrokenText(b);
    assert buffer == line + CRLF + behind;
    LineEnd(line, behind);
    assert buffer[..|line|] == line;
    SizedScanBroken(line + CRLF, b.data, b.closing, b.rest);
    assert buffer == line + CRLF + b.data + b.closing + b.rest;
  }

  lemma SizedScanBroken(head: string, data: string, closing: string, rest: string)
    requires |head| + |data| + 2 < SIZE_T_RANGE && |closing| == 2 && closing != CRLF
    ensures ScanSized(head + data + closing + rest, |head|, |data|) == Malformed
  {
    var buffer := head + data + closing + rest;
    var total := |head| + |data| + 2;
    assert buffer[total - 2..total] == closing;
    CrlfAt(buffer, total - 2);
    assert CRLF == ['\r', '\n'] && closing == [buffer[total - 2], buffer[total - 1]];
  }

  lemma MalformedNeverTraps(buffer: string, decoded: string, limit: nat)
    requires ScanChunk(buffer) == Malformed
    ensures !Traps(buffer, decoded, limit) && Drain(buffer, decoded, limit) == Decoder(buffer, decoded, BadRequest)
  {
    hide ScanChunk;
  }

  /** Well-formed chunks and then a broken one are refused as malformed, unless the limit is exceeded
      before it comes to that. */
  lemma {:induction false} BrokenIsRefused(chunks: seq<Chunk>, b: Broken, decoded: string, limit: nat)
    requires ValidChunks(chunks) && IsBroken(b) && !OverLimit(|decoded|, limit)
    ensures var body := Front(chunks) + BrokenText(b);
            && !Traps(body, decoded, limit)
            && Drain(body, decoded, limit).outcome ==
                 if OverLimit(|decoded + Payload(chunks)|, limit) then TooLarge else BadRequest
    decreases |chunks|
  {
    hide ScanChunk, BrokenText, IsBroken, AcceptsWrapped, ValidChunk;
    if chunks == [] {
      BrokenIsMalformed(b);
      MalformedNeverTraps(BrokenText(b), decoded, limit);
      assert "" + BrokenText(b) == BrokenText(b) && decoded + "" == decoded;
    } else {
      var c := chunks[0];
      var rest := Front(chunks[1..]) + BrokenText(b);
      assert Front(chunks) + BrokenText(b) == EncodeChunk(c) + rest;
      assert ValidChunk(c);
      ValidChunkScans(c, rest);
      EncodedNotWrapped(c, rest);
      assert decoded + Payload(chunks) == (decoded + c.data) + Payload(chunks[1..]);
      if !OverLimit(|decoded + c.data|, limit) {
        BrokenIsRefused(chunks[1..], b, decoded + c.data, limit);
      }
    }
  }

  lemma ValidChunkScans(c: Chunk, rest: string)
    requires ValidChunk(c)
    ensures ScanChunk(EncodeChunk(c) + rest) == Data(c.data, rest)
  {
    hide ScanChunk;
    ScanEncoded(c, |c.data|, rest);
  }

  /** The same however the body is sliced. */
  lemma BrokenIsRefusedInSlices(chunks: seq<Chunk>, b: Broken, slices: seq<string>, limit: nat)
    requires ValidChunks(chunks) && IsBroken(b) && Concat(slices) == Front(chunks) + BrokenText(b)
    ensures FeedAll(START, slices, limit).outcome ==
              if OverLimit(|Payload(chunks)|, limit) then TooLarge else BadRequest
  {
    hide Drain, FeedAll, Traps, Front, Payload, BrokenText, IsBroken, ValidChunk;
    BrokenIsRefused(chunks, b, "", limit);
    assert "" + Concat(slices) == Concat(slices) && "" + Payload(chunks) == Payload(chunks);
    NothingBuffered();
    SliceInvariance(START, slices, limit);
  }

  /** A trailer section behind the last chunk is no empty line, so the body is refused. */
  lemma TrailerIsBroken(sizeText: string, extension: string, trailer: string, rest: string)
    requires ValidHeader(sizeText, extension, 0) && |sizeText + extension| + 4 < SIZE_T_RANGE
    requires |trailer| >= 2 && trailer[..2] != CRLF
    ensures var b := Broken(sizeText, extension, "", trailer[..2], trailer[2..] + rest);
            IsBroken(b) && BrokenText(b) == sizeText + extension + CRLF + (trailer + rest)
  {
    assert trailer[..2] + (trailer[2..] + rest) == trailer + rest;
  }

  // ---------------------------------------------------------------- odd header lines

  /** A header line is read as strtoul reads it: white space, a sign and 0x in front of the digits and
      anything behind them up to the semicolon make no difference, and without digits the size is 0. */
  lemma SizeRead(white: string, sign: string, prefix: string, digits: string, junk: string, extension: string)
    requires White(white) && IsSign(sign) && digits != "" && AllInBase(digits, 16)
    requires prefix == "" || prefix == "0x" || prefix == "0X"
    requires junk == "" || (DigitValue(junk[0]) >= 16 && (digits == "0" ==> junk[0] != 'x' && junk[0] != 'X'))
    requires extension == "" || extension[0] == ';'
    requires forall i :: 0 <= i < |junk| ==> junk[i] != ';'
    ensures var n := NumberOf(digits, 16);
            AnnouncedSize(white + (sign + (prefix + (digits + junk))) + extension) ==
              if n > 0xffff_ffff_ffff_ffff then 0xffff_ffff_ffff_ffff
              else if sign == "-" && n > 0 then 0x1_0000_0000_0000_0000 - n
              else n
  {
    hide NumberOf, StrToUl16, White, AllInBase, Find;
    StrToUl16Reads(white, sign, prefix, digits, junk);
    NoSemicolon(white, sign, prefix, digits, junk);
    FieldBeforeSemicolon(white + (sign + (prefix + (digits + junk))), extension);
  }

  lemma NoSemicolon(white: string, sign: string, prefix: string, digits: string, junk: string)
    requires White(white) && IsSign(sign) && AllInBase(digits, 16)
    requires prefix == "" || prefix == "0x" || prefix == "0X"
    requires forall i :: 0 <= i < |junk| ==> junk[i] != ';'
    ensures var s := white + (sign + (prefix + (digits + junk))); forall i :: 0 <= i < |s| ==> s[i] != ';'
  {
    forall i | 0 <= i < |digits| ensures digits[i] != ';' {
      assert DigitValue(digits[i]) < 16;
    }
  }

  lemma FieldBeforeSemicolon(field: string, extension: string)
    requires forall i :: 0 <= i < |field| ==> field[i] != ';'
    requires extension == "" || extension[0] == ';'
    ensures SizeField(field + extension) == field
  {
    var line := field + extension;
    forall j: nat | j < |field| ensures !OccursAt(line, ";", j) {
      assert line[j] == field[j] && ";"[0] == ';';
    }
    if extension == "" {
      assert line == field;
    } else {
      assert OccursAt(line, ";", |field|);
      assert Find(line, ";", 0) == Some(|field|);
      assert line[..|field|] == field;
    }
  }

  /** A header line that does not even start with a digit ends the body, if an empty line follows. */
  lemma NoDigitsEndsBody(white: string, junk: string, extension: string, rest: string, decoded: string, limit: nat)
    requires White(white) && !StartsWhite(junk)
    requires junk == "" || (DigitValue(junk[0]) >= 16 && junk[0] != '+' && junk[0] != '-')
    requires extension == "" || extension[0] == ';'
    requires forall i :: 0 <= i < |junk| ==> junk[i] != ';'
    requires Find(white + junk + extension, CRLF, 0).None? && |white + junk + extension| + 4 < SIZE_T_RANGE
    ensures Drain(white + junk + extension + CRLF + CRLF + rest, decoded, limit) == Decoder("", decoded, Finished)
  {
    hide StrToUl16, White, Find;
    var line := white + junk + extension;
    StrToUl16Nothing(white, junk);
    WhiteHasNoSemicolon(white);
    FieldBeforeSemicolon(white + junk, extension);
    assert AnnouncedSize(line) == 0;
    var buffer := line + CRLF + CRLF + rest;
    assert buffer == line + CRLF + (CRLF + rest);
    LineEnd(line, CRLF + rest);
    assert buffer[..|line|] == line;
    hide AnnouncedSize, SizeField;
    SizedScanEncoded(line + CRLF, "", rest);
    assert buffer == (line + CRLF) + "" + CRLF + rest;
  }

  lemma WhiteHasNoSemicolon(white: string)
    requires White(white)
    ensures forall i :: 0 <= i < |white| ==> white[i] != ';'
  {}

  // ---------------------------------------------------------------- sizes that wrap

  /** A header line of hexadecimal digits, with its CRLF. */
  predicate DigitLine(line: string) {
    line != "" && AllInBase(line, 16)
  }

  /** A chunk announced with a size that wraps the count of bytes needed is accepted for 2^64 - 2 alone;
      for the few sizes that take the count to 0 or 1 the decoder throws, and every other is refused, or
      waited for while a single byte is missing. */
  lemma WrappedVerdict(line: string, rest: string, decoded: string, limit: nat)
    requires DigitLine(line) && |line| + 4 + |rest| <= LONG_MAX
    requires NumberOf(line, 16) < 0x1_0000_0000_0000_0000 <= |line| + 4 + NumberOf(line, 16)
    ensures var total := |line| + 4 + NumberOf(line, 16) - 0x1_0000_0000_0000_0000;
            var buffer := line + CRLF + rest;
            && (total < 2 ==> Drain(buffer, decoded, limit).outcome == Threw)
            && (total >= 2 && NumberOf(line, 16) < 0xffff_ffff_ffff_fffe ==>
                  Drain(buffer, decoded, limit).outcome == BadRequest)
            && (NumberOf(line, 16) == 0xffff_ffff_ffff_fffe ==> ScanChunk(buffer) == Data(rest, rest))
            && (NumberOf(line, 16) == 0xffff_ffff_ffff_ffff ==>
                  Drain(buffer, decoded, limit).outcome == if rest == "" then NeedMore else BadRequest)
  {
    hide NumberOf, AnnouncedSize, Find;
    assert line + "" == line;
    assert Find("", CRLF, 0).None?;
    HeaderLine(line, "", NumberOf(line, 16));
    LineEnd(line, rest);
    var buffer := line + CRLF + rest;
    assert buffer[..|line|] == line;
    WrappedCases(buffer, |line|, NumberOf(line, 16));
    assert buffer[|line| + 2..] == rest;
    hide ScanSized;
  }

  lemma WrappedCases(buffer: string, p: nat, size: nat)
    requires Find(buffer, CRLF, 0) == Some(p) && p + 2 <= |buffer| <= LONG_MAX
    requires size < SIZE_T_RANGE <= p + 4 + size
    ensures var total := p + 4 + size - SIZE_T_RANGE;
            ScanSized(buffer, p + 2, size) ==
              if total < 2 then OutOfRange
              else if size == SIZE_T_RANGE - 2 then Data(buffer[p + 2..], buffer[p + 2..])
              else if total > |buffer| then Incomplete
              else Malformed
  {
    hide Find;
    var total := p + 4 + size - SIZE_T_RANGE;
    assert SizeT(p + 2 + size + 2) == total;
    CrlfsApart(buffer, p);
    if total >= 2 && total <= |buffer| {
      CrlfBefore(buffer, p, total);
    }
  }
}
