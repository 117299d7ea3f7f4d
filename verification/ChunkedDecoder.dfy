/** The chunked body decoder as a function of the bytes received so far: one pass of the inner
    loop of Request::processBodySlice, the whole loop, and its behaviour over slices. */
module ChunkedDecoder {
  import opened ByteStrings
  import opened CNumbers

  /** What the front of the chunk buffer holds. */
  datatype Scan =
    | Incomplete
    | OutOfRange                          // substr past the end: std::out_of_range
    | Malformed                           // no CRLF where the chunk data should end
    | Final(rest: string)
    | Data(bytes: string, rest: string)

  /** The chunk size field of a header line: everything before the first ';'. */
  function SizeField(line: string): string {
    match Find(line, ";", 0)
    case Some(semi) => line[..semi]
    case None => line
  }

  function AnnouncedSize(line: string): (n: nat)
    ensures n < SIZE_T_RANGE
  {
    StrToUl16(SizeField(line))
  }

  /** Reads one chunk off the front. The byte count needed is a size_t sum and wraps around. A
      total below 2 means that the position of the closing CRLF wrapped to within two of 2^64,
      which lies past the end of every string. */
  function ScanChunk(buffer: string): Scan {
    match Find(buffer, CRLF, 0)
    case None => Incomplete
    case Some(p) => ScanSized(buffer, p + 2, AnnouncedSize(buffer[..p]))
  }

  /** The chunk whose data starts at `start` and is announced to be `size` bytes long. */
  function ScanSized(buffer: string, start: nat, size: nat): Scan
    requires start <= |buffer|
  {
    var total := SizeT(start + size + 2);
    if |buffer| < total then Incomplete
    else if total < 2 then OutOfRange
    else if !OccursAt(buffer, CRLF, total - 2) then Malformed
    else if size == 0 then Final(buffer[total..])
    else Data(Substr(buffer, start, size), buffer[total..])
  }

  datatype Outcome = NeedMore | Finished | BadRequest | TooLarge | Threw

  datatype Decoder = Decoder(buffer: string, decoded: string, outcome: Outcome)

  predicate OverLimit(size: nat, limit: nat) {
    limit > 0 && size > limit
  }

  /** The inner loop: chunks are taken off the buffer until it runs dry, ends or fails. */
  function Drain(buffer: string, decoded: string, limit: nat): (r: Decoder)
    decreases |buffer|
  {
    match ScanChunk(buffer)
    case Incomplete => Decoder(buffer, decoded, NeedMore)
    case OutOfRange => Decoder(buffer, decoded, Threw)
    case Malformed => Decoder(buffer, decoded, BadRequest)
    case Final(_) => Decoder("", decoded, Finished)
    case Data(bytes, rest) =>
      if OverLimit(|decoded + bytes|, limit) then Decoder(buffer, decoded + bytes, TooLarge)
      else Drain(rest, decoded + bytes, limit)
  }

  /** One processBodySlice call on a slice; a settled decoder ignores its input. */
  function Feed(d: Decoder, slice: string, limit: nat): Decoder {
    if d.outcome == NeedMore then Drain(d.buffer + slice, d.decoded, limit) else d
  }

  function FeedAll(d: Decoder, slices: seq<string>, limit: nat): Decoder
    decreases |slices|
  {
    if slices == [] then d else FeedAll(Feed(d, slices[0], limit), slices[1..], limit)
  }

  const START := Decoder("", "", NeedMore)

  // ---------------------------------------------------------------- wrap-around

  /** The one announced size that breaks the decoder: with 2^64 - 2 the total wraps so that the
      header's own CRLF is taken for the chunk's closing one, and whatever happens to be buffered
      is taken as the chunk. */
  const TRAP_SIZE: nat := SIZE_T_RANGE - 2

  predicate HeaderAnnounces(buffer: string, size: nat) {
    match Find(buffer, CRLF, 0)
    case None => false
    case Some(p) => AnnouncedSize(buffer[..p]) == size
  }

  /** The chunk at the front is accepted although its byte count wraps. */
  predicate AcceptsWrapped(buffer: string) {
    ScanChunk(buffer).Data? &&
    var p := Find(buffer, CRLF, 0).value;
    p + 4 + AnnouncedSize(buffer[..p]) >= SIZE_T_RANGE
  }

  /** A total that wraps is accepted exactly for the trap size, which then takes all that is
      buffered behind the header and takes nothing off the buffer but the header. */
  lemma AcceptedWrapIsTrap(buffer: string)
    requires |buffer| <= LONG_MAX
    ensures AcceptsWrapped(buffer) <==> HeaderAnnounces(buffer, TRAP_SIZE)
    ensures AcceptsWrapped(buffer) ==>
              var behind := buffer[Find(buffer, CRLF, 0).value + 2..];
              ScanChunk(buffer) == Data(behind, behind)
  {
    if Find(buffer, CRLF, 0).Some? {
      var p := Find(buffer, CRLF, 0).value;
      WrappedScan(buffer, p, AnnouncedSize(buffer[..p]));
    }
  }

  lemma WrappedScan(buffer: string, p: nat, size: nat)
    requires |buffer| <= LONG_MAX && size < SIZE_T_RANGE
    requires Find(buffer, CRLF, 0) == Some(p)
    ensures ScanSized(buffer, p + 2, size).Data? && p + 4 + size >= SIZE_T_RANGE <==> size == TRAP_SIZE
    ensures size == TRAP_SIZE ==> ScanSized(buffer, p + 2, size) == Data(buffer[p + 2..], buffer[p + 2..])
  {
    hide Find;
    if p + 4 + size >= SIZE_T_RANGE {
      var total := p + 4 + size - SIZE_T_RANGE;
      assert SizeT(p + 2 + size + 2) == total;
      CrlfsApart(buffer, p);
      CrlfBefore(buffer, p, total);
    }
  }

  lemma CrlfBefore(buffer: string, p: nat, total: nat)
    requires Find(buffer, CRLF, 0) == Some(p) && total <= p + 3
    ensures 2 <= total <= |buffer| && OccursAt(buffer, CRLF, total - 2) <==> total == p + 2
  {
    hide Find;
    CrlfsApart(buffer, p);
  }

  // ---------------------------------------------------------------- slice invariance

  /** Somewhere in the run a wrapped chunk is accepted with further bytes already buffered. */
  predicate Traps(buffer: string, decoded: string, limit: nat)
    decreases |buffer|
  {
    match ScanChunk(buffer)
    case Data(bytes, rest) =>
      (AcceptsWrapped(buffer) && rest != "") ||
      (!OverLimit(|decoded + bytes|, limit) && Traps(rest, decoded + bytes, limit))
    case _ => false
  }

  /** A decided front of the buffer stays decided, the same way, when more bytes arrive; only a
      wrapped chunk can swallow them. */
  lemma ScanInExtension(a: string, b: string)
    requires !ScanChunk(a).Incomplete?
    ensures AcceptsWrapped(a + b) <==> AcceptsWrapped(a)
    ensures Extends(ScanChunk(a), ScanChunk(a + b), b, AcceptsWrapped(a))
  {
    FindInExtension(a, b, CRLF, 0);
    var p := Find(a, CRLF, 0).value;
    assert (a + b)[..p] == a[..p];
    SizedScanInExtension(a, b, p + 2, AnnouncedSize(a[..p]));
  }

  predicate Extends(before: Scan, after: Scan, more: string, wrapped: bool) {
    match before
    case Data(bytes, rest) => after.Data? && after.rest == rest + more && (wrapped || after.bytes == bytes)
    case Final(rest) => after == Final(rest + more)
    case other => after == other
  }

  lemma SizedScanInExtension(a: string, b: string, start: nat, size: nat)
    requires start <= |a| && !ScanSized(a, start, size).Incomplete?
    ensures Extends(ScanSized(a, start, size), ScanSized(a + b, start, size), b, start + size + 2 >= SIZE_T_RANGE)
  {
    var total := SizeT(start + size + 2);
    assert (a + b)[total..] == a[total..] + b;
    if total >= 2 {
      OccursInExtension(a, b, CRLF, total - 2);
    }
    if start + size + 2 < SIZE_T_RANGE {
      assert total == start + size + 2;
      assert (a + b)[start..start + size] == a[start..start + size];
    }
  }

  /** Draining what is there and then the rest is the same as draining everything at once. */
  lemma {:induction false} DrainSplit(a: string, b: string, decoded: string, limit: nat)
    requires !Traps(a + b, decoded, limit)
    ensures var one := Drain(a + b, decoded, limit);
            var first := Drain(a, decoded, limit);
            if first.outcome == NeedMore
            then one == Drain(first.buffer + b, first.decoded, limit) &&
                 !Traps(first.buffer + b, first.decoded, limit)
            else one.outcome == first.outcome && one.decoded == first.decoded
    decreases |a|
  {
    if !ScanChunk(a).Incomplete? {
      ScanInExtension(a, b);
      if ScanChunk(a).Data? {
        var Data(bytes, rest) := ScanChunk(a);
        if b == "" {
          assert a + b == a;
        }
        if AcceptsWrapped(a) {
          assert ScanChunk(a + b).rest == "";
          assert a + b == a && rest + b == rest;
        }
        if !OverLimit(|decoded + bytes|, limit) {
          DrainSplit(rest, b, decoded + bytes, limit);
        }
      }
    }
  }

  predicate SameResult(d: Decoder, e: Decoder) {
    d.outcome == e.outcome && d.decoded == e.decoded
  }

  /** Any slicing of the body decodes like the whole: same outcome, same bytes. */
  lemma {:induction false} SliceInvariance(d: Decoder, slices: seq<string>, limit: nat)
    requires d.outcome == NeedMore
    requires !Traps(d.buffer + Concat(slices), d.decoded, limit)
    requires ScanChunk(d.buffer).Incomplete?
    ensures SameResult(FeedAll(d, slices, limit), Drain(d.buffer + Concat(slices), d.decoded, limit))
    decreases |slices|
  {
    if slices == [] {
      assert d.buffer + Concat(slices) == d.buffer;
    } else {
      var tail := Concat(slices[1..]);
      assert d.buffer + Concat(slices) == (d.buffer + slices[0]) + tail;
      DrainSplit(d.buffer + slices[0], tail, d.decoded, limit);
      var next := Feed(d, slices[0], limit);
      if next.outcome == NeedMore {
        DrainStops(d.buffer + slices[0], d.decoded, limit);
        SliceInvariance(next, slices[1..], limit);
      } else {
        SettledStays(next, slices[1..], limit);
      }
    }
  }

  /** The loop only asks for more when the front of its buffer is undecided. */
  lemma DrainStops(buffer: string, decoded: string, limit: nat)
    ensures Drain(buffer, decoded, limit).outcome == NeedMore ==>
              ScanChunk(Drain(buffer, decoded, limit).buffer).Incomplete?
    decreases |buffer|
  {}

  /** Calls after the outcome is settled change nothing. */
  lemma {:induction false} SettledStays(d: Decoder, slices: seq<string>, limit: nat)
    requires d.outcome != NeedMore
    ensures FeedAll(d, slices, limit) == d
    decreases |slices|
  {
    if slices != [] {
      SettledStays(d, slices[1..], limit);
    }
  }

  /** A finished body never exceeds the limit. */
  lemma {:induction false} FinishedWithinLimit(buffer: string, decoded: string, limit: nat)
    requires !OverLimit(|decoded|, limit)
    ensures Drain(buffer, decoded, limit).outcome == TooLarge <==>
              OverLimit(|Drain(buffer, decoded, limit).decoded|, limit)
    decreases |buffer|
  {
    var scan := ScanChunk(buffer);
    if scan.Data? && !OverLimit(|decoded + scan.bytes|, limit) {
      FinishedWithinLimit(scan.rest, decoded + scan.bytes, limit);
    }
  }

  // ---------------------------------------------------------------- exactness

  /** An accepted chunk that does not wrap is decided by its own bytes. */
  lemma ChunkStandsAlone(w: string, y: string)
    requires ScanChunk(w).Data? && !AcceptsWrapped(w)
    ensures var Data(bytes, rest) := ScanChunk(w);
            |rest| < |w| && rest == w[|w| - |rest|..] &&
            ScanChunk(w[..|w| - |rest|] + y) == Data(bytes, y)
  {
    hide Find, AnnouncedSize, ScanSized;
    var p := Find(w, CRLF, 0).value;
    var size := AnnouncedSize(w[..p]);
    SizedScanAlone(w, p + 2, size);
    var front := w[..p + 2 + size + 2];
    FindInPrefix(w, |front|, CRLF);
    assert front[..p] == w[..p];
    assert ScanChunk(front).Data?;
    ScanInExtension(front, y);
    assert "" + y == y;
  }

  lemma SizedScanAlone(w: string, start: nat, size: nat)
    requires start <= |w| && start + size + 2 < SIZE_T_RANGE
    requires ScanSized(w, start, size).Data?
    ensures start + size + 2 <= |w|
    ensures ScanSized(w, start, size) == Data(w[start..start + size], w[start + size + 2..])
    ensures ScanSized(w[..start + size + 2], start, size) == Data(w[start..start + size], "")
  {
    var total := start + size + 2;
    assert w[..total] + w[total..] == w;
    OccursInExtension(w[..total], w[total..], CRLF, total - 2);
    assert w[..total][start..start + size] == w[start..start + size];
  }

  /** Without a limit the bytes decoded before do not influence what is decoded next. */
  lemma {:induction false} DecodedAppends(buffer: string, x: string, decoded: string)
    ensures Drain(buffer, x + decoded, 0).decoded == x + Drain(buffer, decoded, 0).decoded
    decreases |buffer|
  {
    if ScanChunk(buffer).Data? {
      var Data(bytes, rest) := ScanChunk(buffer);
      assert x + decoded + bytes == x + (decoded + bytes);
      DecodedAppends(rest, x, decoded + bytes);
    }
  }

  /** A trapping run decodes differently when it is cut right behind the trap's header. */
  lemma {:induction false} TrapCut(w: string, decoded: string) returns (k: nat)
    requires |w| <= LONG_MAX && Traps(w, decoded, 0)
    ensures k <= |w|
    ensures !SameResult(Feed(Drain(w[..k], decoded, 0), w[k..], 0), Drain(w, decoded, 0))
    decreases |w|
  {
    hide ScanChunk, AcceptsWrapped, Find;
    NothingBuffered();
    var Data(bytes, rest) := ScanChunk(w);
    if AcceptsWrapped(w) {
      k := CutAtTrap(w, decoded);
    } else {
      CutBehindChunk(w, decoded, 0);
      var j := TrapCut(rest, decoded + bytes);
      k := |w| - |rest| + j;
      CutBehindChunk(w, decoded, j);
    }
  }

  lemma CutBehindChunk(w: string, decoded: string, j: nat)
    requires ScanChunk(w).Data? && !AcceptsWrapped(w)
    requires j <= |ScanChunk(w).rest|
    ensures var Data(bytes, rest) := ScanChunk(w);
            |rest| < |w| && w[|w| - |rest| + j..] == rest[j..] &&
            Drain(w[..|w| - |rest| + j], decoded, 0) == Drain(rest[..j], decoded + bytes, 0)
  {
    hide ScanChunk, AcceptsWrapped, Find;
    var Data(bytes, rest) := ScanChunk(w);
    ChunkStandsAlone(w, rest[..j]);
    assert w[..|w| - |rest| + j] == w[..|w| - |rest|] + rest[..j];
  }

  lemma CutAtTrap(w: string, decoded: string) returns (k: nat)
    requires |w| <= LONG_MAX && ScanChunk(w).Data? && AcceptsWrapped(w) && ScanChunk(w).rest != ""
    ensures k <= |w|
    ensures !SameResult(Feed(Drain(w[..k], decoded, 0), w[k..], 0), Drain(w, decoded, 0))
  {
    AcceptedWrapIsTrap(w);
    k := Find(w, CRLF, 0).value + 2;
    DrainTrapHeader(w, decoded, k);
    RestTwice(w[k..], decoded);
    hide Find, ScanChunk, AcceptsWrapped, Drain;
    assert "" + w[k..] == w[k..];
  }

  lemma RestTwice(rest: string, decoded: string)
    requires rest != ""
    ensures Drain(rest, decoded + rest, 0).decoded != Drain(rest, decoded, 0).decoded
  {
    hide Drain;
    assert decoded + "" == decoded && rest + "" == rest;
    DecodedAppends(rest, decoded, rest);
    DecodedAppends(rest, decoded, "");
    DecodedAppends(rest, rest, "");
  }

  /** The trap's header alone is consumed without decoding anything. */
  lemma DrainTrapHeader(w: string, decoded: string, k: nat)
    requires |w| <= LONG_MAX && AcceptsWrapped(w)
    requires k == Find(w, CRLF, 0).value + 2
    ensures Drain(w[..k], decoded, 0) == Decoder("", decoded, NeedMore)
  {
    AcceptedWrapIsTrap(w);
    var header := w[..k];
    hide ScanChunk, Find;
    FindInPrefix(w, k, CRLF);
    assert header[..k - 2] == w[..k - 2];
    AcceptedWrapIsTrap(header);
    assert ScanChunk(header) == Data("", "");
    assert decoded + "" == decoded;
    NothingBuffered();
  }

  lemma NothingBuffered()
    ensures ScanChunk("").Incomplete?
  {}

  /** A size limit can only end the run before a trap is reached. */
  lemma {:induction false} TrapsUnlimited(w: string, decoded: string, limit: nat)
    requires Traps(w, decoded, limit)
    ensures Traps(w, decoded, 0)
    decreases |w|
  {
    NothingBuffered();
    hide ScanChunk, AcceptsWrapped;
    if ScanChunk(w).Data? && !AcceptsWrapped(w) {
      var Data(bytes, rest) := ScanChunk(w);
      ChunkStandsAlone(w, "");
      TrapsUnlimited(rest, decoded + bytes, limit);
    }
  }

  predicate CutDecodesLikeWhole(w: string, k: nat, limit: nat)
    requires k <= |w|
  {
    SameResult(FeedAll(START, [w[..k], w[k..]], limit), Drain(w, "", limit))
  }

  /** Every cut of the body, under every size limit, decodes like the whole if and only if no chunk
      announcing the trap size is reached with bytes behind it. */
  lemma SliceInvarianceIsExact(w: string)
    requires |w| <= LONG_MAX
    ensures (forall k: nat, limit: nat :: k <= |w| ==> CutDecodesLikeWhole(w, k, limit)) <==> !Traps(w, "", 0)
  {
    hide Drain, Traps, FeedAll, Concat;
    if Traps(w, "", 0) {
      var k := TrapCut(w, "");
      FeedTwo(w, k, 0);
      assert !CutDecodesLikeWhole(w, k, 0);
    } else {
      forall k: nat, limit: nat | k <= |w| ensures CutDecodesLikeWhole(w, k, limit) {
        if Traps(w, "", limit) {
          TrapsUnlimited(w, "", limit);
        } else {
          FeedTwo(w, k, limit);
          assert "" + w == w;
          SliceInvariance(START, [w[..k], w[k..]], limit);
        }
      }
    }
  }

  lemma FeedTwo(w: string, k: nat, limit: nat)
    requires k <= |w|
    ensures FeedAll(START, [w[..k], w[k..]], limit) == Feed(Drain(w[..k], "", limit), w[k..], limit)
    ensures Concat([w[..k], w[k..]]) == w
  {
    hide Drain, FeedAll;
    assert "" + w[..k] == w[..k];
    FeedBoth(START, w[..k], w[k..], limit);
    ConcatSplit([w[..k]], [w[k..]]);
    assert [w[..k]] + [w[k..]] == [w[..k], w[k..]];
    assert Concat([w[..k]]) == w[..k] && Concat([w[k..]]) == w[k..];
  }

  lemma FeedBoth(d: Decoder, x: string, y: string, limit: nat)
    ensures FeedAll(d, [x, y], limit) == Feed(Feed(d, x, limit), y, limit)
  {
    var e := Feed(d, x, limit);
    assert [x, y][1..] == [y];
    assert FeedAll(e, [y], limit) == FeedAll(Feed(e, y, limit), [], limit);
  }

  /** The trap at work: the body "-2\r\nx" decodes to "x" in one piece and to nothing when it is cut
      behind its header line. */
  lemma TrapExample()
    ensures Traps("-2\r\nx", "", 0)
    ensures !(forall k: nat, limit: nat :: k <= 5 ==> CutDecodesLikeWhole("-2\r\nx", k, limit))
  {
    var w := "-2\r\nx";
    TrapSize();
    HeaderFound(w);
    AcceptedWrapIsTrap(w);
    SliceInvarianceIsExact(w);
  }

  lemma HeaderFound(w: string)
    requires w == "-2\r\nx"
    ensures Find(w, CRLF, 0) == Some(2) && w[..2] == "-2" && w[4..] == "x"
  {
    CrlfAt(w, 0);
    CrlfAt(w, 1);
    CrlfAt(w, 2);
  }

  lemma TrapSize()
    ensures AnnouncedSize("-2") == TRAP_SIZE
  {
    hide SizeT;
    assert ";"[0] == ';' && "-2"[0] == '-' && "-2"[1] == '2';
    assert forall j: nat :: j < 2 ==> !OccursAt("-2", ";", j);
    assert "-2"[1..] == "2";
    assert TrimLeft("-2") == "-2" && SplitSign("-2") == (true, "2");
    assert "2"[1..] == "" && DigitRun("2", 16) == 1 && "2"[..1] == "2" && NumberOf("2", 16) == 2;
    FitsSizeT(SIZE_T_RANGE - 2);
  }
}
