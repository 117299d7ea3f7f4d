/** What a sender may write in its header fields: names in any mixture of cases, white space around
    names and values, and what the request's body is then taken to be. */
module RequestFields {
  import opened ByteStrings
  import opened CNumbers
  import opened RequestHead
  import opened RequestVerdicts

  // ---------------------------------------------------------------- letters

  /** The byte is `l`, or the capital of the small letter `l`. */
  predicate SameLetter(c: char, l: char) {
    c == l || (97 <= l as int <= 122 && c as int == l as int - 32)
  }

  /** The word in any mixture of cases. */
  predicate Spells(s: string, word: string) {
    |s| == |word| && forall i :: 0 <= i < |s| ==> SameLetter(s[i], word[i])
  }

  /** No capitals. */
  predicate Small(s: string) {
    forall i :: 0 <= i < |s| ==> !(65 <= s[i] as int <= 90)
  }

  predicate SpelledAt(s: string, word: string, k: nat) {
    k + |word| <= |s| && Spells(s[k..k + |word|], word)
  }

  predicate ContainsWord(s: string, word: string) {
    exists k: nat :: k <= |s| && SpelledAt(s, word, k)
  }

  lemma LoweredIff(s: string, word: string)
    requires Small(word)
    ensures ToLower(s) == word <==> Spells(s, word)
  {
    forall i | 0 <= i < |s| && |s| == |word| ensures ToLower(s)[i] == word[i] <==> SameLetter(s[i], word[i]) {}
  }

  lemma LoweredIsSmall(s: string)
    ensures Small(ToLower(s))
  {}

  lemma LoweredOccursIff(s: string, word: string, k: nat)
    requires Small(word) && k + |word| <= |s|
    ensures OccursAt(ToLower(s), word, k) <==> Spells(s[k..k + |word|], word)
  {
    var part := s[k..k + |word|];
    assert ToLower(part) == ToLower(s)[k..k + |word|];
    LoweredIff(part, word);
    hide ToLower;
    if ToLower(part) == word {
      assert forall i :: 0 <= i < |word| ==> ToLower(s)[k + i] == ToLower(part)[i];
    }
    if OccursAt(ToLower(s), word, k) {
      assert forall i :: 0 <= i < |word| ==> ToLower(part)[i] == word[i];
    }
  }

  lemma LoweredContainsIff(s: string, word: string)
    requires Small(word)
    ensures Find(ToLower(s), word, 0).Some? <==> ContainsWord(s, word)
  {
    hide Find, Spells, ToLower, OccursAt;
    var found := Find(ToLower(s), word, 0);
    if found.Some? {
      OccursWithin(ToLower(s), word, found.value);
      LoweredOccursIff(s, word, found.value);
      assert SpelledAt(s, word, found.value);
    }
    if ContainsWord(s, word) {
      var k: nat :| k <= |s| && SpelledAt(s, word, k);
      LoweredOccursIff(s, word, k);
    }
  }

  lemma OccursWithin(s: string, pat: string, i: nat)
    requires OccursAt(s, pat, i)
    ensures i + |pat| <= |s|
  {}

  // ---------------------------------------------------------------- fields

  /** Field `i` is the last one whose name spells the word. */
  predicate LastSpelled(fields: seq<Field>, word: string, i: nat) {
    && i < |fields| && Spells(fields[i].name, word)
    && forall j :: i < j < |fields| ==> !Spells(fields[j].name, word)
  }

  predicate NoneSpelled(fields: seq<Field>, word: string) {
    forall i :: 0 <= i < |fields| ==> !Spells(fields[i].name, word)
  }

  lemma {:induction false} UnspelledKept(fields: seq<Field>, m: map<string, string>, word: string)
    requires Small(word) && NoneSpelled(fields, word)
    ensures word in FieldMap(fields, m) <==> word in m
    ensures word in m ==> FieldMap(fields, m)[word] == m[word]
    decreases |fields|
  {
    hide Spells, ToLower;
    if fields != [] {
      LoweredIff(fields[0].name, word);
      assert !Spells(fields[0].name, word);
      UnspelledKept(fields[1..], m[ToLower(fields[0].name) := fields[0].value], word);
    }
  }

  lemma {:induction false} LastSpelledWins(fields: seq<Field>, m: map<string, string>, word: string, i: nat)
    requires Small(word) && LastSpelled(fields, word, i)
    ensures word in FieldMap(fields, m) && FieldMap(fields, m)[word] == fields[i].value
    decreases |fields|
  {
    hide Spells, ToLower;
    var m1 := m[ToLower(fields[0].name) := fields[0].value];
    if i > 0 {
      LastSpelledWins(fields[1..], m1, word, i - 1);
    } else {
      LoweredIff(fields[0].name, word);
      UnspelledKept(fields[1..], m1, word);
    }
  }

  lemma {:induction false} KeysAreSmall(fields: seq<Field>, m: map<string, string>)
    requires forall k :: k in m ==> Small(k)
    ensures forall k :: k in FieldMap(fields, m) ==> Small(k)
    decreases |fields|
  {
    hide Small, ToLower;
    if fields != [] {
      LoweredIsSmall(fields[0].name);
      KeysAreSmall(fields[1..], m[ToLower(fields[0].name) := fields[0].value]);
    }
  }

  /** The head that a printed request, with anything behind it, is parsed to. */
  function HeadRead(r: RequestText, body: string, limit: nat): Head {
    ParseHeaders(PrintRequest(r) + body, FRESH_HEAD, limit).0
  }

  lemma TypeKeepsRest(h: Head, limit: nat)
    ensures var t := TypeOfRequest(h, limit);
            && t.headers == h.headers && t.verb == h.verb && t.url == h.url && t.query == h.query
            && t.protocol == h.protocol
  {
    hide Find, ToLower, Header, StrToLl10;
  }

  lemma HeadersRead(r: RequestText, body: string, limit: nat)
    requires WellFormed(r)
    ensures HeadRead(r, body, limit) == TypeOfRequest(Described(r), limit)
    ensures HeadRead(r, body, limit).headers == FieldMap(r.fields, map[])
  {
    hide WellFormed, PrintRequest, ParseHeaders, TypeOfRequest;
    PrintedRequestParses(r, body, limit);
    TypeKeepsRest(Described(r), limit);
  }

  /** Names that differ only in case are one field, under the name in small letters, and the last value
      wins; a name that no field spells is not there, and no name is there with a capital. */
  lemma FieldsRead(r: RequestText, body: string, limit: nat, word: string)
    requires WellFormed(r) && Small(word)
    ensures var headers := HeadRead(r, body, limit).headers;
            && (forall i :: 0 <= i < |r.fields| && LastSpelled(r.fields, word, i) ==>
                  word in headers && headers[word] == r.fields[i].value)
            && (NoneSpelled(r.fields, word) ==> word !in headers)
            && (forall k :: k in headers ==> Small(k))
  {
    hide WellFormed, HeadRead, FieldMap, LastSpelled, Small;
    HeadersRead(r, body, limit);
    forall i | 0 <= i < |r.fields| && LastSpelled(r.fields, word, i)
      ensures word in FieldMap(r.fields, map[]) && FieldMap(r.fields, map[])[word] == r.fields[i].value
    {
      LastSpelledWins(r.fields, map[], word, i);
    }
    if NoneSpelled(r.fields, word) {
      UnspelledKept(r.fields, map[], word);
    }
    KeysAreSmall(r.fields, map[]);
  }

  // ---------------------------------------------------------------- the type of the body

  /** What the last field of that name says, nothing if there is none. */
  predicate Says(r: RequestText, word: string, value: string) {
    (NoneSpelled(r.fields, word) && value == "") ||
    (exists i :: 0 <= i < |r.fields| && LastSpelled(r.fields, word, i) && r.fields[i].value == value)
  }

  lemma SaidInHeader(r: RequestText, word: string, value: string)
    requires Small(word) && Says(r, word, value)
    ensures Header(Described(r), word) == value
  {
    hide FieldMap, LastSpelled, Small;
    if NoneSpelled(r.fields, word) && value == "" {
      UnspelledKept(r.fields, map[], word);
    } else {
      var i :| 0 <= i < |r.fields| && LastSpelled(r.fields, word, i) && r.fields[i].value == value;
      LastSpelledWins(r.fields, map[], word, i);
    }
  }

  lemma HeaderNamesAreSmall()
    ensures Small("content-length") && Small("transfer-encoding") && Small("chunked")
  {}

  /** A body is chunked exactly if the last transfer-encoding field, its name in any case, has
      "chunked" somewhere in its value, in any case. */
  lemma ChunkedRead(r: RequestText, body: string, limit: nat, encoding: string)
    requires WellFormed(r) && Says(r, "transfer-encoding", encoding)
    ensures HeadRead(r, body, limit).state.REQ_CHUNKED? <==> ContainsWord(encoding, "chunked")
    ensures HeadRead(r, body, limit).state.REQ_CHUNKED? ==>
              HeadRead(r, body, limit).contentLength == -1 && HeadRead(r, body, limit).status == 200
  {
    hide WellFormed, HeadRead, Says, ContainsWord, Small, FieldMap;
    HeaderNamesAreSmall();
    HeadersRead(r, body, limit);
    SaidInHeader(r, "transfer-encoding", encoding);
    LoweredContainsIff(encoding, "chunked");
    hide Find, ToLower, Header, StrToLl10;
  }

  /** Otherwise the last content-length field, its name in any case, is the length of the body; a
      nonzero limit refuses more with 413. */
  lemma LengthRead(r: RequestText, body: string, limit: nat, encoding: string, n: nat)
    requires WellFormed(r) && Says(r, "transfer-encoding", encoding) && !ContainsWord(encoding, "chunked")
    requires Says(r, "content-length", Decimal(n)) && n <= LONG_MAX
    ensures var h := HeadRead(r, body, limit);
            if 0 < limit < n then RefusedWith(h, 413) && h.contentLength == n
            else h.state == (if n == 0 then REQ_DONE else REQ_BODY) && h.contentLength == n && h.status == 200
  {
    hide WellFormed, HeadRead, Says, ContainsWord, Small, FieldMap, Decimal;
    HeaderNamesAreSmall();
    HeadersRead(r, body, limit);
    SaidInHeader(r, "transfer-encoding", encoding);
    SaidInHeader(r, "content-length", Decimal(n));
    LoweredContainsIff(encoding, "chunked");
    hide Find, ToLower, Header, TypeOfRequest;
    DeclaredLength(Described(r), n, limit);
  }

  /** Without either there is no body. */
  lemma NoBodyRead(r: RequestText, body: string, limit: nat, encoding: string)
    requires WellFormed(r) && Says(r, "transfer-encoding", encoding) && !ContainsWord(encoding, "chunked")
    requires Says(r, "content-length", "")
    ensures var h := HeadRead(r, body, limit); h.state.REQ_DONE? && h.contentLength == 0 && h.status == 200
  {
    hide WellFormed, HeadRead, Says, ContainsWord, Small, FieldMap;
    HeaderNamesAreSmall();
    HeadersRead(r, body, limit);
    SaidInHeader(r, "transfer-encoding", encoding);
    SaidInHeader(r, "content-length", "");
    LoweredContainsIff(encoding, "chunked");
    hide Find, ToLower, Header, TypeOfRequest;
    DeclaredLength(Described(r), 0, limit);
  }

  /** A length that is no plain number: with anything behind its digits, or negative, it is refused with
      400; digits that do not fit a long stand for the largest one. */
  lemma OddLengthRead(r: RequestText, body: string, limit: nat, encoding: string, n: nat, c: char, more: string)
    requires WellFormed(r) && Says(r, "transfer-encoding", encoding) && !ContainsWord(encoding, "chunked")
    ensures Says(r, "content-length", Decimal(n) + ([c] + more)) && !IsDigit(c) && c != '\0' ==>
              RefusedWith(HeadRead(r, body, limit), 400)
    ensures Says(r, "content-length", "-" + Decimal(n)) && n > 0 ==> RefusedWith(HeadRead(r, body, limit), 400)
    ensures Says(r, "content-length", Decimal(n) + (['\0'] + more)) && 0 < n <= LONG_MAX && limit == 0 ==>
              HeadRead(r, body, limit).state.REQ_BODY? && HeadRead(r, body, limit).contentLength == n
    ensures Says(r, "content-length", Decimal(n)) && n > LONG_MAX && limit == 0 ==>
              HeadRead(r, body, limit).state.REQ_BODY? && HeadRead(r, body, limit).contentLength == LONG_MAX
  {
    hide WellFormed, HeadRead, Says, ContainsWord, Small, FieldMap, Decimal, StrToLl10;
    HeaderNamesAreSmall();
    HeadersRead(r, body, limit);
    SaidInHeader(r, "transfer-encoding", encoding);
    LoweredContainsIff(encoding, "chunked");
    hide Find, ToLower, Header;
    var h := Described(r);
    var digits := Decimal(n);
    LengthReads(digits, c, more);
    if Says(r, "content-length", digits + ([c] + more)) {
      SaidInHeader(r, "content-length", digits + ([c] + more));
    }
    LengthReads(digits, '\0', more);
    if Says(r, "content-length", digits + (['\0'] + more)) {
      SaidInHeader(r, "content-length", digits + (['\0'] + more));
      assert (digits + (['\0'] + more))[|digits|] == '\0';
    }
    if Says(r, "content-length", "-" + digits) {
      SaidInHeader(r, "content-length", "-" + digits);
    }
    if Says(r, "content-length", digits) {
      SaidInHeader(r, "content-length", digits);
    }
  }

  lemma LengthReads(digits: string, c: char, more: string)
    requires digits != "" && AllInBase(digits, 10)
    ensures !IsDigit(c) ==> StrToLl10(digits + ([c] + more)).stop == |digits|
    ensures !IsDigit(c) && NumberOf(digits, 10) <= LONG_MAX ==>
              StrToLl10(digits + ([c] + more)).value == NumberOf(digits, 10)
    ensures NumberOf(digits, 10) > 0 ==> StrToLl10("-" + digits).value < 0
    ensures NumberOf(digits, 10) > LONG_MAX ==> StrToLl10(digits) == LongParse(LONG_MAX, |digits|)
  {
    hide NumberOf, StrToLl10;
    var rest := [c] + more;
    assert "" + ("" + (digits + rest)) == digits + rest;
    assert "" + ("-" + (digits + "")) == "-" + digits && "" + ("" + (digits + "")) == digits;
    if !IsDigit(c) {
      assert DigitValue(rest[0]) >= 10;
      StrToLl10Reads("", "", digits, rest);
    }
    StrToLl10Reads("", "-", digits, "");
    StrToLl10Reads("", "", digits, "");
  }

  // ---------------------------------------------------------------- white space and odd lines

  predicate EndsWhite(s: string) {
    s != "" && White(s[|s| - 1..])
  }

  lemma {:induction false} WhiteCut(s: string, white: string)
    requires White(white) && !EndsWhite(s)
    ensures TrimRight(s + white) == s
    decreases |white|
  {
    if white == "" {
      assert s + white == s;
    } else {
      var w := white[..|white| - 1];
      assert (s + white)[..|s + white| - 1] == s + w;
      WhiteCut(s, w);
    }
  }

  /** White space around is dropped, white space within stays. */
  lemma TrimmedOut(before: string, s: string, behind: string)
    requires White(before) && White(behind) && !StartsWhite(s) && !EndsWhite(s)
    ensures Trim(before + (s + behind)) == s
  {
    hide TrimLeft, TrimRight;
    if s == "" {
      WhiteSkipped(before + behind, "");
      assert before + (s + behind) == before + behind + "";
      WhiteCut("", "");
      assert "" + "" == "";
    } else {
      assert (s + behind)[..1] == s[..1];
      WhiteSkipped(before, s + behind);
      WhiteCut(s, behind);
    }
  }

  /** A field line with any white space around its name and its value. */
  lemma PaddedFieldLine(h: Head, name: string, word: string, value: string, w1: string, w2: string, w3: string,
                        w4: string)
    requires White(w1) && White(w2) && White(w3) && White(w4)
    requires name != "" && !StartsWhite(name) && !EndsWhite(name) && Lacks(name, ':')
    requires Small(word) && Spells(name, word) && !StartsWhite(value) && !EndsWhite(value)
    ensures ParseHeaderLine(h, w1 + (name + w2) + ":" + (w3 + (value + w4))) == h.(headers := h.headers[word := value])
  {
    hide Find, Trim, ToLower, Small, Spells;
    var left := w1 + (name + w2);
    var right := w3 + (value + w4);
    var line := left + ":" + right;
    WhiteLacksColon(w1);
    WhiteLacksColon(w2);
    assert line == left + [':'] + right && ":" == [':'];
    FirstChar(left, ':', right);
    assert line[..|left|] == left && line[|left| + 1..] == right;
    TrimmedOut(w1, name, w2);
    TrimmedOut(w3, value, w4);
    LoweredIff(name, word);
    assert |word| == |name| by { SpelledLength(name, word); }
  }

  lemma SpelledLength(s: string, word: string)
    requires Spells(s, word)
    ensures |s| == |word|
  {}

  lemma WhiteLacksColon(white: string)
    requires White(white)
    ensures Lacks(white, ':')
  {}

  /** A line without a colon, or with nothing but white space before it, is ignored. */
  lemma IgnoredLine(h: Head, line: string, white: string, more: string)
    requires White(white)
    ensures Lacks(line, ':') ==> ParseHeaderLine(h, line) == h
    ensures ParseHeaderLine(h, white + ":" + more) == h
  {
    hide Find, Trim;
    assert ":" == [':'];
    if Lacks(line, ':') {
      NoChar(line, ':');
    }
    WhiteLacksColon(white);
    FirstChar(white, ':', more);
    assert white + ":" + more == white + [':'] + more;
    assert (white + ":" + more)[..|white|] == white;
    assert white + ("" + "") == white;
    TrimmedOut(white, "", "");
  }

  lemma {:induction false} HeaderLinesKeepVerdict(lines: seq<string>, h: Head)
    ensures var p := ParseEach(lines, h, false);
            p.state == h.state && p.status == h.status && p.verb == h.verb && p.url == h.url && p.protocol == h.protocol
    decreases |lines|
  {
    hide Find, Trim, ToLower;
    if lines != [] {
      HeaderLinesKeepVerdict(lines[1..], ParseHeaderLine(h, lines[0]));
    }
  }

  /** A request line that is refused decides the request, whatever header lines and bytes follow it. */
  lemma RefusedLineStands(line: string, lines: seq<string>, body: string, limit: nat, status: nat)
    requires ProperLine(line) && ProperLines(lines) && RefusedWith(ParseRequestLine(FRESH_HEAD, line), status)
    ensures RefusedWith(ParseHeaders(Lines([line] + lines) + CRLF + body, FRESH_HEAD, limit).0, status)
  {
    hide Find, ParseRequestLine, TypeOfRequest, OneLine, Lines;
    var all := [line] + lines;
    BlankLineFound(all, body);
    JoinedLines(all);
    var e := |Lines(all)| - 2;
    assert (Lines(all) + CRLF + body)[..e] == Joined(all);
    ParseLinesOfLines("", all, FRESH_HEAD, true);
    assert "" + Joined(all) == Joined(all) && all[1..] == lines;
    HeaderLinesKeepVerdict(lines, ParseRequestLine(FRESH_HEAD, line));
  }

  /** A line end in front of the request line is skipped. */
  lemma LeadingLineEnd(r: RequestText, body: string, limit: nat)
    requires WellFormed(r)
    ensures ParseHeaders(CRLF + (PrintRequest(r) + body), FRESH_HEAD, limit) ==
              (HeadRead(r, body, limit), 2 + |PrintRequest(r)|)
  {
    hide Find, OccursAt, ParseRequestLine, TypeOfRequest, OneLine, Lines;
    var lines := [RequestLine(r)] + FieldLines(r.fields);
    PrintedLinesAreProper(r);
    BlankLineFound(lines, body);
    NextLineStarts(lines, body);
    JoinedLines(lines);
    var text := PrintRequest(r) + body;
    var e := |Lines(lines)| - 2;
    NoReturnOneLine("");
    BlankBehindMore("", text);
    assert "" + CRLF + text == CRLF + text;
    assert (CRLF + text)[..e + 2] == CRLF + Joined(lines);
    SkippedLineEnd(Joined(lines), FRESH_HEAD);
    ParseLinesOfLines(CRLF, lines, FRESH_HEAD, true);
    ParseLinesOfLines("", lines, FRESH_HEAD, true);
    assert "" + Joined(lines) == Joined(lines);
    assert text[..e] == Joined(lines);
  }

  lemma SkippedLineEnd(section: string, h: Head)
    ensures ParseLines(CRLF + section, 0, h, true) == ParseLines(CRLF + section, 2, h, true)
  {
    hide ParseOne;
    CrlfAt(CRLF + section, 0);
  }

  /** A blank line alone is a request without method, complete at once. */
  lemma BlankRequest(body: string, limit: nat)
    ensures ParseHeaders(BLANK_LINE + body, FRESH_HEAD, limit) ==
              (FRESH_HEAD.(contentLength := 0, state := REQ_DONE), 4)
  {
    var raw := BLANK_LINE + body;
    assert OccursAt(raw, BLANK_LINE, 0);
    assert raw[..0] == "";
    assert Find(ToLower(""), "chunked", 0).None?;
  }
}
