/** The request line and header section (sections 5.1 and 4.2 of RFC 1945) as Request::parseHeaders
    reads them, and the round trip with a printer. */
module RequestHead {
  import opened ByteStrings
  import opened CNumbers

  datatype Method = GET | POST | DELETE | UNKNOWN_METHOD

  datatype ReqState = REQ_HEADERS | REQ_BODY | REQ_CHUNKED | REQ_DONE | REQ_ERROR

  /** `contentLength` is -1 while unknown and for chunked requests. */
  datatype Head = Head(verb: Method, url: string, query: string, protocol: string,
                       contentLength: int, headers: map<string, string>, state: ReqState, status: nat)

  const FRESH_HEAD := Head(UNKNOWN_METHOD, "", "", "", -1, map[], REQ_HEADERS, 200)

  function MethodOf(name: string): Method {
    if name == "GET" then GET
    else if name == "POST" then POST
    else if name == "DELETE" then DELETE
    else UNKNOWN_METHOD
  }

  function Refused(h: Head, status: nat): Head {
    h.(state := REQ_ERROR, status := status)
  }

  function ExtractQuery(h: Head): Head {
    match Find(h.url, "?", 0)
    case None => h
    case Some(q) => h.(query := h.url[q + 1..], url := h.url[..q])
  }

  function ParseRequestLine(h: Head, line: string): Head {
    match Find(line, " ", 0)
    case None => Refused(h, 400)
    case Some(first) =>
      var h1 := h.(verb := MethodOf(line[..first]));
      if h1.verb.UNKNOWN_METHOD? then Refused(h1, 501)
      else match Find(line, " ", first + 1)
        case None =>
          var h2 := h1.(url := line[first + 1..]);
          if !StartsWithSlash(h2.url) then Refused(h2, 400)
          else ExtractQuery(h2.(protocol := "HTTP/0.9")).(state := REQ_DONE)
        case Some(second) =>
          var h2 := h1.(url := line[first + 1..second], protocol := line[second + 1..]);
          if h2.protocol != "HTTP/1.0" && h2.protocol != "HTTP/1.1" then Refused(h2, 505)
          else if !StartsWithSlash(h2.url) then Refused(h2, 400)
          else ExtractQuery(h2)
  }

  predicate StartsWithSlash(s: string) {
    s != "" && s[0] == '/'
  }

  function ParseHeaderLine(h: Head, line: string): Head {
    match Find(line, ":", 0)
    case None => h
    case Some(colon) =>
      var key := ToLower(Trim(line[..colon]));
      if key == "" then h else h.(headers := h.headers[key := Trim(line[colon + 1..])])
  }

  function LineEndFrom(section: string, start: nat): (e: nat)
    requires start <= |section|
    ensures start <= e <= |section|
  {
    match Find(section, CRLF, start)
    case None => |section|
    case Some(e) => e
  }

  /** The line loop: empty lines are skipped, the first other line is the request line. */
  function ParseLines(section: string, start: nat, h: Head, first: bool): Head
    decreases |section| - start
  {
    if start >= |section| then h
    else
      var lineEnd := LineEndFrom(section, start);
      var line := section[start..lineEnd];
      if line == "" then ParseLines(section, lineEnd + 2, h, first)
      else ParseLines(section, lineEnd + 2, ParseOne(h, line, first), false)
  }

  function ParseOne(h: Head, line: string, first: bool): Head {
    if first then ParseRequestLine(h, line) else ParseHeaderLine(h, line)
  }

  function Header(h: Head, key: string): string {
    if key in h.headers then h.headers[key] else ""
  }

  /** _typeOfReq: how the body is transferred. A limit of 0 means no limit. */
  function TypeOfRequest(h: Head, limit: nat): Head {
    var length := Header(h, "content-length");
    if Find(ToLower(Header(h, "transfer-encoding")), "chunked", 0).Some? then
      h.(contentLength := -1, state := REQ_CHUNKED)
    else if length != "" then
      var n := StrToLl10(length);
      if (n.stop < |length| && length[n.stop] != '\0') || n.value < 0 then Refused(h, 400)
      else if limit > 0 && n.value > limit then Refused(h.(contentLength := n.value), 413)
      else h.(contentLength := n.value, state := if n.value == 0 then REQ_DONE else REQ_BODY)
    else h.(contentLength := 0, state := REQ_DONE)
  }

  /** parseHeaders: nothing happens before the blank line is there; otherwise the head and the
      offset just behind the blank line. */
  function ParseHeaders(raw: string, h: Head, limit: nat): (Head, nat) {
    match Find(raw, BLANK_LINE, 0)
    case None => (h, 0)
    case Some(e) =>
      var parsed := ParseLines(raw[..e], 0, h, true);
      (if parsed.state.REQ_ERROR? then parsed else TypeOfRequest(parsed, limit), e + 4)
  }

  /** Bytes behind the blank line never influence the result. */
  lemma BodyBytesIgnored(raw: string, more: string, h: Head, limit: nat)
    requires Find(raw, BLANK_LINE, 0).Some?
    ensures ParseHeaders(raw + more, h, limit) == ParseHeaders(raw, h, limit)
  {
    FindInExtension(raw, more, BLANK_LINE, 0);
    var e := Find(raw, BLANK_LINE, 0).value;
    assert (raw + more)[..e] == raw[..e];
  }

  // ---------------------------------------------------------------- printing

  datatype Field = Field(name: string, value: string)

  datatype RequestText = RequestText(verb: Method, url: string, query: Option<string>,
                                     protocol: string, fields: seq<Field>)

  predicate Lacks(s: string, c: char) {
    forall i :: 0 <= i < |s| ==> s[i] != c
  }

  predicate OneLine(s: string) {
    Find(s, CRLF, 0).None?
  }

  predicate WellFormedField(f: Field) {
    && f.name != "" && IsTrimmed(f.name) && Lacks(f.name, ':') && OneLine(f.name)
    && IsTrimmed(f.value) && OneLine(f.value)
  }

  predicate WellFormed(r: RequestText) {
    && !r.verb.UNKNOWN_METHOD?
    && StartsWithSlash(r.url) && Lacks(r.url, ' ') && Lacks(r.url, '?') && OneLine(r.url)
    && (r.query.Some? ==> Lacks(r.query.value, ' ') && OneLine(r.query.value))
    && (r.protocol == "HTTP/1.0" || r.protocol == "HTTP/1.1")
    && (forall i :: 0 <= i < |r.fields| ==> WellFormedField(r.fields[i]))
  }

  function MethodName(m: Method): string {
    match m
    case GET => "GET"
    case POST => "POST"
    case DELETE => "DELETE"
    case UNKNOWN_METHOD => "UNKNOWN"
  }

  function Target(r: RequestText): string {
    r.url + if r.query.Some? then "?" + r.query.value else ""
  }

  function RequestLine(r: RequestText): string {
    MethodName(r.verb) + " " + Target(r) + " " + r.protocol
  }

  function FieldLine(f: Field): string {
    f.name + ": " + f.value
  }

  function FieldLines(fields: seq<Field>): seq<string> {
    seq(|fields|, i requires 0 <= i < |fields| => FieldLine(fields[i]))
  }

  function Lines(lines: seq<string>): string {
    if lines == [] then "" else lines[0] + CRLF + Lines(lines[1..])
  }

  /** The request line, the header lines and the blank line. */
  function PrintRequest(r: RequestText): string {
    Lines([RequestLine(r)] + FieldLines(r.fields)) + CRLF
  }

  /** Field names are case-insensitive and a repeated name keeps its last value. */
  function FieldMap(fields: seq<Field>, m: map<string, string>): map<string, string> {
    if fields == [] then m
    else FieldMap(fields[1..], m[ToLower(fields[0].name) := fields[0].value])
  }

  /** The head the text describes, before the body type is determined. */
  function Described(r: RequestText): Head {
    FRESH_HEAD.(verb := r.verb, url := r.url, query := r.query.GetOr(""), protocol := r.protocol,
                headers := FieldMap(r.fields, map[]))
  }

  // ---------------------------------------------------------------- lines

  predicate ProperLine(s: string) {
    s != "" && OneLine(s)
  }

  predicate ProperLines(lines: seq<string>) {
    forall i :: 0 <= i < |lines| ==> ProperLine(lines[i])
  }

  lemma BlankAt(s: string, i: nat)
    ensures OccursAt(s, BLANK_LINE, i) <==> OccursAt(s, CRLF, i) && OccursAt(s, CRLF, i + 2)
  {
    CrlfAt(s, i);
    CrlfAt(s, i + 2);
    assert BLANK_LINE[0] == '\r' && BLANK_LINE[1] == '\n' && BLANK_LINE[2] == '\r' && BLANK_LINE[3] == '\n';
  }

  lemma OccursBehind(front: string, s: string, pat: string, j: nat)
    requires pat != ""
    ensures OccursAt(front + s, pat, |front| + j) <==> OccursAt(s, pat, j)
  {
  }

  /** Searching from an offset is searching the rest. */
  lemma FindBehind(front: string, s: string, pat: string)
    requires pat != ""
    ensures Find(front + s, pat, |front|) ==
            match Find(s, pat, 0) case None => None case Some(i) => Some(|front| + i)
  {
    forall j: nat ensures OccursAt(front + s, pat, |front| + j) <==> OccursAt(s, pat, j) {
      OccursBehind(front, s, pat, j);
    }
    var r := Find(front + s, pat, |front|);
    if r.Some? {
      var j: nat := r.value - |front|;
      assert OccursAt(s, pat, j);
    }
  }

  /** A line end directly followed by another: the blank line is where it is printed. */
  lemma BlankBehindLine(line: string, rest: string)
    requires OneLine(line)
    ensures Find(line + CRLF + (CRLF + rest), BLANK_LINE, 0) == Some(|line|)
  {
    hide Find;
    var s := line + CRLF + (CRLF + rest);
    NoBlankInFirstLine(line, CRLF + rest);
    CrlfAt(s, |line|);
    CrlfAt(s, |line| + 2);
    BlankAt(s, |line|);
  }

  /** A line in front of text that starts with a proper line only shifts the blank line. */
  lemma BlankBehindMore(line: string, tail: string)
    requires OneLine(line) && !OccursAt(tail, CRLF, 0) && Find(tail, BLANK_LINE, 0).Some?
    ensures Find(line + CRLF + tail, BLANK_LINE, 0) == Some(|line| + 2 + Find(tail, BLANK_LINE, 0).value)
  {
    hide Find, OccursAt, OneLine;
    var front := line + CRLF;
    var s := front + tail;
    var e := Find(tail, BLANK_LINE, 0).value;
    NoBlankInFirstLine(line, tail);
    BlankAt(s, |line|);
    OccursBehind(front, tail, CRLF, 0);
    OccursBehind(front, tail, BLANK_LINE, e);
    forall j: nat | j < |front| + e ensures !OccursAt(s, BLANK_LINE, j) {
      if j >= |front| {
        OccursBehind(front, tail, BLANK_LINE, j - |front|);
      }
    }
  }

  /** No line holds or starts with a line end, so the blank line comes where it is printed. */
  lemma {:induction false} BlankLineFound(lines: seq<string>, rest: string)
    requires lines != [] && ProperLines(lines)
    ensures |Lines(lines)| >= 2
    ensures Find(Lines(lines) + CRLF + rest, BLANK_LINE, 0) == Some(|Lines(lines)| - 2)
    decreases |lines|
  {
    hide Find, OccursAt, OneLine;
    var tail := Lines(lines[1..]) + CRLF + rest;
    assert Lines(lines) + CRLF + rest == lines[0] + CRLF + tail;
    if lines[1..] == [] {
      assert tail == CRLF + rest;
      BlankBehindLine(lines[0], rest);
    } else {
      BlankLineFound(lines[1..], rest);
      NextLineStarts(lines[1..], rest);
      BlankBehindMore(lines[0], tail);
    }
  }

  lemma NoBlankInFirstLine(line: string, tail: string)
    requires OneLine(line)
    ensures forall j: nat :: j < |line| + 2 && j != |line| ==> !OccursAt(line + CRLF + tail, BLANK_LINE, j)
  {
    hide Find;
    var s := line + CRLF + tail;
    LineEnd(line, tail);
    forall j: nat | j < |line| + 2 && j != |line| ensures !OccursAt(s, BLANK_LINE, j) {
      BlankAt(s, j);
      if j == |line| + 1 {
        CrlfAt(s, j);
      }
    }
  }

  lemma NextLineStarts(lines: seq<string>, rest: string)
    requires lines != [] && ProperLines(lines)
    ensures !OccursAt(Lines(lines) + CRLF + rest, CRLF, 0)
  {
    hide Find, OccursAt;
    var behind := Lines(lines[1..]) + CRLF + rest;
    assert Lines(lines) + CRLF + rest == lines[0] + CRLF + behind;
    LineEnd(lines[0], behind);
  }

  /** What the line loop does to a list of lines. */
  function ParseEach(lines: seq<string>, h: Head, first: bool): Head {
    if lines == [] then h
    else ParseEach(lines[1..], ParseOne(h, lines[0], first), false)
  }

  /** The section without the line end before the blank line. */
  function Joined(lines: seq<string>): string
    requires lines != []
  {
    if lines[1..] == [] then lines[0] else lines[0] + CRLF + Joined(lines[1..])
  }

  lemma {:induction false} JoinedLines(lines: seq<string>)
    requires lines != []
    ensures Lines(lines) == Joined(lines) + CRLF
    decreases |lines|
  {
    if lines[1..] != [] {
      JoinedLines(lines[1..]);
      assert lines[0] + CRLF + (Joined(lines[1..]) + CRLF) == lines[0] + CRLF + Joined(lines[1..]) + CRLF;
    } else {
      assert lines[0] + CRLF + "" == lines[0] + CRLF;
    }
  }

  lemma FirstLineParsed(front: string, line: string, rest: string, h: Head, first: bool)
    requires ProperLine(line)
    ensures var section := front + (line + CRLF + rest);
            ParseLines(section, |front|, h, first) ==
            ParseLines(section, |front + line + CRLF|, ParseOne(h, line, first), false)
  {
    hide ParseOne, Find, OccursAt;
    var section := front + (line + CRLF + rest);
    LineEnd(line, rest);
    FindBehind(front, line + CRLF + rest, CRLF);
    assert section[|front|..|front| + |line|] == line;
  }

  lemma PastTheEnd(section: string, start: nat, h: Head, first: bool)
    requires start >= |section|
    ensures ParseLines(section, start, h, first) == h
  {}

  lemma LastLineParsed(front: string, line: string, h: Head, first: bool)
    requires ProperLine(line)
    ensures ParseLines(front + line, |front|, h, first) == ParseOne(h, line, first)
  {
    hide ParseOne, Find, OccursAt;
    var section := front + line;
    FindBehind(front, line, CRLF);
    assert section[|front|..] == line && section[|front|..|section|] == line;
    PastTheEnd(section, |section| + 2, ParseOne(h, line, first), false);
  }

  /** The loop splits the section back into its lines. */
  lemma {:induction false} ParseLinesOfLines(front: string, lines: seq<string>, h: Head, first: bool)
    requires lines != [] && ProperLines(lines)
    ensures ParseLines(front + Joined(lines), |front|, h, first) == ParseEach(lines, h, first)
    decreases |lines|
  {
    hide ParseOne, ProperLine, ParseLines;
    var line := lines[0];
    if lines[1..] == [] {
      LastLineParsed(front, line, h, first);
      assert ParseEach(lines[1..], ParseOne(h, line, first), false) == ParseOne(h, line, first);
    } else {
      var rest := Joined(lines[1..]);
      FirstLineParsed(front, line, rest, h, first);
      ParseLinesOfLines(front + line + CRLF, lines[1..], ParseOne(h, line, first), false);
      assert front + (line + CRLF + rest) == front + line + CRLF + rest;
    }
  }

  // ---------------------------------------------------------------- the round trip

  lemma FirstChar(s: string, c: char, rest: string)
    requires Lacks(s, c)
    ensures Find(s + [c] + rest, [c], 0) == Some(|s|)
  {
    var t := s + [c] + rest;
    forall j: nat | j < |s| ensures !OccursAt(t, [c], j) {
      assert [c][0] == c && t[j] == s[j];
    }
    assert OccursAt(t, [c], |s|);
  }

  lemma NoChar(s: string, c: char)
    requires Lacks(s, c)
    ensures Find(s, [c], 0).None?
  {
    forall j: nat ensures !OccursAt(s, [c], j) {
      assert [c][0] == c;
    }
  }

  lemma MethodNames(m: Method)
    requires !m.UNKNOWN_METHOD?
    ensures MethodOf(MethodName(m)) == m && Lacks(MethodName(m), ' ') && MethodName(m) != ""
    ensures Lacks(MethodName(m), '\r')
  {}

  lemma RequestLineParses(r: RequestText)
    requires WellFormed(r)
    ensures ParseRequestLine(FRESH_HEAD, RequestLine(r)) == Described(r).(headers := map[])
  {
    hide Find, MethodName, MethodOf, ExtractQuery;
    var name := MethodName(r.verb);
    var target := Target(r);
    var line := RequestLine(r);
    MethodNames(r.verb);
    assert Lacks(target, ' ');
    assert line == name + [' '] + (target + " " + r.protocol);
    FirstChar(name, ' ', target + " " + r.protocol);
    assert " " == [' '] && line[..|name|] == name;
    var front := name + " ";
    assert line == front + (target + [' '] + r.protocol);
    FirstChar(target, ' ', r.protocol);
    FindBehind(front, target + [' '] + r.protocol, " ");
    var second := |front| + |target|;
    assert line[|name| + 1..second] == target && line[second + 1..] == r.protocol;
    QuerySplits(r);
  }

  lemma QuerySplits(r: RequestText)
    requires WellFormed(r)
    ensures var h := FRESH_HEAD.(verb := r.verb, url := Target(r), protocol := r.protocol);
            ExtractQuery(h) == Described(r).(headers := map[])
  {
    hide Find;
    var target := Target(r);
    assert "?" == ['?'];
    if r.query.Some? {
      assert target == r.url + ['?'] + r.query.value;
      FirstChar(r.url, '?', r.query.value);
      assert target[..|r.url|] == r.url && target[|r.url| + 1..] == r.query.value;
    } else {
      assert target == r.url;
      NoChar(r.url, '?');
    }
  }

  lemma FieldLineParses(h: Head, f: Field)
    requires WellFormedField(f)
    ensures ParseHeaderLine(h, FieldLine(f)) == h.(headers := h.headers[ToLower(f.name) := f.value])
  {
    hide Find, TrimLeft, TrimRight;
    var line := FieldLine(f);
    assert ":" == [':'] && line == f.name + [':'] + (" " + f.value);
    FirstChar(f.name, ':', " " + f.value);
    assert line[..|f.name|] == f.name && line[|f.name| + 1..] == " " + f.value;
    TrimTrimmed(f.name);
    TrimTrimmed(f.value);
  }

  lemma {:induction false} FieldLinesParse(fields: seq<Field>, h: Head)
    requires forall i :: 0 <= i < |fields| ==> WellFormedField(fields[i])
    ensures ParseEach(FieldLines(fields), h, false) == h.(headers := FieldMap(fields, h.headers))
    decreases |fields|
  {
    hide ParseHeaderLine, FieldLine;
    if fields != [] {
      assert FieldLines(fields)[1..] == FieldLines(fields[1..]);
      FieldLineParses(h, fields[0]);
      FieldLinesParse(fields[1..], h.(headers := h.headers[ToLower(fields[0].name) := fields[0].value]));
    }
  }

  /** No CRLF arises where two parts meet unless the left one ends in CR and the right one
      starts with LF. */
  lemma OneLineJoin(a: string, b: string)
    requires OneLine(a) && OneLine(b)
    requires a == "" || b == "" || a[|a| - 1] != '\r' || b[0] != '\n'
    ensures OneLine(a + b)
  {
    forall j: nat ensures !OccursAt(a + b, CRLF, j) {
      CrlfAt(a + b, j);
      CrlfAt(a, j);
      if j >= |a| {
        CrlfAt(b, j - |a|);
      }
    }
  }

  lemma NoReturnOneLine(s: string)
    requires Lacks(s, '\r')
    ensures OneLine(s)
  {
    forall j: nat ensures !OccursAt(s, CRLF, j) {
      CrlfAt(s, j);
    }
  }

  lemma PrintedLinesAreProper(r: RequestText)
    requires WellFormed(r)
    ensures ProperLines([RequestLine(r)] + FieldLines(r.fields))
  {
    hide OneLine;
    MethodNames(r.verb);
    NoReturnOneLine(MethodName(r.verb) + " ");
    NoReturnOneLine("?");
    NoReturnOneLine("");
    NoReturnOneLine(" " + r.protocol);
    if r.query.Some? {
      OneLineJoin("?", r.query.value);
      OneLineJoin(r.url, "?" + r.query.value);
    } else {
      assert Target(r) == r.url;
    }
    OneLineJoin(MethodName(r.verb) + " ", Target(r));
    OneLineJoin(MethodName(r.verb) + " " + Target(r), " " + r.protocol);
    assert RequestLine(r) == MethodName(r.verb) + " " + Target(r) + (" " + r.protocol);
    forall i | 0 <= i < |r.fields| ensures ProperLine(FieldLine(r.fields[i])) {
      var f := r.fields[i];
      NoReturnOneLine(": ");
      OneLineJoin(f.name, ": ");
      OneLineJoin(f.name + ": ", f.value);
    }
  }

  /** Round trip: a printed request parses to what it describes, and the parser stops right behind
      the blank line whatever follows. */
  lemma PrintedRequestParses(r: RequestText, body: string, limit: nat)
    requires WellFormed(r)
    ensures ParseHeaders(PrintRequest(r) + body, FRESH_HEAD, limit) ==
            (TypeOfRequest(Described(r), limit), |PrintRequest(r)|)
  {
    hide Find, ParseLines, Lines, ParseRequestLine, TypeOfRequest;
    var fieldLines := FieldLines(r.fields);
    var lines := [RequestLine(r)] + fieldLines;
    PrintedLinesAreProper(r);
    BlankLineFound(lines, body);
    var e := |Lines(lines)| - 2;
    JoinedLines(lines);
    assert (PrintRequest(r) + body)[..e] == Joined(lines);
    ParseLinesOfLines("", lines, FRESH_HEAD, true);
    assert "" + Joined(lines) == Joined(lines);
    assert lines[1..] == fieldLines;
    RequestLineParses(r);
    FieldLinesParse(r.fields, Described(r).(headers := map[]));
  }
}
