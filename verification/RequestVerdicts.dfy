/** What the header parser says of lines and lengths it is given: every refusal with its status, and
    which complaint comes first. */
module RequestVerdicts {
  import opened ByteStrings
  import opened CNumbers
  import opened RequestHead

  predicate RefusedWith(h: Head, status: nat) {
    h.state.REQ_ERROR? && h.status == status
  }

  predicate KnownMethod(name: string) {
    name == "GET" || name == "POST" || name == "DELETE"
  }

  /** The URL and the query are the two sides of the first question mark of the target. */
  predicate SplitsTarget(h: Head, target: string) {
    Lacks(h.url, '?') &&
    (target == h.url + "?" + h.query || (target == h.url && h.query == ""))
  }

  /** A request line of three words: an unknown method is complained about before the protocol, and
      the protocol before the URL; otherwise the words are taken as they are. */
  lemma ThreeWords(name: string, target: string, protocol: string)
    requires Lacks(name, ' ') && Lacks(target, ' ')
    ensures var h := ParseRequestLine(FRESH_HEAD, name + " " + target + " " + protocol);
            if !KnownMethod(name) then RefusedWith(h, 501)
            else if protocol != "HTTP/1.0" && protocol != "HTTP/1.1" then RefusedWith(h, 505)
            else if !StartsWithSlash(target) then RefusedWith(h, 400)
            else h.state.REQ_HEADERS? && h.status == 200 && MethodName(h.verb) == name &&
                 h.protocol == protocol && SplitsTarget(h, target)
  {
    hide Find, ExtractQuery;
    var line := name + " " + target + " " + protocol;
    FirstWord(name, target + " " + protocol);
    assert line == name + " " + (target + " " + protocol);
    var front := name + " ";
    assert line == front + (target + " " + protocol);
    FirstWord(target, protocol);
    assert target + " " + protocol == target + [' '] + protocol;
    FindBehind(front, target + " " + protocol, " ");
    var second := |front| + |target|;
    assert line[|name| + 1..second] == target && line[second + 1..] == protocol;
    TargetSplits(FRESH_HEAD.(verb := MethodOf(name), url := target, protocol := protocol));
  }

  lemma FirstWord(word: string, rest: string)
    requires Lacks(word, ' ')
    ensures Find(word + " " + rest, " ", 0) == Some(|word|)
    ensures (word + " " + rest)[..|word|] == word && (word + " " + rest)[|word| + 1..] == rest
  {
    FirstChar(word, ' ', rest);
    assert word + [' '] + rest == word + " " + rest;
  }

  lemma TargetSplits(h: Head)
    requires h.query == ""
    ensures var h1 := ExtractQuery(h);
            SplitsTarget(h1, h.url) && h1 == h.(url := h1.url, query := h1.query)
  {
    if Find(h.url, "?", 0).Some? {
      var q := Find(h.url, "?", 0).value;
      assert "?"[0] == '?' && h.url[q] == '?';
      assert h.url == h.url[..q] + "?" + h.url[q + 1..];
      forall i | 0 <= i < q ensures h.url[..q][i] != '?' {
        assert !OccursAt(h.url, "?", i);
      }
    } else {
      forall i | 0 <= i < |h.url| ensures h.url[i] != '?' {
        assert !OccursAt(h.url, "?", i);
        assert "?"[0] == '?';
      }
    }
  }

  /** Two words are an HTTP/0.9 request, complete without headers. */
  lemma TwoWords(name: string, target: string)
    requires Lacks(name, ' ') && Lacks(target, ' ')
    ensures var h := ParseRequestLine(FRESH_HEAD, name + " " + target);
            if !KnownMethod(name) then RefusedWith(h, 501)
            else if !StartsWithSlash(target) then RefusedWith(h, 400)
            else h.state.REQ_DONE? && h.status == 200 && MethodName(h.verb) == name &&
                 h.protocol == "HTTP/0.9" && SplitsTarget(h, target)
  {
    hide Find, ExtractQuery;
    var line := name + " " + target;
    FirstWord(name, target);
    NoSecondSpace(name, target);
    TargetSplits(FRESH_HEAD.(verb := MethodOf(name), url := target, protocol := "HTTP/0.9"));
  }

  lemma NoSecondSpace(name: string, target: string)
    requires Lacks(target, ' ')
    ensures Find(name + " " + target, " ", |name| + 1).None?
  {
    hide Find, OccursAt;
    var line := name + " " + target;
    forall i | |name| < i < |line| ensures line[i] != ' ' {
      assert line[i] == target[i - |name| - 1];
    }
    var found := Find(line, " ", |name| + 1);
    if found.Some? {
      SpaceAt(line, found.value);
    }
  }

  lemma SpaceAt(s: string, i: nat)
    requires OccursAt(s, " ", i)
    ensures i < |s| && s[i] == ' '
  {
    assert s[i + 0] == " "[0];
  }

  /** A line without a space is refused. */
  lemma OneWord(line: string)
    requires Lacks(line, ' ')
    ensures RefusedWith(ParseRequestLine(FRESH_HEAD, line), 400)
  {
    assert " " == [' '];
    NoChar(line, ' ');
  }

  // ---------------------------------------------------------------- the type of the body

  predicate SaysChunked(h: Head) {
    Find(ToLower(Header(h, "transfer-encoding")), "chunked", 0).Some?
  }

  /** A declared length that fits is understood: over a nonzero limit it is refused with 413, and
      otherwise it is the length of the body, 0 meaning none. A chunked body needs no length, and
      without either there is no body. */
  lemma DeclaredLength(h: Head, n: nat, limit: nat)
    requires h.state.REQ_HEADERS? && h.status == 200
    ensures SaysChunked(h) ==> TypeOfRequest(h, limit) == h.(state := REQ_CHUNKED, contentLength := -1)
    ensures !SaysChunked(h) && Header(h, "content-length") == "" ==>
              TypeOfRequest(h, limit) == h.(state := REQ_DONE, contentLength := 0)
    ensures !SaysChunked(h) && Header(h, "content-length") == Decimal(n) && n <= LONG_MAX ==>
              var t := TypeOfRequest(h, limit);
              if 0 < limit < n then RefusedWith(t, 413) && t.contentLength == n
              else t == h.(state := if n == 0 then REQ_DONE else REQ_BODY, contentLength := n)
  {
    hide Find, ToLower, Header, StrToLl10, Decimal;
    var s := Decimal(n);
    if n <= LONG_MAX {
      StrToLl10OfDigits(s);
    }
  }

  /** A length that goes on after its digits, or is negative, is refused with 400. */
  lemma BadLength(h: Head, n: nat, c: char, more: string, limit: nat)
    requires h.state.REQ_HEADERS? && !SaysChunked(h) && !IsDigit(c) && c != '\0'
    ensures Header(h, "content-length") == Decimal(n) + [c] + more ==> RefusedWith(TypeOfRequest(h, limit), 400)
    ensures Header(h, "content-length") == "-" + Decimal(n) && n > 0 ==> RefusedWith(TypeOfRequest(h, limit), 400)
  {
    hide Find, ToLower, Header, Decimal;
    var digits := Decimal(n);
    LengthStops(digits, c, more);
    if n > 0 {
      LengthNegative(digits);
    }
    hide StrToLl10;
  }

  lemma LengthStops(digits: string, c: char, more: string)
    requires digits != "" && AllInBase(digits, 10) && !IsDigit(c)
    ensures StrToLl10(digits + [c] + more).stop == |digits|
  {
    var s := digits + [c] + more;
    PlainDigits(digits, 10);
    assert DigitValue(digits[0]) < 10 && s[0] == digits[0];
    assert TrimLeft(s) == s && SplitSign(s) == (false, s);
    assert DigitValue(([c] + more)[0]) >= 10;
    DigitRunStops(digits, [c] + more, 10);
    assert s == digits + ([c] + more);
  }

  lemma LengthNegative(digits: string)
    requires digits != "" && AllInBase(digits, 10) && NumberOf(digits, 10) > 0
    ensures StrToLl10("-" + digits).value < 0
  {
    var s := "-" + digits;
    PlainDigits(digits, 10);
    assert s[0] == '-' && s[1..] == digits;
    assert TrimLeft(s) == s && SplitSign(s) == (true, digits);
  }
}
