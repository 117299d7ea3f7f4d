/** Byte strings and the searches the server performs on them.
    A `string` stands for a C++ byte string: each `char` is one byte. */
module ByteStrings {
  datatype Option<+T> = None | Some(value: T) {
    function GetOr(default: T): T {
      if Some? then value else default
    }
  }

  const CRLF := "\r\n"
  const BLANK_LINE := "\r\n\r\n"

  predicate OccursAt(s: string, pat: string, i: nat) {
    i + |pat| <= |s| && forall k :: 0 <= k < |pat| ==> s[i + k] == pat[k]
  }

  /** std::string::find: the first occurrence of `pat` at or after `from`. */
  function Find(s: string, pat: string, from: nat): (r: Option<nat>)
    ensures r.Some? ==> from <= r.value && OccursAt(s, pat, r.value)
    ensures r.Some? ==> forall j: nat :: from <= j < r.value ==> !OccursAt(s, pat, j)
    ensures r.None? ==> forall j: nat :: from <= j ==> !OccursAt(s, pat, j)
    decreases |s| - from
  {
    if from + |pat| > |s| then None
    else if OccursAt(s, pat, from) then Some(from)
    else Find(s, pat, from + 1)
  }

  /** std::string::substr for a start within the string: the length is clipped. */
  function Substr(s: string, pos: nat, n: nat): string
    requires pos <= |s|
  {
    if pos + n <= |s| then s[pos..pos + n] else s[pos..]
  }

  lemma OccursInExtension(s: string, t: string, pat: string, i: nat)
    requires i + |pat| <= |s|
    ensures OccursAt(s + t, pat, i) <==> OccursAt(s, pat, i)
  {}

  /** What has been found stays the first occurrence when more bytes arrive. */
  lemma FindInExtension(s: string, t: string, pat: string, from: nat)
    requires Find(s, pat, from).Some?
    ensures Find(s + t, pat, from) == Find(s, pat, from)
  {
    hide Find;
    var i := Find(s, pat, from).value;
    forall j: nat | from <= j <= i ensures OccursAt(s + t, pat, j) <==> OccursAt(s, pat, j) {
      OccursInExtension(s, t, pat, j);
    }
  }

  /** An occurrence that ends inside a prefix is found in the prefix too. */
  lemma FindInPrefix(s: string, n: nat, pat: string)
    requires n <= |s| && Find(s, pat, 0).Some? && Find(s, pat, 0).value + |pat| <= n
    ensures Find(s[..n], pat, 0) == Find(s, pat, 0)
  {
    hide Find, OccursAt;
    var i := Find(s, pat, 0).value;
    assert s[..n] + s[n..] == s;
    forall j: nat | j <= i ensures OccursAt(s[..n], pat, j) <==> OccursAt(s, pat, j) {
      OccursInExtension(s[..n], s[n..], pat, j);
    }
  }

  /** A line that holds no CRLF ends at the CRLF appended to it. */
  lemma LineEnd(line: string, rest: string)
    requires Find(line, CRLF, 0).None?
    ensures Find(line + CRLF + rest, CRLF, 0) == Some(|line|)
  {
    var s := line + CRLF + rest;
    assert s == line + (CRLF + rest);
    forall j: nat | j < |line| ensures !OccursAt(s, CRLF, j) {
      if j + 2 <= |line| {
        OccursInExtension(line, CRLF + rest, CRLF, j);
      } else {
        CrlfAt(s, j);
      }
    }
    CrlfAt(s, |line|);
  }

  lemma CrlfAt(s: string, i: nat)
    ensures OccursAt(s, CRLF, i) <==> i + 2 <= |s| && s[i] == '\r' && s[i + 1] == '\n'
  {
    assert CRLF[0] == '\r' && CRLF[1] == '\n';
  }

  /** Two CRLFs never overlap. */
  lemma CrlfsApart(s: string, i: nat)
    requires OccursAt(s, CRLF, i)
    ensures s[i] == '\r' && s[i + 1] == '\n'
    ensures !OccursAt(s, CRLF, i + 1)
  {
    CrlfAt(s, i);
    CrlfAt(s, i + 1);
  }

  function Concat(pieces: seq<string>): string {
    if pieces == [] then "" else pieces[0] + Concat(pieces[1..])
  }

  lemma {:induction false} ConcatSplit(a: seq<string>, b: seq<string>)
    ensures Concat(a + b) == Concat(a) + Concat(b)
  {
    if a == [] {
      assert a + b == b;
    } else {
      ConcatSplit(a[1..], b);
      assert (a + b)[1..] == a[1..] + b;
    }
  }

  predicate IsSpace(c: char) {
    c == ' ' || 9 <= c as int <= 13
  }

  predicate IsDigit(c: char) {
    '0' <= c <= '9'
  }

  predicate AllDigits(s: string) {
    forall i :: 0 <= i < |s| ==> IsDigit(s[i])
  }

  function ToLowerChar(c: char): char {
    if 'A' <= c <= 'Z' then c - 'A' + 'a' else c
  }

  function ToLower(s: string): (r: string)
    ensures |r| == |s|
    ensures forall i :: 0 <= i < |s| ==> r[i] == ToLowerChar(s[i])
  {
    seq(|s|, i requires 0 <= i < |s| => ToLowerChar(s[i]))
  }

  predicate IsTrimmed(s: string) {
    s != "" ==> !IsSpace(s[0]) && !IsSpace(s[|s| - 1])
  }

  function TrimLeft(s: string): string {
    if s != "" && IsSpace(s[0]) then TrimLeft(s[1..]) else s
  }

  function TrimRight(s: string): string {
    if s != "" && IsSpace(s[|s| - 1]) then TrimRight(s[..|s| - 1]) else s
  }

  /** req_utils::trim: white space is dropped at both ends. */
  function Trim(s: string): string {
    TrimRight(TrimLeft(s))
  }

  lemma TrimTrimmed(s: string)
    requires IsTrimmed(s)
    ensures Trim(s) == s
    ensures Trim(" " + s) == s
  {
    assert (" " + s)[1..] == s;
    assert TrimLeft(s) == s;
  }
}
