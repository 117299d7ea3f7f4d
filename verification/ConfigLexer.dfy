/** The tokens of a configuration file: ConfigParser::_tokenize as a function on the text, and exactly
    which texts have a given list of tokens. */
module ConfigLexer {
  import opened ByteStrings

  predicate IsDelimiter(c: char) {
    c == '{' || c == '}' || c == ';'
  }

  /** A byte that continues a word. */
  predicate IsWordChar(c: char) {
    !IsSpace(c) && !IsDelimiter(c) && c != '#'
  }

  predicate IsWord(t: string) {
    t != "" && forall i :: 0 <= i < |t| ==> IsWordChar(t[i])
  }

  /** A delimiter of its own, or a word. */
  predicate IsToken(t: string) {
    (|t| == 1 && IsDelimiter(t[0])) || IsWord(t)
  }

  /** The length of the word `s` starts with. */
  function WordRun(s: string): (n: nat)
    ensures n <= |s| && (forall i :: 0 <= i < n ==> IsWordChar(s[i]))
    ensures n < |s| ==> !IsWordChar(s[n])
  {
    if s != "" && IsWordChar(s[0]) then 1 + WordRun(s[1..]) else 0
  }

  /** The length of the comment `s` starts with, without the newline that ends it. */
  function CommentRun(s: string): (n: nat)
    ensures n <= |s| && (forall i :: 0 <= i < n ==> s[i] != '\n')
    ensures n < |s| ==> s[n] == '\n'
  {
    if s != "" && s[0] != '\n' then 1 + CommentRun(s[1..]) else 0
  }

  function Tokenize(content: string): seq<string>
    decreases |content|
  {
    if content == "" then []
    else if IsSpace(content[0]) then Tokenize(content[1..])
    else if content[0] == '#' then Tokenize(content[CommentRun(content)..])
    else if IsDelimiter(content[0]) then [[content[0]]] + Tokenize(content[1..])
    else [content[..WordRun(content)]] + Tokenize(content[WordRun(content)..])
  }

  // ---------------------------------------------------------------- layouts

  /** White space and comments. Only at the end of the text may a comment lack its newline. */
  predicate IsBlank(s: string, atEnd: bool)
    decreases |s|
  {
    s == "" ||
    (IsSpace(s[0]) && IsBlank(s[1..], atEnd)) ||
    (s[0] == '#' && if CommentRun(s) == |s| then atEnd else IsBlank(s[CommentRun(s)..], atEnd))
  }

  /** The text with gaps[k] before the k-th token and the last gap at the end. */
  function Layout(tokens: seq<string>, gaps: seq<string>): string
    requires |gaps| == |tokens| + 1
  {
    if tokens == [] then gaps[0] else gaps[0] + (tokens[0] + Layout(tokens[1..], gaps[1..]))
  }

  /** The gaps hold nothing but white space and comments, and two words are never run together. */
  predicate Fits(tokens: seq<string>, gaps: seq<string>) {
    && |gaps| == |tokens| + 1
    && IsBlank(gaps[0], tokens == [])
    && (tokens != [] ==>
          && IsToken(tokens[0]) && Fits(tokens[1..], gaps[1..])
          && (IsWord(tokens[0]) && |tokens| > 1 && IsWord(tokens[1]) ==> gaps[1] != ""))
  }

  lemma {:induction false} BlankSkipped(gap: string, rest: string)
    requires IsBlank(gap, false)
    ensures Tokenize(gap + rest) == Tokenize(rest)
    decreases |gap|
  {
    if gap == "" {
      assert gap + rest == rest;
    } else if IsSpace(gap[0]) {
      assert (gap + rest)[1..] == gap[1..] + rest;
      BlankSkipped(gap[1..], rest);
    } else {
      var n := CommentRun(gap);
      CommentEnds(gap, rest);
      assert (gap + rest)[n..] == gap[n..] + rest;
      BlankSkipped(gap[n..], rest);
    }
  }

  lemma {:induction false} CommentEnds(s: string, rest: string)
    requires CommentRun(s) < |s|
    ensures CommentRun(s + rest) == CommentRun(s)
  {
    if s[0] != '\n' {
      assert (s + rest)[1..] == s[1..] + rest;
      CommentEnds(s[1..], rest);
    }
  }

  lemma {:induction false} BlankAtEnd(gap: string)
    requires IsBlank(gap, true)
    ensures Tokenize(gap) == []
    decreases |gap|
  {
    if gap == "" {
    } else if IsSpace(gap[0]) {
      BlankAtEnd(gap[1..]);
    } else {
      BlankAtEnd(gap[CommentRun(gap)..]);
    }
  }

  lemma {:induction false} WordEnds(word: string, rest: string)
    requires forall i :: 0 <= i < |word| ==> IsWordChar(word[i])
    requires rest == "" || !IsWordChar(rest[0])
    ensures WordRun(word + rest) == |word|
  {
    if word == "" {
      assert word + rest == rest;
    } else {
      assert (word + rest)[1..] == word[1..] + rest;
      WordEnds(word[1..], rest);
    }
  }

  lemma TokenTaken(token: string, rest: string)
    requires IsToken(token)
    requires IsWord(token) ==> rest == "" || !IsWordChar(rest[0])
    ensures Tokenize(token + rest) == [token] + Tokenize(rest)
  {
    if IsWord(token) {
      assert IsWordChar(token[0]);
      WordEnds(token, rest);
      assert (token + rest)[..|token|] == token && (token + rest)[|token|..] == rest;
    } else {
      assert token == [token[0]] && (token + rest)[1..] == rest;
    }
  }

  /** Unless a word follows at once, what comes after a token does not continue it. */
  lemma NextByte(tokens: seq<string>, gaps: seq<string>)
    requires Fits(tokens, gaps) && (tokens != [] && IsWord(tokens[0]) ==> gaps[0] != "")
    ensures Layout(tokens, gaps) == "" || !IsWordChar(Layout(tokens, gaps)[0])
  {
    hide Layout;
    LayoutStarts(tokens, gaps);
  }

  lemma LayoutStarts(tokens: seq<string>, gaps: seq<string>)
    requires |gaps| == |tokens| + 1
    ensures gaps[0] != "" ==> Layout(tokens, gaps) != "" && Layout(tokens, gaps)[0] == gaps[0][0]
    ensures gaps[0] == "" && tokens == [] ==> Layout(tokens, gaps) == ""
    ensures gaps[0] == "" && tokens != [] && tokens[0] != "" ==>
              Layout(tokens, gaps) != "" && Layout(tokens, gaps)[0] == tokens[0][0]
  {}

  /** However the tokens are laid out, they are read back. */
  lemma {:induction false} LayoutTokenizes(tokens: seq<string>, gaps: seq<string>)
    requires Fits(tokens, gaps)
    ensures Tokenize(Layout(tokens, gaps)) == tokens
    decreases |tokens|
  {
    if tokens == [] {
      BlankAtEnd(gaps[0]);
    } else {
      var rest := Layout(tokens[1..], gaps[1..]);
      BlankSkipped(gaps[0], tokens[0] + rest);
      if IsWord(tokens[0]) {
        NextByte(tokens[1..], gaps[1..]);
      }
      TokenTaken(tokens[0], rest);
      LayoutTokenizes(tokens[1..], gaps[1..]);
    }
  }

  /** The gaps of a text. */
  function Gaps(content: string): (gaps: seq<string>)
    ensures |gaps| == |Tokenize(content)| + 1
    decreases |content|
  {
    if content == "" then [""]
    else if IsSpace(content[0]) then Wider([content[0]], Gaps(content[1..]))
    else if content[0] == '#' then Wider(content[..CommentRun(content)], Gaps(content[CommentRun(content)..]))
    else if IsDelimiter(content[0]) then [""] + Gaps(content[1..])
    else [""] + Gaps(content[WordRun(content)..])
  }

  function Wider(blank: string, gaps: seq<string>): (r: seq<string>)
    requires gaps != []
    ensures |r| == |gaps| && r[0] == blank + gaps[0] && r[1..] == gaps[1..]
  {
    [blank + gaps[0]] + gaps[1..]
  }

  /** Every text is a layout of its tokens. */
  lemma {:induction false} TextIsLayout(content: string)
    ensures Fits(Tokenize(content), Gaps(content)) && Layout(Tokenize(content), Gaps(content)) == content
    decreases |content|
  {
    hide Fits, Layout, IsBlank, WordRun, CommentRun, IsSpace, IsDelimiter;
    if content == "" {
      EmptyIsLayout();
    } else if IsSpace(content[0]) {
      TextIsLayout(content[1..]);
      SpaceWidened(content);
      Widened([content[0]], content[1..]);
      assert [content[0]] + content[1..] == content;
    } else if content[0] == '#' {
      var n := CommentRun(content);
      TextIsLayout(content[n..]);
      CommentWidened(content);
      Widened(content[..n], content[n..]);
      assert content[..n] + content[n..] == content;
    } else if IsDelimiter(content[0]) {
      TextIsLayout(content[1..]);
      DelimiterIsToken(content[0]);
      TokenLaidOut([content[0]], content[1..]);
      assert [content[0]] + content[1..] == content;
    } else {
      var n := WordRun(content);
      TextIsLayout(content[n..]);
      WordIsToken(content);
      TokenLaidOut(content[..n], content[n..]);
      assert content[..n] + content[n..] == content;
    }
  }

  lemma Widened(blank: string, rest: string)
    requires Fits(Tokenize(rest), Gaps(rest)) && Layout(Tokenize(rest), Gaps(rest)) == rest
    requires IsBlank(blank + Gaps(rest)[0], Tokenize(rest) == [])
    ensures Fits(Tokenize(rest), Wider(blank, Gaps(rest)))
    ensures Layout(Tokenize(rest), Wider(blank, Gaps(rest))) == blank + rest
  {
    hide Tokenize, Gaps, Wider, IsBlank;
    var tokens, gaps := Tokenize(rest), Gaps(rest);
    assert Wider(blank, gaps)[0] == blank + gaps[0];
    if tokens != [] {
      assert rest == gaps[0] + (tokens[0] + Layout(tokens[1..], gaps[1..]));
      if |tokens| > 1 {
        assert Wider(blank, gaps)[1] == Wider(blank, gaps)[1..][0] == gaps[1..][0] == gaps[1];
      }
    }
  }

  lemma EmptyIsLayout()
    ensures Fits([], [""]) && Layout([], [""]) == ""
  {}

  lemma SpaceWidened(content: string)
    requires content != "" && IsSpace(content[0])
    requires Fits(Tokenize(content[1..]), Gaps(content[1..]))
    ensures IsBlank([content[0]] + Gaps(content[1..])[0], Tokenize(content[1..]) == [])
  {
    var gap := Gaps(content[1..])[0];
    hide Tokenize, Gaps;
    assert ([content[0]] + gap)[1..] == gap;
  }

  lemma CommentWidened(content: string)
    requires content != "" && content[0] == '#'
    requires var rest := content[CommentRun(content)..];
             Fits(Tokenize(rest), Gaps(rest))
    ensures var n := CommentRun(content);
            IsBlank(content[..n] + Gaps(content[n..])[0], Tokenize(content[n..]) == [])
  {
    var n := CommentRun(content);
    var rest := content[n..];
    if rest == "" {
      assert content[..n] + Gaps(rest)[0] == content;
    } else {
      var gap := Gaps(rest)[0];
      assert gap[0] == '\n';
      CommentTo(content[..n], gap);
      assert (content[..n] + gap)[n..] == gap;
    }
  }

  lemma {:induction false} CommentTo(s: string, rest: string)
    requires forall i :: 0 <= i < |s| ==> s[i] != '\n'
    requires rest != "" && rest[0] == '\n'
    ensures CommentRun(s + rest) == |s|
  {
    if s == "" {
      assert s + rest == rest;
    } else {
      assert (s + rest)[1..] == s[1..] + rest;
      CommentTo(s[1..], rest);
    }
  }

  lemma DelimiterIsToken(c: char)
    requires IsDelimiter(c)
    ensures IsToken([c]) && !IsWord([c])
  {
    assert [c][0] == c;
  }

  lemma WordIsToken(content: string)
    requires content != "" && !IsSpace(content[0]) && content[0] != '#' && !IsDelimiter(content[0])
    ensures var n := WordRun(content);
            IsToken(content[..n]) && (content[n..] == "" || !IsWordChar(content[n..][0]))
  {
    var n := WordRun(content);
    forall i | 0 <= i < n ensures IsWordChar(content[..n][i]) {
      assert content[..n][i] == content[i];
    }
  }

  lemma TokenLaidOut(token: string, rest: string)
    requires IsToken(token) && (IsWord(token) ==> rest == "" || !IsWordChar(rest[0]))
    requires Fits(Tokenize(rest), Gaps(rest)) && Layout(Tokenize(rest), Gaps(rest)) == rest
    ensures Fits([token] + Tokenize(rest), [""] + Gaps(rest))
    ensures Layout([token] + Tokenize(rest), [""] + Gaps(rest)) == token + rest
  {
    hide Tokenize, Gaps;
    var tokens, gaps := Tokenize(rest), Gaps(rest);
    assert ([token] + tokens)[1..] == tokens && ([""] + gaps)[1..] == gaps;
    assert "" + (token + rest) == token + rest;
    if tokens != [] && IsWord(tokens[0]) {
      assert IsWordChar(tokens[0][0]);
      LayoutStarts(tokens, gaps);
    }
  }

  /** The tokenizer is insensitive to layout, and to nothing else: a text has these tokens exactly if
      it consists of them with white space and comments in between. In particular every token is a
      word or a single delimiter. */
  lemma TokenizeIff(content: string, tokens: seq<string>)
    ensures Tokenize(content) == tokens <==>
              exists gaps :: Fits(tokens, gaps) && Layout(tokens, gaps) == content
  {
    if Tokenize(content) == tokens {
      TextIsLayout(content);
      assert Fits(tokens, Gaps(content)) && Layout(tokens, Gaps(content)) == content;
    }
    forall gaps | Fits(tokens, gaps) && Layout(tokens, gaps) == content ensures Tokenize(content) == tokens {
      LayoutTokenizes(tokens, gaps);
    }
  }

  /** No token but a single delimiter contains one. */
  lemma TokensAreClean(content: string, k: nat)
    requires k < |Tokenize(content)|
    ensures IsToken(Tokenize(content)[k])
  {
    hide Tokenize, Gaps;
    TextIsLayout(content);
    FitsTokens(Tokenize(content), Gaps(content), k);
  }

  lemma {:induction false} FitsTokens(tokens: seq<string>, gaps: seq<string>, k: nat)
    requires Fits(tokens, gaps) && k < |tokens|
    ensures IsToken(tokens[k])
  {
    if k > 0 {
      FitsTokens(tokens[1..], gaps[1..], k - 1);
    }
  }

  /** One space everywhere fits any list of tokens. */
  function Spaces(tokens: seq<string>): (gaps: seq<string>)
    ensures |gaps| == |tokens| + 1
  {
    seq(|tokens| + 1, _ => " ")
  }

  lemma {:induction false} SpacesFit(tokens: seq<string>)
    requires forall k :: 0 <= k < |tokens| ==> IsToken(tokens[k])
    ensures Fits(tokens, Spaces(tokens))
  {
    assert IsBlank(" ", tokens == []) by {
      assert " "[1..] == "";
    }
    if tokens != [] {
      SpacesFit(tokens[1..]);
      assert Spaces(tokens)[1..] == Spaces(tokens[1..]);
    }
  }
}
