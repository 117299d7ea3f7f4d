/** ConfigParser as it runs: the tokens are pushed by a scanning loop and consumed by advancing a
    position. Every method is proved to do what the function on the remaining tokens says; where that
    function fails, the method throws the same error. */
module ConfigParsers {
  import opened ByteStrings
  import opened ConfigLexer
  import opened ConfigSyntax
  import opened ConfigPrinter
  import opened ConfigRoundTrip

  /** The method returned or threw `r` and left the tokens `rest`, as `p` prescribes. */
  ghost predicate Agrees<T(!new)>(r: Outcome<T>, rest: Tokens, p: Parsed<T>) {
    match p
    case Got(value, left) => r == Fine(value) && rest == left
    case Failed(e) => r == Thrown(e)
  }

  class ConfigParser {
    const resolve: Resolver
    var tokens: seq<string>
    var pos: nat

    ghost predicate Valid()
      reads this
    {
      pos <= |tokens|
    }

    /** The tokens not consumed yet. */
    ghost function Rest(): Tokens
      requires Valid()
      reads this
    {
      tokens[pos..]
    }

    constructor (resolve: Resolver)
      ensures this.resolve == resolve && tokens == [] && pos == 0
    {
      this.resolve := resolve;
      tokens := [];
      pos := 0;
    }

    // -------------------------------------------------------------- the tokenizer

    method Scan(content: string)
      modifies this`tokens
      ensures tokens == old(tokens) + Tokenize(content)
    {
      assert Tokenize("") == [];
      hide Tokenize, WordRun, CommentRun, IsWordChar, IsSpace, IsDelimiter;
      var i := 0;
      assert content[0..] == content;
      while i < |content|
        invariant i <= |content|
        invariant tokens + Tokenize(content[i..]) == old(tokens) + Tokenize(content)
      {
        var c := content[i];
        ghost var left := content[i..];
        ghost var before := tokens;
        assert left[1..] == content[i + 1..];
        TokenizeStep(left);
        if IsSpace(c) {
          i := i + 1;
        } else if c == '#' {
          i := SkipComment(content, i);
        } else if IsDelimiter(c) {
          tokens := tokens + [[c]];
          i := i + 1;
          Regroup(before, [[c]], Tokenize(content[i..]));
        } else {
          var start := i;
          WordStarts(c);
          i := SkipWord(content, i);
          tokens := tokens + [content[start..i]];
          Regroup(before, [content[start..i]], Tokenize(content[i..]));
        }
      }
      assert content[i..] == "";
    }

    lemma TokenizeStep(s: string)
      requires s != ""
      ensures Tokenize(s) ==
                if IsSpace(s[0]) then Tokenize(s[1..])
                else if s[0] == '#' then Tokenize(s[CommentRun(s)..])
                else if IsDelimiter(s[0]) then [[s[0]]] + Tokenize(s[1..])
                else [s[..WordRun(s)]] + Tokenize(s[WordRun(s)..])
    {}

    lemma WordStarts(c: char)
      requires !IsSpace(c) && c != '#' && !IsDelimiter(c)
      ensures IsWordChar(c)
    {}

    static method SkipComment(content: string, start: nat) returns (i: nat)
      requires start < |content| && content[start] == '#'
      ensures start < i <= |content| && content[i..] == content[start..][CommentRun(content[start..])..]
    {
      i := start;
      while i < |content| && content[i] != '\n'
        invariant start <= i <= |content|
        invariant CommentRun(content[start..]) == i - start + CommentRun(content[i..])
      {
        assert content[i..][1..] == content[i + 1..];
        i := i + 1;
      }
    }

    static method SkipWord(content: string, start: nat) returns (i: nat)
      requires start < |content| && IsWordChar(content[start])
      ensures start < i <= |content|
      ensures i - start == WordRun(content[start..]) &&
            content[start..i] == content[start..][..WordRun(content[start..])]
      ensures content[i..] == content[start..][WordRun(content[start..])..]
    {
      i := start;
      while i < |content| && IsWordChar(content[i])
        invariant start <= i <= |content|
        invariant WordRun(content[start..]) == i - start + WordRun(content[i..])
      {
        assert content[i..][1..] == content[i + 1..];
        i := i + 1;
      }
    }

    // -------------------------------------------------------------- the token stream

    predicate AtEnd()
      reads this
    {
      pos >= |tokens|
    }

    method Peek() returns (r: Outcome<string>)
      requires Valid()
      ensures r == if Rest() == [] then Thrown(UnexpectedEnd) else Fine(Rest()[0])
    {
      if AtEnd() {
        return Thrown(UnexpectedEnd);
      }
      return Fine(tokens[pos]);
    }

    method Consume() returns (r: Outcome<string>)
      requires Valid()
      modifies this`pos
      ensures Valid() && Agrees(r, Rest(), ConfigSyntax.Consume(old(Rest())))
    {
      if AtEnd() {
        return Thrown(UnexpectedEnd);
      }
      var t := Take();
      return Fine(t);
    }

    /** _consume() where a token is known to be left. */
    method Take() returns (t: string)
      requires pos < |tokens|
      modifies this`pos
      ensures Valid() && old(Rest()) == [t] + Rest()
    {
      t := tokens[pos];
      pos := pos + 1;
    }

    method Expect(token: string) returns (r: Outcome<string>)
      requires Valid()
      modifies this`pos
      ensures Valid() && Agrees(r, Rest(), ConfigSyntax.Expect(old(Rest()), token))
    {
      var got :- Consume();
      if got != token {
        return Thrown(Expected(token, got));
      }
      return Fine(got);
    }

    // -------------------------------------------------------------- server directives

    method ParseListen(conf: ServerConf) returns (r: Outcome<ServerConf>)
      requires Valid()
      modifies this`pos
      ensures Valid() && Agrees(r, Rest(), WithOne(old(Rest()), v => ApplyServer(conf, Listen(v), resolve)))
    {
      hide ParseAddress;
      var value :- Consume();
      var _ :- Expect(";");
      var address :- ParseAddress(value, resolve);
      return Fine(conf.(address := address));
    }

    method ParseServerName(conf: ServerConf) returns (r: Outcome<ServerConf>)
      requires Valid()
      modifies this`pos
      ensures Valid() && Agrees(r, Rest(), WithOne(old(Rest()), v => ApplyServer(conf, ServerName(v), resolve)))
    {
      var name :- Consume();
      var _ :- Expect(";");
      return Fine(conf.(serverName := name));
    }

    method ParseMaxBodySize(conf: ServerConf) returns (r: Outcome<ServerConf>)
      requires Valid()
      modifies this`pos
      ensures Valid() && Agrees(r, Rest(), WithOne(old(Rest()), v => ApplyServer(conf, MaxBodySize(v), resolve)))
    {
      hide ParseBodySize;
      var value :- Consume();
      var _ :- Expect(";");
      var size :- ParseBodySize(value);
      return Fine(conf.(maxBodySize := size));
    }

    method ParseErrorPage(conf: ServerConf) returns (r: Outcome<ServerConf>)
      requires Valid()
      modifies this`pos
      ensures Valid() && Agrees(r, Rest(), WithTwo(old(Rest()), (c, p) => ApplyServer(conf, ErrorPage(c, p), resolve)))
    {
      var code :- Consume();
      var page :- Consume();
      var _ :- Expect(";");
      if |code| != 3 || !AllDigits(code) {
        return Thrown(InvalidValue(code));
      }
      return Fine(conf.(errorPages := conf.errorPages[code := page]));
    }

    // -------------------------------------------------------------- location directives

    method ParseRoot(loc: LocationConf) returns (r: Outcome<LocationConf>)
      requires Valid()
      modifies this`pos
      ensures Valid() && Agrees(r, Rest(), WithOne(old(Rest()), v => ApplyLocation(loc, Root(v))))
    {
      var root :- Consume();
      var _ :- Expect(";");
      return Fine(loc.(root := root));
    }

    method ParseMethods(loc0: LocationConf) returns (r: Outcome<LocationConf>)
      requires Valid()
      modifies this`pos
      ensures Valid() && Agrees(r, Rest(), ConfigSyntax.ParseMethods(old(Rest()), loc0))
    {
      hide AddMethod;
      var first :- Peek();
      if first == ";" {
        return Thrown(InvalidValue(";"));
      }
      var loc := loc0;
      while !AtEnd() && tokens[pos] != ";"
        invariant Valid() && ParseNames(Rest(), loc) == ParseNames(old(Rest()), loc0)
        decreases |tokens| - pos
      {
        var name := Take();
        loc :- AddMethod(loc, name);
      }
      var _ :- Expect(";");
      return Fine(loc);
    }

    method ParseAutoIndex(loc: LocationConf) returns (r: Outcome<LocationConf>)
      requires Valid()
      modifies this`pos
      ensures Valid() && Agrees(r, Rest(), WithOne(old(Rest()), v => ApplyLocation(loc, AutoIndex(v))))
    {
      var value :- Consume();
      var _ :- Expect(";");
      if value == "on" {
        return Fine(loc.(autoIndex := true));
      } else if value == "off" {
        return Fine(loc.(autoIndex := false));
      }
      return Thrown(InvalidValue(value));
    }

    method ParseIndex(loc: LocationConf) returns (r: Outcome<LocationConf>)
      requires Valid()
      modifies this`pos
      ensures Valid() && Agrees(r, Rest(), WithOne(old(Rest()), v => ApplyLocation(loc, Index(v))))
    {
      var page :- Consume();
      var _ :- Expect(";");
      return Fine(loc.(defaultPage := page));
    }

    method ParseUploadStore(loc: LocationConf) returns (r: Outcome<LocationConf>)
      requires Valid()
      modifies this`pos
      ensures Valid() && Agrees(r, Rest(), WithOne(old(Rest()), v => ApplyLocation(loc, UploadStore(v))))
    {
      var dir :- Consume();
      var _ :- Expect(";");
      return Fine(loc.(storageLocation := dir));
    }

    method ParseReturn(loc: LocationConf) returns (r: Outcome<LocationConf>)
      requires Valid()
      modifies this`pos
      ensures Valid() && Agrees(r, Rest(), WithTwo(old(Rest()), (c, u) => ApplyLocation(loc, Return(c, u))))
    {
      var code :- Consume();
      var url :- Consume();
      var _ :- Expect(";");
      if !AllDigits(code) {
        return Thrown(InvalidValue(code));
      }
      return Fine(loc.(returnCode := code, returnURL := url));
    }

    method ParseCgiInterpreter(loc: LocationConf) returns (r: Outcome<LocationConf>)
      requires Valid()
      modifies this`pos
      ensures Valid() && Agrees(r, Rest(), WithTwo(old(Rest()), (p, e) => ApplyLocation(loc, CgiInterpreter(p, e))))
    {
      var path :- Consume();
      var ext :- Consume();
      var _ :- Expect(";");
      return Fine(loc.(cgiInterpreters := loc.cgiInterpreters[ext := path]));
    }

    // -------------------------------------------------------------- blocks

    method LocationDirectiveAfter(directive: string, loc: LocationConf) returns (r: Outcome<LocationConf>)
      requires Valid()
      modifies this`pos
      ensures Valid() && Agrees(r, Rest(), ParseLocationDirective(directive, old(Rest()), loc))
    {
      hide ApplyLocation, OneValue, TwoValues, ConfigSyntax.ParseMethods, Lift;
      if directive == "root" {
        r := ParseRoot(loc);
      } else if directive == "methods" {
        r := ParseMethods(loc);
      } else if directive == "autoindex" {
        r := ParseAutoIndex(loc);
      } else if directive == "index" {
        r := ParseIndex(loc);
      } else if directive == "upload_store" {
        r := ParseUploadStore(loc);
      } else if directive == "return" {
        r := ParseReturn(loc);
      } else if directive == "cgi_interpreter" {
        r := ParseCgiInterpreter(loc);
      } else {
        r := Thrown(UnknownDirective(directive));
      }
    }

    method ParseLocationBlock(path: string) returns (r: Outcome<LocationConf>)
      requires Valid()
      modifies this`pos
      ensures Valid() && Agrees(r, Rest(), ConfigSyntax.ParseLocationBlock(old(Rest()), NewLocation(path)))
    {
      hide ParseLocationDirective;
      var loc := NewLocation(path);
      while !AtEnd() && tokens[pos] != "}"
        invariant Valid()
        invariant ConfigSyntax.ParseLocationBlock(Rest(), loc) ==
              ConfigSyntax.ParseLocationBlock(old(Rest()), NewLocation(path))
        decreases |tokens| - pos
      {
        ghost var before := Rest();
        var directive := Take();
        loc :- LocationDirectiveAfter(directive, loc);
        assert |Rest()| < |before|;
      }
      var _ :- Expect("}");
      return Fine(loc);
    }

    method ParseLocation(conf: ServerConf) returns (r: Outcome<ServerConf>)
      requires Valid()
      modifies this`pos
      ensures Valid() && Agrees(r, Rest(), ConfigSyntax.ParseLocation(old(Rest()), conf))
    {
      hide ConfigSyntax.ParseLocationBlock;
      var path :- Consume();
      var _ :- Expect("{");
      var loc :- ParseLocationBlock(path);
      return Fine(conf.(locations := conf.locations + [loc]));
    }

    method ServerDirectiveAfter(directive: string, conf: ServerConf) returns (r: Outcome<ServerConf>)
      requires Valid()
      modifies this`pos
      ensures Valid() && Agrees(r, Rest(), ParseServerDirective(directive, old(Rest()), conf, resolve))
    {
      hide ApplyServer, OneValue, TwoValues, ConfigSyntax.ParseLocation, Lift;
      if directive == "listen" {
        r := ParseListen(conf);
      } else if directive == "server_name" {
        r := ParseServerName(conf);
      } else if directive == "client_max_body_size" {
        r := ParseMaxBodySize(conf);
      } else if directive == "error_page" {
        r := ParseErrorPage(conf);
      } else if directive == "location" {
        r := ParseLocation(conf);
      } else {
        r := Thrown(UnknownDirective(directive));
      }
    }

    method ParseServerBlock() returns (r: Outcome<ServerConf>)
      requires Valid()
      modifies this`pos
      ensures Valid() && Agrees(r, Rest(), ConfigSyntax.ParseServerBlock(old(Rest()), NEW_SERVER, resolve))
    {
      hide ParseServerDirective;
      var conf := NEW_SERVER;
      while !AtEnd() && tokens[pos] != "}"
        invariant Valid()
        invariant ConfigSyntax.ParseServerBlock(Rest(), conf, resolve) ==
                    ConfigSyntax.ParseServerBlock(old(Rest()), NEW_SERVER, resolve)
        decreases |tokens| - pos
      {
        ghost var before := Rest();
        var directive := Take();
        conf :- ServerDirectiveAfter(directive, conf);
        assert |Rest()| < |before|;
      }
      var _ :- Expect("}");
      return Fine(conf);
    }

    /** parse() on the text of the file, for a parser that is used once. */
    method ParseFile(content: string) returns (r: Outcome<seq<ServerConf>>)
      requires tokens == [] && pos == 0
      modifies this
      ensures r == ParseText(content, resolve)
    {
      hide ConfigSyntax.ParseServerBlock, Tokenize;
      Scan(content);
      var servers := [];
      assert tokens[0..] == Tokenize(content);
      while !AtEnd()
        invariant Valid() && Parse(servers, Rest(), resolve) == ParseText(content, resolve)
        decreases |tokens| - pos
      {
        ghost var before := Rest();
        assert before[1..] == tokens[pos + 1..];
        if tokens[pos] != "server" {
          return Thrown(Expected("server", tokens[pos]));
        }
        var _ := Take();
        var _ :- Expect("{");
        var conf :- ParseServerBlock();
        servers := servers + [conf];
        assert |Rest()| < |before|;
      }
      if servers == [] {
        return Thrown(NoServerBlocks);
      }
      return Fine(servers);
    }
  }
}
