/** Configuration files that are refused: what is wrong with a directive, what is wrong with the order of
    the tokens, and that the first mistake is the one that is reported. */
module ConfigRefusals {
  import opened ByteStrings
  import opened CNumbers
  import opened RequestHead
  import opened ConfigLexer
  import opened ConfigSyntax
  import opened ConfigPrinter

  // ---------------------------------------------------------------- bytes

  /** The bytes that separate words: white space, the three delimiters and the number sign. */
  lemma WordBytes(c: char)
    ensures IsDelimiter(c) <==> c as int == 123 || c as int == 125 || c as int == 59
    ensures IsWordChar(c) <==>
              !(c as int == 32 || 9 <= c as int <= 13) && c as int != 35 && !IsDelimiter(c)
  {}

  /** A delimiter is a token of its own even between words, a word ends there or at white space, and
      what follows a number sign on a line is no token. */
  lemma TokensApart(first: string, c: char, second: string, comment: string)
    requires IsWord(first) && IsWord(second) && (c as int == 123 || c as int == 125 || c as int == 59)
    requires forall i :: 0 <= i < |comment| ==> comment[i] != '\n'
    ensures Tokenize(first + [c] + second + "#" + comment) == [first, [c], second]
  {
    hide Tokenize, IsWord, WordRun;
    var gap := "#" + comment;
    DelimiterIsNoWord(c);
    CommentIsBlank(comment);
    BlankAtEnd(gap);
    assert gap[0] == '#';
    TokenTaken(second, gap);
    assert IsToken([c]);
    DelimiterTaken(c, second + gap);
    TokenTaken(first, [c] + (second + gap));
    assert first + [c] + second + "#" + comment == first + ([c] + (second + gap));
    assert [first] + ([[c]] + ([second] + [])) == [first, [c], second];
  }

  lemma DelimiterTaken(c: char, rest: string)
    requires IsDelimiter(c)
    ensures Tokenize([c] + rest) == [[c]] + Tokenize(rest)
  {
    assert ([c] + rest)[0] == c && ([c] + rest)[1..] == rest;
  }

  lemma DelimiterIsNoWord(c: char)
    requires IsDelimiter(c)
    ensures !IsWord([c])
  {
    assert [c][0] == c;
  }

  lemma CommentIsBlank(comment: string)
    requires forall i :: 0 <= i < |comment| ==> comment[i] != '\n'
    ensures IsBlank("#" + comment, true)
  {
    var s := "#" + comment;
    assert s[0] == '#';
    forall i | 0 <= i < |s| ensures s[i] != '\n' {
      assert i > 0 ==> s[i] == comment[i - 1];
    }
  }

  // ---------------------------------------------------------------- directives

  /** One of the three methods. */
  predicate Method3(name: string) {
    name == "GET" || name == "POST" || name == "DELETE"
  }

  predicate Digits(s: string) {
    forall i :: 0 <= i < |s| ==> 48 <= s[i] as int <= 57
  }

  /** The first name that is no method. */
  predicate FirstUnknown(names: seq<string>, value: string) {
    exists i :: 0 <= i < |names| && names[i] == value && !Method3(value) &&
                forall j :: 0 <= j < i ==> Method3(names[j])
  }

  /** The value a location directive is refused for. */
  predicate LocationCulprit(d: LocationDirective, value: string) {
    match d
    case AutoIndex(v) => value == v && v != "on" && v != "off"
    case Return(code, _) => value == code && !Digits(code)
    case Methods(names) => FirstUnknown(names, value)
    case _ => false
  }

  lemma DigitsByCode(s: string)
    ensures Digits(s) <==> AllDigits(s)
  {}

  /** A location directive is refused exactly for such a value, which is named; otherwise it is accepted. */
  lemma LocationRefusedIff(loc: LocationConf, d: LocationDirective, value: string)
    ensures ApplyLocation(loc, d) == Thrown(InvalidValue(value)) <==> LocationCulprit(d, value)
    ensures ApplyLocation(loc, d).Thrown? ==> exists v :: ApplyLocation(loc, d) == Thrown(InvalidValue(v))
  {
    match d {
      case Methods(names) => MethodsRefusedIff(loc, names, value);
      case Return(code, _) => DigitsByCode(code);
      case _ =>
    }
  }

  lemma {:induction false} MethodsRefusedIff(loc: LocationConf, names: seq<string>, value: string)
    ensures AddMethods(loc, names) == Thrown(InvalidValue(value)) <==> FirstUnknown(names, value)
    ensures AddMethods(loc, names).Thrown? ==> exists v :: AddMethods(loc, names) == Thrown(InvalidValue(v))
    ensures AddMethods(loc, names).Fine? <==> forall i :: 0 <= i < |names| ==> Method3(names[i])
    decreases |names|
  {
    if names != [] {
      var name := names[0];
      assert MethodOf(name).UNKNOWN_METHOD? <==> !Method3(name);
      if Method3(name) {
        MethodsRefusedIff(AddMethod(loc, name).value, names[1..], value);
        if i :| 0 <= i < |names| && names[i] == value && !Method3(value) &&
                forall j :: 0 <= j < i ==> Method3(names[j]) {
          assert names[1..][i - 1] == value;
          assert forall j :: 0 <= j < i - 1 ==> names[1..][j] == names[j + 1];
        }
        if FirstUnknown(names[1..], value) {
          var i :| 0 <= i < |names[1..]| && names[1..][i] == value && !Method3(value) &&
                   forall j :: 0 <= j < i ==> Method3(names[1..][j]);
          assert names[i + 1] == value;
          assert forall j :: 0 < j < i + 1 ==> names[j] == names[1..][j - 1];
        }
      } else {
        assert names[0] == name;
      }
    }
  }

  /** The value a server directive is refused for, its locations aside. */
  ghost predicate ServerCulprit(d: ServerDirective, value: string, resolve: Resolver) {
    match d
    case Listen(v) => AddressCulprit(v, value, resolve)
    case MaxBodySize(v) => value == v && !SizeText3(v)
    case ErrorPage(code, _) => value == code && !(|code| == 3 && Digits(code))
    case _ => false
  }

  /** Digits, and perhaps one of the suffixes. */
  predicate SizeText3(v: string) {
    v != "" &&
    var last := v[|v| - 1];
    if last in {'k', 'K', 'm', 'M', 'g', 'G'} then |v| > 1 && Digits(v[..|v| - 1]) else Digits(v)
  }

  /** The port, if it is no number or out of range, or else the host. */
  predicate AddressCulprit(v: string, value: string, resolve: Resolver) {
    match Find(v, ":", 0)
    case None => value == v && ParsePort(v).Thrown?
    case Some(colon) =>
      var port := v[colon + 1..];
      if ParsePort(port).Thrown? then value == port
      else value == v[..colon] && (value == "" || resolve(value).None?)
  }

  lemma ServerRefusedIff(conf: ServerConf, d: ServerDirective, value: string, resolve: Resolver)
    requires !d.Location?
    ensures ApplyServer(conf, d, resolve) == Thrown(InvalidValue(value)) <==> ServerCulprit(d, value, resolve)
    ensures ApplyServer(conf, d, resolve).Thrown? ==>
              exists v :: ApplyServer(conf, d, resolve) == Thrown(InvalidValue(v))
  {
    hide Find, AtoI, AtoL, SizeT;
    match d {
      case ErrorPage(code, _) => DigitsByCode(code);
      case MaxBodySize(v) =>
        DigitsByCode(v);
        if v != "" {
          DigitsByCode(v[..|v| - 1]);
        }
      case _ =>
    }
  }

  // ---------------------------------------------------------------- the order of tokens

  predicate ServerKeyword(name: string) {
    name == "listen" || name == "server_name" || name == "client_max_body_size" || name == "error_page" ||
    name == "location"
  }

  predicate LocationKeyword7(name: string) {
    name == "root" || name == "methods" || name == "autoindex" || name == "index" || name == "upload_store" ||
    name == "return" || name == "cgi_interpreter"
  }

  /** Directives that are well-formed are applied before what follows them is looked at. */
  lemma {:induction false} ServerPrefix(ds: seq<ServerDirective>, tail: Tokens, conf: ServerConf, resolve: Resolver)
    requires ShapedServers(ds)
    ensures ParseServerBlock(PrintServers(ds) + tail, conf, resolve) ==
              match ApplyServers(conf, ds, resolve)
              case Fine(conf1) => ParseServerBlock(tail, conf1, resolve)
              case Thrown(e) => Failed(e)
    decreases |ds|
  {
    if ds == [] {
      assert PrintServers(ds) + tail == tail;
    } else {
      var d := ds[0];
      var ts1 := PrintServers(ds[1..]) + tail;
      hide ParseServerDirective, ApplyServer, PrintServer;
      ServerDirectiveParses(d, conf, ts1, resolve);
      assert PrintServers(ds) == PrintServer(d) + PrintServers(ds[1..]);
      hide PrintServers;
      Regroup(PrintServer(d), PrintServers(ds[1..]), tail);
      HeadAndTail(PrintServer(d), ts1);
      if ApplyServer(conf, d, resolve).Fine? {
        ServerPrefix(ds[1..], tail, ApplyServer(conf, d, resolve).value, resolve);
      }
    }
  }

  lemma {:induction false} LocationPrefix(ds: seq<LocationDirective>, tail: Tokens, loc: LocationConf)
    requires ShapedLocations(ds)
    ensures ParseLocationBlock(PrintLocations(ds) + tail, loc) ==
              match ApplyLocations(loc, ds)
              case Fine(loc1) => ParseLocationBlock(tail, loc1)
              case Thrown(e) => Failed(e)
    decreases |ds|
  {
    if ds == [] {
      assert PrintLocations(ds) + tail == tail;
    } else {
      var d := ds[0];
      hide ParseLocationDirective, ApplyLocation, PrintLocations;
      LocationsPrinted(ds, tail);
      ArgumentsParse(d, loc, PrintLocations(ds[1..]) + tail);
      KeywordIsNoBrace(d);
      if ApplyLocation(loc, d).Fine? {
        LocationPrefix(ds[1..], tail, ApplyLocation(loc, d).value);
      }
    }
  }

  /** The servers of whole blocks, or the first mistake in them. */
  function Servers(before: seq<ServerConf>, blocks: seq<seq<ServerDirective>>,
                   resolve: Resolver): Outcome<seq<ServerConf>>
    decreases |blocks|
  {
    if blocks == [] then Fine(before)
    else match ApplyServers(NEW_SERVER, blocks[0], resolve)
      case Thrown(e) => Thrown(e)
      case Fine(conf) => Servers(before + [conf], blocks[1..], resolve)
  }

  lemma {:induction false} FilePrefix(before: seq<ServerConf>, blocks: seq<seq<ServerDirective>>, tail: Tokens,
                                      resolve: Resolver)
    requires Shaped(blocks)
    ensures Parse(before, Print(blocks) + tail, resolve) ==
              match Servers(before, blocks, resolve)
              case Fine(confs) => Parse(confs, tail, resolve)
              case Thrown(e) => Thrown(e)
    decreases |blocks|
  {
    if blocks == [] {
      assert Print(blocks) + tail == tail;
    } else {
      hide ParseServerBlock, PrintServers, ApplyServers;
      var rest := Print(blocks[1..]) + tail;
      var ts := PrintServers(blocks[0]) + (["}"] + rest);
      assert Print(blocks) + tail == ["server", "{"] + ts;
      ServerPrinted(ts);
      ServerBlockParses(blocks[0], NEW_SERVER, rest, resolve);
      var r := ApplyServers(NEW_SERVER, blocks[0], resolve);
      if r.Fine? {
        FilePrefix(before + [r.value], blocks[1..], tail, resolve);
      }
    }
  }

  /** The mistakes that the next tokens of a server block can make, whatever follows them. */
  lemma ServerMistakes(conf: ServerConf, name: string, value: string, got: string, rest: Tokens, resolve: Resolver)
    ensures ParseServerBlock([], conf, resolve) == Failed(UnexpectedEnd)
    ensures name != "}" && !ServerKeyword(name) ==>
              ParseServerBlock([name] + rest, conf, resolve) == Failed(UnknownDirective(name))
    ensures ServerKeyword(name) ==> ParseServerBlock([name], conf, resolve) == Failed(UnexpectedEnd)
    ensures ServerKeyword(name) && name != "error_page" && got != (if name == "location" then "{" else ";") ==>
              ParseServerBlock([name, value, got] + rest, conf, resolve) ==
              Failed(Expected(if name == "location" then "{" else ";", got))
    ensures ServerKeyword(name) && name != "error_page" ==>
              ParseServerBlock([name, value], conf, resolve) == Failed(UnexpectedEnd)
  {
    hide ApplyServer, ParseLocationBlock;
    assert [name][1..] == [] && ([name] + rest)[1..] == rest;
    assert [name, value][1..] == [value] && [value][1..] == [];
    assert ([name, value, got] + rest)[1..] == [value, got] + rest;
    assert ([value, got] + rest)[1..] == [got] + rest;
  }

  /** The same in a location block. */
  lemma LocationMistakes(loc: LocationConf, name: string, value: string, got: string, rest: Tokens)
    ensures ParseLocationBlock([], loc) == Failed(UnexpectedEnd)
    ensures name != "}" && !LocationKeyword7(name) ==>
              ParseLocationBlock([name] + rest, loc) == Failed(UnknownDirective(name))
    ensures LocationKeyword7(name) ==> ParseLocationBlock([name], loc) == Failed(UnexpectedEnd)
    ensures name in {"root", "autoindex", "index", "upload_store"} && got != ";" ==>
              ParseLocationBlock([name, value, got] + rest, loc) == Failed(Expected(";", got))
    ensures ParseLocationBlock(["methods", ";"] + rest, loc) == Failed(InvalidValue(";"))
  {
    hide ApplyLocation;
    assert [name][1..] == [] && ([name] + rest)[1..] == rest;
    assert ([name, value, got] + rest)[1..] == [value, got] + rest;
    assert ([value, got] + rest)[1..] == [got] + rest;
    assert (["methods", ";"] + rest)[1..] == [";"] + rest;
  }

  /** The first mistake in a server block is reported, behind any well-formed blocks and directives and
      in front of anything at all. */
  lemma BlockMistakeReported(blocks: seq<seq<ServerDirective>>, ds: seq<ServerDirective>, tail: Tokens,
                             confs: seq<ServerConf>, conf: ServerConf, e: ConfigError, resolve: Resolver)
    requires Shaped(blocks) && ShapedServers(ds)
    requires Servers([], blocks, resolve) == Fine(confs) && ApplyServers(NEW_SERVER, ds, resolve) == Fine(conf)
    requires ParseServerBlock(tail, conf, resolve) == Failed(e)
    ensures Parse([], Print(blocks) + (["server", "{"] + (PrintServers(ds) + tail)), resolve) == Thrown(e)
  {
    hide ParseServerBlock, PrintServers, ApplyServers, Print, Servers;
    var ts := PrintServers(ds) + tail;
    FilePrefix([], blocks, ["server", "{"] + ts, resolve);
    ServerPrinted(ts);
    ServerPrefix(ds, tail, NEW_SERVER, resolve);
  }

  /** A directive that is refused ends the parse with its complaint, whatever follows it. */
  lemma RefusalReported(blocks: seq<seq<ServerDirective>>, ds: seq<ServerDirective>, d: ServerDirective, rest: Tokens,
                        confs: seq<ServerConf>, conf: ServerConf, e: ConfigError, resolve: Resolver)
    requires Shaped(blocks) && ShapedServers(ds) && ShapedServer(d)
    requires Servers([], blocks, resolve) == Fine(confs) && ApplyServers(NEW_SERVER, ds, resolve) == Fine(conf)
    requires ApplyServer(conf, d, resolve) == Thrown(e)
    ensures Parse([], Print(blocks) + (["server", "{"] + (PrintServers(ds) + (PrintServer(d) + rest))), resolve) ==
              Thrown(e)
  {
    hide ParseServerDirective, PrintServers, ApplyServers, Print, Servers, ApplyServer, PrintServer;
    ServerDirectiveParses(d, conf, rest, resolve);
    HeadAndTail(PrintServer(d), rest);
    assert ParseServerBlock(PrintServer(d) + rest, conf, resolve) == Failed(e);
    BlockMistakeReported(blocks, ds, PrintServer(d) + rest, confs, conf, e, resolve);
  }

  /** What is wrong between blocks: no server at all, something else than a server, or no brace. */
  lemma FileMistakes(blocks: seq<seq<ServerDirective>>, confs: seq<ServerConf>, name: string, got: string, rest: Tokens,
                     resolve: Resolver)
    requires Shaped(blocks) && Servers([], blocks, resolve) == Fine(confs)
    ensures Parse([], [], resolve) == Thrown(NoServerBlocks)
    ensures name != "server" ==> Parse([], Print(blocks) + ([name] + rest), resolve) == Thrown(Expected("server", name))
    ensures Parse([], Print(blocks) + ["server"], resolve) == Thrown(UnexpectedEnd)
    ensures got != "{" ==> Parse([], Print(blocks) + (["server", got] + rest), resolve) == Thrown(Expected("{", got))
  {
    hide ParseServerBlock, Print, Servers, Shaped;
    FilePrefix([], blocks, [name] + rest, resolve);
    FilePrefix([], blocks, ["server"], resolve);
    FilePrefix([], blocks, ["server", got] + rest, resolve);
    assert ["server"][1..] == [] && (["server", got] + rest)[1..] == [got] + rest;
  }
}
