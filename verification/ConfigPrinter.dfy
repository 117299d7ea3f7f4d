/** Printing and parsing configurations: the parser accepts exactly the printed directive lists, and
    builds exactly the configurations that can be printed. */
module ConfigPrinter {
  import opened ByteStrings
  import opened CNumbers
  import opened ConfigSyntax

  // ---------------------------------------------------------------- printing directives

  function LocationKeyword(d: LocationDirective): string {
    match d
    case Root(_) => "root"
    case Methods(_) => "methods"
    case AutoIndex(_) => "autoindex"
    case Index(_) => "index"
    case UploadStore(_) => "upload_store"
    case Return(_, _) => "return"
    case CgiInterpreter(_, _) => "cgi_interpreter"
  }

  function LocationArguments(d: LocationDirective): Tokens {
    match d
    case Root(value) => [value]
    case Methods(names) => names
    case AutoIndex(value) => [value]
    case Index(value) => [value]
    case UploadStore(value) => [value]
    case Return(code, url) => [code, url]
    case CgiInterpreter(interpreter, extension) => [interpreter, extension]
  }

  function PrintLocation(d: LocationDirective): Tokens {
    [LocationKeyword(d)] + (LocationArguments(d) + [";"])
  }

  function PrintLocations(ds: seq<LocationDirective>): Tokens
    decreases |ds|
  {
    if ds == [] then [] else PrintLocation(ds[0]) + PrintLocations(ds[1..])
  }

  function PrintServer(d: ServerDirective): Tokens {
    match d
    case Listen(value) => ["listen", value, ";"]
    case ServerName(value) => ["server_name", value, ";"]
    case MaxBodySize(value) => ["client_max_body_size", value, ";"]
    case ErrorPage(code, page) => ["error_page", code, page, ";"]
    case Location(path, directives) => ["location", path, "{"] + (PrintLocations(directives) + ["}"])
  }

  function PrintServers(ds: seq<ServerDirective>): Tokens
    decreases |ds|
  {
    if ds == [] then [] else PrintServer(ds[0]) + PrintServers(ds[1..])
  }

  function Print(blocks: seq<seq<ServerDirective>>): Tokens
    decreases |blocks|
  {
    if blocks == [] then []
    else ["server", "{"] + (PrintServers(blocks[0]) + (["}"] + Print(blocks[1..])))
  }

  /** Any token may be a value, but a methods directive has at least one name and ends at the first
      semicolon. */
  predicate ShapedLocation(d: LocationDirective) {
    d.Methods? ==> d.names != [] && ";" !in d.names
  }

  predicate ShapedLocations(ds: seq<LocationDirective>) {
    forall i :: 0 <= i < |ds| ==> ShapedLocation(ds[i])
  }

  predicate ShapedServer(d: ServerDirective) {
    d.Location? ==> ShapedLocations(d.directives)
  }

  predicate ShapedServers(ds: seq<ServerDirective>) {
    forall i :: 0 <= i < |ds| ==> ShapedServer(ds[i])
  }

  predicate Shaped(blocks: seq<seq<ServerDirective>>) {
    forall i :: 0 <= i < |blocks| ==> ShapedServers(blocks[i])
  }

  // ---------------------------------------------------------------- printed directives parse

  lemma Regroup(a: Tokens, b: Tokens, c: Tokens)
    ensures (a + b) + c == a + (b + c)
  {}

  lemma HeadAndTail(a: Tokens, b: Tokens)
    requires a != []
    ensures (a + b)[0] == a[0] && (a + b)[1..] == a[1..] + b
  {}

  lemma OneValuePrinted(value: string, rest: Tokens)
    ensures OneValue([value, ";"] + rest) == Got(value, rest)
    ensures OneValue([value] + [";"] + rest) == Got(value, rest)
  {
    assert [value] + [";"] == [value, ";"];
    assert ([value, ";"] + rest)[1..] == [";"] + rest && ([";"] + rest)[1..] == rest;
  }

  lemma TwoValuesPrinted(first: string, second: string, rest: Tokens)
    ensures TwoValues([first, second, ";"] + rest) == Got((first, second), rest)
    ensures TwoValues([first, second] + [";"] + rest) == Got((first, second), rest)
  {
    assert [first, second] + [";"] == [first, second, ";"];
    assert ([first, second, ";"] + rest)[1..] == [second, ";"] + rest;
    OneValuePrinted(second, rest);
  }

  lemma {:induction false} NamesPrinted(names: seq<string>, loc: LocationConf, rest: Tokens)
    requires ";" !in names
    ensures ParseNames(names + ([";"] + rest), loc) == Lift(AddMethods(loc, names), rest)
    decreases |names|
  {
    var ts := names + ([";"] + rest);
    if names == [] {
      assert ts == [";"] + rest && ts[1..] == rest;
    } else {
      assert ts[0] == names[0] && ts[1..] == names[1..] + ([";"] + rest);
      if AddMethod(loc, names[0]).Fine? {
        NamesPrinted(names[1..], AddMethod(loc, names[0]).value, rest);
      }
    }
  }

  lemma ArgumentsParse(d: LocationDirective, loc: LocationConf, rest: Tokens)
    requires ShapedLocation(d)
    ensures ParseLocationDirective(LocationKeyword(d), LocationArguments(d) + [";"] + rest, loc) ==
              Lift(ApplyLocation(loc, d), rest)
  {
    hide OneValue, TwoValues, ParseNames;
    var ts := LocationArguments(d) + [";"] + rest;
    if d.Methods? {
      assert ts == d.names + ([";"] + rest) && ts[0] == d.names[0];
      NamesPrinted(d.names, loc, rest);
    } else {
      hide ApplyLocation;
      match d {
        case Return(code, url) => TwoValuesPrinted(code, url, rest);
        case CgiInterpreter(interpreter, extension) => TwoValuesPrinted(interpreter, extension, rest);
        case Root(value) => OneValuePrinted(value, rest);
        case AutoIndex(value) => OneValuePrinted(value, rest);
        case Index(value) => OneValuePrinted(value, rest);
        case UploadStore(value) => OneValuePrinted(value, rest);
      }
    }
  }

  lemma {:induction false} LocationBlockParses(ds: seq<LocationDirective>, loc: LocationConf, rest: Tokens)
    requires ShapedLocations(ds)
    ensures ParseLocationBlock(PrintLocations(ds) + (["}"] + rest), loc) == Lift(ApplyLocations(loc, ds), rest)
    decreases |ds|
  {
    var ts := PrintLocations(ds) + (["}"] + rest);
    if ds == [] {
      assert ts == ["}"] + rest && ts[1..] == rest;
    } else {
      var d := ds[0];
      var ts1 := PrintLocations(ds[1..]) + (["}"] + rest);
      hide ParseLocationDirective, ApplyLocation, PrintLocations;
      LocationsPrinted(ds, ["}"] + rest);
      ArgumentsParse(d, loc, ts1);
      KeywordIsNoBrace(d);
      if ApplyLocation(loc, d).Fine? {
        LocationBlockParses(ds[1..], ApplyLocation(loc, d).value, rest);
      }
    }
  }

  lemma LocationsPrinted(ds: seq<LocationDirective>, rest: Tokens)
    requires ds != []
    ensures var ts := PrintLocations(ds) + rest;
            && ts != [] && ts[0] == LocationKeyword(ds[0])
            && ts[1..] == LocationArguments(ds[0]) + [";"] + (PrintLocations(ds[1..]) + rest)
  {
    var d := ds[0];
    var more := PrintLocations(ds[1..]);
    assert PrintLocations(ds) == PrintLocation(d) + more;
    hide PrintLocations, LocationKeyword, LocationArguments;
    Regroup(PrintLocation(d), more, rest);
    HeadAndTail(PrintLocation(d), more + rest);
    HeadAndTail([LocationKeyword(d)], LocationArguments(d) + [";"]);
    assert [LocationKeyword(d)][1..] == [] && [] + (LocationArguments(d) + [";"]) == LocationArguments(d) + [";"];
  }

  lemma KeywordIsNoBrace(d: LocationDirective)
    ensures LocationKeyword(d) != "}"
  {}

  lemma LocationParses(path: string, ds: seq<LocationDirective>, conf: ServerConf, rest: Tokens, resolve: Resolver)
    requires ShapedLocations(ds)
    ensures ParseLocation([path, "{"] + (PrintLocations(ds) + (["}"] + rest)), conf) ==
              Lift(ApplyServer(conf, Location(path, ds), resolve), rest)
  {
    hide ParseLocationBlock, ApplyLocations, PrintLocations;
    var ts := PrintLocations(ds) + (["}"] + rest);
    assert ([path, "{"] + ts)[1..] == ["{"] + ts && (["{"] + ts)[1..] == ts;
    LocationBlockParses(ds, NewLocation(path), rest);
  }

  lemma ServerDirectiveParses(d: ServerDirective, conf: ServerConf, rest: Tokens, resolve: Resolver)
    requires ShapedServer(d)
    ensures PrintServer(d) != [] && PrintServer(d)[0] != "}"
    ensures ParseServerDirective(PrintServer(d)[0], PrintServer(d)[1..] + rest, conf, resolve) ==
              Lift(ApplyServer(conf, d, resolve), rest)
  {
    hide OneValue, TwoValues, ParseLocation, PrintLocations;
    if d.Location? {
      var (path, ds) := (d.path, d.directives);
      assert PrintServer(d)[1..] == [path, "{"] + (PrintLocations(ds) + ["}"]);
      Regroup([path, "{"], PrintLocations(ds) + ["}"], rest);
      Regroup(PrintLocations(ds), ["}"], rest);
      LocationParses(path, ds, conf, rest, resolve);
    } else {
      hide ApplyServer;
      match d {
        case Listen(value) => OneValuePrinted(value, rest);
        case ServerName(value) => OneValuePrinted(value, rest);
        case MaxBodySize(value) => OneValuePrinted(value, rest);
        case ErrorPage(code, page) => TwoValuesPrinted(code, page, rest);
      }
    }
  }

  lemma {:induction false} ServerBlockParses(ds: seq<ServerDirective>, conf: ServerConf, rest: Tokens,
        resolve: Resolver)
    requires ShapedServers(ds)
    ensures ParseServerBlock(PrintServers(ds) + (["}"] + rest), conf, resolve) ==
          Lift(ApplyServers(conf, ds, resolve), rest)
    decreases |ds|
  {
    var ts := PrintServers(ds) + (["}"] + rest);
    if ds == [] {
      assert ts == ["}"] + rest && ts[1..] == rest;
    } else {
      var d := ds[0];
      var ts1 := PrintServers(ds[1..]) + (["}"] + rest);
      hide ParseServerDirective, ApplyServer, PrintServer;
      ServerDirectiveParses(d, conf, ts1, resolve);
      assert PrintServers(ds) == PrintServer(d) + PrintServers(ds[1..]);
      hide PrintServers;
      Regroup(PrintServer(d), PrintServers(ds[1..]), ["}"] + rest);
      HeadAndTail(PrintServer(d), ts1);
      if ApplyServer(conf, d, resolve).Fine? {
        ServerBlockParses(ds[1..], ApplyServer(conf, d, resolve).value, rest, resolve);
      }
    }
  }

  lemma ServerPrinted(ts: Tokens)
    ensures (["server", "{"] + ts)[0] == "server" && (["server", "{"] + ts)[1..] == ["{"] + ts
    ensures (["{"] + ts)[1..] == ts
  {
    HeadAndTail(["server", "{"], ts);
    HeadAndTail(["{"], ts);
  }

  /** Printed blocks parse to what they mean, or fail for the reason they are refused. */
  lemma {:induction false} PrintedParses(before: seq<ServerConf>, blocks: seq<seq<ServerDirective>>, resolve: Resolver)
    requires Shaped(blocks)
    ensures Parse(before, Print(blocks), resolve) == Meaning(before, blocks, resolve)
    decreases |blocks|
  {
    if blocks != [] {
      hide ParseServerBlock, PrintServers, ApplyServers;
      var ts := PrintServers(blocks[0]) + (["}"] + Print(blocks[1..]));
      ServerPrinted(ts);
      ServerBlockParses(blocks[0], NEW_SERVER, Print(blocks[1..]), resolve);
      var r := ApplyServers(NEW_SERVER, blocks[0], resolve);
      if r.Fine? {
        PrintedParses(before + [r.value], blocks[1..], resolve);
      }
    }
  }

  // ---------------------------------------------------------------- what parses was printed

  lemma OneValueRead(ts: Tokens)
    requires OneValue(ts).Got?
    ensures ts == [OneValue(ts).value, ";"] + OneValue(ts).rest
  {}

  lemma TwoValuesRead(ts: Tokens)
    requires TwoValues(ts).Got?
    ensures ts == [TwoValues(ts).value.0, TwoValues(ts).value.1, ";"] + TwoValues(ts).rest
  {
    OneValueRead(ts[1..]);
    hide OneValue;
  }

  lemma {:induction false} NamesRead(ts: Tokens, loc: LocationConf) returns (names: seq<string>)
    requires ParseNames(ts, loc).Got?
    ensures ";" !in names && ts == names + ([";"] + ParseNames(ts, loc).rest)
    ensures ts != [] && (ts[0] != ";" ==> names != [])
    ensures AddMethods(loc, names) == Fine(ParseNames(ts, loc).value)
    decreases |ts|
  {
    if ts[0] == ";" {
      names := [];
    } else {
      var more := NamesRead(ts[1..], AddMethod(loc, ts[0]).value);
      names := [ts[0]] + more;
      assert names[1..] == more;
      assert ts == [ts[0]] + ts[1..];
    }
  }

  lemma LocationDirectiveRead(name: string, ts: Tokens, loc: LocationConf) returns (d: LocationDirective)
    requires ParseLocationDirective(name, ts, loc).Got?
    ensures var r := ParseLocationDirective(name, ts, loc);
            && ShapedLocation(d) && LocationKeyword(d) == name
            && ts == LocationArguments(d) + [";"] + r.rest && ApplyLocation(loc, d) == Fine(r.value)
  {
    hide OneValue, TwoValues, ParseNames;
    if name == "methods" {
      var names := NamesRead(ts, loc);
      d := Methods(names);
    } else if name == "return" {
      TwoValuesRead(ts);
      d := Return(TwoValues(ts).value.0, TwoValues(ts).value.1);
    } else if name == "cgi_interpreter" {
      TwoValuesRead(ts);
      d := CgiInterpreter(TwoValues(ts).value.0, TwoValues(ts).value.1);
    } else {
      OneValueRead(ts);
      var value := OneValue(ts).value;
      d := if name == "root" then Root(value)
           else if name == "autoindex" then AutoIndex(value)
           else if name == "index" then Index(value)
           else UploadStore(value);
    }
  }

  lemma {:induction false} LocationBlockRead(ts: Tokens, loc: LocationConf) returns (ds: seq<LocationDirective>)
    requires ParseLocationBlock(ts, loc).Got?
    ensures var r := ParseLocationBlock(ts, loc);
            ShapedLocations(ds) && ts == PrintLocations(ds) + (["}"] + r.rest) &&
                  ApplyLocations(loc, ds) == Fine(r.value)
    decreases |ts|
  {
    hide ParseLocationDirective, ApplyLocation, ShapedLocation;
    if ts[0] == "}" {
      ds := [];
      assert ts == ["}"] + ts[1..];
    } else {
      var d := LocationDirectiveRead(ts[0], ts[1..], loc);
      var r := ParseLocationDirective(ts[0], ts[1..], loc);
      var more := LocationBlockRead(r.rest, r.value);
      ds := [d] + more;
      hide ParseLocationBlock;
      assert ds[1..] == more && ds[0] == d;
      hide LocationKeyword, LocationArguments;
      assert ts == [ts[0]] + ts[1..];
      assert PrintLocations(ds) == PrintLocation(d) + PrintLocations(more);
    }
  }

  lemma LocationRead(ts: Tokens, conf: ServerConf, resolve: Resolver) returns (d: ServerDirective)
    requires ParseLocation(ts, conf).Got?
    ensures var r := ParseLocation(ts, conf);
            && ShapedServer(d) && PrintServer(d)[0] == "location" && ts == PrintServer(d)[1..] + r.rest
            && ApplyServer(conf, d, resolve) == Fine(r.value)
  {
    hide ParseLocationBlock, ApplyLocations, PrintLocations;
    var path := ts[0];
    var ds := LocationBlockRead(ts[2..], NewLocation(path));
    d := Location(path, ds);
    var rest := ParseLocationBlock(ts[2..], NewLocation(path)).rest;
    assert ts[1..][1..] == ts[2..];
    assert PrintServer(d)[1..] == [path, "{"] + (PrintLocations(ds) + ["}"]);
    assert ts == [path, "{"] + ts[2..];
  }

  lemma ServerDirectiveRead(name: string, ts: Tokens, conf: ServerConf, resolve: Resolver) returns (d: ServerDirective)
    requires ParseServerDirective(name, ts, conf, resolve).Got?
    ensures var r := ParseServerDirective(name, ts, conf, resolve);
            && ShapedServer(d) && PrintServer(d) != [] && PrintServer(d)[0] == name
            && ts == PrintServer(d)[1..] + r.rest && ApplyServer(conf, d, resolve) == Fine(r.value)
  {
    hide OneValue, TwoValues, ParseLocation, PrintLocations, ParseAddress, ParseBodySize, ApplyLocations;
    if name == "location" {
      d := LocationRead(ts, conf, resolve);
    } else if name == "error_page" {
      TwoValuesRead(ts);
      d := ErrorPage(TwoValues(ts).value.0, TwoValues(ts).value.1);
      assert PrintServer(d)[1..] == [d.code, d.page, ";"];
    } else {
      OneValueRead(ts);
      var value := OneValue(ts).value;
      d := if name == "listen" then Listen(value)
           else if name == "server_name" then ServerName(value)
           else MaxBodySize(value);
      assert PrintServer(d)[1..] == [value, ";"];
    }
  }

  lemma {:induction false} ServerBlockRead(ts: Tokens, conf: ServerConf, resolve: Resolver)
    returns (ds: seq<ServerDirective>)
    requires ParseServerBlock(ts, conf, resolve).Got?
    ensures var r := ParseServerBlock(ts, conf, resolve);
            ShapedServers(ds) && ts == PrintServers(ds) + (["}"] + r.rest) &&
                  ApplyServers(conf, ds, resolve) == Fine(r.value)
    decreases |ts|
  {
    hide ParseServerDirective, ApplyServer, ShapedServer, PrintServer;
    if ts[0] == "}" {
      ds := [];
      assert ts == ["}"] + ts[1..];
    } else {
      var d := ServerDirectiveRead(ts[0], ts[1..], conf, resolve);
      var r := ParseServerDirective(ts[0], ts[1..], conf, resolve);
      var more := ServerBlockRead(r.rest, r.value, resolve);
      ds := [d] + more;
      hide ParseServerBlock;
      assert ds[1..] == more && ds[0] == d;
      assert PrintServers(ds) == PrintServer(d) + PrintServers(more);
      assert ts == [ts[0]] + ts[1..] && PrintServer(d) == [ts[0]] + PrintServer(d)[1..];
    }
  }

  lemma {:induction false} ParsedWasPrinted(before: seq<ServerConf>, ts: Tokens, resolve: Resolver)
    returns (blocks: seq<seq<ServerDirective>>)
    requires Parse(before, ts, resolve).Fine?
    ensures Shaped(blocks) && ts == Print(blocks)
    decreases |ts|
  {
    hide ParseServerBlock, PrintServers, ShapedServers;
    if ts == [] {
      blocks := [];
    } else {
      var ds := ServerBlockRead(ts[2..], NEW_SERVER, resolve);
      assert ts[1..][1..] == ts[2..];
      var r := ParseServerBlock(ts[2..], NEW_SERVER, resolve);
      var more := ParsedWasPrinted(before + [r.value], r.rest, resolve);
      blocks := [ds] + more;
      assert blocks[1..] == more && blocks[0] == ds;
      assert ts == ["server", "{"] + ts[2..];
    }
  }

  /** The parser accepts exactly the printed lists of directives that are not refused, and builds
      what they mean. */
  lemma ParseIff(ts: Tokens, confs: seq<ServerConf>, resolve: Resolver)
    ensures Parse([], ts, resolve) == Fine(confs) <==>
              exists blocks :: Shaped(blocks) && Print(blocks) == ts && Meaning([], blocks, resolve) == Fine(confs)
  {
    hide Parse, Print, Meaning, Shaped;
    if Parse([], ts, resolve) == Fine(confs) {
      var blocks := ParsedWasPrinted([], ts, resolve);
      PrintedParses([], blocks, resolve);
    }
    forall blocks | Shaped(blocks) && Print(blocks) == ts && Meaning([], blocks, resolve) == Fine(confs)
      ensures Parse([], ts, resolve) == Fine(confs)
    {
      PrintedParses([], blocks, resolve);
    }
  }
}
