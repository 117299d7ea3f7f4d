/** The configuration round trip: which configurations a file can express, and that printing one of
    them, in any layout, and parsing it gives it back. */
module ConfigRoundTrip {
  import opened ByteStrings
  import opened CNumbers
  import opened RequestHead
  import opened ConfigLexer
  import opened ConfigSyntax
  import opened ConfigPrinter

  /** The whole of ConfigParser::parse on the text of the file. */
  function ParseText(content: string, resolve: Resolver): Outcome<seq<ServerConf>> {
    Parse([], Tokenize(content), resolve)
  }

  // ---------------------------------------------------------------- expressible configurations

  predicate TokenOrEmpty(s: string) {
    s == "" || IsToken(s)
  }

  /** A name without colon that resolves to the host. */
  predicate Names(name: string, host: nat, resolve: Resolver) {
    IsWord(name) && Find(name, ":", 0).None? && resolve(name) == Some(host)
  }

  ghost predicate ExpressibleAddress(a: Address, resolve: Resolver) {
    a == NO_ADDRESS ||
    (a.family == 2 && 1 <= a.port <= 65535 &&
     (a.host == 0 || exists name :: Names(name, a.host, resolve)))
  }

  /** Sizes beyond the largest long come from a suffix, whose multiplier is a multiple of 1024. */
  predicate ExpressibleSize(n: nat) {
    n <= LONG_MAX || (n < SIZE_T_RANGE && n % 1024 == 0)
  }

  predicate TokenMap(m: map<string, string>) {
    forall k :: k in m ==> IsToken(k) && IsToken(m[k])
  }

  predicate ExpressibleLocation(l: LocationConf) {
    && IsToken(l.path) && TokenOrEmpty(l.root) && TokenOrEmpty(l.defaultPage) && TokenOrEmpty(l.storageLocation)
    && UNKNOWN_METHOD !in l.verbs
    && ((l.returnCode == "" && l.returnURL == "") || (IsNumber(l.returnCode) && IsToken(l.returnURL)))
    && TokenMap(l.cgiInterpreters)
  }

  predicate PageMap(m: map<string, string>) {
    forall k :: k in m ==> |k| == 3 && AllDigits(k) && IsToken(m[k])
  }

  ghost predicate Expressible(c: ServerConf, resolve: Resolver) {
    && TokenOrEmpty(c.serverName) && ExpressibleAddress(c.address, resolve) && ExpressibleSize(c.maxBodySize)
    && (forall i :: 0 <= i < |c.locations| ==> ExpressibleLocation(c.locations[i]))
    && PageMap(c.errorPages)
  }

  predicate AllTokens(ts: Tokens) {
    forall k :: 0 <= k < |ts| ==> IsToken(ts[k])
  }

  lemma AllTokensSplit(a: Tokens, b: Tokens)
    ensures AllTokens(a + b) <==> AllTokens(a) && AllTokens(b)
  {
    hide IsToken;
    if AllTokens(a + b) {
      forall k | 0 <= k < |a| ensures IsToken(a[k]) {
        assert (a + b)[k] == a[k];
      }
      forall k | 0 <= k < |b| ensures IsToken(b[k]) {
        assert (a + b)[|a| + k] == b[k];
      }
    }
  }

  // ---------------------------------------------------------------- numbers

  lemma DigitsAreWord(s: string)
    requires IsNumber(s)
    ensures IsWord(s) && Find(s, ":", 0).None?
  {
    forall j: nat | j < |s| ensures !OccursAt(s, ":", j) {
      assert IsDigit(s[j]);
      assert ":"[0] == ':';
    }
  }

  lemma DecimalIsNumber(n: nat)
    ensures IsNumber(Decimal(n)) && NumberOf(Decimal(n), 10) == n
    ensures n <= LONG_MAX ==> AtoL(Decimal(n)) == n
  {
    DigitsInBase(Decimal(n));
    AtoLOfDigits(Decimal(n));
  }

  lemma {:induction false} SizeTMod(n: nat)
    ensures SizeT(n) % 1024 == n % 1024
  {
    if n >= SIZE_T_RANGE {
      SizeTMod(n - SIZE_T_RANGE);
      ModShift(n);
    }
  }

  lemma ModShift(n: int)
    ensures (n - SIZE_T_RANGE) % 1024 == n % 1024
  {
    assert SIZE_T_RANGE == 1024 * 0x40_0000_0000_0000;
  }

  function SizeText(n: nat): string {
    if n <= LONG_MAX then Decimal(n) else Decimal(n / 1024) + "k"
  }

  /** A number with a suffix is read as the product. */
  lemma Suffixed(n: nat, suffix: char)
    requires n <= LONG_MAX && Multiplier(suffix) != 1
    ensures ParseBodySize(Decimal(n) + [suffix]) == Fine(SizeT(n * Multiplier(suffix)))
  {
    hide Decimal, SizeT, Multiplier;
    DecimalIsNumber(n);
    var s := Decimal(n) + [suffix];
    assert s[|s| - 1] == suffix && s[..|s| - 1] == Decimal(n);
  }

  lemma Unsuffixed(n: nat)
    requires n <= LONG_MAX
    ensures IsWord(Decimal(n)) && ParseBodySize(Decimal(n)) == Fine(n)
  {
    hide Decimal, SizeT, NumberOf, IsWord, Find, AtoL, AllInBase, ParseBodySize;
    var digits := Decimal(n);
    DecimalIsNumber(n);
    DigitsAreWord(digits);
    FitsSizeT(n);
    PlainSize(digits, n);
  }

  /** A number without a suffix is read as it stands. */
  lemma PlainSize(digits: string, n: nat)
    requires IsNumber(digits) && AtoL(digits) == n && SizeT(n) == n
    ensures ParseBodySize(digits) == Fine(n)
  {
    hide SizeT, NumberOf, AtoL, AllInBase;
    assert IsDigit(digits[|digits| - 1]);
    assert Multiplier(digits[|digits| - 1]) == 1;
  }

  lemma SizeTextParses(n: nat)
    requires ExpressibleSize(n)
    ensures IsWord(SizeText(n)) && ParseBodySize(SizeText(n)) == Fine(n)
  {
    hide ParseBodySize, Decimal, SizeT;
    if n <= LONG_MAX {
      Unsuffixed(n);
    } else {
      var digits := Decimal(n / 1024);
      DecimalIsNumber(n / 1024);
      DigitsAreWord(digits);
      Suffixed(n / 1024, 'k');
      assert n / 1024 * 1024 == n;
      FitsSizeT(n);
      assert IsWordChar('k');
    }
  }

  lemma ParsedSize(value: string)
    requires ParseBodySize(value).Fine?
    ensures ExpressibleSize(ParseBodySize(value).value)
  {
    var multiplier := Multiplier(value[|value| - 1]);
    var digits := if multiplier == 1 then value else value[..|value| - 1];
    DigitsInBase(digits);
    AtoLOfDigits(digits);
    if multiplier != 1 {
      var n := AtoL(digits);
      SizeTMod(n * multiplier);
      MultipleOf1024(n, multiplier);
    }
  }

  lemma MultipleOf1024(n: nat, multiplier: nat)
    requires multiplier == 1024 || multiplier == 1024 * 1024 || multiplier == 1024 * 1024 * 1024
    ensures n * multiplier % 1024 == 0
  {
    var k := if multiplier == 1024 then n else if multiplier == 1024 * 1024 then n * 1024 else n * 1024 * 1024;
    assert n * multiplier == k * 1024;
  }

  /** Exactly these sizes can be configured: every size up to 2^63 - 1, and beyond it the multiples of
      1024 that fit 64 bits. Everything larger wraps to one of them. */
  lemma SizeIff(n: nat)
    ensures (exists value :: ParseBodySize(value) == Fine(n)) <==> ExpressibleSize(n)
  {
    if ExpressibleSize(n) {
      SizeTextParses(n);
    }
    forall value | ParseBodySize(value) == Fine(n) ensures ExpressibleSize(n) {
      ParsedSize(value);
    }
  }

  /** Digits without a suffix are read as the size they spell exactly if it fits a long; a larger one
      saturates. */
  lemma PlainSizeIff(digits: string)
    requires IsNumber(digits) && AllInBase(digits, 10)
    ensures ParseBodySize(digits) == Fine(NumberOf(digits, 10)) <==> NumberOf(digits, 10) <= LONG_MAX
  {
    AtoLOfDigits(digits);
    hide NumberOf, AtoL, AllInBase, SizeT;
    var n := AtoL(digits);
    FitsSizeT(n);
    PlainSize(digits, n);
  }

  /** Digits with a suffix are read as the size they spell exactly if it is below 2^64; a larger one
      wraps. */
  lemma SuffixedSizeIff(digits: string, suffix: char)
    requires IsNumber(digits) && AllInBase(digits, 10) && Multiplier(suffix) != 1
    ensures ParseBodySize(digits + [suffix]) == Fine(NumberOf(digits, 10) * Multiplier(suffix))
            <==> NumberOf(digits, 10) * Multiplier(suffix) < SIZE_T_RANGE
  {
    AtoLOfDigits(digits);
    SuffixedRead(digits, suffix);
    hide NumberOf, AtoL, AllInBase, SizeT, ParseBodySize;
    var size := NumberOf(digits, 10) * Multiplier(suffix);
    if NumberOf(digits, 10) <= LONG_MAX {
      SizeTIff(size);
    } else {
      SuffixedIsLarge(NumberOf(digits, 10), suffix);
      SizeTIff(AtoL(digits) * Multiplier(suffix));
    }
  }

  lemma SuffixedRead(digits: string, suffix: char)
    requires IsNumber(digits) && AllInBase(digits, 10) && Multiplier(suffix) != 1
    ensures AtoL(digits) >= 0 && ParseBodySize(digits + [suffix]) == Fine(SizeT(AtoL(digits) * Multiplier(suffix)))
  {
    AtoLOfDigits(digits);
    hide NumberOf, AtoL, AllInBase, SizeT, Multiplier;
    var s := digits + [suffix];
    assert s[|s| - 1] == suffix && s[..|s| - 1] == digits;
  }

  lemma SuffixedIsLarge(n: nat, suffix: char)
    requires n > LONG_MAX && Multiplier(suffix) != 1
    ensures n * Multiplier(suffix) >= SIZE_T_RANGE
  {}

  lemma SizeTIff(n: nat)
    ensures SizeT(n) == n <==> n < SIZE_T_RANGE
    ensures SizeT(n) < SIZE_T_RANGE
  {
    if n < SIZE_T_RANGE {
      FitsSizeT(n);
    }
  }

  /** Each suffix counts 1024 of the one before, in either case. */
  lemma SuffixesScale(n: nat)
    requires n * 1024 <= LONG_MAX
    ensures ParseBodySize(Decimal(n) + ['k']) == ParseBodySize(Decimal(n * 1024)) == Fine(n * 1024)
    ensures ParseBodySize(Decimal(n) + ['m']) == ParseBodySize(Decimal(n * 1024) + ['k'])
    ensures ParseBodySize(Decimal(n) + ['g']) == ParseBodySize(Decimal(n * 1024) + ['m'])
    ensures ParseBodySize(Decimal(n) + ['K']) == ParseBodySize(Decimal(n) + ['k'])
    ensures ParseBodySize(Decimal(n) + ['M']) == ParseBodySize(Decimal(n) + ['m'])
    ensures ParseBodySize(Decimal(n) + ['G']) == ParseBodySize(Decimal(n) + ['g'])
  {
    hide ParseBodySize, Decimal, SizeT;
    Unsuffixed(n * 1024);
    FitsSizeT(n * 1024);
    Suffixed(n, 'k');
    Suffixed(n, 'K');
    Suffixed(n, 'm');
    Suffixed(n, 'M');
    Suffixed(n, 'g');
    Suffixed(n, 'G');
    Suffixed(n * 1024, 'k');
    Suffixed(n * 1024, 'm');
  }

  /** atoi keeps the low 32 bits: a port is accepted exactly if it is between 1 and 65535 after
      reduction modulo 2^32, so "4294967376" listens on port 80. */
  lemma PortIff(digits: string, port: nat)
    requires IsNumber(digits) && AllInBase(digits, 10)
    ensures ParsePort(digits) == Fine(port) <==>
              1 <= port <= 65535 && NumberOf(digits, 10) <= LONG_MAX && NumberOf(digits, 10) % 0x1_0000_0000 == port
  {
    AtoLOfDigits(digits);
    hide AtoL, ToInt32, NumberOf, AllInBase, AllDigits;
    var n := NumberOf(digits, 10);
    if n <= LONG_MAX {
      LowBits(n);
    } else {
      LowBits(LONG_MAX);
    }
  }

  /** The truncation at its input. */
  lemma WrappedPort()
    ensures Decimal(4294967376) == "4294967376" && ParsePort("4294967376") == Fine(80)
    ensures ParsePort(Decimal(80)) == Fine(80)
  {
    DecimalIsNumber(4294967376);
    DecimalIsNumber(80);
    DigitsInBase(Decimal(4294967376));
    DigitsInBase(Decimal(80));
    PortIff(Decimal(4294967376), 80);
    PortIff(Decimal(80), 80);
    TenDigits();
  }

  lemma DecimalSnoc(n: nat, d: nat)
    requires n > 0 && d < 10
    ensures Decimal(10 * n + d) == Decimal(n) + [DigitChar(d)]
  {
    hide NumberOf, AllInBase, DigitChar;
    assert (10 * n + d) / 10 == n && (10 * n + d) % 10 == d;
  }

  lemma TenDigits()
    ensures Decimal(4294967376) == "4294967376"
  {
    assert Decimal(4) == "4";
    hide Decimal;
    DecimalSnoc(4, 2);
    DecimalSnoc(42, 9);
    DecimalSnoc(429, 4);
    assert Decimal(4294) == "4294";
    DecimalSnoc(4294, 9);
    DecimalSnoc(42949, 6);
    DecimalSnoc(429496, 7);
    assert Decimal(4294967) == "4294967";
    DecimalSnoc(4294967, 3);
    DecimalSnoc(42949673, 7);
    DecimalSnoc(429496737, 6);
  }

  lemma SaturatedSize(n: nat)
    requires n > LONG_MAX
    ensures ParseBodySize(Decimal(n)) == Fine(LONG_MAX)
  {
    hide ParseBodySize, Decimal, NumberOf;
    DecimalIsNumber(n);
    AtoLOfDigits(Decimal(n));
    FitsSizeT(LONG_MAX);
    hide SizeT, AtoL;
    PlainSize(Decimal(n), LONG_MAX);
  }

  /** Wrap-around and saturation at their inputs: 2^34 gigabytes are no bytes at all, which means no
      limit, and 2^63 bytes are one less. */
  lemma WrappedSize()
    ensures ParseBodySize(Decimal(17179869184) + ['g']) == Fine(0)
    ensures ParseBodySize(Decimal(0x8000_0000_0000_0000)) == Fine(LONG_MAX)
  {
    hide ParseBodySize, Decimal;
    SaturatedSize(0x8000_0000_0000_0000);
    Suffixed(17179869184, 'g');
    assert 17179869184 * Multiplier('g') == SIZE_T_RANGE;
  }

  const ODD_ROOT: seq<LocationDirective> := [Root(";")]
  const ODD_SERVER: seq<ServerDirective> := [Location("/", ODD_ROOT)]
  const ODD_CONF := NEW_SERVER.(locations := [NewLocation("/").(root := ";")])

  lemma OddPrinted(blocks: seq<seq<ServerDirective>>)
    requires blocks == [ODD_SERVER]
    ensures Print(blocks) == ["server", "{", "location", "/", "{", "root", ";", ";", "}", "}"] && Shaped(blocks)
  {
    assert ODD_ROOT[1..] == [] && ODD_SERVER[1..] == [] && blocks[1..] == [];
    assert PrintLocations(ODD_ROOT) == ["root", ";", ";"];
    assert PrintServers(ODD_SERVER) == ["location", "/", "{", "root", ";", ";", "}"];
  }

  lemma OddApplied(resolve: Resolver)
    ensures ApplyServers(NEW_SERVER, ODD_SERVER, resolve) == Fine(ODD_CONF)
  {
    var loc := NewLocation("/").(root := ";");
    assert ODD_ROOT[1..] == [] && ODD_SERVER[1..] == [];
    assert ApplyLocation(NewLocation("/"), ODD_ROOT[0]) == Fine(loc);
    assert ApplyLocations(loc, []) == Fine(loc);
    assert ApplyLocations(NewLocation("/"), ODD_ROOT) == Fine(loc);
    assert NEW_SERVER.locations + [loc] == [loc];
    assert ApplyServer(NEW_SERVER, ODD_SERVER[0], resolve) == Fine(ODD_CONF);
    assert ApplyServers(ODD_CONF, [], resolve) == Fine(ODD_CONF);
  }

  /** A delimiter is taken for a value: here the root of the location is a semicolon. */
  lemma DelimiterAsValue(resolve: Resolver)
    ensures Parse([], ["server", "{", "location", "/", "{", "root", ";", ";", "}", "}"], resolve) ==
              Fine([NEW_SERVER.(locations := [NewLocation("/").(root := ";")])])
  {
    hide Parse, Print, Shaped, ApplyServers;
    var blocks := [ODD_SERVER];
    OddPrinted(blocks);
    PrintedParses([], blocks, resolve);
    OddApplied(resolve);
    assert blocks[1..] == [] && [] + [ODD_CONF] == [ODD_CONF];
    assert Meaning([ODD_CONF], [], resolve) == Fine([ODD_CONF]);
  }

  // ---------------------------------------------------------------- everything parsed is expressible

  lemma ParsedAddress(value: string, resolve: Resolver)
    requires IsToken(value) && ParseAddress(value, resolve).Fine?
    ensures ExpressibleAddress(ParseAddress(value, resolve).value, resolve)
  {
    hide ParsePort;
    PortInRange(value);
    if Find(value, ":", 0).Some? {
      var colon := Find(value, ":", 0).value;
      var name := value[..colon];
      PortInRange(value[colon + 1..]);
      BeforeColon(value, colon);
      assert value[0] == name[0];
      assert Names(name, ParseAddress(value, resolve).value.host, resolve);
    }
  }

  lemma PortInRange(digits: string)
    ensures ParsePort(digits).Fine? ==> 1 <= ParsePort(digits).value <= 65535
  {}

  lemma BeforeColon(value: string, colon: nat)
    requires Find(value, ":", 0) == Some(colon) && IsToken(value) && colon > 0
    ensures IsWord(value[..colon]) && Find(value[..colon], ":", 0).None?
  {
    assert |value| > 1;
    forall i | 0 <= i < colon ensures IsWordChar(value[..colon][i]) {
      assert value[..colon][i] == value[i];
    }
    forall j: nat | j < colon ensures !OccursAt(value[..colon], ":", j) {
      assert !OccursAt(value, ":", j);
      assert value[..colon][j] == value[j];
    }
  }

  lemma {:induction false} MethodsStay(loc: LocationConf, names: seq<string>)
    requires ExpressibleLocation(loc) && AddMethods(loc, names).Fine?
    ensures ExpressibleLocation(AddMethods(loc, names).value)
    decreases |names|
  {
    hide IsToken, TokenMap, IsNumber, MethodOf;
    if names != [] {
      MethodsStay(AddMethod(loc, names[0]).value, names[1..]);
    }
  }

  lemma TokenMapAdd(m: map<string, string>, k: string, v: string)
    requires TokenMap(m) && IsToken(k) && IsToken(v)
    ensures TokenMap(m[k := v])
  {}

  lemma DirectiveStays(loc: LocationConf, d: LocationDirective)
    requires ExpressibleLocation(loc) && AllTokens(LocationArguments(d)) && ApplyLocation(loc, d).Fine?
    ensures ExpressibleLocation(ApplyLocation(loc, d).value)
  {
    hide AddMethods, TokenMap, IsWord;
    var args := LocationArguments(d);
    match d {
      case Methods(names) => MethodsStay(loc, names);
      case CgiInterpreter(interpreter, extension) =>
        assert IsToken(args[0]) && IsToken(args[1]);
        TokenMapAdd(loc.cgiInterpreters, extension, interpreter);
      case Return(code, url) =>
        assert IsToken(args[0]) && IsToken(args[1]);
        TokenNotEmpty(code);
      case AutoIndex(_) =>
      case _ => assert IsToken(args[0]);
    }
  }

  lemma TokenNotEmpty(t: string)
    requires IsToken(t)
    ensures t != ""
  {}

  lemma {:induction false} LocationStays(loc: LocationConf, ds: seq<LocationDirective>)
    requires ExpressibleLocation(loc) && AllTokens(PrintLocations(ds)) && ApplyLocations(loc, ds).Fine?
    ensures ExpressibleLocation(ApplyLocations(loc, ds).value)
    decreases |ds|
  {
    hide ExpressibleLocation, ApplyLocation, AllTokens, LocationArguments, LocationKeyword;
    if ds != [] {
      var d := ds[0];
      AllTokensSplit(PrintLocation(d), PrintLocations(ds[1..]));
      AllTokensSplit([LocationKeyword(d)], LocationArguments(d) + [";"]);
      AllTokensSplit(LocationArguments(d), [";"]);
      DirectiveStays(loc, d);
      LocationStays(ApplyLocation(loc, d).value, ds[1..]);
    }
  }

  lemma ServerDirectiveStays(conf: ServerConf, d: ServerDirective, resolve: Resolver)
    requires Expressible(conf, resolve) && AllTokens(PrintServer(d)) && ApplyServer(conf, d, resolve).Fine?
    ensures Expressible(ApplyServer(conf, d, resolve).value, resolve)
  {
    hide IsToken, ParseAddress, ParseBodySize, ExpressibleAddress, ExpressibleSize, PageMap;
    var ts := PrintServer(d);
    match d {
      case Listen(value) =>
        assert IsToken(ts[1]);
        ParsedAddress(value, resolve);
      case ServerName(value) => assert IsToken(ts[1]);
      case MaxBodySize(value) => ParsedSize(value);
      case ErrorPage(code, page) =>
        assert IsToken(ts[2]);
        PageMapAdd(conf.errorPages, code, page);
      case Location(path, ds) =>
        assert IsToken(ts[1]);
        AllTokensSplit(["location", path, "{"], PrintLocations(ds) + ["}"]);
        AllTokensSplit(PrintLocations(ds), ["}"]);
        NewIsExpressible(path);
        hide ExpressibleLocation, NewLocation;
        LocationStays(NewLocation(path), ds);
    }
  }

  lemma NewIsExpressible(path: string)
    requires IsToken(path)
    ensures ExpressibleLocation(NewLocation(path))
  {}

  lemma PageMapAdd(m: map<string, string>, k: string, v: string)
    requires PageMap(m) && |k| == 3 && AllDigits(k) && IsToken(v)
    ensures PageMap(m[k := v])
  {}

  lemma {:induction false} ServerStays(conf: ServerConf, ds: seq<ServerDirective>, resolve: Resolver)
    requires Expressible(conf, resolve) && AllTokens(PrintServers(ds)) && ApplyServers(conf, ds, resolve).Fine?
    ensures Expressible(ApplyServers(conf, ds, resolve).value, resolve)
    decreases |ds|
  {
    hide Expressible, ApplyServer, AllTokens, PrintServer;
    if ds != [] {
      AllTokensSplit(PrintServer(ds[0]), PrintServers(ds[1..]));
      ServerDirectiveStays(conf, ds[0], resolve);
      ServerStays(ApplyServer(conf, ds[0], resolve).value, ds[1..], resolve);
    }
  }

  ghost predicate AllExpressible(confs: seq<ServerConf>, resolve: Resolver) {
    forall i :: 0 <= i < |confs| ==> Expressible(confs[i], resolve)
  }

  lemma NewServerExpressible(resolve: Resolver)
    ensures Expressible(NEW_SERVER, resolve)
  {}

  lemma {:induction false} MeaningExpressible(before: seq<ServerConf>, blocks: seq<seq<ServerDirective>>,
        resolve: Resolver)
    requires AllExpressible(before, resolve) && AllTokens(Print(blocks)) && Meaning(before, blocks, resolve).Fine?
    ensures AllExpressible(Meaning(before, blocks, resolve).value, resolve)
    ensures Meaning(before, blocks, resolve).value != []
    decreases |blocks|
  {
    hide Expressible, ApplyServers, AllTokens, PrintServers, NEW_SERVER;
    if blocks != [] {
      AllTokensSplit(["server", "{"], PrintServers(blocks[0]) + (["}"] + Print(blocks[1..])));
      AllTokensSplit(PrintServers(blocks[0]), ["}"] + Print(blocks[1..]));
      AllTokensSplit(["}"], Print(blocks[1..]));
      NewServerExpressible(resolve);
      ServerStays(NEW_SERVER, blocks[0], resolve);
      MeaningExpressible(before + [ApplyServers(NEW_SERVER, blocks[0], resolve).value], blocks[1..], resolve);
    }
  }

  // ---------------------------------------------------------------- printing a configuration

  ghost function CgiDirectives(m: map<string, string>): seq<LocationDirective>
    decreases |m|
  {
    if m == map[] then []
    else
      var k :| k in m;
      [CgiInterpreter(m[k], k)] + CgiDirectives(m - {k})
  }

  ghost function PageDirectives(m: map<string, string>): seq<ServerDirective>
    decreases |m|
  {
    if m == map[] then []
    else
      var k :| k in m;
      [ErrorPage(k, m[k])] + PageDirectives(m - {k})
  }

  function VerbNames(verbs: set<Method>): seq<string> {
    (if GET in verbs then ["GET"] else []) +
    (if POST in verbs then ["POST"] else []) +
    (if DELETE in verbs then ["DELETE"] else [])
  }

  /** A directive that is printed only if it says something. */
  function When<T>(c: bool, d: T): seq<T> {
    if c then [d] else []
  }

  ghost function LocationDirectives(l: LocationConf): seq<LocationDirective> {
    When(l.root != "", Root(l.root)) +
    (When(l.verbs != {}, Methods(VerbNames(l.verbs))) +
     (When(l.autoIndex, AutoIndex("on")) +
      (When(l.defaultPage != "", Index(l.defaultPage)) +
       (When(l.storageLocation != "", UploadStore(l.storageLocation)) +
        (When(l.returnCode != "", Return(l.returnCode, l.returnURL)) +
         CgiDirectives(l.cgiInterpreters))))))
  }

  ghost function LocationBlocks(ls: seq<LocationConf>): seq<ServerDirective>
    decreases |ls|
  {
    if ls == [] then [] else [Location(ls[0].path, LocationDirectives(ls[0]))] + LocationBlocks(ls[1..])
  }

  ghost function ListenText(a: Address, resolve: Resolver): string
    requires ExpressibleAddress(a, resolve) && a != NO_ADDRESS
  {
    if a.host == INADDR_ANY then Decimal(a.port)
    else
      var name :| Names(name, a.host, resolve);
      name + ":" + Decimal(a.port)
  }

  ghost function ServerDirectives(c: ServerConf, resolve: Resolver): seq<ServerDirective>
    requires Expressible(c, resolve)
  {
    (if c.address == NO_ADDRESS then [] else [Listen(ListenText(c.address, resolve))]) +
    (When(c.serverName != "", ServerName(c.serverName)) +
     (When(c.maxBodySize != 0, MaxBodySize(SizeText(c.maxBodySize))) +
      (PageDirectives(c.errorPages) + LocationBlocks(c.locations))))
  }

  ghost function Blocks(confs: seq<ServerConf>, resolve: Resolver): seq<seq<ServerDirective>>
    requires AllExpressible(confs, resolve)
    decreases |confs|
  {
    if confs == [] then [] else [ServerDirectives(confs[0], resolve)] + Blocks(confs[1..], resolve)
  }

  // ---------------------------------------------------------------- what the printed directives mean

  lemma {:induction false} ApplyLocationsSplit(loc: LocationConf, a: seq<LocationDirective>, b: seq<LocationDirective>)
    requires ApplyLocations(loc, a).Fine?
    ensures ApplyLocations(loc, a + b) == ApplyLocations(ApplyLocations(loc, a).value, b)
    decreases |a|
  {
    hide ApplyLocation;
    if a == [] {
      assert a + b == b;
    } else {
      assert (a + b)[1..] == a[1..] + b;
      ApplyLocationsSplit(ApplyLocation(loc, a[0]).value, a[1..], b);
    }
  }

  lemma WhenApplies(loc: LocationConf, c: bool, d: LocationDirective, more: seq<LocationDirective>)
    requires ApplyLocation(loc, d).Fine?
    ensures ApplyLocations(loc, When(c, d) + more) ==
          ApplyLocations(if c then ApplyLocation(loc, d).value else loc, more)
  {
    hide ApplyLocation;
    if c {
      assert ([d] + more)[1..] == more;
    } else {
      assert [] + more == more;
    }
  }

  lemma MapRest(base: map<string, string>, m: map<string, string>, k: string)
    requires k in m
    ensures base[k := m[k]] + (m - {k}) == base + m
  {}

  lemma CgiFirst(m: map<string, string>) returns (k: string)
    requires m != map[]
    ensures k in m && CgiDirectives(m) == [CgiInterpreter(m[k], k)] + CgiDirectives(m - {k})
  {
    k := CgiDirectives(m)[0].extension;
  }

  lemma PageFirst(m: map<string, string>) returns (k: string)
    requires m != map[]
    ensures k in m && PageDirectives(m) == [ErrorPage(k, m[k])] + PageDirectives(m - {k})
  {
    k := PageDirectives(m)[0].code;
  }

  lemma CgiApplies(loc: LocationConf, k: string, v: string, more: seq<LocationDirective>)
    ensures ApplyLocations(loc, [CgiInterpreter(v, k)] + more) ==
              ApplyLocations(loc.(cgiInterpreters := loc.cgiInterpreters[k := v]), more)
  {
    assert ([CgiInterpreter(v, k)] + more)[1..] == more;
  }

  lemma {:induction false} CgiMeaning(loc: LocationConf, m: map<string, string>)
    ensures ApplyLocations(loc, CgiDirectives(m)) == Fine(loc.(cgiInterpreters := loc.cgiInterpreters + m))
    decreases |m|
  {
    if m == map[] {
      assert loc.cgiInterpreters + m == loc.cgiInterpreters;
    } else {
      var k := CgiFirst(m);
      hide CgiDirectives, ApplyLocations;
      CgiApplies(loc, k, m[k], CgiDirectives(m - {k}));
      var loc1 := loc.(cgiInterpreters := loc.cgiInterpreters[k := m[k]]);
      CgiMeaning(loc1, m - {k});
      MapRest(loc.cgiInterpreters, m, k);
    }
  }

  lemma VerbsMeaning(loc: LocationConf, verbs: set<Method>)
    requires UNKNOWN_METHOD !in verbs && loc.verbs == {}
    ensures ApplyLocation(loc, Methods(VerbNames(verbs))) == Fine(loc.(verbs := verbs))
  {
    var first := if GET in verbs then ["GET"] else [];
    var second := if POST in verbs then ["POST"] else [];
    var third := if DELETE in verbs then ["DELETE"] else [];
    var loc1 := if GET in verbs then loc.(verbs := loc.verbs + {GET}) else loc;
    var loc2 := if POST in verbs then loc1.(verbs := loc1.verbs + {POST}) else loc1;
    var loc3 := if DELETE in verbs then loc2.(verbs := loc2.verbs + {DELETE}) else loc2;
    OneVerb(loc, GET, "GET", GET in verbs, second + third);
    OneVerb(loc1, POST, "POST", POST in verbs, third);
    OneVerb(loc2, DELETE, "DELETE", DELETE in verbs, []);
    assert third + [] == third && first + second + third == first + (second + third);
    assert VerbNames(verbs) == first + (second + third);
    assert AddMethods(loc3, []) == Fine(loc3);
    forall v | v in verbs ensures v in loc3.verbs {
      assert v.GET? || v.POST? || v.DELETE?;
    }
    assert loc3.verbs == verbs;
  }

  lemma OneVerb(loc: LocationConf, verb: Method, name: string, c: bool, more: seq<string>)
    requires MethodOf(name) == verb && !verb.UNKNOWN_METHOD?
    ensures AddMethods(loc, (if c then [name] else []) + more) ==
              AddMethods(if c then loc.(verbs := loc.verbs + {verb}) else loc, more)
  {
    hide MethodOf;
    if c {
      assert ([name] + more)[1..] == more;
    } else {
      assert [] + more == more;
    }
  }

  lemma LocationMeaning(l: LocationConf)
    requires ExpressibleLocation(l)
    ensures ApplyLocations(NewLocation(l.path), LocationDirectives(l)) == Fine(l)
  {
    hide ApplyLocations, CgiDirectives, VerbNames, IsToken, TokenMap;
    var l0 := NewLocation(l.path);
    var d6 := CgiDirectives(l.cgiInterpreters);
    var d5 := When(l.returnCode != "", Return(l.returnCode, l.returnURL)) + d6;
    var d4 := When(l.storageLocation != "", UploadStore(l.storageLocation)) + d5;
    var d3 := When(l.defaultPage != "", Index(l.defaultPage)) + d4;
    var d2 := When(l.autoIndex, AutoIndex("on")) + d3;
    var d1 := When(l.verbs != {}, Methods(VerbNames(l.verbs))) + d2;
    WhenApplies(l0, l.root != "", Root(l.root), d1);
    var l1 := l0.(root := l.root);
    VerbsMeaning(l1, l.verbs);
    WhenApplies(l1, l.verbs != {}, Methods(VerbNames(l.verbs)), d2);
    var l2 := l1.(verbs := l.verbs);
    WhenApplies(l2, l.autoIndex, AutoIndex("on"), d3);
    var l3 := l2.(autoIndex := l.autoIndex);
    WhenApplies(l3, l.defaultPage != "", Index(l.defaultPage), d4);
    var l4 := l3.(defaultPage := l.defaultPage);
    WhenApplies(l4, l.storageLocation != "", UploadStore(l.storageLocation), d5);
    var l5 := l4.(storageLocation := l.storageLocation);
    WhenApplies(l5, l.returnCode != "", Return(l.returnCode, l.returnURL), d6);
    var l6 := l5.(returnCode := l.returnCode, returnURL := l.returnURL);
    CgiMeaning(l6, l.cgiInterpreters);
    assert map[] + l.cgiInterpreters == l.cgiInterpreters;
  }

  lemma {:induction false} ApplyServersSplit(conf: ServerConf, a: seq<ServerDirective>, b: seq<ServerDirective>,
        resolve: Resolver)
    requires ApplyServers(conf, a, resolve).Fine?
    ensures ApplyServers(conf, a + b, resolve) == ApplyServers(ApplyServers(conf, a, resolve).value, b, resolve)
    decreases |a|
  {
    hide ApplyServer;
    if a == [] {
      assert a + b == b;
    } else {
      assert (a + b)[1..] == a[1..] + b;
      ApplyServersSplit(ApplyServer(conf, a[0], resolve).value, a[1..], b, resolve);
    }
  }

  lemma WhenServes(conf: ServerConf, c: bool, d: ServerDirective, more: seq<ServerDirective>, resolve: Resolver)
    requires c ==> ApplyServer(conf, d, resolve).Fine?
    ensures ApplyServers(conf, When(c, d) + more, resolve) ==
              ApplyServers(if c then ApplyServer(conf, d, resolve).value else conf, more, resolve)
  {
    hide ApplyServer;
    if c {
      assert ([d] + more)[1..] == more;
    } else {
      assert [] + more == more;
    }
  }

  lemma PageApplies(conf: ServerConf, k: string, page: string, more: seq<ServerDirective>, resolve: Resolver)
    requires |k| == 3 && AllDigits(k)
    ensures ApplyServers(conf, [ErrorPage(k, page)] + more, resolve) ==
              ApplyServers(conf.(errorPages := conf.errorPages[k := page]), more, resolve)
  {
    hide AllDigits;
    assert ([ErrorPage(k, page)] + more)[1..] == more;
  }

  lemma {:induction false} PagesMeaning(conf: ServerConf, m: map<string, string>, resolve: Resolver)
    requires PageMap(m)
    ensures ApplyServers(conf, PageDirectives(m), resolve) == Fine(conf.(errorPages := conf.errorPages + m))
    decreases |m|
  {
    if m == map[] {
      assert conf.errorPages + m == conf.errorPages;
    } else {
      var k := PageFirst(m);
      hide PageDirectives, AllDigits, IsToken, ApplyServers;
      var conf1 := conf.(errorPages := conf.errorPages[k := m[k]]);
      PageApplies(conf, k, m[k], PageDirectives(m - {k}), resolve);
      PagesMeaning(conf1, m - {k}, resolve);
      MapRest(conf.errorPages, m, k);
    }
  }

  lemma {:induction false} LocationsMeaning(conf: ServerConf, ls: seq<LocationConf>, resolve: Resolver)
    requires forall i :: 0 <= i < |ls| ==> ExpressibleLocation(ls[i])
    ensures ApplyServers(conf, LocationBlocks(ls), resolve) == Fine(conf.(locations := conf.locations + ls))
    decreases |ls|
  {
    hide ExpressibleLocation, ApplyLocations, LocationDirectives, NewLocation;
    if ls == [] {
      assert conf.locations + ls == conf.locations;
    } else {
      LocationMeaning(ls[0]);
      var conf1 := conf.(locations := conf.locations + [ls[0]]);
      LocationsMeaning(conf1, ls[1..], resolve);
      assert conf.locations + [ls[0]] + ls[1..] == conf.locations + ls;
      assert LocationBlocks(ls)[1..] == LocationBlocks(ls[1..]);
    }
  }

  lemma AddressMeaning(a: Address, resolve: Resolver)
    requires ExpressibleAddress(a, resolve) && a != NO_ADDRESS
    ensures IsWord(ListenText(a, resolve)) && ParseAddress(ListenText(a, resolve), resolve) == Fine(a)
  {
    hide ParsePort, Decimal, IsWord, Find;
    var digits := Decimal(a.port);
    DecimalIsNumber(a.port);
    DigitsAreWord(digits);
    PortPrinted(a.port);
    if a.host != INADDR_ANY {
      var text := ListenText(a, resolve);
      var name :| Names(name, a.host, resolve) && text == name + ":" + digits;
      hide ListenText;
      NamedPortIsWord(name, digits);
      ColonFound(name, digits);
      assert text[..|name|] == name && text[|name| + 1..] == digits;
      NotEmpty(name);
    }
  }

  lemma NotEmpty(name: string)
    requires IsWord(name)
    ensures name != ""
  {}

  lemma NamedPortIsWord(name: string, digits: string)
    requires IsWord(name) && IsWord(digits)
    ensures IsWord(name + ":" + digits)
  {
    assert IsWordChar(':');
  }

  lemma PortPrinted(port: nat)
    requires 1 <= port <= 65535
    ensures ParsePort(Decimal(port)) == Fine(port)
  {
    hide Decimal, ParsePort, NumberOf, AllDigits, AllInBase;
    DecimalIsNumber(port);
    DigitsInBase(Decimal(port));
    PortIff(Decimal(port), port);
  }

  lemma ColonFound(name: string, rest: string)
    requires Find(name, ":", 0).None?
    ensures Find(name + ":" + rest, ":", 0) == Some(|name|)
  {
    var s := name + ":" + rest;
    assert ":"[0] == ':';
    forall j: nat | j < |name| ensures !OccursAt(s, ":", j) {
      assert !OccursAt(name, ":", j);
      assert s[j] == name[j];
    }
    assert OccursAt(s, ":", |name|);
  }

  lemma ServerMeaning(c: ServerConf, resolve: Resolver)
    requires Expressible(c, resolve)
    ensures ApplyServers(NEW_SERVER, ServerDirectives(c, resolve), resolve) == Fine(c)
  {
    hide ApplyServers, PageDirectives, LocationBlocks, IsToken, ExpressibleLocation, PageMap, ParseAddress,
         ParseBodySize, ExpressibleAddress, ExpressibleSize, ListenText, SizeText;
    var c0 := NEW_SERVER;
    var d3 := PageDirectives(c.errorPages) + LocationBlocks(c.locations);
    var d2 := When(c.maxBodySize != 0, MaxBodySize(SizeText(c.maxBodySize))) + d3;
    var d1 := When(c.serverName != "", ServerName(c.serverName)) + d2;
    var c1 := c0.(address := c.address);
    if c.address == NO_ADDRESS {
      assert [] + d1 == d1;
    } else {
      AddressMeaning(c.address, resolve);
      WhenServes(c0, true, Listen(ListenText(c.address, resolve)), d1, resolve);
    }
    assert ApplyServers(c0, ServerDirectives(c, resolve), resolve) == ApplyServers(c1, d1, resolve);
    WhenServes(c1, c.serverName != "", ServerName(c.serverName), d2, resolve);
    var c2 := c1.(serverName := c.serverName);
    SizeTextParses(c.maxBodySize);
    WhenServes(c2, c.maxBodySize != 0, MaxBodySize(SizeText(c.maxBodySize)), d3, resolve);
    var c3 := c2.(maxBodySize := c.maxBodySize);
    PagesMeaning(c3, c.errorPages, resolve);
    ApplyServersSplit(c3, PageDirectives(c.errorPages), LocationBlocks(c.locations), resolve);
    assert map[] + c.errorPages == c.errorPages;
    var c4 := c3.(errorPages := c.errorPages);
    LocationsMeaning(c4, c.locations, resolve);
    assert [] + c.locations == c.locations;
  }

  lemma {:induction false} BlocksMeaning(before: seq<ServerConf>, confs: seq<ServerConf>, resolve: Resolver)
    requires AllExpressible(confs, resolve) && before + confs != []
    ensures Meaning(before, Blocks(confs, resolve), resolve) == Fine(before + confs)
    decreases |confs|
  {
    hide Expressible, ApplyServers, ServerDirectives;
    if confs == [] {
      assert before + confs == before;
    } else {
      ServerMeaning(confs[0], resolve);
      assert before + [confs[0]] + confs[1..] == before + confs;
      assert Blocks(confs, resolve)[1..] == Blocks(confs[1..], resolve);
      BlocksMeaning(before + [confs[0]], confs[1..], resolve);
    }
  }

  // ---------------------------------------------------------------- the printed text is well formed

  lemma KeywordsAreWords(d: LocationDirective)
    ensures IsToken(LocationKeyword(d))
  {}

  lemma Delimiters()
    ensures AllTokens([";"]) && AllTokens(["}"]) && AllTokens(["{"]) && AllTokens([])
  {
    assert IsDelimiter(";"[0]) && IsDelimiter("}"[0]) && IsDelimiter("{"[0]);
  }

  lemma LocationDirectiveTokens(d: LocationDirective)
    requires AllTokens(LocationArguments(d))
    ensures AllTokens(PrintLocation(d))
  {
    hide IsToken, LocationKeyword, LocationArguments;
    KeywordsAreWords(d);
    Delimiters();
    AllTokensSplit(LocationArguments(d), [";"]);
    AllTokensSplit([LocationKeyword(d)], LocationArguments(d) + [";"]);
  }

  /** Shaped, and all its arguments are tokens. */
  predicate Printable(ds: seq<LocationDirective>) {
    forall i :: 0 <= i < |ds| ==> ShapedLocation(ds[i]) && AllTokens(LocationArguments(ds[i]))
  }

  lemma {:induction false} PrintableTokens(ds: seq<LocationDirective>)
    requires Printable(ds)
    ensures AllTokens(PrintLocations(ds))
    decreases |ds|
  {
    hide AllTokens, LocationArguments, PrintLocation;
    if ds == [] {
      Delimiters();
    } else {
      LocationDirectiveTokens(ds[0]);
      PrintableTokens(ds[1..]);
      AllTokensSplit(PrintLocation(ds[0]), PrintLocations(ds[1..]));
    }
  }

  lemma PrintableSplit(a: seq<LocationDirective>, b: seq<LocationDirective>)
    requires Printable(a) && Printable(b)
    ensures Printable(a + b)
  {
    hide AllTokens, LocationArguments, ShapedLocation;
  }

  lemma WhenPrintable(c: bool, d: LocationDirective)
    requires c ==> ShapedLocation(d) && AllTokens(LocationArguments(d))
    ensures Printable(When(c, d))
  {}

  lemma {:induction false} CgiPrintable(m: map<string, string>)
    requires TokenMap(m)
    ensures Printable(CgiDirectives(m))
    decreases |m|
  {
    hide IsToken;
    if m != map[] {
      var k := CgiFirst(m);
      hide CgiDirectives;
      CgiPrintable(m - {k});
    }
  }

  lemma VerbsPrintable(verbs: set<Method>)
    requires UNKNOWN_METHOD !in verbs && verbs != {}
    ensures ShapedLocation(Methods(VerbNames(verbs))) && AllTokens(VerbNames(verbs))
  {
    var v :| v in verbs;
    assert v == GET || v == POST || v == DELETE;
    assert IsWord("GET") && IsWord("POST") && IsWord("DELETE");
    var first := if GET in verbs then ["GET"] else [];
    var second := if POST in verbs then ["POST"] else [];
    var third := if DELETE in verbs then ["DELETE"] else [];
    assert AllTokens(first) && AllTokens(second) && AllTokens(third);
    AllTokensSplit(first, second);
    AllTokensSplit(first + second, third);
  }

  lemma LocationPrintable(l: LocationConf)
    requires ExpressibleLocation(l)
    ensures Printable(LocationDirectives(l))
  {
    hide CgiDirectives, VerbNames, TokenMap, Printable, IsWord, When;
    CgiPrintable(l.cgiInterpreters);
    if l.returnCode != "" {
      DigitsAreWord(l.returnCode);
    }
    if l.verbs != {} {
      VerbsPrintable(l.verbs);
    }
    assert IsWord("on") by { OnIsWord(); }
    WhenPrintable(l.root != "", Root(l.root));
    WhenPrintable(l.verbs != {}, Methods(VerbNames(l.verbs)));
    WhenPrintable(l.autoIndex, AutoIndex("on"));
    WhenPrintable(l.defaultPage != "", Index(l.defaultPage));
    WhenPrintable(l.storageLocation != "", UploadStore(l.storageLocation));
    WhenPrintable(l.returnCode != "", Return(l.returnCode, l.returnURL));
    var d6 := CgiDirectives(l.cgiInterpreters);
    PrintableSplit(When(l.returnCode != "", Return(l.returnCode, l.returnURL)), d6);
    var d5 := When(l.returnCode != "", Return(l.returnCode, l.returnURL)) + d6;
    PrintableSplit(When(l.storageLocation != "", UploadStore(l.storageLocation)), d5);
    var d4 := When(l.storageLocation != "", UploadStore(l.storageLocation)) + d5;
    PrintableSplit(When(l.defaultPage != "", Index(l.defaultPage)), d4);
    var d3 := When(l.defaultPage != "", Index(l.defaultPage)) + d4;
    PrintableSplit(When(l.autoIndex, AutoIndex("on")), d3);
    var d2 := When(l.autoIndex, AutoIndex("on")) + d3;
    PrintableSplit(When(l.verbs != {}, Methods(VerbNames(l.verbs))), d2);
    var d1 := When(l.verbs != {}, Methods(VerbNames(l.verbs))) + d2;
    PrintableSplit(When(l.root != "", Root(l.root)), d1);
  }

  lemma OnIsWord()
    ensures IsWord("on")
  {}

  /** Shaped, and every printed token is one. */
  predicate ServerPrintable(ds: seq<ServerDirective>) {
    ShapedServers(ds) && AllTokens(PrintServers(ds))
  }

  lemma {:induction false} ServerPrintableSplit(a: seq<ServerDirective>, b: seq<ServerDirective>)
    requires ServerPrintable(a) && ServerPrintable(b)
    ensures ServerPrintable(a + b)
    decreases |a|
  {
    hide AllTokens, ShapedServer, PrintServer;
    if a == [] {
      assert a + b == b;
    } else {
      assert (a + b)[1..] == a[1..] + b;
      AllTokensSplit(PrintServer(a[0]), PrintServers(a[1..]));
      ServerPrintableSplit(a[1..], b);
      AllTokensSplit(PrintServer(a[0]), PrintServers(a[1..] + b));
    }
  }

  lemma OnePrintable(d: ServerDirective)
    requires ShapedServer(d) && AllTokens(PrintServer(d))
    ensures ServerPrintable([d]) && ServerPrintable([])
  {
    hide AllTokens, ShapedServer, PrintServer;
    Delimiters();
    assert PrintServers([d]) == PrintServer(d) + PrintServers([]) == PrintServer(d);
  }

  lemma ServerKeywords()
    ensures IsToken("listen") && IsToken("server_name") && IsToken("client_max_body_size")
    ensures IsToken("error_page") && IsToken("location") && IsToken("server")
  {}

  lemma NonePrintable()
    ensures ServerPrintable([])
  {}

  lemma PagePrintable(code: string, page: string)
    requires IsNumber(code) && IsToken(page)
    ensures ServerPrintable([ErrorPage(code, page)])
  {
    DigitsAreWord(code);
    ServerKeywords();
    Delimiters();
    assert IsToken([";"][0]);
    hide IsToken, ServerPrintable;
    OnePrintable(ErrorPage(code, page));
  }

  lemma {:induction false} PagesPrintable(m: map<string, string>)
    requires PageMap(m)
    ensures ServerPrintable(PageDirectives(m))
    decreases |m|
  {
    hide ServerPrintable;
    if m == map[] {
      NonePrintable();
    } else {
      var k := PageFirst(m);
      hide PageDirectives;
      PagesPrintable(m - {k});
      PagePrintable(k, m[k]);
      ServerPrintableSplit([ErrorPage(k, m[k])], PageDirectives(m - {k}));
    }
  }

  lemma BlockPrintable(l: LocationConf)
    requires ExpressibleLocation(l)
    ensures ServerPrintable([Location(l.path, LocationDirectives(l))])
  {
    var ds := LocationDirectives(l);
    LocationPrintable(l);
    hide LocationDirectives;
    assert ShapedLocations(ds);
    PrintableTokens(ds);
    ServerKeywords();
    Delimiters();
    hide Printable, ShapedLocations, ServerPrintable, PrintLocations;
    assert IsToken(["{"][0]);
    assert AllTokens(["location", l.path, "{"]);
    hide AllTokens;
    AllTokensSplit(PrintLocations(ds), ["}"]);
    AllTokensSplit(["location", l.path, "{"], PrintLocations(ds) + ["}"]);
    OnePrintable(Location(l.path, ds));
  }

  lemma {:induction false} LocationsPrintable(ls: seq<LocationConf>)
    requires forall i :: 0 <= i < |ls| ==> ExpressibleLocation(ls[i])
    ensures ServerPrintable(LocationBlocks(ls))
    decreases |ls|
  {
    hide ExpressibleLocation, LocationDirectives;
    if ls != [] {
      BlockPrintable(ls[0]);
      LocationsPrintable(ls[1..]);
      hide ServerPrintable;
      ServerPrintableSplit([Location(ls[0].path, LocationDirectives(ls[0]))], LocationBlocks(ls[1..]));
    }
  }

  /** A directive with a single value that is a token. */
  lemma ValuePrintable(c: bool, d: ServerDirective, keyword: string, value: string)
    requires c ==> PrintServer(d) == [keyword, value, ";"] && IsToken(keyword) && IsToken(value) && !d.Location?
    ensures ServerPrintable(When(c, d))
  {
    if c {
      Delimiters();
      assert IsToken([";"][0]);
      hide ServerPrintable, IsToken;
      OnePrintable(d);
    }
  }

  lemma ServerIsPrintable(c: ServerConf, resolve: Resolver)
    requires Expressible(c, resolve)
    ensures ServerPrintable(ServerDirectives(c, resolve))
  {
    ServerKeywords();
    hide PageDirectives, LocationBlocks, ExpressibleLocation, PageMap, ExpressibleAddress, ExpressibleSize,
         ListenText, SizeText, ServerPrintable, IsWord, When;
    PagesPrintable(c.errorPages);
    LocationsPrintable(c.locations);
    SizeTextParses(c.maxBodySize);
    hide ParseBodySize, ParseAddress;
    ValuePrintable(c.serverName != "", ServerName(c.serverName), "server_name", c.serverName);
    ValuePrintable(c.maxBodySize != 0, MaxBodySize(SizeText(c.maxBodySize)), "client_max_body_size",
          SizeText(c.maxBodySize));
    var d4 := LocationBlocks(c.locations);
    ServerPrintableSplit(PageDirectives(c.errorPages), d4);
    var d3 := PageDirectives(c.errorPages) + d4;
    ServerPrintableSplit(When(c.maxBodySize != 0, MaxBodySize(SizeText(c.maxBodySize))), d3);
    var d2 := When(c.maxBodySize != 0, MaxBodySize(SizeText(c.maxBodySize))) + d3;
    ServerPrintableSplit(When(c.serverName != "", ServerName(c.serverName)), d2);
    var d1 := When(c.serverName != "", ServerName(c.serverName)) + d2;
    if c.address == NO_ADDRESS {
      assert [] + d1 == d1;
    } else {
      AddressMeaning(c.address, resolve);
      var d := Listen(ListenText(c.address, resolve));
      ValuePrintable(true, d, "listen", d.value);
      assert When(true, d) == [d] by { WhenTrue(d); }
      ServerPrintableSplit([d], d1);
    }
  }

  lemma WhenTrue(d: ServerDirective)
    ensures When(true, d) == [d]
  {}

  lemma {:induction false} BlocksPrintable(confs: seq<ServerConf>, resolve: Resolver)
    requires AllExpressible(confs, resolve)
    ensures Shaped(Blocks(confs, resolve)) && AllTokens(Print(Blocks(confs, resolve)))
    decreases |confs|
  {
    hide Expressible, AllTokens, ShapedServers, PrintServers, ServerDirectives;
    Delimiters();
    if confs != [] {
      var blocks := Blocks(confs, resolve);
      assert blocks[1..] == Blocks(confs[1..], resolve);
      BlocksPrintable(confs[1..], resolve);
      ServerIsPrintable(confs[0], resolve);
      ServerWord();
      AllTokensSplit(["}"], Print(blocks[1..]));
      AllTokensSplit(PrintServers(blocks[0]), ["}"] + Print(blocks[1..]));
      AllTokensSplit(["server", "{"], PrintServers(blocks[0]) + (["}"] + Print(blocks[1..])));
    }
  }

  lemma ServerWord()
    ensures AllTokens(["server", "{"])
  {
    ServerKeywords();
    Delimiters();
    assert IsToken(["{"][0]);
  }

  // ---------------------------------------------------------------- the round trip

  /** Every expressible list of servers, printed with any white space and comments between the tokens,
      parses back to itself. */
  lemma RoundTrip(confs: seq<ServerConf>, gaps: seq<string>, resolve: Resolver)
    requires confs != [] && AllExpressible(confs, resolve)
    requires Fits(Print(Blocks(confs, resolve)), gaps)
    ensures ParseText(Layout(Print(Blocks(confs, resolve)), gaps), resolve) == Fine(confs)
  {
    hide AllExpressible, Blocks, Print, Parse, Meaning, Shaped, AllTokens, Fits, Layout, Tokenize;
    var blocks := Blocks(confs, resolve);
    BlocksPrintable(confs, resolve);
    LayoutTokenizes(Print(blocks), gaps);
    PrintedParses([], blocks, resolve);
    assert [] + confs == confs;
    BlocksMeaning([], confs, resolve);
  }

  /** A configuration file can express exactly the nonempty lists of expressible servers. */
  lemma ExpressibleIff(confs: seq<ServerConf>, resolve: Resolver)
    ensures (exists content :: ParseText(content, resolve) == Fine(confs)) <==>
              confs != [] && AllExpressible(confs, resolve)
  {
    hide AllExpressible, Blocks, Print, Parse, Meaning, Shaped, AllTokens, Fits, Layout, Tokenize, ParseText;
    if confs != [] && AllExpressible(confs, resolve) {
      var tokens := Print(Blocks(confs, resolve));
      BlocksPrintable(confs, resolve);
      TokensFit(tokens);
      RoundTrip(confs, Spaces(tokens), resolve);
    }
    forall content | ParseText(content, resolve) == Fine(confs) ensures confs != [] && AllExpressible(confs, resolve) {
      ParsedIsExpressible(content, confs, resolve);
    }
  }

  lemma TokensFit(tokens: Tokens)
    requires AllTokens(tokens)
    ensures Fits(tokens, Spaces(tokens))
  {
    SpacesFit(tokens);
  }

  lemma ParsedIsExpressible(content: string, confs: seq<ServerConf>, resolve: Resolver)
    requires ParseText(content, resolve) == Fine(confs)
    ensures confs != [] && AllExpressible(confs, resolve)
  {
    hide Print, Parse, Meaning, Shaped, Tokenize, Expressible;
    var tokens := Tokenize(content);
    forall k | 0 <= k < |tokens| ensures IsToken(tokens[k]) {
      TokensAreClean(content, k);
    }
    var blocks := ParsedWasPrinted([], tokens, resolve);
    PrintedParses([], blocks, resolve);
    assert AllExpressible([], resolve);
    MeaningExpressible([], blocks, resolve);
  }
}
