/** The configuration language: its directives, what they mean for the configuration objects, and the
    recursive descent of ConfigParser as functions on the remaining tokens. */
module ConfigSyntax {
  import opened ByteStrings
  import opened CNumbers
  import opened RequestHead

  // ---------------------------------------------------------------- configurations

  /** A socket address, all zero until a listen directive sets it. */
  datatype Address = Address(family: nat, host: nat, port: nat)

  const AF_INET: nat := 2
  const NO_ADDRESS := Address(0, 0, 0)
  const INADDR_ANY: nat := 0

  datatype LocationConf = LocationConf(
    path: string, root: string, verbs: set<Method>, returnURL: string, returnCode: string,
    autoIndex: bool, defaultPage: string, storageLocation: string, cgiInterpreters: map<string, string>)

  datatype ServerConf = ServerConf(
    serverName: string, address: Address, maxBodySize: nat,
    locations: seq<LocationConf>, errorPages: map<string, string>)

  const NEW_SERVER := ServerConf("", NO_ADDRESS, 0, [], map[])

  function NewLocation(path: string): LocationConf {
    LocationConf(path, "", {}, "", "", false, "", "", map[])
  }

  datatype ConfigError =
    | UnexpectedEnd
    | Expected(token: string, got: string)
    | NoServerBlocks
    | UnknownDirective(name: string)
    | InvalidValue(value: string)

  /** What a parsing method returns or throws. */
  datatype Outcome<+T> = Fine(value: T) | Thrown(error: ConfigError) {
    predicate IsFailure() { Thrown? }

    function PropagateFailure<U>(): Outcome<U>
      requires IsFailure()
    {
      Thrown(error)
    }

    function Extract(): T
      requires !IsFailure()
    {
      value
    }
  }

  /** getaddrinfo: the address of a host. */
  type Resolver = string -> Option<nat>

  // ---------------------------------------------------------------- values

  predicate IsNumber(s: string) {
    s != "" && AllDigits(s)
  }

  function ParsePort(digits: string): Outcome<nat> {
    if !IsNumber(digits) then Thrown(InvalidValue(digits))
    else
      var port := AtoI(digits);
      if port <= 0 || port > 65535 then Thrown(InvalidValue(digits)) else Fine(port)
  }

  /** _parseSockAddr */
  function ParseAddress(value: string, resolve: Resolver): Outcome<Address> {
    match Find(value, ":", 0)
    case Some(colon) =>
      (match ParsePort(value[colon + 1..])
       case Thrown(e) => Thrown(e)
       case Fine(port) =>
         var host := value[..colon];
         if host == "" then Thrown(InvalidValue(host))
         else match resolve(host)
           case None => Thrown(InvalidValue(host))
           case Some(ip) => Fine(Address(AF_INET, ip, port)))
    case None =>
      match ParsePort(value)
      case Thrown(e) => Thrown(e)
      case Fine(port) => Fine(Address(AF_INET, INADDR_ANY, port))
  }

  function Multiplier(suffix: char): nat {
    if suffix == 'k' || suffix == 'K' then 1024
    else if suffix == 'm' || suffix == 'M' then 1024 * 1024
    else if suffix == 'g' || suffix == 'G' then 1024 * 1024 * 1024
    else 1
  }

  /** _parseBodySize: the product wraps at 2^64. */
  function ParseBodySize(value: string): Outcome<nat> {
    if value == "" then Thrown(InvalidValue(value))
    else
      var multiplier := Multiplier(value[|value| - 1]);
      var digits := if multiplier == 1 then value else value[..|value| - 1];
      if !IsNumber(digits) then Thrown(InvalidValue(value))
      else
        DigitsInBase(digits);
        AtoLOfDigits(digits);
        Fine(SizeT(AtoL(digits) * multiplier))
  }

  // ---------------------------------------------------------------- directives

  datatype LocationDirective =
    | Root(value: string)
    | Methods(names: seq<string>)
    | AutoIndex(value: string)
    | Index(value: string)
    | UploadStore(value: string)
    | Return(code: string, url: string)
    | CgiInterpreter(interpreter: string, extension: string)

  datatype ServerDirective =
    | Listen(value: string)
    | ServerName(value: string)
    | MaxBodySize(value: string)
    | ErrorPage(code: string, page: string)
    | Location(path: string, directives: seq<LocationDirective>)

  function AddMethod(loc: LocationConf, name: string): Outcome<LocationConf> {
    if MethodOf(name).UNKNOWN_METHOD? then Thrown(InvalidValue(name))
    else Fine(loc.(verbs := loc.verbs + {MethodOf(name)}))
  }

  function AddMethods(loc: LocationConf, names: seq<string>): Outcome<LocationConf>
    decreases |names|
  {
    if names == [] then Fine(loc)
    else match AddMethod(loc, names[0])
      case Thrown(e) => Thrown(e)
      case Fine(loc1) => AddMethods(loc1, names[1..])
  }

  /** What a location directive does to the location, or why it is refused. */
  function ApplyLocation(loc: LocationConf, d: LocationDirective): Outcome<LocationConf> {
    match d
    case Root(value) => Fine(loc.(root := value))
    case Methods(names) => AddMethods(loc, names)
    case AutoIndex(value) =>
      if value == "on" then Fine(loc.(autoIndex := true))
      else if value == "off" then Fine(loc.(autoIndex := false))
      else Thrown(InvalidValue(value))
    case Index(value) => Fine(loc.(defaultPage := value))
    case UploadStore(value) => Fine(loc.(storageLocation := value))
    case Return(code, url) =>
      if !AllDigits(code) then Thrown(InvalidValue(code))
      else Fine(loc.(returnCode := code, returnURL := url))
    case CgiInterpreter(interpreter, extension) =>
      Fine(loc.(cgiInterpreters := loc.cgiInterpreters[extension := interpreter]))
  }

  function ApplyLocations(loc: LocationConf, ds: seq<LocationDirective>): Outcome<LocationConf>
    decreases |ds|
  {
    if ds == [] then Fine(loc)
    else match ApplyLocation(loc, ds[0])
      case Thrown(e) => Thrown(e)
      case Fine(loc1) => ApplyLocations(loc1, ds[1..])
  }

  /** What a server directive does to the server, or why it is refused. */
  function ApplyServer(conf: ServerConf, d: ServerDirective, resolve: Resolver): Outcome<ServerConf> {
    match d
    case Listen(value) =>
      (match ParseAddress(value, resolve)
       case Thrown(e) => Thrown(e)
       case Fine(address) => Fine(conf.(address := address)))
    case ServerName(value) => Fine(conf.(serverName := value))
    case MaxBodySize(value) =>
      (match ParseBodySize(value)
       case Thrown(e) => Thrown(e)
       case Fine(size) => Fine(conf.(maxBodySize := size)))
    case ErrorPage(code, page) =>
      if |code| != 3 || !AllDigits(code) then Thrown(InvalidValue(code))
      else Fine(conf.(errorPages := conf.errorPages[code := page]))
    case Location(path, directives) =>
      match ApplyLocations(NewLocation(path), directives)
      case Thrown(e) => Thrown(e)
      case Fine(loc) => Fine(conf.(locations := conf.locations + [loc]))
  }

  function ApplyServers(conf: ServerConf, ds: seq<ServerDirective>, resolve: Resolver): Outcome<ServerConf>
    decreases |ds|
  {
    if ds == [] then Fine(conf)
    else match ApplyServer(conf, ds[0], resolve)
      case Thrown(e) => Thrown(e)
      case Fine(conf1) => ApplyServers(conf1, ds[1..], resolve)
  }

  /** What a list of server blocks means, after the servers in `before`. */
  function Meaning(before: seq<ServerConf>, blocks: seq<seq<ServerDirective>>,
        resolve: Resolver): Outcome<seq<ServerConf>>
    decreases |blocks|
  {
    if blocks == [] then if before == [] then Thrown(NoServerBlocks) else Fine(before)
    else match ApplyServers(NEW_SERVER, blocks[0], resolve)
      case Thrown(e) => Thrown(e)
      case Fine(conf) => Meaning(before + [conf], blocks[1..], resolve)
  }

  // ---------------------------------------------------------------- recursive descent

  type Tokens = seq<string>

  /** What a parsing function makes of the tokens, and the tokens it leaves. */
  datatype Parsed<+T> = Got(value: T, rest: Tokens) | Failed(error: ConfigError)

  function Lift<T>(r: Outcome<T>, rest: Tokens): Parsed<T> {
    match r
    case Fine(value) => Got(value, rest)
    case Thrown(e) => Failed(e)
  }

  function Consume(ts: Tokens): Parsed<string> {
    if ts == [] then Failed(UnexpectedEnd) else Got(ts[0], ts[1..])
  }

  function Expect(ts: Tokens, token: string): Parsed<string> {
    if ts == [] then Failed(UnexpectedEnd)
    else if ts[0] != token then Failed(Expected(token, ts[0]))
    else Got(ts[0], ts[1..])
  }

  /** value ";" */
  function OneValue(ts: Tokens): Parsed<string> {
    match Consume(ts)
    case Failed(e) => Failed(e)
    case Got(value, ts1) =>
      match Expect(ts1, ";")
      case Failed(e) => Failed(e)
      case Got(_, rest) => Got(value, rest)
  }

  /** value value ";" */
  function TwoValues(ts: Tokens): Parsed<(string, string)> {
    match Consume(ts)
    case Failed(e) => Failed(e)
    case Got(first, ts1) =>
      match OneValue(ts1)
      case Failed(e) => Failed(e)
      case Got(second, rest) => Got((first, second), rest)
  }

  /** The method names up to the ";". */
  function ParseNames(ts: Tokens, loc: LocationConf): (r: Parsed<LocationConf>)
    ensures r.Got? ==> |r.rest| < |ts|
    decreases |ts|
  {
    if ts == [] || ts[0] == ";" then
      match Expect(ts, ";")
      case Failed(e) => Failed(e)
      case Got(_, rest) => Got(loc, rest)
    else match AddMethod(loc, ts[0])
      case Thrown(e) => Failed(e)
      case Fine(loc1) => ParseNames(ts[1..], loc1)
  }

  function ParseMethods(ts: Tokens, loc: LocationConf): (r: Parsed<LocationConf>) {
    if ts == [] then Failed(UnexpectedEnd)
    else if ts[0] == ";" then Failed(InvalidValue(";"))
    else ParseNames(ts, loc)
  }

  function WithOne<T>(ts: Tokens, apply: string -> Outcome<T>): Parsed<T> {
    match OneValue(ts)
    case Failed(e) => Failed(e)
    case Got(value, rest) => Lift(apply(value), rest)
  }

  function WithTwo<T>(ts: Tokens, apply: (string, string) -> Outcome<T>): Parsed<T> {
    match TwoValues(ts)
    case Failed(e) => Failed(e)
    case Got(values, rest) => Lift(apply(values.0, values.1), rest)
  }

  /** One location directive after its name. */
  function ParseLocationDirective(name: string, ts: Tokens, loc: LocationConf): (r: Parsed<LocationConf>)
    ensures r.Got? ==> |r.rest| < |ts|
  {
    if name == "root" then WithOne(ts, v => ApplyLocation(loc, Root(v)))
    else if name == "methods" then ParseMethods(ts, loc)
    else if name == "autoindex" then WithOne(ts, v => ApplyLocation(loc, AutoIndex(v)))
    else if name == "index" then WithOne(ts, v => ApplyLocation(loc, Index(v)))
    else if name == "upload_store" then WithOne(ts, v => ApplyLocation(loc, UploadStore(v)))
    else if name == "return" then WithTwo(ts, (c, u) => ApplyLocation(loc, Return(c, u)))
    else if name == "cgi_interpreter" then WithTwo(ts, (p, e) => ApplyLocation(loc, CgiInterpreter(p, e)))
    else Failed(UnknownDirective(name))
  }

  /** Directives up to the closing brace. */
  function ParseLocationBlock(ts: Tokens, loc: LocationConf): (r: Parsed<LocationConf>)
    ensures r.Got? ==> |r.rest| < |ts|
    decreases |ts|
  {
    if ts == [] || ts[0] == "}" then
      match Expect(ts, "}")
      case Failed(e) => Failed(e)
      case Got(_, rest) => Got(loc, rest)
    else match ParseLocationDirective(ts[0], ts[1..], loc)
      case Failed(e) => Failed(e)
      case Got(loc1, rest) => ParseLocationBlock(rest, loc1)
  }

  /** path "{" directives "}" */
  function ParseLocation(ts: Tokens, conf: ServerConf): (r: Parsed<ServerConf>)
    ensures r.Got? ==> |r.rest| < |ts|
  {
    match Consume(ts)
    case Failed(e) => Failed(e)
    case Got(path, ts1) =>
      match Expect(ts1, "{")
      case Failed(e) => Failed(e)
      case Got(_, ts2) =>
        match ParseLocationBlock(ts2, NewLocation(path))
        case Failed(e) => Failed(e)
        case Got(loc, rest) => Got(conf.(locations := conf.locations + [loc]), rest)
  }

  /** One server directive after its name. */
  function ParseServerDirective(name: string, ts: Tokens, conf: ServerConf, resolve: Resolver): (r: Parsed<ServerConf>)
    ensures r.Got? ==> |r.rest| < |ts|
  {
    if name == "listen" then WithOne(ts, v => ApplyServer(conf, Listen(v), resolve))
    else if name == "server_name" then WithOne(ts, v => ApplyServer(conf, ServerName(v), resolve))
    else if name == "client_max_body_size" then WithOne(ts, v => ApplyServer(conf, MaxBodySize(v), resolve))
    else if name == "error_page" then WithTwo(ts, (c, p) => ApplyServer(conf, ErrorPage(c, p), resolve))
    else if name == "location" then ParseLocation(ts, conf)
    else Failed(UnknownDirective(name))
  }

  function ParseServerBlock(ts: Tokens, conf: ServerConf, resolve: Resolver): (r: Parsed<ServerConf>)
    ensures r.Got? ==> |r.rest| < |ts|
    decreases |ts|
  {
    if ts == [] || ts[0] == "}" then
      match Expect(ts, "}")
      case Failed(e) => Failed(e)
      case Got(_, rest) => Got(conf, rest)
    else match ParseServerDirective(ts[0], ts[1..], conf, resolve)
      case Failed(e) => Failed(e)
      case Got(conf1, rest) => ParseServerBlock(rest, conf1, resolve)
  }

  /** The whole file, after the servers already read. */
  function Parse(before: seq<ServerConf>, ts: Tokens, resolve: Resolver): Outcome<seq<ServerConf>>
    decreases |ts|
  {
    if ts == [] then if before == [] then Thrown(NoServerBlocks) else Fine(before)
    else if ts[0] != "server" then Thrown(Expected("server", ts[0]))
    else match Expect(ts[1..], "{")
      case Failed(e) => Thrown(e)
      case Got(_, ts1) =>
        match ParseServerBlock(ts1, NEW_SERVER, resolve)
        case Failed(e) => Thrown(e)
        case Got(conf, rest) => Parse(before + [conf], rest, resolve)
  }
}
