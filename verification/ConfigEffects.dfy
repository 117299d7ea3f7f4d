/** What a block of accepted directives leaves in the configuration: a directive touches its own field
    and no other, the last one of a kind counts, and what adds up adds up in order. */
module ConfigEffects {
  import opened ByteStrings
  import opened CNumbers
  import opened RequestHead
  import opened ConfigSyntax

  /** What the last item that says anything says, or the value that stood before. */
  function Last<D, T>(ds: seq<D>, says: D -> Option<T>, before: T): T
    decreases |ds|
  {
    if ds == [] then before
    else match says(ds[|ds| - 1])
      case Some(value) => value
      case None => Last(ds[..|ds| - 1], says, before)
  }

  /** Last is the last: what an item says with none behind it that says anything. */
  lemma {:induction false} LastMeans<D, T>(ds: seq<D>, says: D -> Option<T>, before: T, i: nat)
    requires i < |ds| && says(ds[i]).Some? && forall j :: i < j < |ds| ==> says(ds[j]).None?
    ensures Last(ds, says, before) == says(ds[i]).value
    decreases |ds|
  {
    if i < |ds| - 1 {
      LastMeans(ds[..|ds| - 1], says, before, i);
    }
  }

  /** Without such an item the value that stood before is left. */
  lemma {:induction false} LastOfNone<D, T>(ds: seq<D>, says: D -> Option<T>, before: T)
    requires forall j :: 0 <= j < |ds| ==> says(ds[j]).None?
    ensures Last(ds, says, before) == before
    decreases |ds|
  {
    if ds != [] {
      LastOfNone(ds[..|ds| - 1], says, before);
    }
  }

  lemma {:induction false} LastTail<D, T>(ds: seq<D>, says: D -> Option<T>, before: T)
    requires ds != []
    ensures Last(ds, says, before) ==
              Last(ds[1..], says, match says(ds[0]) case Some(v) => v case None => before)
    decreases |ds|
  {
    if |ds| > 1 {
      assert ds[..|ds| - 1][1..] == ds[1..][..|ds| - 2];
      LastTail(ds[..|ds| - 1], says, before);
    } else {
      assert ds[..0] == [];
    }
  }

  // ---------------------------------------------------------------- locations

  function RootSaid(d: LocationDirective): Option<string> {
    if d.Root? then Some(d.value) else None
  }

  function PageSaid(d: LocationDirective): Option<string> {
    if d.Index? then Some(d.value) else None
  }

  function StoreSaid(d: LocationDirective): Option<string> {
    if d.UploadStore? then Some(d.value) else None
  }

  function ListingSaid(d: LocationDirective): Option<bool> {
    if d.AutoIndex? then Some(d.value == "on") else None
  }

  function ReturnSaid(d: LocationDirective): Option<(string, string)> {
    if d.Return? then Some((d.code, d.url)) else None
  }

  function InterpreterSaid(extension: string): LocationDirective -> Option<Option<string>> {
    (d: LocationDirective) =>
      if d.CgiInterpreter? && d.extension == extension then Some(Some(d.interpreter)) else None
  }

  function At(m: map<string, string>, k: string): Option<string> {
    if k in m then Some(m[k]) else None
  }

  predicate Allowed(ds: seq<LocationDirective>, name: string) {
    exists i :: 0 <= i < |ds| && ds[i].Methods? && name in ds[i].names
  }

  /** The plain fields of a location after a list of directives. */
  lemma {:induction false} LocationFields(loc: LocationConf, ds: seq<LocationDirective>, r: LocationConf)
    requires ApplyLocations(loc, ds) == Fine(r)
    ensures r.path == loc.path
    ensures r.root == Last(ds, RootSaid, loc.root)
    ensures r.defaultPage == Last(ds, PageSaid, loc.defaultPage)
    ensures r.storageLocation == Last(ds, StoreSaid, loc.storageLocation)
    ensures r.autoIndex == Last(ds, ListingSaid, loc.autoIndex)
    ensures (r.returnCode, r.returnURL) == Last(ds, ReturnSaid, (loc.returnCode, loc.returnURL))
    decreases |ds|
  {
    if ds != [] {
      var loc1 := ApplyLocation(loc, ds[0]).value;
      LocationStep(loc, ds[0], loc1);
      LocationFields(loc1, ds[1..], r);
      LastTail(ds, RootSaid, loc.root);
      LastTail(ds, PageSaid, loc.defaultPage);
      LastTail(ds, StoreSaid, loc.storageLocation);
      LastTail(ds, ListingSaid, loc.autoIndex);
      LastTail(ds, ReturnSaid, (loc.returnCode, loc.returnURL));
    }
  }

  lemma LocationStep(loc: LocationConf, d: LocationDirective, loc1: LocationConf)
    requires ApplyLocation(loc, d) == Fine(loc1)
    ensures !d.Methods? ==> loc1.verbs == loc.verbs
    ensures !d.CgiInterpreter? ==> loc1.cgiInterpreters == loc.cgiInterpreters
    ensures d.Methods? || d.CgiInterpreter? ==>
              loc1 == loc.(verbs := loc1.verbs, cgiInterpreters := loc1.cgiInterpreters)
  {
    if d.Methods? {
      VerbsAdded(loc, d.names, loc1);
    }
  }

  lemma {:induction false} VerbsAdded(loc: LocationConf, names: seq<string>, loc1: LocationConf)
    requires AddMethods(loc, names) == Fine(loc1)
    ensures loc1 == loc.(verbs := loc1.verbs)
    ensures GET in loc1.verbs <==> GET in loc.verbs || "GET" in names
    ensures POST in loc1.verbs <==> POST in loc.verbs || "POST" in names
    ensures DELETE in loc1.verbs <==> DELETE in loc.verbs || "DELETE" in names
    decreases |names|
  {
    if names != [] {
      VerbsAdded(AddMethod(loc, names[0]).value, names[1..], loc1);
      assert names == [names[0]] + names[1..];
    }
  }

  /** The methods of a location are those that some directive names. */
  lemma {:induction false} LocationVerbs(loc: LocationConf, ds: seq<LocationDirective>, r: LocationConf)
    requires ApplyLocations(loc, ds) == Fine(r)
    ensures GET in r.verbs <==> GET in loc.verbs || Allowed(ds, "GET")
    ensures POST in r.verbs <==> POST in loc.verbs || Allowed(ds, "POST")
    ensures DELETE in r.verbs <==> DELETE in loc.verbs || Allowed(ds, "DELETE")
    decreases |ds|
  {
    if ds != [] {
      var loc1 := ApplyLocation(loc, ds[0]).value;
      LocationStep(loc, ds[0], loc1);
      if ds[0].Methods? {
        VerbsAdded(loc, ds[0].names, loc1);
      }
      LocationVerbs(loc1, ds[1..], r);
      AllowedTail(ds, "GET");
      AllowedTail(ds, "POST");
      AllowedTail(ds, "DELETE");
    }
  }

  lemma AllowedTail(ds: seq<LocationDirective>, name: string)
    requires ds != []
    ensures Allowed(ds, name) <==> (ds[0].Methods? && name in ds[0].names) || Allowed(ds[1..], name)
  {
    if i :| 0 <= i < |ds| && ds[i].Methods? && name in ds[i].names {
      assert i > 0 ==> ds[1..][i - 1] == ds[i];
    }
    if i :| 0 <= i < |ds[1..]| && ds[1..][i].Methods? && name in ds[1..][i].names {
      assert ds[i + 1] == ds[1..][i];
    }
  }

  /** The interpreter of each extension is the last one given for it. */
  lemma {:induction false} LocationInterpreters(loc: LocationConf, ds: seq<LocationDirective>, r: LocationConf,
                                                extension: string)
    requires ApplyLocations(loc, ds) == Fine(r)
    ensures At(r.cgiInterpreters, extension) ==
              Last(ds, InterpreterSaid(extension), At(loc.cgiInterpreters, extension))
    decreases |ds|
  {
    if ds != [] {
      var loc1 := ApplyLocation(loc, ds[0]).value;
      LocationStep(loc, ds[0], loc1);
      LocationInterpreters(loc1, ds[1..], r, extension);
      LastTail(ds, InterpreterSaid(extension), At(loc.cgiInterpreters, extension));
    }
  }

  // ---------------------------------------------------------------- servers

  function AddressSaid(resolve: Resolver): ServerDirective -> Option<Outcome<Address>> {
    (d: ServerDirective) => if d.Listen? then Some(ParseAddress(d.value, resolve)) else None
  }

  function NameSaid(d: ServerDirective): Option<string> {
    if d.ServerName? then Some(d.value) else None
  }

  function LimitSaid(d: ServerDirective): Option<Outcome<nat>> {
    if d.MaxBodySize? then Some(ParseBodySize(d.value)) else None
  }

  function ErrorPageSaid(code: string): ServerDirective -> Option<Option<string>> {
    (d: ServerDirective) => if d.ErrorPage? && d.code == code then Some(Some(d.page)) else None
  }

  /** The plain fields of a server after a list of directives. */
  lemma {:induction false} ServerFields(conf: ServerConf, ds: seq<ServerDirective>, r: ServerConf, resolve: Resolver)
    requires ApplyServers(conf, ds, resolve) == Fine(r)
    ensures Fine(r.address) == Last(ds, AddressSaid(resolve), Fine(conf.address))
    ensures r.serverName == Last(ds, NameSaid, conf.serverName)
    ensures Fine(r.maxBodySize) == Last(ds, LimitSaid, Fine(conf.maxBodySize))
    decreases |ds|
  {
    if ds != [] {
      var conf1 := ApplyServer(conf, ds[0], resolve).value;
      hide ParseAddress, ParseBodySize, ApplyLocations;
      ServerFields(conf1, ds[1..], r, resolve);
      LastTail(ds, AddressSaid(resolve), Fine(conf.address));
      LastTail(ds, NameSaid, conf.serverName);
      LastTail(ds, LimitSaid, Fine(conf.maxBodySize));
    }
  }

  /** The page of each status code is the last one given for it. */
  lemma {:induction false} ServerPages(conf: ServerConf, ds: seq<ServerDirective>, r: ServerConf, resolve: Resolver,
                                       code: string)
    requires ApplyServers(conf, ds, resolve) == Fine(r)
    ensures At(r.errorPages, code) == Last(ds, ErrorPageSaid(code), At(conf.errorPages, code))
    decreases |ds|
  {
    if ds != [] {
      var conf1 := ApplyServer(conf, ds[0], resolve).value;
      hide ParseAddress, ParseBodySize, ApplyLocations;
      ServerPages(conf1, ds[1..], r, resolve, code);
      LastTail(ds, ErrorPageSaid(code), At(conf.errorPages, code));
    }
  }

  /** The location directives among the first n. */
  function LocationsBefore(ds: seq<ServerDirective>, n: nat): nat
    requires n <= |ds|
  {
    if n == 0 then 0 else LocationsBefore(ds, n - 1) + if ds[n - 1].Location? then 1 else 0
  }

  lemma {:induction false} LocationsGrow(conf: ServerConf, ds: seq<ServerDirective>, r: ServerConf, resolve: Resolver)
    requires ApplyServers(conf, ds, resolve) == Fine(r)
    ensures |r.locations| == |conf.locations| + LocationsBefore(ds, |ds|)
    ensures conf.locations <= r.locations
    decreases |ds|
  {
    if ds != [] {
      var conf1 := ApplyServer(conf, ds[0], resolve).value;
      LocationAdded(conf, ds[0], conf1, resolve);
      hide ApplyServer, ApplyLocations, LocationsBefore;
      LocationsGrow(conf1, ds[1..], r, resolve);
      CountTail(ds, |ds|);
    } else {
      assert LocationsBefore(ds, 0) == 0;
    }
  }

  /** The locations stand in the order of their directives, each as its own block leaves it. */
  lemma {:induction false} ServerLocations(conf: ServerConf, ds: seq<ServerDirective>, r: ServerConf, resolve: Resolver,
                                           i: nat)
    requires ApplyServers(conf, ds, resolve) == Fine(r) && i < |ds| && ds[i].Location?
    ensures var at := |conf.locations| + LocationsBefore(ds, i);
            at < |r.locations| && ApplyLocations(NewLocation(ds[i].path), ds[i].directives) == Fine(r.locations[at])
    decreases |ds|
  {
    var conf1 := ApplyServer(conf, ds[0], resolve).value;
    assert ApplyServers(conf1, ds[1..], resolve) == Fine(r);
    LocationAdded(conf, ds[0], conf1, resolve);
    hide ApplyServer, ApplyServers, ApplyLocations;
    LocationsGrow(conf1, ds[1..], r, resolve);
    if i > 0 {
      hide LocationsBefore;
      ServerLocations(conf1, ds[1..], r, resolve, i - 1);
      CountTail(ds, i);
    }
  }

  lemma LocationAdded(conf: ServerConf, d: ServerDirective, conf1: ServerConf, resolve: Resolver)
    requires ApplyServer(conf, d, resolve) == Fine(conf1)
    ensures !d.Location? ==> conf1.locations == conf.locations
    ensures d.Location? ==>
              && |conf1.locations| == |conf.locations| + 1 && conf.locations <= conf1.locations
              && ApplyLocations(NewLocation(d.path), d.directives) == Fine(conf1.locations[|conf.locations|])
  {}

  lemma {:induction false} CountTail(ds: seq<ServerDirective>, n: nat)
    requires 1 <= n <= |ds|
    ensures LocationsBefore(ds, n) == LocationsBefore(ds[1..], n - 1) + if ds[0].Location? then 1 else 0
  {
    if n > 1 {
      CountTail(ds, n - 1);
      assert ds[1..][n - 2] == ds[n - 1];
    }
  }
}
