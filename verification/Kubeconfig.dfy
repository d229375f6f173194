/** The two kubeconfig transformations of a session: the one that points the
    active cluster at the session's local port (internal/session/kubeconfig.go)
    and the one that turns the result into a published descriptor
    (publicationKubeconfig, internal/session/publication.go).

    A document is a decoded JSON value; objects have distinct member names.
    url.Parse is the parameter `parse`, net.ParseIP the parameter `isIP`. */
module Kubeconfig {
  import opened Wrappers
  import Decimal
  import HostNames
  import opened JsonValues

  /** What url.Parse reports; `host` still holds the port. */
  datatype Url = Url(scheme: string, isOpaque: bool, hasUser: bool, host: string, hostname: string, port: string,
                     path: string, rawQuery: string, forceQuery: bool, fragment: string)

  type UrlParser = string -> Option<Url>

  // ------------------------------------------------------- named sections

  /** A named entry: the entry's members, and those of the object it holds. */
  datatype Entry = Entry(outer: Members, inner: Members)

  function Items(m: Members, section: string): Option<seq<Json>> {
    if section !in m then None
    else match m[section]
      case JArray(items) => Some(items)
      case JNull => Some([])
      case _ => None
  }

  predicate Readable(item: Json) {
    item.JNull? || item.JObject?
  }

  predicate IsNamed(item: Json, name: string) {
    item.JObject? && RawString(item.members, "name") == Some(name)
  }

  /** `entry` is the only entry of that name, at position i. */
  ghost predicate Selects(items: seq<Json>, name: string, field: string, i: nat, entry: Entry) {
    && i < |items|
    && (forall k :: 0 <= k < |items| ==> items[k].JNull? || items[k].JObject?)
    && (forall k :: 0 <= k < |items| ==> (items[k].JObject? && HasString(items[k].members, "name", name) <==> k == i))
    && items[i] == JObject(entry.outer)
    && field in entry.outer && entry.outer[field] == JObject(entry.inner)
  }

  ghost predicate Finds(m: Members, section: string, name: string, field: string, entry: Entry) {
    section in m && m[section].JArray? && exists i: nat :: Selects(m[section].items, name, field, i, entry)
  }

  /** The loop of the source finds an entry exactly when it is the only one. */
  method NamedObject(m: Members, section: string, name: string, field: string) returns (found: Option<Entry>)
    ensures found.Some? ==> Finds(m, section, name, field, found.value)
    ensures found.None? ==> forall e :: !Finds(m, section, name, field, e)
  {
    var entries := Items(m, section);
    if entries.None? { return None; }
    var items := entries.value;
    var matched: Option<Entry> := None;
    ghost var at: nat := 0;
    for i := 0 to |items|
      invariant forall k :: 0 <= k < i ==> Readable(items[k])
      invariant matched.None? ==> forall k :: 0 <= k < i ==> !IsNamed(items[k], name)
      invariant matched.Some? ==>
                  && at < i
                  && (forall k :: 0 <= k < i ==> (IsNamed(items[k], name) <==> k == at))
                  && items[at] == JObject(matched.value.outer)
                  && field in matched.value.outer
                  && matched.value.outer[field] == JObject(matched.value.inner)
    {
      var item := items[i];
      if !Readable(item) { return None; }
      if !IsNamed(item, name) { continue; }
      if matched.Some? { return None; }
      if field !in item.members || !item.members[field].JObject? { return None; }
      matched, at := Some(Entry(item.members, item.members[field].members)), i;
    }
    if matched.None? { return None; }
    assert Selects(items, name, field, at, matched.value);
    return matched;
  }

  lemma FindsOne(m: Members, section: string, name: string, field: string, e: Entry, f: Entry)
    requires Finds(m, section, name, field, e) && Finds(m, section, name, field, f)
    ensures e == f
  {
    var items := m[section].items;
    var i: nat :| Selects(items, name, field, i, e);
    var j: nat :| Selects(items, name, field, j, f);
    assert HasString(items[i].members, "name", name) && HasString(items[j].members, "name", name);
  }

  function Single(outer: Members, field: string, inner: Members): Json {
    JArray([JObject(outer[field := JObject(inner)])])
  }

  // ---------------------------------------------------------- kubelogin

  const CREDENTIAL_FIELDS: set<string> := {
    "auth-provider", "client-certificate", "client-certificate-data", "client-key", "client-key-data",
    "password", "token", "tokenFile", "username"
  }

  datatype Plugin = Plugin(command: string, args: seq<string>, env: nat)

  predicate IsVariable(item: Json) {
    || item.JNull?
    || (item.JObject?
        && ("name" in item.members ==> RawString(item.members, "name").Some?)
        && ("value" in item.members ==> RawString(item.members, "value").Some?))
  }

  function PluginArgs(exec: Members): Option<seq<string>> {
    if "args" !in exec then Some([])
    else match exec["args"]
      case JNull => Some([])
      case JArray(items) => Strings(items)
      case _ => None
  }

  function PluginEnv(exec: Members): Option<nat> {
    if "env" !in exec then Some(0)
    else match exec["env"]
      case JNull => Some(0)
      case JArray(items) => if forall i :: 0 <= i < |items| ==> IsVariable(items[i]) then Some(|items|) else None
      case _ => None
  }

  /** The exec object of a user, as json.Unmarshal reads it. */
  function DecodePlugin(user: Members): Option<Plugin> {
    if "exec" !in user then None
    else if user["exec"].JNull? then Some(Plugin("", [], 0))
    else if !user["exec"].JObject? then None
    else
      var exec := user["exec"].members;
      var args, env := PluginArgs(exec), PluginEnv(exec);
      if ("command" in exec && RawString(exec, "command").None?) || args.None? || env.None? then None
      else Some(Plugin(Text(exec, "command"), args.value, env.value))
  }

  predicate TakesValue(argument: string) {
    argument == "-l" || argument == "--login"
  }

  /** The non-empty login modes an argument list names, from left to right;
      none when its last word lacks its value. */
  function Modes(args: seq<string>): Option<seq<string>>
  {
    if args == [] then Some([])
    else if TakesValue(args[0]) then
      if |args| == 1 then None else Cons(args[1], Modes(args[2..]))
    else if HostNames.HasPrefix(args[0], "-l=") then Cons(args[0][3..], Modes(args[1..]))
    else if HostNames.HasPrefix(args[0], "--login=") then Cons(args[0][8..], Modes(args[1..]))
    else Modes(args[1..])
  }

  function Cons(mode: string, rest: Option<seq<string>>): Option<seq<string>> {
    if rest.None? then None else if mode == "" then rest else Some([mode] + rest.value)
  }

  /** The user authenticates by kubelogin through the local Azure CLI login,
      named exactly once, and carries no other credential. */
  predicate AzureLogin(user: Members) {
    && user.Keys !! CREDENTIAL_FIELDS
    && var plugin := DecodePlugin(user);
    && plugin.Some?
    && IsKubelogin(plugin.value.command)
    && LogsIn(plugin.value.args) && plugin.value.env == 0
  }

  predicate IsKubelogin(command: string) {
    command == "kubelogin" || command == "kubelogin.exe"
  }

  predicate OnlyAzureCLI(modes: Option<seq<string>>) {
    modes.Some? && |modes.value| == 1 && modes.value[0] == "azurecli"
  }

  predicate LogsIn(args: seq<string>) {
    |args| > 0 && args[0] == "get-token" && OnlyAzureCLI(Modes(args[1..]))
  }

  // The same reading of the arguments, position by position.

  /** Position k is the value of the flag before it. */
  predicate IsValue(args: seq<string>, k: nat)
    requires k < |args|
  {
    k > 0 && (args[k - 1] == "-l" || args[k - 1] == "--login") && !IsValue(args, k - 1)
  }

  /** The mode that position k sets, empty if none. */
  function ModeAt(args: seq<string>, k: nat): string
    requires k < |args|
  {
    var word := args[k];
    if IsValue(args, k) then word
    else if |word| >= 3 && word[..3] == "-l=" then word[3..]
    else if |word| >= 8 && word[..8] == "--login=" then word[8..]
    else ""
  }

  /** The last word is a flag without its value. */
  predicate LacksValue(args: seq<string>) {
    |args| > 0 && (args[|args| - 1] == "-l" || args[|args| - 1] == "--login") && !IsValue(args, |args| - 1)
  }

  ghost predicate NoMode(args: seq<string>) {
    forall k :: 0 <= k < |args| ==> ModeAt(args, k) == ""
  }

  /** Position k sets this mode, and no other sets any. */
  ghost predicate SetsAlone(args: seq<string>, k: nat, mode: string) {
    k < |args| && ModeAt(args, k) == mode && forall j :: 0 <= j < |args| && j != k ==> ModeAt(args, j) == ""
  }

  ghost predicate OnlyMode(args: seq<string>, mode: string) {
    exists k: nat :: SetsAlone(args, k, mode)
  }

  /** The number of words that the flag or word at the front takes up. */
  function Width(args: seq<string>): (w: nat)
    requires args != []
    ensures 1 <= w <= |args|
  {
    if TakesValue(args[0]) && |args| > 1 then 2 else 1
  }

  /** The mode that they set. */
  function FrontMode(args: seq<string>): string
    requires args != []
  {
    ModeAt(args, Width(args) - 1)
  }

  lemma {:induction false} ValueShifts(args: seq<string>, k: nat)
    requires args != [] && Width(args) + k < |args|
    ensures IsValue(args, Width(args) + k) == IsValue(args[Width(args)..], k)
  {
    if k > 0 {
      ValueShifts(args, k - 1);
    } else if Width(args) == 2 {
      assert IsValue(args, 1);
    }
  }

  lemma ModeShifts(args: seq<string>, k: nat)
    requires args != [] && Width(args) + k < |args|
    ensures ModeAt(args, Width(args) + k) == ModeAt(args[Width(args)..], k)
  {
    ValueShifts(args, k);
  }

  lemma LackShifts(args: seq<string>)
    requires args != []
    ensures LacksValue(args) <==> (TakesValue(args[0]) && |args| == 1) || LacksValue(args[Width(args)..])
  {
    if Width(args) < |args| {
      ValueShifts(args, |args| - 1 - Width(args));
    } else if Width(args) == 2 {
      assert IsValue(args, 1);
    }
  }

  lemma FlagIsSilent(args: seq<string>)
    requires args != []
    ensures TakesValue(args[0]) ==> ModeAt(args, 0) == ""
  {
    assert |"-l"| == 2 && |"--login"| == 7 && "--login"[..3][1] == '-';
  }

  /** Behind the front the positions set what they set without it; in it only
      the last one may set a mode. */
  lemma RestModes(args: seq<string>)
    requires args != []
    ensures var w := Width(args); var rest := args[w..];
            && (forall k :: 0 <= k < |rest| ==> ModeAt(args, w + k) == ModeAt(rest, k))
            && (forall k :: w <= k < |args| ==> ModeAt(args, k) == ModeAt(rest, k - w))
            && (forall k :: 0 <= k < w - 1 ==> ModeAt(args, k) == "")
  {
    var w := Width(args);
    FlagIsSilent(args);
    forall k | 0 <= k < |args[w..]| ensures ModeAt(args, w + k) == ModeAt(args[w..], k) {
      ModeShifts(args, k);
    }
    forall k | w <= k < |args| ensures ModeAt(args, k) == ModeAt(args[w..], k - w) {
      ModeShifts(args, k - w);
    }
  }

  lemma NoModeSplits(args: seq<string>)
    requires args != []
    ensures NoMode(args) <==> FrontMode(args) == "" && NoMode(args[Width(args)..])
  {
    RestModes(args);
  }

  lemma OnlyModeOfFront(args: seq<string>, mode: string)
    requires args != [] && mode != "" && FrontMode(args) != ""
    ensures OnlyMode(args, mode) <==> FrontMode(args) == mode && NoMode(args[Width(args)..])
  {
    RestModes(args);
    if FrontMode(args) == mode && NoMode(args[Width(args)..]) {
      assert SetsAlone(args, Width(args) - 1, mode);
    }
  }

  lemma AloneInRest(args: seq<string>, k: nat, mode: string)
    requires args != [] && mode != "" && FrontMode(args) == ""
    ensures k < Width(args) ==> !SetsAlone(args, k, mode)
    ensures k >= Width(args) ==> (SetsAlone(args, k, mode) <==> SetsAlone(args[Width(args)..], k - Width(args), mode))
  {
    RestModes(args);
    var w := Width(args);
    if w <= k && SetsAlone(args[w..], k - w, mode) {
      forall j | 0 <= j < |args| && j != k ensures ModeAt(args, j) == "" {
        if j >= w { assert ModeAt(args[w..], j - w) == ""; }
      }
    }
    if w <= k && SetsAlone(args, k, mode) {
      forall j | 0 <= j < |args[w..]| && j != k - w ensures ModeAt(args[w..], j) == "" {
        assert ModeAt(args, w + j) == "";
      }
    }
  }

  lemma OnlyModeOfRest(args: seq<string>, mode: string)
    requires args != [] && mode != "" && FrontMode(args) == ""
    ensures OnlyMode(args, mode) <==> OnlyMode(args[Width(args)..], mode)
  {
    var w := Width(args);
    if k: nat :| SetsAlone(args, k, mode) {
      AloneInRest(args, k, mode);
      assert SetsAlone(args[w..], k - w, mode);
    }
    if k: nat :| SetsAlone(args[w..], k, mode) {
      AloneInRest(args, w + k, mode);
      assert SetsAlone(args, w + k, mode);
    }
  }

  lemma ModesOfFront(args: seq<string>)
    requires args != []
    ensures Modes(args) == if TakesValue(args[0]) && |args| == 1 then None
                           else Cons(FrontMode(args), Modes(args[Width(args)..]))
  {
    if Width(args) == 2 { assert IsValue(args, 1); }
    if Modes(args[Width(args)..]).Some? { assert Cons("", Modes(args[Width(args)..])) == Modes(args[Width(args)..]); }
  }

  /** Modes reads what the positions set. */
  lemma {:induction false} ModesExactly(args: seq<string>, mode: string)
    requires mode != ""
    ensures Modes(args).None? <==> LacksValue(args)
    ensures Modes(args).Some? ==>
              var modes := Modes(args).value;
              && (modes == [] <==> NoMode(args))
              && (|modes| == 1 && modes[0] == mode <==> OnlyMode(args, mode))
    decreases |args|
  {
    if args != [] {
      var rest := args[Width(args)..];
      ModesExactly(rest, mode);
      ModesOfFront(args);
      LackShifts(args);
      NoModeSplits(args);
      if FrontMode(args) == "" { OnlyModeOfRest(args, mode); } else { OnlyModeOfFront(args, mode); }
    }
  }

  method LoginMode(args: seq<string>) returns (mode: Option<string>)
    requires |args| > 0
    ensures mode.Some? && mode.value == "azurecli" <==> OnlyAzureCLI(Modes(args[1..]))
    ensures mode.Some? && mode.value == "azurecli" <==> !LacksValue(args[1..]) && OnlyMode(args[1..], "azurecli")
  {
    mode := ReadLoginMode(args);
    ModesExactly(args[1..], "azurecli");
  }

  /** The loop over the arguments behind the first. */
  method ReadLoginMode(args: seq<string>) returns (mode: Option<string>)
    requires |args| > 0
    ensures mode.Some? && mode.value == "azurecli" <==> OnlyAzureCLI(Modes(args[1..]))
  {
    var loginMode := "";
    var i := 1;
    while i < |args|
      invariant 1 <= i <= |args|
      invariant Modes(args[1..]) == if loginMode == "" then Modes(args[i..]) else Cons(loginMode, Modes(args[i..]))
    {
      var argument := args[i];
      ghost var start := i;
      assert args[i..][0] == argument && args[i..][1..] == args[i + 1..];
      var named := "";
      if argument == "-l" || argument == "--login" {
        if i + 1 >= |args| { return None; }
        i := i + 1;
        named := args[i];
        assert args[start..][2..] == args[i + 1..];
      } else if HostNames.HasPrefix(argument, "-l=") {
        named := argument[3..];
      } else if HostNames.HasPrefix(argument, "--login=") {
        named := argument[8..];
      }
      assert Modes(args[start..]) == if named == "" then Modes(args[i + 1..]) else Cons(named, Modes(args[i + 1..]));
      if named != "" {
        if loginMode != "" { return None; }
        loginMode := named;
      }
      i := i + 1;
    }
    assert args[i..] == [] && Modes(args[i..]) == Some([]);
    assert [loginMode] + [] == [loginMode];
    return Some(loginMode);
  }

  /** The strings of an array, null counting as an empty one. */
  ghost predicate HasStrings(m: Members, name: string, strings: seq<string>) {
    && name in m && m[name].JArray? && |m[name].items| == |strings|
    && forall i :: 0 <= i < |strings| ==>
         m[name].items[i] == JString(strings[i]) || (m[name].items[i] == JNull && strings[i] == "")
  }

  lemma ArgsAre(exec: Members, args: seq<string>)
    requires args != []
    ensures PluginArgs(exec) == Some(args) <==> HasStrings(exec, "args", args)
  {
    if "args" in exec && exec["args"].JArray? {
      var items := exec["args"].items;
      if HasStrings(exec, "args", args) {
        assert Strings(items).Some? && Strings(items).value == args;
      }
    }
  }

  /** The login that is accepted, in terms of the user's members. */
  ghost predicate LogsInByAzureCLI(user: Members) {
    && user.Keys !! {"auth-provider", "client-certificate", "client-certificate-data", "client-key", "client-key-data",
                     "password", "token", "tokenFile", "username"}
    && "exec" in user && user["exec"].JObject?
    && var exec := user["exec"].members;
    && (HasString(exec, "command", "kubelogin") || HasString(exec, "command", "kubelogin.exe"))
    && ("env" in exec ==> exec["env"] == JNull || exec["env"] == JArray([]))
    && exists args :: HasStrings(exec, "args", args) && IsAzureCLILogin(args)
  }

  ghost predicate IsAzureCLILogin(args: seq<string>) {
    |args| > 0 && args[0] == "get-token" && !LacksValue(args[1..]) && OnlyMode(args[1..], "azurecli")
  }

  lemma LogsInExactly(args: seq<string>)
    ensures LogsIn(args) <==> IsAzureCLILogin(args)
  {
    if |args| > 0 {
      ModesExactly(args[1..], "azurecli");
    }
  }

  lemma ArgumentsExactly(exec: Members)
    ensures PluginArgs(exec).Some? && LogsIn(PluginArgs(exec).value) <==>
      exists args :: HasStrings(exec, "args", args) && IsAzureCLILogin(args)
  {
    if PluginArgs(exec).Some? && LogsIn(PluginArgs(exec).value) {
      ArgsAre(exec, PluginArgs(exec).value);
      LogsInExactly(PluginArgs(exec).value);
    }
    if args :| HasStrings(exec, "args", args) && IsAzureCLILogin(args) {
      ArgsAre(exec, args);
      LogsInExactly(args);
    }
  }

  lemma CommandExactly(exec: Members)
    ensures ("command" !in exec || RawString(exec, "command").Some?) && IsKubelogin(Text(exec, "command")) <==>
      HasString(exec, "command", "kubelogin") || HasString(exec, "command", "kubelogin.exe")
  {
    RawStringIs(exec, "command", "kubelogin");
    RawStringIs(exec, "command", "kubelogin.exe");
  }

  lemma LoginExactly(user: Members)
    ensures AzureLogin(user) <==> LogsInByAzureCLI(user)
  {
    if "exec" in user && user["exec"].JObject? {
      CommandExactly(user["exec"].members);
      ArgumentsExactly(user["exec"].members);
    }
  }

  method ValidateAzureCLIExec(user: Members) returns (ok: bool)
    ensures ok <==> AzureLogin(user)
    ensures ok <==> LogsInByAzureCLI(user)
  {
    LoginExactly(user);
    if !(user.Keys !! CREDENTIAL_FIELDS) { return false; }
    var plugin := DecodePlugin(user);
    if plugin.None? { return false; }
    if !IsKubelogin(plugin.value.command) { return false; }
    var args := plugin.value.args;
    if |args| == 0 || args[0] != "get-token" || plugin.value.env != 0 { return false; }
    var mode := LoginMode(args);
    return mode.Some? && mode.value == "azurecli";
  }

  // ------------------------------------------------- the session kubeconfig

  /** The entries an active context names. */
  datatype Parts = Parts(context: Entry, cluster: Entry, user: Entry)

  ghost predicate Resolves(document: Members, p: Parts) {
    && Finds(document, "contexts", Text(document, "current-context"), "context", p.context)
    && Finds(document, "clusters", Text(p.context.inner, "cluster"), "cluster", p.cluster)
    && Finds(document, "users", Text(p.context.inner, "user"), "user", p.user)
  }

  lemma ResolvesOne(document: Members, p: Parts, q: Parts)
    requires Resolves(document, p) && Resolves(document, q)
    ensures p == q
  {
    FindsOne(document, "contexts", Text(document, "current-context"), "context", p.context, q.context);
    FindsOne(document, "clusters", Text(p.context.inner, "cluster"), "cluster", p.cluster, q.cluster);
    FindsOne(document, "users", Text(p.context.inner, "user"), "user", p.user, q.user);
  }

  method Resolve(document: Members) returns (found: Option<Parts>)
    ensures found.Some? ==> Resolves(document, found.value)
    ensures found.None? ==> forall p :: !Resolves(document, p)
  {
    var context := NamedObject(document, "contexts", Text(document, "current-context"), "context");
    if context.None? { return None; }
    var names := context.value.inner;
    var cluster := NamedObject(document, "clusters", Text(names, "cluster"), "cluster");
    var user := NamedObject(document, "users", Text(names, "user"), "user");
    if cluster.None? || user.None? {
      forall p: Parts ensures !Resolves(document, p) {
        if Resolves(document, p) {
          FindsOne(document, "contexts", Text(document, "current-context"), "context", p.context, context.value);
        }
      }
      return None;
    }
    return Some(Parts(context.value, cluster.value, user.value));
  }

  predicate IsPort(port: int) {
    1 <= port <= 65535
  }

  /** An HTTPS URL of a host, with at most a port and a slash behind it. */
  predicate PlainHttps(u: Url) {
    && u.scheme == "https" && u.host != "" && (u.path == "" || u.path == "/")
    && !u.isOpaque && !u.hasUser && u.rawQuery == "" && !u.forceQuery && u.fragment == ""
  }

  predicate NamesPort(port: string) {
    Decimal.Atoi(port).Some? && IsPort(Decimal.Atoi(port).value)
  }

  lemma DefaultPort()
    ensures NamesPort("443") && !NamesPort("")
  {
    assert "443"[..2] == "44" && "44"[..1] == "4";
    assert Decimal.Value("4") == 4;
    assert Decimal.Value("44") == 44;
    assert Decimal.Value("443") == 443;
  }

  /** A plain HTTPS URL of a DNS name, whose port is a port number or left out
      together with its colon. */
  predicate NamesApi(u: Url, isIP: string -> bool) {
    && PlainHttps(u) && HostNames.ValidRemoteDNSName(HostNames.ToLower(u.hostname), isIP)
    && (NamesPort(u.port) || (u.port == "" && !HostNames.HasSuffix(u.host, ":")))
  }

  /** The remote API a server URL names. */
  function ApiTarget(server: string, parse: UrlParser, isIP: string -> bool): (target: Option<(string, string)>)
    ensures target.Some? <==> parse(server).Some? && NamesApi(parse(server).value, isIP)
    ensures target.Some? ==>
              var u := parse(server).value;
              && target.value.0 == HostNames.ToLower(u.hostname) && NamesPort(target.value.1)
              && target.value.1 == (if u.port == "" then "443" else u.port)
  {
    var parsed := parse(server);
    if parsed.None? then None
    else
      var u := parsed.value;
      if || u.scheme != "https" || u.isOpaque || u.hasUser || u.host == "" || (u.path != "" && u.path != "/")
         || u.rawQuery != "" || u.forceQuery || u.fragment != "" then None
      else
        var host := HostNames.ToLower(u.hostname);
        if !HostNames.ValidRemoteDNSName(host, isIP) then None
        else if u.port == "" && HostNames.HasSuffix(u.host, ":") then None
        else
          var port := if u.port == "" then "443" else u.port;
          DefaultPort();
          var number := Decimal.Atoi(port);
          if number.None? || !IsPort(number.value) then None else Some((host, port))
  }

  predicate HasTlsName(cluster: Members, isIP: string -> bool) {
    RawString(cluster, "tls-server-name").Some? && HostNames.ValidRemoteDNSName(Text(cluster, "tls-server-name"), isIP)
  }

  /** The member is a string, and not empty. */
  predicate HasText(m: Members, name: string) {
    name in m && m[name].JString? && m[name].text != ""
  }

  lemma TextIsThere(m: Members, name: string)
    ensures HasText(m, name) <==> Text(m, name) != ""
    ensures HasText(m, name) ==> m[name].text == Text(m, name)
  {
  }

  lemma NoNameNoDNS(isIP: string -> bool)
    ensures !HostNames.ValidRemoteDNSName("", isIP)
  {
  }

  ghost predicate NamesTls(m: Members, isIP: string -> bool) {
    HasText(m, "tls-server-name") && HostNames.ValidRemoteDNSName(m["tls-server-name"].text, isIP)
  }

  lemma TlsNameStays(m: Members, gone: string, isIP: string -> bool)
    requires gone != "tls-server-name"
    ensures HasTlsName(m, isIP) == HasTlsName(m - {gone}, isIP) == NamesTls(m, isIP)
  {
    TextIsThere(m, "tls-server-name");
    NoNameNoDNS(isIP);
  }

  /** The cluster can be reached through the session and keeps its identity. */
  predicate SecureCluster(cluster: Members, parse: UrlParser, isIP: string -> bool) {
    && RawString(cluster, "server").Some?
    && ApiTarget(Text(cluster, "server"), parse, isIP).Some?
    && HasText(cluster, "certificate-authority-data")
    && ("insecure-skip-tls-verify" in cluster ==>
          cluster["insecure-skip-tls-verify"] == JNull || cluster["insecure-skip-tls-verify"] == JBool(false))
    && ("tls-server-name" in cluster ==>
          HasText(cluster, "tls-server-name") && HostNames.ValidRemoteDNSName(cluster["tls-server-name"].text, isIP))
  }

  /** What transformKubeconfig accepts. */
  ghost predicate Transformable(document: Json, port: int, p: Parts, parse: UrlParser, isIP: string -> bool) {
    && 1 <= port <= 65535 && document.JObject?
    && HasText(document.members, "current-context")
    && Resolves(document.members, p)
    && HasText(p.context.inner, "cluster") && HasText(p.context.inner, "user")
    && AzureLogin(p.user.inner)
    && SecureCluster(p.cluster.inner, parse, isIP)
  }

  function Loopback(port: nat): string {
    "127.0.0.1:" + Decimal.Text(port)
  }

  /** An explicit TLS name stays; otherwise the API host becomes the TLS name. */
  function WithTlsName(cluster: Members, host: string): Members {
    if "tls-server-name" in cluster then cluster else cluster["tls-server-name" := JString(host)]
  }

  function LocalCluster(cluster: Members, host: string, port: nat): Members {
    WithTlsName(cluster, host)["server" := JString("https://" + Loopback(port))]
      - {"insecure-skip-tls-verify", "certificate-authority", "proxy-url"}
  }

  /** A document whose three sections hold just the given entries. */
  function WithParts(document: Members, p: Parts): Members {
    document["contexts" := Single(p.context.outer, "context", p.context.inner)]
            ["clusters" := Single(p.cluster.outer, "cluster", p.cluster.inner)]
            ["users" := Single(p.user.outer, "user", p.user.inner)]
  }

  function LocalParts(p: Parts, host: string, port: nat): Parts {
    p.(cluster := Entry(p.cluster.outer, LocalCluster(p.cluster.inner, host, port)))
  }

  /** Taking out a member first makes no difference for those set later. */
  lemma RemovedFirst(m: Members, gone: string, name: string, host: string, value: Json, gone1: string, gone2: string)
    requires gone !in {"tls-server-name", name}
    ensures WithTlsName(m - {gone}, host)[name := value] - {gone1} - {gone2}
         == WithTlsName(m, host)[name := value] - {gone, gone1, gone2}
  {
  }

  /** Checks the active cluster and points it at the local port. */
  method LocaliseCluster(original: Members, port: nat, parse: UrlParser, isIP: string -> bool)
    returns (result: Option<(Members, string, string)>)
    ensures result.Some? <==> SecureCluster(original, parse, isIP)
    ensures result.Some? ==>
              && ApiTarget(Text(original, "server"), parse, isIP) == Some((result.value.1, result.value.2))
              && result.value.0 == LocalCluster(original, result.value.1, port)
  {
    TextIsThere(original, "certificate-authority-data");
    TlsNameStays(original, "insecure-skip-tls-verify", isIP);
    var cluster := original;
    if RawString(cluster, "server").None? { return None; }
    var target := ApiTarget(Text(cluster, "server"), parse, isIP);
    if target.None? || Text(cluster, "certificate-authority-data") == "" { return None; }
    if "insecure-skip-tls-verify" in cluster {
      if cluster["insecure-skip-tls-verify"] !in {JNull, JBool(false)} { return None; }
      cluster := cluster - {"insecure-skip-tls-verify"};
    }
    assert cluster == original - {"insecure-skip-tls-verify"};
    if "tls-server-name" in cluster {
      if !HasTlsName(cluster, isIP) { return None; }
    } else {
      cluster := cluster["tls-server-name" := JString(target.value.0)];
    }
    cluster := cluster["server" := JString("https://" + Loopback(port))];
    cluster := cluster - {"certificate-authority"};
    cluster := cluster - {"proxy-url"};
    RemovedFirst(original, "insecure-skip-tls-verify", "server", target.value.0, JString("https://" + Loopback(port)),
                 "certificate-authority", "proxy-url");
    return Some((cluster, target.value.0, target.value.1));
  }

  method TransformKubeconfig(document: Json, port: int, parse: UrlParser, isIP: string -> bool)
    returns (result: Option<(Json, string, string)>, ghost p: Parts)
    ensures result.Some? ==>
              && Transformable(document, port, p, parse, isIP)
              && ApiTarget(Text(p.cluster.inner, "server"), parse, isIP) == Some((result.value.1, result.value.2))
              && result.value.0 == JObject(WithParts(document.members, LocalParts(p, result.value.1, port)))
    ensures result.None? ==> forall q :: !Transformable(document, port, q, parse, isIP)
  {
    var nothing := Entry(map[], map[]);
    p := Parts(nothing, nothing, nothing);
    forall m: Members, name { TextIsThere(m, name); }
    if !IsPort(port) || !document.JObject? { return None, p; }
    if Text(document.members, "current-context") == "" { return None, p; }
    var found := Resolve(document.members);
    if found.None? { return None, p; }
    p := found.value;
    var active := found.value;
    forall q | Resolves(document.members, q) ensures q == p {
      ResolvesOne(document.members, p, q);
    }
    if Text(active.context.inner, "cluster") == "" || Text(active.context.inner, "user") == "" { return None, p; }
    var login := ValidateAzureCLIExec(active.user.inner);
    if !login { return None, p; }
    var local := LocaliseCluster(active.cluster.inner, port, parse, isIP);
    if local.None? { return None, p; }
    active := active.(cluster := Entry(active.cluster.outer, local.value.0));
    return Some((JObject(WithParts(document.members, active)), local.value.1, local.value.2)), p;
  }

  // --------------------------------------------------- the published document

  /** What a publication is made for, and the environment it is made in. */
  datatype Setting = Setting(environment: string, id: string, target: string, proxyUrl: string,
                             path: string, azureConfigDir: string)

  predicate IsLoopback(u: Url) {
    u.scheme == "https" && u.hostname == "127.0.0.1" && u.port != "" && !u.hasUser && u.rawQuery == "" && u.fragment == ""
  }

  /** The session endpoint with its identity. */
  predicate SessionCluster(cluster: Members, parse: UrlParser, isIP: string -> bool) {
    && parse(Text(cluster, "server")).Some?
    && (var u := parse(Text(cluster, "server")).value;
        && u.scheme == "https" && u.hostname == "127.0.0.1" && u.port != ""
        && !u.hasUser && u.rawQuery == "" && u.fragment == "")
    && HasText(cluster, "tls-server-name") && HostNames.ValidRemoteDNSName(cluster["tls-server-name"].text, isIP)
    && HasText(cluster, "certificate-authority-data")
    && "certificate-authority" !in cluster
    && ("insecure-skip-tls-verify" in cluster ==>
          cluster["insecure-skip-tls-verify"] == JNull || cluster["insecure-skip-tls-verify"] == JBool(false))
  }

  /** What publicationKubeconfig accepts. */
  ghost predicate Publishable(document: Json, p: Parts, parse: UrlParser, isIP: string -> bool) {
    && document.JObject?
    && Resolves(document.members, p)
    && AzureLogin(p.user.inner)
    && SessionCluster(p.cluster.inner, parse, isIP)
  }

  function LabelOf(s: Setting): string {
    "bivrost/" + s.environment + "/" + s.id
  }

  function Variable(name: string, value: string): Json {
    JObject(map["name" := JString(name), "value" := JString(value)])
  }

  function Environment(s: Setting): Json {
    JArray([Variable("PATH", s.path)]
           + if s.azureConfigDir == "" then [] else [Variable("AZURE_CONFIG_DIR", s.azureConfigDir)])
  }

  function Relabelled(outer: Members, s: Setting): Members {
    outer["name" := JString(LabelOf(s))]
  }

  function PublishedContext(context: Members, s: Setting): Members {
    context["cluster" := JString(LabelOf(s))]["user" := JString(LabelOf(s))]
  }

  function PublishedCluster(cluster: Members, s: Setting): Members {
    (cluster - {"insecure-skip-tls-verify"})
      ["server" := JString("https://" + s.target)]["proxy-url" := JString(s.proxyUrl)]
  }

  function PublishedExec(exec: Members, s: Setting, kubelogin: string): Members {
    exec["command" := JString(kubelogin)]["env" := Environment(s)]
  }

  function PublishedUser(user: Members, s: Setting, kubelogin: string): Members
    requires AzureLogin(user)
  {
    user["exec" := JObject(PublishedExec(user["exec"].members, s, kubelogin))]
  }

  function PublishedParts(p: Parts, s: Setting, kubelogin: string): Parts
    requires AzureLogin(p.user.inner)
  {
    Parts(Entry(Relabelled(p.context.outer, s), PublishedContext(p.context.inner, s)),
          Entry(Relabelled(p.cluster.outer, s), PublishedCluster(p.cluster.inner, s)),
          Entry(Relabelled(p.user.outer, s), PublishedUser(p.user.inner, s, kubelogin)))
  }

  function Published(document: Members, p: Parts, s: Setting, kubelogin: string): Members
    requires AzureLogin(p.user.inner)
  {
    WithParts(document["current-context" := JString(LabelOf(s))], PublishedParts(p, s, kubelogin))
      ["bivrost-publication" := JNumber("1")]
  }

  method PublishCluster(original: Members, s: Setting, parse: UrlParser, isIP: string -> bool)
    returns (result: Option<(Members, string)>)
    ensures result.Some? <==> SessionCluster(original, parse, isIP)
    ensures result.Some? ==>
              && result.value.0 == PublishedCluster(original, s)
              && result.value.1 == parse(Text(original, "server")).value.host
  {
    TextIsThere(original, "certificate-authority-data");
    TlsNameStays(original, "insecure-skip-tls-verify", isIP);
    var cluster := original;
    var parsed := parse(Text(cluster, "server"));
    if parsed.None? || !IsLoopback(parsed.value) { return None; }
    if !HasTlsName(cluster, isIP) || Text(cluster, "certificate-authority-data") == "" { return None; }
    if "certificate-authority" in cluster { return None; }
    if "insecure-skip-tls-verify" in cluster {
      if cluster["insecure-skip-tls-verify"] !in {JNull, JBool(false)} { return None; }
      cluster := cluster - {"insecure-skip-tls-verify"};
    }
    assert cluster == original - {"insecure-skip-tls-verify"};
    cluster := cluster["server" := JString("https://" + s.target)];
    cluster := cluster["proxy-url" := JString(s.proxyUrl)];
    return Some((cluster, parsed.value.host));
  }

  /** The kubelogin found on PATH, as an absolute path, is the parameter
      `kubelogin`. */
  method PublicationKubeconfig(document: Json, s: Setting, kubelogin: Option<string>, parse: UrlParser,
                               isIP: string -> bool)
    returns (result: Option<(Json, string)>, ghost p: Parts)
    ensures result.Some? ==>
              && kubelogin.Some? && Publishable(document, p, parse, isIP)
              && result.value.0 == JObject(Published(document.members, p, s, kubelogin.value))
              && result.value.1 == parse(Text(p.cluster.inner, "server")).value.host
    ensures result.None? && kubelogin.Some? ==> forall q :: !Publishable(document, q, parse, isIP)
  {
    var nothing := Entry(map[], map[]);
    p := Parts(nothing, nothing, nothing);
    if !document.JObject? { return None, p; }
    var doc := document.members;
    var found := Resolve(doc);
    if found.None? { return None, p; }
    p := found.value;
    var active := found.value;
    forall q | Resolves(doc, q) ensures q == p {
      ResolvesOne(doc, p, q);
    }
    var login := ValidateAzureCLIExec(active.user.inner);
    if !login { return None, p; }
    var cluster := PublishCluster(active.cluster.inner, s, parse, isIP);
    if cluster.None? || kubelogin.None? { return None, p; }
    var plugin := PublishedExec(active.user.inner["exec"].members, s, kubelogin.value);
    var user := active.user.inner["exec" := JObject(plugin)];
    doc := doc["current-context" := JString(LabelOf(s))];
    doc := WithParts(doc, Parts(Entry(Relabelled(active.context.outer, s), PublishedContext(active.context.inner, s)),
                                Entry(Relabelled(active.cluster.outer, s), cluster.value.0),
                                Entry(Relabelled(active.user.outer, s), user)));
    doc := doc["bivrost-publication" := JNumber("1")];
    return Some((JObject(doc), cluster.value.1)), p;
  }

  // ------------------------------------------------------------- the pipeline

  lemma FoundName(m: Members, section: string, name: string, field: string, e: Entry)
    requires Finds(m, section, name, field, e)
    ensures RawString(e.outer, "name") == Some(name)
    ensures field in e.outer && e.outer[field] == JObject(e.inner)
  {
    var items := m[section].items;
    var i: nat :| Selects(items, name, field, i, e);
    assert HasString(items[i].members, "name", name);
  }

  function Refill(e: Entry, field: string): Entry {
    Entry(e.outer[field := JObject(e.inner)], e.inner)
  }

  /** What a reader of WithParts finds. */
  function Refilled(p: Parts): Parts {
    Parts(Refill(p.context, "context"), Refill(p.cluster, "cluster"), Refill(p.user, "user"))
  }

  lemma SingleIsFound(m: Members, section: string, e: Entry, field: string, name: string)
    requires section in m && m[section] == Single(e.outer, field, e.inner)
    requires field != "name" && RawString(e.outer, "name") == Some(name)
    ensures Finds(m, section, name, field, Refill(e, field))
  {
    var items := m[section].items;
    assert HasString(items[0].members, "name", name);
    assert Selects(items, name, field, 0, Refill(e, field));
  }

  /** The current context and the names in the entries fit together. */
  predicate Consistent(document: Members, p: Parts) {
    && RawString(p.context.outer, "name") == Some(Text(document, "current-context"))
    && RawString(p.cluster.outer, "name") == Some(Text(p.context.inner, "cluster"))
    && RawString(p.user.outer, "name") == Some(Text(p.context.inner, "user"))
  }

  ghost predicate Holds(m: Members, section: string, e: Entry, field: string) {
    section in m && m[section] == Single(e.outer, field, e.inner)
  }

  lemma SectionsOf(document: Members, p: Parts)
    ensures Holds(WithParts(document, p), "contexts", p.context, "context")
    ensures Holds(WithParts(document, p), "clusters", p.cluster, "cluster")
    ensures Holds(WithParts(document, p), "users", p.user, "user")
    ensures Text(WithParts(document, p), "current-context") == Text(document, "current-context")
  {
  }

  lemma PartsAreFound(m: Members, p: Parts)
    requires Holds(m, "contexts", p.context, "context")
    requires Holds(m, "clusters", p.cluster, "cluster")
    requires Holds(m, "users", p.user, "user")
    requires Consistent(m, p)
    ensures Resolves(m, Refilled(p))
  {
    SingleIsFound(m, "contexts", p.context, "context", Text(m, "current-context"));
    SingleIsFound(m, "clusters", p.cluster, "cluster", Text(p.context.inner, "cluster"));
    SingleIsFound(m, "users", p.user, "user", Text(p.context.inner, "user"));
  }

  lemma ResolvedAreConsistent(document: Members, p: Parts)
    requires Resolves(document, p)
    ensures Consistent(document, p)
  {
    FoundName(document, "contexts", Text(document, "current-context"), "context", p.context);
    FoundName(document, "clusters", Text(p.context.inner, "cluster"), "cluster", p.cluster);
    FoundName(document, "users", Text(p.context.inner, "user"), "user", p.user);
  }

  /** url.Parse on the one URL the session writes itself. */
  ghost predicate ReadsLoopback(parse: UrlParser) {
    forall port: nat :: IsPort(port) ==>
      parse("https://" + ("127.0.0.1:" + Decimal.Text(port)))
        == Some(Url("https", false, false, "127.0.0.1:" + Decimal.Text(port), "127.0.0.1", Decimal.Text(port),
                    "", "", false, ""))
  }

  lemma LocalServer(cluster: Members, host: string, port: nat)
    ensures Text(LocalCluster(cluster, host, port), "server") == "https://" + Loopback(port)
  {
    var local := LocalCluster(cluster, host, port);
    assert RawString(local, "server") == Some("https://" + Loopback(port));
  }

  /** The name the client verifies: the explicit one, else the API host. */
  lemma LocalTlsName(cluster: Members, host: string, port: nat)
    ensures var tlsName := RawString(LocalCluster(cluster, host, port), "tls-server-name");
            tlsName == if "tls-server-name" in cluster then RawString(cluster, "tls-server-name") else Some(host)
  {
  }

  lemma LocalAuthority(cluster: Members, host: string, port: nat)
    ensures var local := LocalCluster(cluster, host, port);
            && RawString(local, "certificate-authority-data") == RawString(cluster, "certificate-authority-data")
            && "certificate-authority" !in local && "insecure-skip-tls-verify" !in local && "proxy-url" !in local
  {
  }

  /** A localised cluster passes every check a publication makes of it. */
  lemma LocalClusterIsSession(cluster: Members, port: nat, parse: UrlParser, isIP: string -> bool)
    requires ReadsLoopback(parse) && IsPort(port) && SecureCluster(cluster, parse, isIP)
    ensures var host := ApiTarget(Text(cluster, "server"), parse, isIP).value.0;
            var local := LocalCluster(cluster, host, port);
            && SessionCluster(local, parse, isIP)
            && parse(Text(local, "server")).value.host == "127.0.0.1:" + Decimal.Text(port)
  {
    var host := ApiTarget(Text(cluster, "server"), parse, isIP).value.0;
    LocalServer(cluster, host, port);
    LocalTlsName(cluster, host, port);
    LocalAuthority(cluster, host, port);
  }

  /** Whatever the session accepts can be published, through the same local port. */
  lemma TransformedIsPublishable(document: Json, port: int, p: Parts, host: string, parse: UrlParser,
                                 isIP: string -> bool)
    requires ReadsLoopback(parse) && Transformable(document, port, p, parse, isIP)
    requires host == ApiTarget(Text(p.cluster.inner, "server"), parse, isIP).value.0
    ensures var written := WithParts(document.members, LocalParts(p, host, port));
            var q := Refilled(LocalParts(p, host, port));
            && Publishable(JObject(written), q, parse, isIP)
            && parse(Text(q.cluster.inner, "server")).value.host == "127.0.0.1:" + Decimal.Text(port)
  {
    var local := LocalParts(p, host, port);
    var written := WithParts(document.members, local);
    ResolvedAreConsistent(document.members, p);
    SectionsOf(document.members, local);
    PartsAreFound(written, local);
    LocalClusterIsSession(p.cluster.inner, port, parse, isIP);
  }

  /** Every section holds just the entry the document selects. */
  ghost predicate OneOfEach(m: Members, p: Parts) {
    && Resolves(m, p)
    && m["contexts"] == JArray([JObject(p.context.outer)])
    && m["clusters"] == JArray([JObject(p.cluster.outer)])
    && m["users"] == JArray([JObject(p.user.outer)])
  }

  lemma HeldAreOnlyOnes(m: Members, p: Parts)
    requires Holds(m, "contexts", p.context, "context")
    requires Holds(m, "clusters", p.cluster, "cluster")
    requires Holds(m, "users", p.user, "user")
    requires Consistent(m, p)
    ensures OneOfEach(m, Refilled(p))
  {
    PartsAreFound(m, p);
  }

  lemma WrittenHasOneOfEach(document: Members, p: Parts, host: string, port: nat)
    requires Resolves(document, p)
    ensures OneOfEach(WithParts(document, LocalParts(p, host, port)), Refilled(LocalParts(p, host, port)))
  {
    ResolvedAreConsistent(document, p);
    SectionsOf(document, LocalParts(p, host, port));
    HeldAreOnlyOnes(WithParts(document, LocalParts(p, host, port)), LocalParts(p, host, port));
  }

  lemma PublishedHolds(document: Members, p: Parts, s: Setting, kubelogin: string)
    requires AzureLogin(p.user.inner)
    ensures var published := Published(document, p, s, kubelogin);
            var q := PublishedParts(p, s, kubelogin);
            && Holds(published, "contexts", q.context, "context")
            && Holds(published, "clusters", q.cluster, "cluster")
            && Holds(published, "users", q.user, "user")
            && Text(published, "current-context") == LabelOf(s)
  {
    var labelled := document["current-context" := JString(LabelOf(s))];
    assert Text(labelled, "current-context") == LabelOf(s);
    SectionsOf(labelled, PublishedParts(p, s, kubelogin));
  }

  /** A published document selects its three entries by the publication's own name. */
  lemma PublishedHasOneOfEach(document: Members, p: Parts, s: Setting, kubelogin: string)
    requires AzureLogin(p.user.inner)
    ensures OneOfEach(Published(document, p, s, kubelogin), Refilled(PublishedParts(p, s, kubelogin)))
    ensures Text(Published(document, p, s, kubelogin), "current-context") == "bivrost/" + s.environment + "/" + s.id
    ensures Published(document, p, s, kubelogin)["bivrost-publication"] == JNumber("1")
  {
    var q := PublishedParts(p, s, kubelogin);
    PublishedHolds(document, p, s, kubelogin);
    assert RawString(q.context.outer, "name") == Some(LabelOf(s));
    assert RawString(q.cluster.outer, "name") == Some(LabelOf(s));
    assert RawString(q.user.outer, "name") == Some(LabelOf(s));
    assert Text(q.context.inner, "cluster") == LabelOf(s);
    assert Text(q.context.inner, "user") == LabelOf(s);
    HeldAreOnlyOnes(Published(document, p, s, kubelogin), q);
  }

  /** Publishing an accepted cluster keeps its identity and trust, and reaches
      it only by the gateway. */
  lemma PublishedClusterKeepsIdentity(cluster: Members, s: Setting, parse: UrlParser, isIP: string -> bool)
    requires SessionCluster(cluster, parse, isIP)
    ensures var published := PublishedCluster(cluster, s);
            && Text(published, "tls-server-name") == Text(cluster, "tls-server-name")
            && Text(published, "certificate-authority-data") == Text(cluster, "certificate-authority-data")
            && "insecure-skip-tls-verify" !in published && "certificate-authority" !in published
            && Text(published, "server") == "https://" + s.target && Text(published, "proxy-url") == s.proxyUrl
  {
    var published := PublishedCluster(cluster, s);
    assert RawString(published, "tls-server-name") == RawString(cluster, "tls-server-name");
    assert RawString(published, "certificate-authority-data") == RawString(cluster, "certificate-authority-data");
    assert RawString(published, "server") == Some("https://" + s.target);
  }

  /** From the generated kubeconfig to the published one: the server the
      client verifies, and the authority it verifies it by, are the original ones. */
  lemma IdentitySurvivesBoth(document: Members, p: Parts, port: nat, s: Setting, kubelogin: string,
                             parse: UrlParser, isIP: string -> bool)
    requires ReadsLoopback(parse) && IsPort(port)
    requires AzureLogin(p.user.inner) && SecureCluster(p.cluster.inner, parse, isIP)
    ensures var original := p.cluster.inner;
            var host := ApiTarget(Text(original, "server"), parse, isIP).value.0;
            var local := Refilled(LocalParts(p, host, port));
            var q := PublishedParts(local, s, kubelogin);
            && OneOfEach(Published(WithParts(document, LocalParts(p, host, port)), local, s, kubelogin), Refilled(q))
            && Text(q.cluster.inner, "tls-server-name")
                 == (if "tls-server-name" in original then Text(original, "tls-server-name") else host)
            && Text(q.cluster.inner, "certificate-authority-data") == Text(original, "certificate-authority-data")
            && "insecure-skip-tls-verify" !in q.cluster.inner && "certificate-authority" !in q.cluster.inner
  {
    var host := ApiTarget(Text(p.cluster.inner, "server"), parse, isIP).value.0;
    var local := Refilled(LocalParts(p, host, port));
    PublishedHasOneOfEach(WithParts(document, LocalParts(p, host, port)), local, s, kubelogin);
    LocalClusterIsSession(p.cluster.inner, port, parse, isIP);
    LocalTlsName(p.cluster.inner, host, port);
    LocalAuthority(p.cluster.inner, host, port);
    PublishedClusterKeepsIdentity(local.cluster.inner, s, parse, isIP);
  }

  /** The published user still logs in through the local Azure CLI: same
      arguments, no other credential, only the executable and its variables set. */
  lemma PublishedUserKeepsLogin(user: Members, s: Setting, kubelogin: string)
    requires AzureLogin(user)
    ensures var published := PublishedUser(user, s, kubelogin);
            && published.Keys == user.Keys && published.Keys !! CREDENTIAL_FIELDS
            && DecodePlugin(published).Some?
            && DecodePlugin(published).value.command == kubelogin
            && DecodePlugin(published).value.args == DecodePlugin(user).value.args
            && OnlyAzureCLI(Modes(DecodePlugin(published).value.args[1..]))
            && published["exec"].JObject? && "env" in published["exec"].members
            && published["exec"].members["env"] == JArray(
                 [JObject(map["name" := JString("PATH"), "value" := JString(s.path)])]
                 + if s.azureConfigDir == "" then []
                   else [JObject(map["name" := JString("AZURE_CONFIG_DIR"), "value" := JString(s.azureConfigDir)])])
  {
    var published := PublishedUser(user, s, kubelogin);
    var exec := user["exec"].members;
    var changed := PublishedExec(exec, s, kubelogin);
    assert published["exec"] == JObject(changed);
    VariablesAreReadable(s);
    assert changed["env"] == Environment(s);
    assert PluginArgs(changed) == PluginArgs(exec);
    assert RawString(changed, "command") == Some(kubelogin);
  }

  lemma VariablesAreReadable(s: Setting)
    ensures forall i :: 0 <= i < |Environment(s).items| ==> IsVariable(Environment(s).items[i])
  {
    VariableIsReadable("PATH", s.path);
    VariableIsReadable("AZURE_CONFIG_DIR", s.azureConfigDir);
  }

  lemma VariableIsReadable(name: string, value: string)
    ensures IsVariable(Variable(name, value))
  {
  }

  // -------------------------------------------------------- what stays as it was

  const SECTIONS: set<string> := {"contexts", "clusters", "users"}
  const REDIRECTED: set<string> :=
    {"server", "tls-server-name", "insecure-skip-tls-verify", "certificate-authority", "proxy-url"}

  /** Outside `names`, two objects have the same members. */
  predicate SameBut(m: Members, n: Members, names: set<string>) {
    m - names == n - names
  }

  /** The first stage changes nothing else. */
  lemma OtherMembersStay(document: Members, p: Parts, host: string, port: nat)
    requires Resolves(document, p)
    ensures var local := Refilled(LocalParts(p, host, port));
            && SameBut(WithParts(document, LocalParts(p, host, port)), document, SECTIONS)
            && local.context == p.context && local.user == p.user
            && SameBut(local.cluster.outer, p.cluster.outer, {"cluster"})
            && SameBut(local.cluster.inner, p.cluster.inner, REDIRECTED)
  {
    FoundName(document, "contexts", Text(document, "current-context"), "context", p.context);
    FoundName(document, "users", Text(p.context.inner, "user"), "user", p.user);
    SectionsSet(document, LocalParts(p, host, port));
    ClusterStays(p.cluster.inner, host, port);
  }

  /** Nor does the second change anything but the names, the way to the
      cluster, and the executable and variables of the login. */
  lemma PublishingStays(document: Members, p: Parts, s: Setting, kubelogin: string)
    requires AzureLogin(p.user.inner)
    ensures var q := PublishedParts(p, s, kubelogin);
            && SameBut(Published(document, p, s, kubelogin), document, SECTIONS + {"current-context", "bivrost-publication"})
            && SameBut(q.context.inner, p.context.inner, {"cluster", "user"})
            && SameBut(q.cluster.inner, p.cluster.inner, {"server", "proxy-url", "insecure-skip-tls-verify"})
            && SameBut(q.user.inner, p.user.inner, {"exec"})
            && SameBut(q.user.inner["exec"].members, p.user.inner["exec"].members, {"command", "env"})
  {
    var marked := SECTIONS + {"current-context", "bivrost-publication"};
    var labelled := document["current-context" := JString(LabelOf(s))];
    var q := PublishedParts(p, s, kubelogin);
    SetWithin(document, "current-context", JString(LabelOf(s)), marked);
    SectionsSet(labelled, q);
    SetWithin(WithParts(labelled, q), "bivrost-publication", JNumber("1"), marked);
    SameButMore(WithParts(labelled, q), labelled, SECTIONS, marked);
    TwoSet(p.context.inner, "cluster", JString(LabelOf(s)), "user", JString(LabelOf(s)));
    PublishedClusterStays(p.cluster.inner, s);
    TwoSet(p.user.inner["exec"].members, "command", JString(kubelogin), "env", Environment(s));
  }

  lemma SameButMore(m: Members, n: Members, few: set<string>, many: set<string>)
    requires SameBut(m, n, few) && few <= many
    ensures SameBut(m, n, many)
  {
    assert m - many == (m - few) - many && n - many == (n - few) - many;
  }

  lemma TwoSet(m: Members, name1: string, value1: Json, name2: string, value2: Json)
    ensures SameBut(m[name1 := value1][name2 := value2], m, {name1, name2})
  {
  }

  lemma PublishedClusterStays(cluster: Members, s: Setting)
    ensures SameBut(PublishedCluster(cluster, s), cluster, {"server", "proxy-url", "insecure-skip-tls-verify"})
  {
    TwoSet(cluster - {"insecure-skip-tls-verify"}, "server", JString("https://" + s.target), "proxy-url", JString(s.proxyUrl));
  }

  lemma SectionsSet(document: Members, p: Parts)
    ensures SameBut(WithParts(document, p), document, SECTIONS)
  {
  }

  lemma SetWithin(m: Members, name: string, value: Json, names: set<string>)
    requires name in names
    ensures SameBut(m[name := value], m, names)
  {
  }

  lemma RemovedWithin(m: Members, gone: set<string>, names: set<string>)
    requires gone <= names
    ensures SameBut(m - gone, m, names)
  {
  }

  lemma ClusterStays(cluster: Members, host: string, port: nat)
    ensures SameBut(LocalCluster(cluster, host, port), cluster, REDIRECTED)
  {
    var named := WithTlsName(cluster, host);
    var served := named["server" := JString("https://" + Loopback(port))];
    SetWithin(cluster, "tls-server-name", JString(host), REDIRECTED);
    SetWithin(named, "server", JString("https://" + Loopback(port)), REDIRECTED);
    RemovedWithin(served, {"insecure-skip-tls-verify", "certificate-authority", "proxy-url"}, REDIRECTED);
  }
}
