/** Host names: what the proxy accepts and tunnels (internal/proxy/proxy.go)
    and what profiles may route (internal/config/profile.go, heimdal.go).

    Names are ASCII strings.  Whether a name is an address literal is decided
    by net.ParseIP, here the parameter `isIP`. */
module HostNames {
  import opened Wrappers

  predicate Contains(s: string, c: char) {
    c in s
  }

  predicate HasPrefix(s: string, prefix: string) {
    |prefix| <= |s| && s[..|prefix|] == prefix
  }

  predicate HasSuffix(s: string, suffix: string) {
    |suffix| <= |s| && s[|s| - |suffix|..] == suffix
  }

  function TrimPrefix(s: string, prefix: string): string {
    if HasPrefix(s, prefix) then s[|prefix|..] else s
  }

  function TrimSuffix(s: string, suffix: string): string {
    if HasSuffix(s, suffix) then s[..|s| - |suffix|] else s
  }

  function LowerChar(c: char): char {
    if 'A' <= c <= 'Z' then (c as int + 32) as char else c
  }

  function ToLower(s: string): (r: string)
    ensures |r| == |s|
    ensures forall i :: 0 <= i < |s| ==> r[i] == LowerChar(s[i])
  {
    seq(|s|, i requires 0 <= i < |s| => LowerChar(s[i]))
  }

  // ------------------------------------------------------------------ labels

  /** The position of the first dot, or the length of the name. */
  function FirstDot(s: string): (i: nat)
    ensures i <= |s|
    ensures '.' !in s[..i]
    ensures i < |s| ==> s[i] == '.'
  {
    if |s| == 0 then 0
    else if s[0] == '.' then 0
    else
      var i := FirstDot(s[1..]);
      assert s[..i + 1] == [s[0]] + s[1..][..i];
      i + 1
  }

  /** strings.Split(name, ".") */
  function Labels(s: string): (labels: seq<string>)
    ensures |labels| >= 1
    ensures forall i :: 0 <= i < |labels| ==> '.' !in labels[i]
    decreases |s|
  {
    var i := FirstDot(s);
    if i == |s| then assert s[..i] == s; [s] else [s[..i]] + Labels(s[i + 1..])
  }

  function Join(labels: seq<string>): string
    requires |labels| >= 1
  {
    if |labels| == 1 then labels[0] else labels[0] + "." + Join(labels[1..])
  }

  lemma {:induction false} FirstDotAt(a: string, b: string)
    requires '.' !in a
    ensures FirstDot(a + "." + b) == |a|
  {
    if |a| > 0 {
      assert (a + "." + b)[1..] == a[1..] + "." + b;
      FirstDotAt(a[1..], b);
    }
  }

  lemma FirstDotNone(a: string)
    requires '.' !in a
    ensures FirstDot(a) == |a|
  {
  }

  lemma LabelsOfCons(a: string, b: string)
    requires '.' !in a
    ensures Labels(a + "." + b) == [a] + Labels(b)
  {
    FirstDotAt(a, b);
    assert (a + "." + b)[..|a|] == a;
    assert (a + "." + b)[|a| + 1..] == b;
  }

  lemma JoinOfCons(first: string, rest: seq<string>)
    requires |rest| >= 1
    ensures Join([first] + rest) == first + "." + Join(rest)
  {
    assert ([first] + rest)[1..] == rest;
  }

  lemma {:induction false} JoinOfLabels(s: string)
    ensures Join(Labels(s)) == s
    decreases |s|
  {
    var i := FirstDot(s);
    if i < |s| {
      JoinOfLabels(s[i + 1..]);
      JoinOfCons(s[..i], Labels(s[i + 1..]));
      assert s == s[..i] + "." + s[i + 1..];
    }
  }

  lemma Associates<T>(a: seq<T>, b: seq<T>, c: seq<T>)
    ensures a + (b + c) == a + b + c
  {
  }

  lemma DotAssociates(a: string, b: string, c: string)
    ensures a + "." + (b + "." + c) == a + "." + b + "." + c
  {
    Associates(a + ".", b + ".", c);
    Associates(a + ".", b, ".");
  }

  /** Cutting a name at a dot cuts its label list. */
  lemma {:induction false} LabelsOfConcat(a: string, b: string)
    ensures Labels(a + "." + b) == Labels(a) + Labels(b)
    decreases |a|
  {
    var i := FirstDot(a);
    if i == |a| {
      assert a[..i] == a;
      LabelsOfCons(a, b);
    } else {
      var x, y := a[..i], a[i + 1..];
      assert a == x + "." + y;
      LabelsOfCons(x, y);
      LabelsOfConcat(y, b);
      DotAssociates(x, y, b);
      LabelsOfCons(x, y + "." + b);
      Associates([x], Labels(y), Labels(b));
    }
  }

  lemma {:induction false} JoinOfConcat(front: seq<string>, back: seq<string>)
    requires |front| >= 1 && |back| >= 1
    ensures Join(front + back) == Join(front) + "." + Join(back)
  {
    if |front| == 1 {
      assert (front + back)[1..] == back;
    } else {
      assert (front + back)[1..] == front[1..] + back;
      JoinOfConcat(front[1..], back);
    }
  }

  lemma SameLabelsSameName(s: string, t: string)
    requires Labels(s) == Labels(t)
    ensures s == t
  {
    JoinOfLabels(s);
    JoinOfLabels(t);
  }

  /** `name` or a name below it, at a label boundary. */
  predicate AtOrBelow(host: string, name: string) {
    host == name || HasSuffix(host, "." + name)
  }

  predicate LabelSuffix(labels: seq<string>, suffix: seq<string>) {
    |suffix| <= |labels| && labels[|labels| - |suffix|..] == suffix
  }

  lemma BelowHasLabelSuffix(host: string, name: string)
    requires HasSuffix(host, "." + name)
    ensures LabelSuffix(Labels(host), Labels(name))
  {
    var front := host[..|host| - |name| - 1];
    assert host == front + ("." + name);
    Associates(front, ".", name);
    LabelsOfConcat(front, name);
  }

  lemma LabelSuffixIsBelow(host: string, name: string)
    requires LabelSuffix(Labels(host), Labels(name))
    ensures AtOrBelow(host, name)
  {
    var front := Labels(host)[..|Labels(host)| - |Labels(name)|];
    assert Labels(host) == front + Labels(name);
    JoinOfLabels(host);
    JoinOfLabels(name);
    if |front| >= 1 {
      JoinOfConcat(front, Labels(name));
      Associates(Join(front), ".", name);
      assert host[|Join(front)|..] == "." + name;
    }
  }

  /** The string test agrees with the tree of domain names. */
  lemma AtOrBelowIsLabelSuffix(host: string, name: string)
    ensures AtOrBelow(host, name) <==> LabelSuffix(Labels(host), Labels(name))
  {
    if HasSuffix(host, "." + name) {
      BelowHasLabelSuffix(host, name);
    }
    if LabelSuffix(Labels(host), Labels(name)) {
      LabelSuffixIsBelow(host, name);
    }
  }

  // --------------------------------------------------------- valid host names

  predicate AsciiAlphaNumeric(c: char) {
    'a' <= c <= 'z' || 'A' <= c <= 'Z' || '0' <= c <= '9'
  }

  predicate ValidLabel(part: string) {
    && 0 < |part| <= 63
    && AsciiAlphaNumeric(part[0]) && AsciiAlphaNumeric(part[|part| - 1])
    && forall i :: 1 <= i < |part| - 1 ==> AsciiAlphaNumeric(part[i]) || part[i] == '-'
  }

  predicate ValidDNSName(host: string) {
    && host != "" && |host| <= 253
    && forall i :: 0 <= i < |Labels(host)| ==> ValidLabel(Labels(host)[i])
  }

  predicate ForbiddenTargetName(host: string, isIP: string -> bool) {
    isIP(host) || host == "localhost" || HasSuffix(host, ".localhost")
  }

  predicate ValidRemoteDNSName(host: string, isIP: string -> bool) {
    && host == ToLower(host) && Contains(host, '.') && !HasSuffix(host, ".")
    && ValidDNSName(host) && !ForbiddenTargetName(host, isIP)
  }

  // ----------------------------------------------------- routing normal form

  /** The rewriting of connectTarget and isRegistryHost. */
  function Normalise(host: string): string {
    ToLower(TrimSuffix(host, "."))
  }

  /** connectTarget, after the authority has been split at its last colon. */
  function ConnectTarget(host: string, port: string, isIP: string -> bool): Option<(string, string)> {
    if host == "" || port == "" || Reserved(host) || Reserved(port) then None
    else
      var normal := Normalise(host);
      if ValidDNSName(normal) || isIP(normal) then Some((normal, port)) else None
  }

  /** strings.ContainsAny(authority, "/?#@") */
  predicate Reserved(s: string) {
    '/' in s || '?' in s || '#' in s || '@' in s
  }

  lemma ToLowerTwice(s: string)
    ensures ToLower(ToLower(s)) == ToLower(s)
  {
  }

  lemma DotSuffix(s: string)
    ensures HasSuffix(s, ".") <==> |s| >= 1 && s[|s| - 1] == '.'
    ensures HasSuffix(s, "..") <==> |s| >= 2 && s[|s| - 1] == '.' && s[|s| - 2] == '.'
  {
    if |s| >= 1 {
      assert s[|s| - 1..] == [s[|s| - 1]];
    }
    if |s| >= 2 {
      assert s[|s| - 2..] == [s[|s| - 2], s[|s| - 1]];
    }
  }

  /** Normalising twice makes a difference exactly for names that end in two dots. */
  lemma NormaliseTwice(host: string)
    ensures Normalise(Normalise(host)) == Normalise(host) <==> !HasSuffix(host, "..")
  {
    var once := Normalise(host);
    DotSuffix(host);
    DotSuffix(once);
    assert HasSuffix(once, ".") <==> HasSuffix(host, "..");
    ToLowerTwice(TrimSuffix(host, "."));
  }

  lemma {:induction false} LastLabel(host: string)
    requires HasSuffix(host, ".")
    ensures Labels(host)[|Labels(host)| - 1] == ""
  {
    var front := host[..|host| - 1];
    assert host == front + "." + "";
    LabelsOfConcat(front, "");
  }

  lemma LowerKeepsReserved(s: string)
    requires !Reserved(s)
    ensures !Reserved(Normalise(s))
  {
    var t := TrimSuffix(s, ".");
    forall i | 0 <= i < |t| ensures LowerChar(t[i]) !in "/?#@" {
      assert t[i] in s;
    }
  }

  /** No address literal is empty or ends in a dot. */
  ghost predicate ProperLiterals(isIP: string -> bool) {
    forall literal :: isIP(literal) ==> literal != "" && !HasSuffix(literal, ".")
  }

  /** Every accepted target is in normal form: accepting it again changes
      nothing. */
  lemma ConnectTargetIdempotent(host: string, port: string, isIP: string -> bool)
    requires ProperLiterals(isIP)
    requires ConnectTarget(host, port, isIP).Some?
    ensures
      var (normal, _) := ConnectTarget(host, port, isIP).value;
      ConnectTarget(normal, port, isIP) == Some((normal, port))
  {
    var normal := Normalise(host);
    if HasSuffix(normal, ".") && ValidDNSName(normal) {
      LastLabel(normal);
      assert false;
    }
    assert !HasSuffix(normal, ".");
    ToLowerTwice(TrimSuffix(host, "."));
    LowerKeepsReserved(host);
  }

  // ------------------------------------------------------------ registry host

  /** isRegistryHost of a router configured for `registry`. */
  predicate IsRegistryHost(registry: string, host: string) {
    var name := Normalise(host);
    var own := Normalise(registry);
    if !ValidDNSName(own) || Contains(own, '.') then false
    else if name == own + ".azurecr.io" then true
    else if !HasPrefix(name, own + ".") || !HasSuffix(name, ".data.azurecr.io") then false
    else
      var region := TrimSuffix(TrimPrefix(name, own + "."), ".data.azurecr.io");
      !Contains(region, '.') && ValidDNSName(region)
  }

  lemma LabelsOfWord(a: string)
    requires '.' !in a
    ensures Labels(a) == [a]
  {
    FirstDotNone(a);
    assert a[..|a|] == a;
  }

  lemma ZoneSpelling()
    ensures ".azurecr.io" == "." + ("azurecr" + "." + "io")
  {
  }

  lemma DataZoneSpelling()
    ensures ".data.azurecr.io" == "." + ("data" + ".azurecr.io")
  {
  }

  lemma LabelsOfThree(a: string, b: string, c: string)
    requires '.' !in a && '.' !in b && '.' !in c
    ensures Labels(a + "." + (b + "." + c)) == [a, b, c]
  {
    LabelsOfWord(c);
    LabelsOfCons(b, c);
    LabelsOfCons(a, b + "." + c);
  }

  /** `tail` stands for "azurecr.io" with its dot in front. */
  lemma LabelsOfGlobalName(own: string, tail: string)
    requires '.' !in own && tail == ".azurecr.io"
    ensures Labels(own + tail) == [own, "azurecr", "io"]
  {
    ZoneSpelling();
    LabelsOfThree(own, "azurecr", "io");
    Associates(own, ".", "azurecr" + "." + "io");
  }

  lemma LabelsOfTwoAbove(own: string, region: string, zone: string)
    requires '.' !in own && '.' !in region
    ensures Labels(own + "." + region + ("." + zone)) == [own, region] + Labels(zone)
  {
    LabelsOfWord(region);
    LabelsOfCons(own, region);
    Associates(own + "." + region, ".", zone);
    LabelsOfConcat(own + "." + region, zone);
    assert [own] + [region] == [own, region];
  }

  lemma LabelsOfRegionalName(own: string, region: string, data: string, tail: string)
    requires '.' !in own && '.' !in region && data == "data" && tail == ".azurecr.io"
    ensures Labels(own + "." + region + ("." + (data + tail))) == [own, region] + [data, "azurecr", "io"]
  {
    LabelsOfGlobalName(data, tail);
    LabelsOfTwoAbove(own, region, data + tail);
  }

  /** The grammar of registry hosts as label lists. */
  ghost predicate RegistryLabels(own: string, labels: seq<string>) {
    || labels == [own, "azurecr", "io"]
    || (|labels| == 5 && ValidLabel(labels[1]) && labels == [own, labels[1], "data", "azurecr", "io"])
  }

  /** isRegistryHost accepts exactly those names, whether or not the prefix
      and the suffix it looks for overlap in them. */
  lemma RegistryHostGrammar(registry: string, host: string)
    ensures IsRegistryHost(registry, host) <==>
      && ValidDNSName(Normalise(registry)) && '.' !in Normalise(registry)
      && RegistryLabels(Normalise(registry), Labels(Normalise(host)))
  {
    var name, own := Normalise(host), Normalise(registry);
    if IsRegistryHost(registry, host) {
      AcceptedIsRegistryName(own, name);
    }
    if '.' !in own && RegistryLabels(own, Labels(name)) {
      RegistryNameIsAccepted(own, name);
    }
  }

  /** The tests of isRegistryHost, on normal forms. */
  predicate Accepts(own: string, name: string) {
    name == own + ".azurecr.io" ||
    (HasPrefix(name, own + ".") && HasSuffix(name, ".data.azurecr.io") &&
     var region := TrimSuffix(TrimPrefix(name, own + "."), ".data.azurecr.io");
     !Contains(region, '.') && ValidDNSName(region))
  }

  lemma AcceptedIsRegistryName(own: string, name: string)
    requires '.' !in own && Accepts(own, name)
    ensures RegistryLabels(own, Labels(name))
  {
    if name == own + ".azurecr.io" {
      LabelsOfGlobalName(own, ".azurecr.io");
    } else {
      RegionalNameParts(own, name);
      var region := TrimSuffix(TrimPrefix(name, own + "."), ".data.azurecr.io");
      DataZoneSpelling();
      LabelsOfRegionalName(own, region, "data", ".azurecr.io");
      WordIsLabel(region);
    }
  }

  lemma WordIsLabel(region: string)
    requires '.' !in region
    ensures ValidDNSName(region) <==> ValidLabel(region)
  {
    LabelsOfWord(region);
    assert Labels(region)[0] == region;
  }

  lemma RegistryNameIsAccepted(own: string, name: string)
    requires '.' !in own && RegistryLabels(own, Labels(name))
    ensures Accepts(own, name)
  {
    var labels := Labels(name);
    if |labels| == 3 {
      LabelsOfGlobalName(own, ".azurecr.io");
      SameLabelsSameName(name, own + ".azurecr.io");
    } else {
      DataZoneSpelling();
      LabelsOfRegionalName(own, labels[1], "data", ".azurecr.io");
      SameLabelsSameName(name, own + "." + labels[1] + ".data.azurecr.io");
      WordIsLabel(labels[1]);
      RegionCutOut(own, labels[1]);
    }
  }

  /** A name that the last test accepts is prefix, region and suffix in full:
      where the two overlap, a dot is left in the region. */
  lemma RegionalNameParts(own: string, name: string)
    requires '.' !in own && HasPrefix(name, own + ".") && HasSuffix(name, ".data.azurecr.io")
    requires !Contains(TrimSuffix(TrimPrefix(name, own + "."), ".data.azurecr.io"), '.')
    ensures name == own + "." + TrimSuffix(TrimPrefix(name, own + "."), ".data.azurecr.io") + ".data.azurecr.io"
  {
    var rest := TrimPrefix(name, own + ".");
    assert name == own + "." + rest;
    var k := |name| - |".data.azurecr.io"|;
    assert name[k..][0] == '.' && name[k..][5] == '.';
    assert forall j :: 0 <= j < |own| ==> name[j] == own[j];
    assert k >= |own|;
    assert rest[k + 5 - |own| - 1] == '.';
    assert HasSuffix(rest, ".data.azurecr.io");
  }

  lemma RegionCutOut(own: string, region: string)
    ensures
      var name := own + "." + region + ".data.azurecr.io";
      && HasPrefix(name, own + ".") && HasSuffix(name, ".data.azurecr.io")
      && TrimSuffix(TrimPrefix(name, own + "."), ".data.azurecr.io") == region
  {
    var name := own + "." + region + ".data.azurecr.io";
    assert name == (own + ".") + (region + ".data.azurecr.io");
    assert name[|own| + 1..] == region + ".data.azurecr.io";
    assert name == (own + "." + region) + ".data.azurecr.io";
    assert name[|own + "." + region|..] == ".data.azurecr.io";
    assert (region + ".data.azurecr.io")[|region|..] == ".data.azurecr.io";
  }

  /** isTunnelHost */
  predicate IsTunnelHost(registry: string, privateHosts: seq<string>, host: string) {
    IsRegistryHost(registry, host) || host in privateHosts
  }

  // ------------------------------------------------------------ private routes

  /** Microsoft sign-in, management and Graph endpoints. */
  const PUBLIC_CONTROL_PLANE_HOSTS: set<string> := {
    "login.microsoftonline.com", "login.microsoft.com", "login.windows.net", "login.microsoftonline.us",
    "login.chinacloudapi.cn", "login.partner.microsoftonline.cn", "management.azure.com",
    "management.core.windows.net", "management.usgovcloudapi.net", "management.core.usgovcloudapi.net",
    "management.chinacloudapi.cn", "management.core.chinacloudapi.cn", "graph.microsoft.com",
    "graph.microsoft.us", "dod-graph.microsoft.us", "microsoftgraph.chinacloudapi.cn",
    "graph.chinacloudapi.cn", "graph.windows.net", "graph.microsoftazure.us"
  }

  /** The name, or a name above it, is in `names`. */
  ghost predicate UnderAny(host: string, names: set<string>) {
    exists name :: name in names && AtOrBelow(host, name)
  }

  /** publicControlPlaneHost: the loop that cuts the name at its first dot
      finds exactly the names at or below a listed one. */
  method PublicControlPlaneHost(host: string, names: set<string>) returns (found: bool)
    ensures found <==> UnderAny(host, names)
  {
    var name := host;
    while true
      invariant UnderAny(host, names) <==> UnderAny(name, names)
      decreases |name|
    {
      if name in names {
        assert AtOrBelow(name, name);
        return true;
      }
      var i := FirstDot(name);
      CutAtDot(name, names);
      if i == |name| {
        return false;
      }
      name := name[i + 1..];
    }
  }

  /** A name that is not listed is below a listed one iff its parent is at or
      below one. */
  lemma CutAtDot(name: string, names: set<string>)
    requires name !in names
    ensures FirstDot(name) == |name| ==> !UnderAny(name, names)
    ensures FirstDot(name) < |name| ==> (UnderAny(name, names) <==> UnderAny(name[FirstDot(name) + 1..], names))
  {
    var i := FirstDot(name);
    forall above | above in names
      ensures i == |name| ==> !AtOrBelow(name, above)
      ensures i < |name| ==> (AtOrBelow(name, above) <==> AtOrBelow(name[i + 1..], above))
    {
      BelowParent(name, above);
    }
    if i < |name| && UnderAny(name[i + 1..], names) {
      var above :| above in names && AtOrBelow(name[i + 1..], above);
      assert AtOrBelow(name, above);
    }
  }

  lemma BelowParent(name: string, above: string)
    requires name != above
    ensures FirstDot(name) == |name| ==> !AtOrBelow(name, above)
    ensures FirstDot(name) < |name| ==> (AtOrBelow(name, above) <==> AtOrBelow(name[FirstDot(name) + 1..], above))
  {
    AtOrBelowIsLabelSuffix(name, above);
    var i := FirstDot(name);
    if i < |name| {
      var parent := name[i + 1..];
      AtOrBelowIsLabelSuffix(parent, above);
      assert Labels(name)[1..] == Labels(parent);
      OtherNameOtherLabels(name, above);
      SuffixOfTail(Labels(name), Labels(above));
    } else {
      assert name[..i] == name;
      assert |Labels(name)| == 1;
      OtherNameOtherLabels(name, above);
    }
  }

  lemma OtherNameOtherLabels(s: string, t: string)
    requires s != t
    ensures Labels(s) != Labels(t)
  {
    JoinOfLabels(s);
    JoinOfLabels(t);
  }

  lemma SuffixOfTail(labels: seq<string>, suffix: seq<string>)
    requires |labels| >= 1 && labels != suffix
    ensures LabelSuffix(labels, suffix) <==> LabelSuffix(labels[1..], suffix)
  {
    if |suffix| <= |labels| - 1 {
      assert labels[1..][|labels| - 1 - |suffix|..] == labels[|labels| - |suffix|..];
    }
  }

  /** ValidatePrivateHosts */
  ghost predicate ValidPrivateHosts(hosts: seq<string>, isIP: string -> bool) {
    forall i :: 0 <= i < |hosts| ==>
      ValidRemoteDNSName(hosts[i], isIP) && !UnderAny(hosts[i], PUBLIC_CONTROL_PLANE_HOSTS)
  }

  method ValidatePrivateHosts(hosts: seq<string>, isIP: string -> bool) returns (ok: bool)
    ensures ok <==> ValidPrivateHosts(hosts, isIP)
  {
    for i := 0 to |hosts|
      invariant ValidPrivateHosts(hosts[..i], isIP)
    {
      assert hosts[..i + 1][i] == hosts[i];
      if !ValidRemoteDNSName(hosts[i], isIP) {
        return false;
      }
      var public := PublicControlPlaneHost(hosts[i], PUBLIC_CONTROL_PLANE_HOSTS);
      if public {
        return false;
      }
      assert hosts[..i + 1] == hosts[..i] + [hosts[i]];
    }
    assert hosts[..|hosts|] == hosts;
    return true;
  }

  /** A configured private route is routed as it is written: the proxy's
      rewriting keeps it, does not forbid it, and sends it into the tunnel. */
  lemma PrivateHostIsTunnelled(hosts: seq<string>, host: string, port: string, registry: string, isIP: string -> bool)
    requires ValidPrivateHosts(hosts, isIP) && host in hosts
    requires port != "" && !Reserved(port)
    ensures ConnectTarget(host, port, isIP) == Some((host, port))
    ensures !ForbiddenTargetName(host, isIP)
    ensures IsTunnelHost(registry, hosts, host)
  {
    var i :| 0 <= i < |hosts| && hosts[i] == host;
    assert ValidRemoteDNSName(hosts[i], isIP);
    ValidNameIsNotReserved(host);
  }

  lemma ValidNameIsNotReserved(host: string)
    requires ValidDNSName(host)
    ensures !Reserved(host)
  {
    forall k | 0 <= k < |host| ensures AsciiAlphaNumeric(host[k]) || host[k] == '-' || host[k] == '.' {
      CharacterOfLabels(host, k);
    }
  }

  lemma {:induction false} CharacterOfLabels(s: string, k: nat)
    requires k < |s|
    requires forall i :: 0 <= i < |Labels(s)| ==> ValidLabel(Labels(s)[i])
    ensures AsciiAlphaNumeric(s[k]) || s[k] == '-' || s[k] == '.'
    decreases |s|
  {
    var i := FirstDot(s);
    if k < i {
      assert s[k] == s[..i][k] && ValidLabel(Labels(s)[0]);
      assert Labels(s)[0] == s[..i];
    } else if k > i {
      assert Labels(s)[1..] == Labels(s[i + 1..]);
      var rest := Labels(s)[1..];
      forall j | 0 <= j < |rest| ensures ValidLabel(rest[j]) {
        assert rest[j] == Labels(s)[j + 1];
      }
      CharacterOfLabels(s[i + 1..], k - i - 1);
    }
  }

  /** AllowsRoute: always, or at or below one of the allowed suffixes. */
  predicate AllowsRoute(suffixes: Option<seq<string>>, host: string) {
    suffixes.Some? ==> exists i :: 0 <= i < |suffixes.value| && AtOrBelow(host, suffixes.value[i])
  }

  /** A route is allowed iff its labels end in those of an allowed suffix. */
  lemma AllowsRouteIsLabelSuffix(suffixes: seq<string>, host: string)
    ensures AllowsRoute(Some(suffixes), host) <==>
      exists i :: 0 <= i < |suffixes| && LabelSuffix(Labels(host), Labels(suffixes[i]))
  {
    forall i | 0 <= i < |suffixes|
      ensures AtOrBelow(host, suffixes[i]) <==> LabelSuffix(Labels(host), Labels(suffixes[i]))
    {
      AtOrBelowIsLabelSuffix(host, suffixes[i]);
    }
  }

  /** withPrivateHosts: the profile's own routes, then the new ones once each. */
  ghost predicate Extends(own: seq<string>, additional: seq<string>, hosts: seq<string>) {
    && own <= hosts
    && (forall host :: host in hosts <==> host in own || host in additional)
    && (forall i, j :: |own| <= i < |hosts| && 0 <= j < i ==> hosts[i] != hosts[j])
  }

  method WithPrivateHosts(own: seq<string>, additional: seq<string>, isIP: string -> bool)
    returns (outcome: Option<seq<string>>)
    ensures outcome.Some? ==> Extends(own, additional, outcome.value)
    ensures |additional| == 0 ==> outcome == Some(own)
    ensures |additional| > 0 ==> (outcome.Some? <==> ValidPrivateHosts(own, isIP) && ValidPrivateHosts(additional, isIP))
    ensures outcome.Some? && |additional| > 0 ==> ValidPrivateHosts(outcome.value, isIP)
  {
    if |additional| == 0 {
      return Some(own);
    }
    var hosts := own;
    var seen := set host | host in own;
    for k := 0 to |additional|
      invariant Extends(own, additional[..k], hosts)
      invariant seen == set host | host in hosts
    {
      var host := additional[k];
      assert additional[..k + 1] == additional[..k] + [host];
      if host !in seen {
        seen := seen + {host};
        hosts := hosts + [host];
      }
    }
    assert additional[..|additional|] == additional;
    var ok := ValidatePrivateHosts(hosts, isIP);
    SameMembersSameValidity(own, additional, hosts, isIP);
    if ok {
      return Some(hosts);
    }
    return None;
  }

  lemma SameMembersSameValidity(own: seq<string>, additional: seq<string>, hosts: seq<string>, isIP: string -> bool)
    requires Extends(own, additional, hosts)
    ensures ValidPrivateHosts(hosts, isIP) <==> ValidPrivateHosts(own, isIP) && ValidPrivateHosts(additional, isIP)
  {
    MembersDecide(hosts, isIP);
    MembersDecide(own, isIP);
    MembersDecide(additional, isIP);
  }

  lemma MembersDecide(hosts: seq<string>, isIP: string -> bool)
    ensures ValidPrivateHosts(hosts, isIP) <==>
      forall host :: host in hosts ==> ValidRemoteDNSName(host, isIP) && !UnderAny(host, PUBLIC_CONTROL_PLANE_HOSTS)
  {
    if !ValidPrivateHosts(hosts, isIP) {
      var i :| 0 <= i < |hosts|
        && !(ValidRemoteDNSName(hosts[i], isIP) && !UnderAny(hosts[i], PUBLIC_CONTROL_PLANE_HOSTS));
      assert hosts[i] in hosts;
    }
  }
}
