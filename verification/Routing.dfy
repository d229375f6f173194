/** What the proxy does with a CONNECT request (Router.ServeHTTP and its tests
    in internal/proxy/proxy.go), up to the dialling of the upstream. */
module Routing {
  import opened Wrappers
  import opened HostNames

  datatype Decision = BadTarget | OtherPort | NotAllowed | Tunnelled | Direct

  /** The tests of ServeHTTP in their order. */
  function Decide(registry: string, privateHosts: seq<string>, host: string, port: string, isIP: string -> bool): Decision {
    match ConnectTarget(host, port, isIP)
    case None => BadTarget
    case Some(target) =>
      if target.1 != "443" then OtherPort
      else if ForbiddenTargetName(target.0, isIP) then NotAllowed
      else if IsTunnelHost(registry, privateHosts, target.0) then Tunnelled
      else Direct
  }

  // ------------------------------------------------- what the names must look like

  /** `normal` is `name` without one dot at its end and in lower case. */
  ghost predicate NormalForm(name: string, normal: string) {
    && |normal| == (if |name| > 0 && name[|name| - 1] == '.' then |name| - 1 else |name|)
    && forall i :: 0 <= i < |normal| ==>
         normal[i] == if 'A' <= name[i] <= 'Z' then (name[i] as int + 32) as char else name[i]
  }

  lemma NormaliseGivesNormalForm(name: string, normal: string)
    ensures NormalForm(name, normal) <==> normal == Normalise(name)
  {
    DotSuffix(name);
  }

  predicate LetterOrDigit(c: char) {
    'a' <= c <= 'z' || 'A' <= c <= 'Z' || '0' <= c <= '9'
  }

  /** The character at `i` is one of a host name, in a place where it may stand. */
  ghost predicate StandsWell(s: string, i: nat)
    requires i < |s|
  {
    || LetterOrDigit(s[i])
    || (s[i] == '-' && 0 < i < |s| - 1 && s[i - 1] != '.' && s[i + 1] != '.')
    || (s[i] == '.' && 0 < i < |s| - 1 && LetterOrDigit(s[i - 1]) && LetterOrDigit(s[i + 1]))
  }

  /** At most 63 characters stand between two dots. */
  ghost predicate ShortStretches(s: string) {
    forall i, j :: 0 <= i <= j <= |s| && '.' !in s[i..j] ==> j - i <= 63
  }

  /** Labels of letters, digits and inner hyphens, read character by character. */
  ghost predicate LabelsRead(s: string) {
    && s != ""
    && (forall i :: 0 <= i < |s| ==> StandsWell(s, i))
    && ShortStretches(s)
  }

  ghost predicate AllValid(labels: seq<string>) {
    forall i :: 0 <= i < |labels| ==> ValidLabel(labels[i])
  }

  ghost predicate LabelsValid(s: string) {
    AllValid(Labels(s))
  }

  lemma OneLabel(s: string)
    requires '.' !in s
    ensures LabelsRead(s) <==> ValidLabel(s)
  {
    if LabelsRead(s) {
      assert s[0..|s|] == s;
      assert StandsWell(s, 0) && StandsWell(s, |s| - 1);
      forall i | 1 <= i < |s| - 1 ensures LetterOrDigit(s[i]) || s[i] == '-' {
        assert StandsWell(s, i) && s[i] in s;
      }
    }
    if ValidLabel(s) {
      forall i | 0 <= i < |s| ensures StandsWell(s, i) {
        assert s[i] in s;
        if 0 < i < |s| - 1 {
          assert s[i - 1] in s && s[i + 1] in s;
        }
      }
    }
  }

  lemma LabelInFront(s: string, i: nat)
    requires i < |s| && '.' !in s[..i] && s[i] == '.' && LabelsRead(s)
    ensures LabelsRead(s[..i])
  {
    var front := s[..i];
    assert StandsWell(s, i);
    forall k | 0 <= k < i ensures StandsWell(front, k) {
      assert StandsWell(s, k) && s[k] == front[k] && s[k] in front;
    }
    forall a, b | 0 <= a <= b <= i && '.' !in front[a..b] ensures b - a <= 63 {
      assert front[a..b] == s[a..b];
    }
  }

  lemma RestRead(s: string, i: nat)
    requires i < |s| && s[i] == '.' && LabelsRead(s)
    ensures LabelsRead(s[i + 1..])
  {
    var rest := s[i + 1..];
    assert StandsWell(s, i);
    forall k | 0 <= k < |rest| ensures StandsWell(rest, k) {
      assert StandsWell(s, i + 1 + k) && s[i + 1 + k] == rest[k];
    }
    forall a, b | 0 <= a <= b <= |rest| && '.' !in rest[a..b] ensures b - a <= 63 {
      assert rest[a..b] == s[i + 1 + a..i + 1 + b];
    }
  }

  lemma DotInside(s: string, i: nat, a: nat, b: nat)
    requires i < |s| && s[i] == '.' && a <= b <= |s|
    ensures a <= i < b ==> '.' in s[a..b]
  {
    if a <= i < b {
      assert s[a..b][i - a] == '.';
    }
  }

  lemma StretchesJoin(s: string, i: nat)
    requires i < |s| && s[i] == '.' && ShortStretches(s[..i]) && ShortStretches(s[i + 1..])
    ensures ShortStretches(s)
  {
    forall a, b | 0 <= a <= b <= |s| && '.' !in s[a..b] ensures b - a <= 63 {
      DotInside(s, i, a, b);
      if b <= i {
        assert s[..i][a..b] == s[a..b];
      } else if a > i {
        assert s[i + 1..][a - i - 1..b - i - 1] == s[a..b];
      }
    }
  }

  lemma BothRead(s: string, i: nat)
    requires i < |s| && '.' !in s[..i] && s[i] == '.'
    requires LabelsRead(s[..i]) && LabelsRead(s[i + 1..])
    ensures LabelsRead(s)
  {
    var front, rest := s[..i], s[i + 1..];
    assert StandsWell(front, i - 1) && StandsWell(rest, 0);
    forall k | 0 <= k < |s| ensures StandsWell(s, k) {
      if k < i {
        assert StandsWell(front, k) && front[k] == s[k];
      } else if k > i {
        assert StandsWell(rest, k - i - 1) && rest[k - i - 1] == s[k];
      }
    }
    StretchesJoin(s, i);
  }

  lemma AllValidCons(labels: seq<string>, first: string, rest: seq<string>)
    requires labels == [first] + rest
    ensures AllValid(labels) <==> ValidLabel(first) && AllValid(rest)
  {
    assert labels[0] == first && labels[1..] == rest;
    assert forall i :: 0 <= i < |rest| ==> rest[i] == labels[i + 1];
  }

  lemma LabelsCut(a: string, b: string)
    requires '.' !in a
    ensures LabelsValid(a + "." + b) <==> ValidLabel(a) && LabelsValid(b)
  {
    LabelsOfCons(a, b);
    AllValidCons(Labels(a + "." + b), a, Labels(b));
  }

  lemma {:induction false} LabelsValidIffRead(s: string)
    ensures LabelsValid(s) <==> LabelsRead(s)
    decreases |s|
  {
    var i := FirstDot(s);
    if i == |s| {
      assert s[..i] == s;
      assert Labels(s) == [s] && Labels(s)[0] == s;
      OneLabel(s);
    } else {
      assert s == s[..i] + "." + s[i + 1..];
      LabelsCut(s[..i], s[i + 1..]);
      LabelsValidIffRead(s[i + 1..]);
      OneLabel(s[..i]);
      if LabelsRead(s) {
        LabelInFront(s, i);
        RestRead(s, i);
      }
      if LabelsRead(s[..i]) && LabelsRead(s[i + 1..]) {
        BothRead(s, i);
      }
    }
  }

  /** validDNSName reads a name character by character: at most 253 of them,
      at most 63 between two dots, letters and digits at the ends of every
      label and hyphens only inside. */
  lemma DNSNameGrammar(s: string)
    ensures ValidDNSName(s) <==>
      && 0 < |s| <= 253
      && (forall i :: 0 <= i < |s| ==> StandsWell(s, i))
      && (forall i, j :: 0 <= i <= j <= |s| && '.' !in s[i..j] ==> j - i <= 63)
  {
    LabelsValidIffRead(s);
  }

  // ---------------------------------------------------------------- the decision

  /** A CONNECT authority the proxy takes. */
  ghost predicate Acceptable(host: string, port: string, normal: string, isIP: string -> bool) {
    && host != "" && port != ""
    && (forall c :: c in host + port ==> c != '/' && c != '?' && c != '#' && c != '@')
    && (ValidDNSName(normal) || isIP(normal))
  }

  /** An address literal, or a name whose last label is "localhost". */
  ghost predicate Local(normal: string, isIP: string -> bool) {
    isIP(normal) || Labels(normal)[|Labels(normal)| - 1] == "localhost"
  }

  /** A name of the registry's, or one of the private hosts. */
  ghost predicate InTunnel(own: string, privateHosts: seq<string>, normal: string) {
    || (ValidLabel(own) && RegistryLabels(own, Labels(normal)))
    || exists i :: 0 <= i < |privateHosts| && privateHosts[i] == normal
  }

  lemma AcceptableIsTarget(host: string, port: string, normal: string, isIP: string -> bool)
    requires NormalForm(host, normal)
    ensures ConnectTarget(host, port, isIP) ==
      if Acceptable(host, port, normal, isIP) then Some((normal, port)) else None
  {
    NormaliseGivesNormalForm(host, normal);
    assert forall c :: c in host + port <==> c in host || c in port;
  }

  lemma BelowWord(normal: string, word: string)
    requires '.' !in word
    ensures AtOrBelow(normal, word) <==> Labels(normal)[|Labels(normal)| - 1] == word
  {
    AtOrBelowIsLabelSuffix(normal, word);
    LabelsOfWord(word);
    var labels := Labels(normal);
    assert labels[|labels| - 1..] == [labels[|labels| - 1]];
  }

  lemma LocalIsForbidden(normal: string, isIP: string -> bool)
    ensures ForbiddenTargetName(normal, isIP) <==> Local(normal, isIP)
  {
    BelowWord(normal, "localhost");
    assert "." + "localhost" == ".localhost";
  }

  lemma NoDotAtEnd(host: string)
    requires ValidDNSName(host)
    ensures !HasSuffix(host, ".")
  {
    if HasSuffix(host, ".") {
      LastLabel(host);
      assert false;
    }
  }

  lemma ValidNameIsNormal(normal: string)
    requires ValidDNSName(normal) && normal == ToLower(normal)
    ensures Normalise(normal) == normal
  {
    NoDotAtEnd(normal);
  }

  lemma OneLabelName(own: string)
    ensures ValidDNSName(own) && '.' !in own <==> ValidLabel(own)
  {
    if ValidLabel(own) {
      forall i | 0 <= i < |own| ensures own[i] != '.' {
      }
    }
    if '.' !in own {
      WordIsLabel(own);
    }
  }

  lemma InTunnelIsTunnelHost(registry: string, own: string, privateHosts: seq<string>, normal: string)
    requires NormalForm(registry, own) && Normalise(normal) == normal
    ensures IsTunnelHost(registry, privateHosts, normal) <==> InTunnel(own, privateHosts, normal)
  {
    NormaliseGivesNormalForm(registry, own);
    RegistryHostGrammar(registry, normal);
    OneLabelName(own);
  }

  /** Which decision is taken, for every request: with the registry's and the
      host's name in normal form, a bad target or another port is refused, so
      is a local one, the registry's names and the private hosts go into the
      tunnel, and every other host is dialled directly. */
  lemma DecisionExactly(
      registry: string, own: string, privateHosts: seq<string>,
      host: string, normal: string, port: string, isIP: string -> bool)
    requires NormalForm(registry, own) && NormalForm(host, normal)
    ensures
      var decision := Decide(registry, privateHosts, host, port, isIP);
      var taken := Acceptable(host, port, normal, isIP) && port == "443";
      && (decision == BadTarget <==> !Acceptable(host, port, normal, isIP))
      && (decision == OtherPort <==> Acceptable(host, port, normal, isIP) && port != "443")
      && (decision == NotAllowed <==> taken && Local(normal, isIP))
      && (decision == Tunnelled <==> taken && !Local(normal, isIP) && InTunnel(own, privateHosts, normal))
      && (decision == Direct <==> taken && !Local(normal, isIP) && !InTunnel(own, privateHosts, normal))
  {
    AcceptableIsTarget(host, port, normal, isIP);
    LocalIsForbidden(normal, isIP);
    if Acceptable(host, port, normal, isIP) && !Local(normal, isIP) {
      NormaliseGivesNormalForm(host, normal);
      ToLowerTwice(TrimSuffix(host, "."));
      ValidNameIsNormal(normal);
      InTunnelIsTunnelHost(registry, own, privateHosts, normal);
    }
  }

  // ---------------------------------------------------------- the control plane

  lemma BelowEndsAlike(host: string, name: string)
    requires name != "" && AtOrBelow(host, name)
    ensures host != "" && host[|host| - 1] == name[|name| - 1]
  {
    if host != name {
      assert host[|host| - 1] == ("." + name)[|name|];
    }
  }

  lemma {:induction false} JoinEndsInO(labels: seq<string>)
    requires |labels| >= 1 && labels[|labels| - 1] == "io"
    ensures var s := Join(labels); |s| > 0 && s[|s| - 1] == 'o'
  {
    if |labels| > 1 {
      JoinEndsInO(labels[1..]);
    }
  }

  lemma RegistryLabelsEndInIo(own: string, labels: seq<string>)
    requires RegistryLabels(own, labels)
    ensures |labels| >= 1 && labels[|labels| - 1] == "io"
  {
    if |labels| == 3 {
      assert labels[2] == "io";
    } else {
      assert labels[4] == "io";
    }
  }

  lemma NameEndsInO(normal: string)
    requires Labels(normal)[|Labels(normal)| - 1] == "io"
    ensures |normal| > 0 && normal[|normal| - 1] == 'o'
  {
    JoinEndsInO(Labels(normal));
    JoinOfLabels(normal);
  }

  lemma ListedDoesNotEndInO(name: string)
    requires name in PUBLIC_CONTROL_PLANE_HOSTS
    ensures |name| > 0 && name[|name| - 1] != 'o'
  {
  }

  /** The nineteen endpoints of sign-in, management and Graph. */
  predicate ControlPlaneName(name: string) {
    name in {
      "login.microsoftonline.com", "login.microsoft.com", "login.windows.net", "login.microsoftonline.us",
      "login.chinacloudapi.cn", "login.partner.microsoftonline.cn", "management.azure.com",
      "management.core.windows.net", "management.usgovcloudapi.net", "management.core.usgovcloudapi.net",
      "management.chinacloudapi.cn", "management.core.chinacloudapi.cn", "graph.microsoft.com",
      "graph.microsoft.us", "dod-graph.microsoft.us", "microsoftgraph.chinacloudapi.cn",
      "graph.chinacloudapi.cn", "graph.windows.net", "graph.microsoftazure.us"
    }
  }

  /** The endpoints of sign-in, management and Graph, and everything below
      them, stay outside the tunnel whatever the registry and the valid
      private hosts are. */
  lemma ControlPlaneIsNeverTunnelled(
      registry: string, privateHosts: seq<string>, host: string, normal: string, port: string,
      isIP: string -> bool, name: string)
    requires ValidPrivateHosts(privateHosts, isIP) && NormalForm(host, normal)
    requires AtOrBelow(normal, name)
    requires ControlPlaneName(name)
    ensures Decide(registry, privateHosts, host, port, isIP) != Tunnelled
  {
    assert name in PUBLIC_CONTROL_PLANE_HOSTS;
    ListedIsNeverTunnelled(registry, privateHosts, host, normal, port, isIP, name);
  }

  lemma ListedIsNeverTunnelled(
      registry: string, privateHosts: seq<string>, host: string, normal: string, port: string,
      isIP: string -> bool, name: string)
    requires ValidPrivateHosts(privateHosts, isIP) && NormalForm(host, normal)
    requires AtOrBelow(normal, name) && name in PUBLIC_CONTROL_PLANE_HOSTS
    ensures Decide(registry, privateHosts, host, port, isIP) != Tunnelled
  {
    var own := Normalise(registry);
    NormaliseGivesNormalForm(registry, own);
    DecisionExactly(registry, own, privateHosts, host, normal, port, isIP);
    ListedDoesNotEndInO(name);
    BelowEndsAlike(normal, name);
    if RegistryLabels(own, Labels(normal)) {
      RegistryLabelsEndInIo(own, Labels(normal));
      NameEndsInO(normal);
    }
    forall i | 0 <= i < |privateHosts| ensures privateHosts[i] != normal {
      assert UnderAny(normal, PUBLIC_CONTROL_PLANE_HOSTS);
    }
  }

  // ------------------------------------------------------------- private routes

  lemma LowerIsNoCapital(host: string)
    ensures host == ToLower(host) <==> forall i :: 0 <= i < |host| ==> !('A' <= host[i] <= 'Z')
  {
    if forall i :: 0 <= i < |host| ==> !('A' <= host[i] <= 'Z') {
      assert forall i :: 0 <= i < |host| ==> ToLower(host)[i] == host[i];
    }
  }

  /** ValidRemoteDNSName: a host name of at least two labels without capital
      letters that is not local. */
  lemma RemoteNameExactly(host: string, isIP: string -> bool)
    ensures ValidRemoteDNSName(host, isIP) <==>
      && ValidDNSName(host) && |Labels(host)| >= 2
      && (forall i :: 0 <= i < |host| ==> !('A' <= host[i] <= 'Z'))
      && !isIP(host) && Labels(host)[|Labels(host)| - 1] != "localhost"
  {
    LowerIsNoCapital(host);
    LocalIsForbidden(host, isIP);
    if ValidDNSName(host) {
      NoDotAtEnd(host);
    }
    DotMeansTwoLabels(host);
  }

  /** ValidatePrivateHosts accepts exactly the lists of such names that are
      neither one of the nineteen endpoints nor below one. */
  lemma PrivateHostsExactly(hosts: seq<string>, isIP: string -> bool)
    ensures ValidPrivateHosts(hosts, isIP) <==>
      && (forall i :: 0 <= i < |hosts| ==> ValidRemoteDNSName(hosts[i], isIP))
      && (forall i, name :: 0 <= i < |hosts| && ControlPlaneName(name) ==>
           !LabelSuffix(Labels(hosts[i]), Labels(name)))
  {
    forall name ensures ControlPlaneName(name) <==> name in PUBLIC_CONTROL_PLANE_HOSTS {
    }
    UnlistedExactly(hosts, PUBLIC_CONTROL_PLANE_HOSTS);
  }

  lemma UnlistedExactly(hosts: seq<string>, names: set<string>)
    ensures (forall i :: 0 <= i < |hosts| ==> !UnderAny(hosts[i], names)) <==>
      forall i, name :: 0 <= i < |hosts| && name in names ==> !LabelSuffix(Labels(hosts[i]), Labels(name))
  {
    forall i, name | 0 <= i < |hosts|
      ensures AtOrBelow(hosts[i], name) <==> LabelSuffix(Labels(hosts[i]), Labels(name))
    {
      AtOrBelowIsLabelSuffix(hosts[i], name);
    }
  }

  lemma DotMeansTwoLabels(host: string)
    ensures '.' in host <==> |Labels(host)| >= 2
  {
    var i := FirstDot(host);
    assert host[..|host|] == host;
  }
}
