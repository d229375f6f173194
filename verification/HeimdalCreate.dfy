/** Creating Heimdal metadata (Create, internal/heimdal/metadata.go), the size
    of what is written, and the round trip through the strict readers. */
module HeimdalCreate {
  import opened Wrappers
  import opened JsonValues
  import opened Heimdal
  import Decimal
  import HostNames
  import HostLists

  // ------------------------------------------------------ the text of a document

  function Quoted(s: string): (r: string)
    ensures |r| == |s| + 2
  {
    "\"" + s + "\""
  }

  function QuotedItems(items: seq<Json>): string
    requires forall i :: 0 <= i < |items| ==> items[i].JString?
  {
    if items == [] then ""
    else if |items| == 1 then Quoted(items[0].text)
    else Quoted(items[0].text) + "," + QuotedItems(items[1..])
  }

  /** The values that documents and pointers hold. */
  predicate IsSimple(v: Json) {
    v.JNumber? || v.JString? || (v.JArray? && forall i :: 0 <= i < |v.items| ==> v.items[i].JString?)
  }

  function ValueText(v: Json): string
    requires IsSimple(v)
  {
    match v
    case JNumber(digits) => digits
    case JString(text) => Quoted(text)
    case JArray(items) => "[" + QuotedItems(items) + "]"
  }

  function MemberText(m: Member): (r: string)
    requires IsSimple(m.value)
    ensures |r| == |m.name| + 3 + |ValueText(m.value)|
  {
    Quoted(m.name) + ":" + ValueText(m.value)
  }

  function MembersText(ms: seq<Member>): string
    requires forall i :: 0 <= i < |ms| ==> IsSimple(ms[i].value)
  {
    if ms == [] then ""
    else if |ms| == 1 then MemberText(ms[0])
    else MemberText(ms[0]) + "," + MembersText(ms[1..])
  }

  /** json.Marshal and the newline behind it. */
  function ObjectText(ms: seq<Member>): (r: string)
    requires forall i :: 0 <= i < |ms| ==> IsSimple(ms[i].value)
    ensures |r| == |MembersText(ms)| + 3
  {
    "{" + MembersText(ms) + "}\n"
  }

  /** Text that json.Marshal writes without an escape. */
  predicate Plain(s: string) {
    forall i :: 0 <= i < |s| ==> PlainChar(s[i])
  }

  predicate PlainChar(c: char) {
    ' ' <= c <= '~' && c != '"' && c != '\\' && c != '<' && c != '>' && c != '&'
  }

  predicate PlainMember(m: Member) {
    && Plain(m.name)
    && match m.value
       case JNumber(digits) => Decimal.IsNumeral(digits) && (digits[0] != '0' || |digits| == 1)
       case JString(text) => Plain(text)
       case JArray(items) => forall i :: 0 <= i < |items| ==> items[i].JString? && Plain(items[i].text)
       case _ => false
  }

  /** A time is written in at most 35 plain characters and read as itself. */
  predicate KeepsTime(t: Tools, x: int) {
    t.format(x).Some? ==>
      t.parse(t.format(x).value) == Some(x) && |t.format(x).value| <= 35 && Plain(t.format(x).value)
  }

  predicate PlainMembers(ms: seq<Member>) {
    forall i :: 0 <= i < |ms| ==> PlainMember(ms[i])
  }

  ghost predicate KeepsTimes(t: Tools) {
    forall x: int :: KeepsTime(t, x)
  }

  /** The decoder reads back, token by token, what the encoder writes. */
  ghost predicate ReadsBack(t: Tools) {
    forall ms: seq<Member> :: PlainMembers(ms) ==> t.read(ObjectText(ms)) == Stream(true, ms, true, false)
  }

  // --------------------------------------------------------------- creating

  function HostItems(hosts: seq<string>): (items: seq<Json>)
    ensures |items| == |hosts| && forall i :: 0 <= i < |hosts| ==> items[i] == JString(hosts[i])
  {
    seq(|hosts|, i requires 0 <= i < |hosts| => JString(hosts[i]))
  }

  function DocumentMembers(environment: string, issued: string, expires: string, hosts: seq<string>): seq<Member> {
    [Member("schema_version", JNumber("1")), Member("environment", JString(environment)),
     Member("issued_at", JString(issued)), Member("expires_at", JString(expires)),
     Member("private_hosts", JArray(HostItems(hosts)))]
  }

  function PointerMembers(environment: string, revision: string): seq<Member> {
    [Member("schema_version", JNumber("1")), Member("environment", JString(environment)),
     Member("revision", JString(revision))]
  }

  function DocumentText(environment: string, issued: string, expires: string, hosts: seq<string>): string {
    ObjectText(DocumentMembers(environment, issued, expires, hosts))
  }

  function PointerText(environment: string, revision: string): string {
    ObjectText(PointerMembers(environment, revision))
  }

  /** The document Create makes, for a list of hosts in any order. */
  function Issued(environment: string, hosts: seq<string>, now: int, validity: int): Document {
    Document(1, environment, now, now + validity, HostLists.Canonical(hosts))
  }

  ghost predicate Creatable(environment: string, hosts: seq<string>, now: int, validity: int, t: Tools) {
    && 0 < validity <= 604_800_000_000_000
    && Valid(Issued(environment, hosts, now, validity), environment, now, t.isIP)
    && t.format(now).Some? && t.format(now + validity).Some?
  }

  lemma MembersTextOfCons(m: Member, rest: seq<Member>)
    requires IsSimple(m.value) && rest != [] && forall i :: 0 <= i < |rest| ==> IsSimple(rest[i].value)
    ensures MembersText([m] + rest) == MemberText(m) + "," + MembersText(rest)
  {
    assert ([m] + rest)[1..] == rest;
  }

  lemma MemberTextIs(name: string, opening: string, text: string)
    requires opening == "\"" + name + "\":\""
    ensures MemberText(Member(name, JString(text))) == opening + text + "\""
  {
    assert MemberText(Member(name, JString(text))) == Quoted(name) + ":" + Quoted(text);
    assert Quoted(name) + ":" + "\"" == opening;
    assert Quoted(name) + ":" + ("\"" + text + "\"") == opening + text + "\"";
  }

  lemma VersionTextIs()
    ensures MemberText(Member("schema_version", JNumber("1"))) == "\"schema_version\":1"
  {
  }

  /** The text of a pointer, field by field. */
  lemma PointerTextIs(environment: string, revision: string)
    ensures PointerText(environment, revision) ==
            "{" + ("\"schema_version\":1" + "," + ("\"environment\":\"" + environment + "\"" + ","
            + ("\"revision\":\"" + revision + "\""))) + "}\n"
  {
    var ms := PointerMembers(environment, revision);
    assert ms == [ms[0]] + [ms[1], ms[2]];
    assert [ms[1], ms[2]] == [ms[1]] + [ms[2]];
    MembersTextOfCons(ms[0], [ms[1], ms[2]]);
    MembersTextOfCons(ms[1], [ms[2]]);
    VersionTextIs();
    MemberTextIs("environment", "\"environment\":\"", environment);
    MemberTextIs("revision", "\"revision\":\"", revision);
  }

  lemma HostsMemberTextIs(hosts: seq<string>)
    ensures MemberText(Member("private_hosts", JArray(HostItems(hosts)))) ==
            "\"private_hosts\":[" + QuotedItems(HostItems(hosts)) + "]"
  {
    assert Quoted("private_hosts") + ":" + "[" == "\"private_hosts\":[";
    var text := QuotedItems(HostItems(hosts));
    assert Quoted("private_hosts") + ":" + ("[" + text + "]") == "\"private_hosts\":[" + text + "]";
  }

  /** The text of a document, field by field. */
  lemma DocumentTextIs(environment: string, issued: string, expires: string, hosts: seq<string>)
    ensures DocumentText(environment, issued, expires, hosts) ==
            "{" + ("\"schema_version\":1" + "," + ("\"environment\":\"" + environment + "\"" + ","
            + ("\"issued_at\":\"" + issued + "\"" + "," + ("\"expires_at\":\"" + expires + "\"" + ","
            + ("\"private_hosts\":[" + QuotedItems(HostItems(hosts)) + "]"))))) + "}\n"
  {
    var ms := DocumentMembers(environment, issued, expires, hosts);
    assert ms == [ms[0]] + [ms[1], ms[2], ms[3], ms[4]];
    assert [ms[1], ms[2], ms[3], ms[4]] == [ms[1]] + [ms[2], ms[3], ms[4]];
    assert [ms[2], ms[3], ms[4]] == [ms[2]] + [ms[3], ms[4]];
    assert [ms[3], ms[4]] == [ms[3]] + [ms[4]];
    MembersTextOfCons(ms[0], [ms[1], ms[2], ms[3], ms[4]]);
    MembersTextOfCons(ms[1], [ms[2], ms[3], ms[4]]);
    MembersTextOfCons(ms[2], [ms[3], ms[4]]);
    MembersTextOfCons(ms[3], [ms[4]]);
    VersionTextIs();
    MemberTextIs("environment", "\"environment\":\"", environment);
    MemberTextIs("issued_at", "\"issued_at\":\"", issued);
    MemberTextIs("expires_at", "\"expires_at\":\"", expires);
    HostsMemberTextIs(hosts);
  }

  /** Hosts are quoted, with a comma between any two. */
  lemma {:induction false} HostsTextIs(hosts: seq<string>, last: string)
    ensures QuotedItems(HostItems([])) == ""
    ensures QuotedItems(HostItems([last])) == "\"" + last + "\""
    ensures hosts != [] ==>
            QuotedItems(HostItems(hosts + [last])) == QuotedItems(HostItems(hosts)) + ("," + Quoted(last))
  {
    if hosts != [] {
      var items, rest := HostItems(hosts + [last]), hosts[1..];
      assert items[1..] == HostItems(rest + [last]);
      HostsTextIs(rest, last);
      if rest == [] {
        assert rest + [last] == [last] && |items| == 2 && HostItems(hosts) == [JString(hosts[0])];
        assert QuotedItems(items) == Quoted(hosts[0]) + "," + QuotedItems(items[1..]);
      } else {
        assert HostItems(hosts)[1..] == HostItems(rest);
        var front := Quoted(hosts[0]) + ",";
        assert front + (QuotedItems(HostItems(rest)) + ("," + Quoted(last)))
            == front + QuotedItems(HostItems(rest)) + ("," + Quoted(last));
      }
    }
  }

  // ------------------------------------------------------------- size bounds

  lemma {:induction false} QuotedItemsSize(items: seq<Json>, each: nat)
    requires forall i :: 0 <= i < |items| ==> items[i].JString? && |items[i].text| <= each
    ensures |QuotedItems(items)| <= |items| * (each + 3)
  {
    if |items| > 1 {
      QuotedItemsSize(items[1..], each);
      assert |items| * (each + 3) == (|items| - 1) * (each + 3) + (each + 3);
    } else if |items| == 1 {
      assert |items| * (each + 3) == each + 3;
    }
  }

  lemma MembersTextOfTwo(m: Member, rest: seq<Member>)
    requires IsSimple(m.value) && rest != [] && forall i :: 0 <= i < |rest| ==> IsSimple(rest[i].value)
    ensures |MembersText([m] + rest)| == |MemberText(m)| + 1 + |MembersText(rest)|
  {
    assert ([m] + rest)[1..] == rest;
  }

  /** A document with at most 128 hosts of at most 253 bytes fits its limit. */
  lemma DocumentTextSize(environment: string, issued: string, expires: string, hosts: seq<string>)
    requires |environment| <= 63 && |issued| <= 35 && |expires| <= 35 && |hosts| <= MAX_HOSTS
    requires forall i :: 0 <= i < |hosts| ==> |hosts[i]| <= 253
    ensures |DocumentText(environment, issued, expires, hosts)| <= MAX_DOCUMENT_SIZE
  {
    var ms := DocumentMembers(environment, issued, expires, hosts);
    QuotedItemsSize(HostItems(hosts), 253);
    assert |hosts| * 256 <= 128 * 256;
    assert ms == [ms[0]] + [ms[1], ms[2], ms[3], ms[4]];
    assert [ms[1], ms[2], ms[3], ms[4]] == [ms[1]] + [ms[2], ms[3], ms[4]];
    assert [ms[2], ms[3], ms[4]] == [ms[2]] + [ms[3], ms[4]];
    MembersTextOfTwo(ms[0], [ms[1], ms[2], ms[3], ms[4]]);
    MembersTextOfTwo(ms[1], [ms[2], ms[3], ms[4]]);
    MembersTextOfTwo(ms[2], [ms[3], ms[4]]);
    MembersTextOfTwo(ms[3], [ms[4]]);
  }

  lemma PointerTextSize(environment: string, revision: string)
    requires |environment| <= 63 && |revision| == 64
    ensures |PointerText(environment, revision)| <= MAX_POINTER_SIZE
  {
    var ms := PointerMembers(environment, revision);
    assert ms == [ms[0]] + [ms[1], ms[2]];
    assert [ms[1], ms[2]] == [ms[1]] + [ms[2]];
    MembersTextOfTwo(ms[0], [ms[1], ms[2]]);
    MembersTextOfTwo(ms[1], [ms[2]]);
  }

  lemma HostSizes(hosts: seq<string>, isIP: string -> bool)
    requires HostNames.ValidPrivateHosts(hosts, isIP)
    ensures forall i :: 0 <= i < |hosts| ==> |hosts[i]| <= 253
  {
    forall i | 0 <= i < |hosts| ensures |hosts[i]| <= 253 {
      assert HostNames.ValidRemoteDNSName(hosts[i], isIP);
    }
  }

  /** Whatever passes Validate is written within the limits, so that Create
      never meets its size branch and readers never refuse a created document. */
  lemma ValidDocumentFits(d: Document, environment: string, now: int, t: Tools)
    requires KeepsTimes(t) && Valid(d, environment, now, t.isIP)
    requires t.format(d.issuedAt).Some? && t.format(d.expiresAt).Some?
    ensures |DocumentText(environment, t.format(d.issuedAt).value, t.format(d.expiresAt).value, d.privateHosts)| <= 65536
    ensures forall data :: |PointerText(environment, RevisionOf(data, t))| <= 4096
  {
    HostSizes(d.privateHosts, t.isIP);
    assert KeepsTime(t, d.issuedAt) && KeepsTime(t, d.expiresAt);
    DocumentTextSize(environment, t.format(d.issuedAt).value, t.format(d.expiresAt).value, d.privateHosts);
    forall data ensures |PointerText(environment, RevisionOf(data, t))| <= MAX_POINTER_SIZE {
      PointerTextSize(environment, RevisionOf(data, t));
    }
  }

  /** Create up to the checked document. */
  method IssueDocument(environment: string, hosts: seq<string>, now: int, validity: int, isIP: string -> bool)
    returns (d: Document, ok: bool)
    ensures d == Issued(environment, hosts, now, validity)
    ensures ok <==> Valid(d, environment, now, isIP)
  {
    var sorted := HostLists.Sort(hosts);
    var routes := new string[|sorted|](i requires 0 <= i < |sorted| => sorted[i]);
    assert routes[..] == sorted;
    var n := HostLists.DedupInPlace(routes);
    d := Document(1, environment, now, now + validity, routes[..n]);
    ok := Validate(d, environment, now, isIP);
  }

  method Create(environment: string, hosts: seq<string>, now: int, validity: int, t: Tools)
    returns (result: Option<(string, string, string)>)
    requires KeepsTimes(t)
    ensures result.Some? <==> Creatable(environment, hosts, now, validity, t)
    ensures result.Some? ==>
              var (data, pointer, revision) := result.value;
              && data == DocumentText(environment, t.format(now).value, t.format(now + validity).value,
                                      HostLists.Canonical(hosts))
              && revision == RevisionOf(data, t)
              && pointer == PointerText(environment, revision)
  {
    if validity <= 0 || validity > MAX_VALIDITY { return None; }
    var d, ok := IssueDocument(environment, hosts, now, validity, t.isIP);
    if !ok { return None; }
    var issued, expires := t.format(d.issuedAt), t.format(d.expiresAt);
    if issued.None? || expires.None? { return None; }
    ValidDocumentFits(d, environment, now, t);
    var data := DocumentText(environment, issued.value, expires.value, d.privateHosts);
    if |data| > MAX_DOCUMENT_SIZE { assert false; }
    var revision := RevisionOf(data, t);
    return Some((data, PointerText(environment, revision), revision));
  }

  // --------------------------------------------------------- the round trip

  lemma HostIsPlain(host: string)
    requires HostNames.ValidDNSName(host)
    ensures Plain(host)
  {
    forall k | 0 <= k < |host| ensures PlainChar(host[k]) {
      HostNames.CharacterOfLabels(host, k);
    }
  }

  lemma HostsArePlain(hosts: seq<string>, isIP: string -> bool)
    requires HostNames.ValidPrivateHosts(hosts, isIP)
    ensures forall i :: 0 <= i < |hosts| ==> Plain(hosts[i])
  {
    forall i | 0 <= i < |hosts| ensures Plain(hosts[i]) {
      assert HostNames.ValidRemoteDNSName(hosts[i], isIP);
      HostIsPlain(hosts[i]);
    }
  }

  lemma NumberOne()
    ensures DecodeInt(JNumber("1")) == Some(1)
    ensures Decimal.IsNumeral("1") && "1"[0] != '0'
  {
    assert Decimal.Value("1") == 1;
  }

  lemma DocumentMembersArePlain(environment: string, issued: string, expires: string, hosts: seq<string>)
    requires ValidEnvironmentName(environment) && Plain(issued) && Plain(expires)
    requires forall i :: 0 <= i < |hosts| ==> Plain(hosts[i])
    ensures PlainMembers(DocumentMembers(environment, issued, expires, hosts))
  {
    NumberOne();
    PlainNames();
  }

  lemma PlainNames()
    ensures forall n :: n in DOCUMENT_NAMES || n in POINTER_NAMES ==> Plain(n)
  {
  }

  /** Reading the members of a document as they are written. */
  lemma DocumentMembersRead(environment: string, issued: string, expires: string, hosts: seq<string>,
                            parse: string -> Option<int>)
    requires parse(issued).Some? && parse(expires).Some?
    ensures DocumentOf(Stream(true, DocumentMembers(environment, issued, expires, hosts), true, false), parse)
              == Some(Document(1, environment, parse(issued).value, parse(expires).value, hosts))
  {
    var ms := DocumentMembers(environment, issued, expires, hosts);
    assert Distinct(ms);
    assert ms[0].name == "schema_version" && ms[1].name == "environment" && ms[2].name == "issued_at"
        && ms[3].name == "expires_at" && ms[4].name == "private_hosts";
    assert Strict(Stream(true, ms, true, false), DOCUMENT_NAMES);
    NumberOne();
    LookupDistinct(ms, 0); LookupDistinct(ms, 1); LookupDistinct(ms, 2); LookupDistinct(ms, 3); LookupDistinct(ms, 4);
    assert Strings(HostItems(hosts)).value == hosts;
  }

  lemma PointerMembersRead(environment: string, revision: string)
    ensures PointerOf(Stream(true, PointerMembers(environment, revision), true, false))
              == Some(Pointer(1, environment, revision))
  {
    var ms := PointerMembers(environment, revision);
    assert Distinct(ms);
    assert ms[0].name == "schema_version" && ms[1].name == "environment" && ms[2].name == "revision";
    assert Strict(Stream(true, ms, true, false), POINTER_NAMES);
    NumberOne();
    LookupDistinct(ms, 0); LookupDistinct(ms, 1); LookupDistinct(ms, 2);
  }

  lemma HexIsPlain(revision: string)
    requires ValidRevision(revision)
    ensures Plain(revision)
  {
    forall i | 0 <= i < |revision| ensures PlainChar(revision[i]) {
      assert IsHexDigit(revision[i]);
    }
  }

  /** The pointer Create writes leads back to the revision it made. */
  lemma CreatedPointerDecodes(environment: string, data: string, t: Tools)
    requires ReadsBack(t) && ValidEnvironmentName(environment)
    ensures DecodedPointer(PointerText(environment, RevisionOf(data, t)), environment, t)
              == Some(Pointer(1, environment, RevisionOf(data, t)))
  {
    var revision := RevisionOf(data, t);
    var ms := PointerMembers(environment, revision);
    RevisionIsValid(data, t);
    HexIsPlain(revision);
    NumberOne();
    PlainNames();
    assert PlainMembers(ms);
    PointerMembersRead(environment, revision);
    PointerTextSize(environment, revision);
  }

  /** What a creatable document is at another time. */
  lemma ValidityWindow(environment: string, hosts: seq<string>, now: int, validity: int, at: int, t: Tools)
    requires Creatable(environment, hosts, now, validity, t)
    ensures Valid(Issued(environment, hosts, now, validity), environment, at, t.isIP) <==>
            now - 300_000_000_000 <= at < now + validity
  {
  }

  /** A valid document is read back from its text as it was. */
  lemma WrittenDocumentReads(d: Document, environment: string, now: int, t: Tools)
    requires ReadsBack(t) && KeepsTimes(t) && Valid(d, environment, now, t.isIP)
    requires t.format(d.issuedAt).Some? && t.format(d.expiresAt).Some?
    ensures var data := DocumentText(environment, t.format(d.issuedAt).value, t.format(d.expiresAt).value, d.privateHosts);
            |data| <= MAX_DOCUMENT_SIZE && DocumentOf(t.read(data), t.parse) == Some(d)
  {
    var issued, expires := t.format(d.issuedAt).value, t.format(d.expiresAt).value;
    assert KeepsTime(t, d.issuedAt) && KeepsTime(t, d.expiresAt);
    HostsArePlain(d.privateHosts, t.isIP);
    DocumentMembersArePlain(environment, issued, expires, d.privateHosts);
    DocumentMembersRead(environment, issued, expires, d.privateHosts, t.parse);
    ValidDocumentFits(d, environment, now, t);
  }

  /** The document Create writes is read back, with the same hosts in canonical
      order, exactly from five minutes before its issue until its expiry. */
  lemma CreatedDocumentDecodes(environment: string, hosts: seq<string>, now: int, validity: int, at: int, t: Tools)
    requires ReadsBack(t) && KeepsTimes(t) && Creatable(environment, hosts, now, validity, t)
    ensures var d := Issued(environment, hosts, now, validity);
            var data := DocumentText(environment, t.format(now).value, t.format(now + validity).value, d.privateHosts);
            DecodedDocument(data, environment, RevisionOf(data, t), at, t)
              == if now - 300_000_000_000 <= at < now + validity then Some(d) else None
  {
    WrittenDocumentReads(Issued(environment, hosts, now, validity), environment, now, t);
    ValidityWindow(environment, hosts, now, validity, at, t);
  }

  /** Hosts given in another order, or more than once, make the same document. */
  lemma CreateIgnoresOrder(environment: string, hosts: seq<string>, others: seq<string>, now: int, validity: int)
    requires forall x :: x in hosts <==> x in others
    ensures Issued(environment, hosts, now, validity) == Issued(environment, others, now, validity)
    ensures var d := Issued(environment, hosts, now, validity);
            HostLists.StrictlySorted(d.privateHosts) && forall x :: x in d.privateHosts <==> x in hosts
  {
    HostLists.CanonicalIgnoresOrder(hosts, others);
    HostLists.CanonicalIsStrict(hosts);
  }
}
