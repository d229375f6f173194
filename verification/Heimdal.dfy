/** Heimdal metadata documents and pointers (internal/heimdal/metadata.go).

    A document's text is what json.Marshal writes; the tokens a decoder reads
    from a text, time formatting and parsing, SHA-256 and net.ParseIP are the
    parameters gathered in `Tools`.  Times are nanoseconds since the zero time. */
module Heimdal {
  import opened Wrappers
  import opened JsonValues
  import Decimal
  import HostNames
  import HostLists

  const MAX_DOCUMENT_SIZE: nat := 64 * 1024
  const MAX_POINTER_SIZE: nat := 4 * 1024
  const MINUTE: int := 60 * 1_000_000_000
  const MAX_VALIDITY: int := 7 * 24 * 60 * MINUTE
  const MAX_CLOCK_SKEW: int := 5 * MINUTE
  const MAX_HOSTS: nat := 128

  datatype Document = Document(schemaVersion: int, environment: string, issuedAt: int, expiresAt: int,
                               privateHosts: seq<string>)

  datatype Pointer = Pointer(schemaVersion: int, environment: string, revision: string)

  datatype Member = Member(name: string, value: Json)

  /** What a decoder meets: an opening brace or not, the members it can read,
      then a closing brace or not, then more data or not. */
  datatype Stream = Stream(opens: bool, members: seq<Member>, closes: bool, extra: bool)

  type Octet = x: int | 0 <= x < 256
  type Sum = s: seq<Octet> | |s| == 32 witness seq(32, _ => 0)

  datatype Tools = Tools(format: int -> Option<string>, parse: string -> Option<int>, read: string -> Stream,
                         digest: string -> Sum, isIP: string -> bool)

  // ------------------------------------------------------ revisions and names

  function HexDigit(n: nat): char
    requires n < 16
  {
    if n < 10 then ('0' as int + n) as char else ('a' as int + n - 10) as char
  }

  /** hex.EncodeToString */
  function Hex(bytes: seq<Octet>): (s: string)
    ensures |s| == 2 * |bytes|
  {
    if bytes == [] then [] else [HexDigit(bytes[0] / 16), HexDigit(bytes[0] % 16)] + Hex(bytes[1..])
  }

  predicate IsHexDigit(c: char) {
    '0' <= c <= '9' || 'a' <= c <= 'f'
  }

  predicate ValidRevision(revision: string) {
    |revision| == 64 && forall i :: 0 <= i < |revision| ==> IsHexDigit(revision[i])
  }

  lemma {:induction false} HexIsHex(bytes: seq<Octet>)
    ensures forall i :: 0 <= i < |Hex(bytes)| ==> IsHexDigit(Hex(bytes)[i])
  {
    if bytes != [] { HexIsHex(bytes[1..]); }
  }

  /** The value of a lower-case hexadecimal digit. */
  function DigitValue(c: char): (v: int)
    ensures IsHexDigit(c) ==> 0 <= v < 16
  {
    if '0' <= c <= '9' then c as int - '0' as int else c as int - 'a' as int + 10
  }

  /** Two digits for every byte, the high one first. */
  lemma {:induction false} HexReadsBack(bytes: seq<Octet>, i: nat)
    requires i < |bytes|
    ensures DigitValue(Hex(bytes)[2 * i]) * 16 + DigitValue(Hex(bytes)[2 * i + 1]) == bytes[i]
  {
    if i > 0 {
      HexReadsBack(bytes[1..], i - 1);
      assert Hex(bytes)[2..] == Hex(bytes[1..]);
    }
  }

  /** Different bytes are written differently. */
  lemma HexIsInjective(a: seq<Octet>, b: seq<Octet>)
    ensures Hex(a) == Hex(b) <==> a == b
  {
    if Hex(a) == Hex(b) {
      assert |a| == |b|;
      forall i | 0 <= i < |a| ensures a[i] == b[i] {
        HexReadsBack(a, i);
        HexReadsBack(b, i);
      }
    }
  }

  function RevisionOf(data: string, t: Tools): string {
    Hex(t.digest(data))
  }

  lemma RevisionIsValid(data: string, t: Tools)
    ensures ValidRevision(RevisionOf(data, t))
  {
    HexIsHex(t.digest(data));
  }

  /** ^[a-z][a-z0-9-]{0,62}$ */
  predicate ValidEnvironmentName(name: string) {
    && 1 <= |name| <= 63 && 'a' <= name[0] <= 'z'
    && forall i :: 1 <= i < |name| ==> 'a' <= name[i] <= 'z' || '0' <= name[i] <= '9' || name[i] == '-'
  }

  lemma EnvironmentNameGrammar(name: string)
    ensures ValidEnvironmentName(name) <==>
            && 1 <= |name| <= 63 && name[0] in "abcdefghijklmnopqrstuvwxyz"
            && forall c :: c in name ==> c in "abcdefghijklmnopqrstuvwxyz0123456789-"
  {
    forall c: char ensures c in "abcdefghijklmnopqrstuvwxyz" <==> 'a' <= c <= 'z' {
      LetterAt(c);
    }
    forall c: char ensures c in "abcdefghijklmnopqrstuvwxyz0123456789-" <==> 'a' <= c <= 'z' || '0' <= c <= '9' || c == '-' {
      NameCharacterAt(c);
    }
    assert forall i :: 0 <= i < |name| ==> name[i] in name;
  }

  lemma LetterAt(c: char)
    ensures c in "abcdefghijklmnopqrstuvwxyz" <==> 'a' <= c <= 'z'
  {
    var letters := "abcdefghijklmnopqrstuvwxyz";
    assert forall i :: 0 <= i < |letters| ==> letters[i] as int == 'a' as int + i;
    if 'a' <= c <= 'z' { assert letters[c as int - 'a' as int] == c; }
  }

  lemma NameCharacterAt(c: char)
    ensures c in "abcdefghijklmnopqrstuvwxyz0123456789-" <==> 'a' <= c <= 'z' || '0' <= c <= '9' || c == '-'
  {
    var digits := "0123456789";
    assert forall i :: 0 <= i < |digits| ==> digits[i] as int == '0' as int + i;
    if '0' <= c <= '9' { assert digits[c as int - '0' as int] == c; }
    LetterAt(c);
    assert "abcdefghijklmnopqrstuvwxyz0123456789-" == "abcdefghijklmnopqrstuvwxyz" + digits + "-";
  }

  /** Valid revisions are exactly what digests are written as. */
  lemma RevisionsAreDigests(revision: string)
    ensures ValidRevision(revision) <==> exists sum: Sum :: Hex(sum) == revision
  {
    if ValidRevision(revision) {
      UnhexWritesBack(revision);
      var sum: Sum := Unhex(revision);
    }
    if sum: Sum :| Hex(sum) == revision {
      HexIsHex(sum);
    }
  }

  function Unhex(s: string): (bytes: seq<Octet>)
    requires forall i :: 0 <= i < |s| ==> IsHexDigit(s[i])
    ensures |bytes| == |s| / 2
  {
    if |s| < 2 then [] else [DigitValue(s[0]) * 16 + DigitValue(s[1])] + Unhex(s[2..])
  }

  lemma HexOfCons(byte: Octet, rest: seq<Octet>)
    ensures Hex([byte] + rest) == [HexDigit(byte / 16), HexDigit(byte % 16)] + Hex(rest)
  {
    assert ([byte] + rest)[1..] == rest;
  }

  lemma DigitsSplit(high: int, low: int)
    requires 0 <= high < 16 && 0 <= low < 16
    ensures (high * 16 + low) / 16 == high && (high * 16 + low) % 16 == low
  {
  }

  lemma DigitOfValue(c: char)
    requires IsHexDigit(c)
    ensures HexDigit(DigitValue(c)) == c
  {
  }

  lemma {:induction false} UnhexWritesBack(s: string)
    requires |s| % 2 == 0 && forall i :: 0 <= i < |s| ==> IsHexDigit(s[i])
    ensures Hex(Unhex(s)) == s
  {
    if |s| >= 2 {
      UnhexWritesBack(s[2..]);
      DigitsSplit(DigitValue(s[0]), DigitValue(s[1]));
      DigitOfValue(s[0]);
      DigitOfValue(s[1]);
      HexOfCons(DigitValue(s[0]) * 16 + DigitValue(s[1]), Unhex(s[2..]));
      assert s == [s[0], s[1]] + s[2..];
    }
  }

  ghost predicate Valid(d: Document, environment: string, now: int, isIP: string -> bool) {
    && d.schemaVersion == 1
    && ValidEnvironmentName(environment) && d.environment == environment
    && d.issuedAt != 0 && d.issuedAt <= now + 300_000_000_000
    && now < d.expiresAt && d.issuedAt < d.expiresAt && d.expiresAt - d.issuedAt <= 604_800_000_000_000
    && |d.privateHosts| <= 128
    && HostNames.ValidPrivateHosts(d.privateHosts, isIP)
  }

  method Validate(d: Document, environment: string, now: int, isIP: string -> bool) returns (ok: bool)
    ensures ok <==> Valid(d, environment, now, isIP)
  {
    if d.schemaVersion != 1 { return false; }
    if !ValidEnvironmentName(environment) || d.environment != environment { return false; }
    if || d.issuedAt == 0 || d.issuedAt > now + MAX_CLOCK_SKEW || d.expiresAt <= now || d.expiresAt <= d.issuedAt
       || d.expiresAt - d.issuedAt > MAX_VALIDITY { return false; }
    if |d.privateHosts| > MAX_HOSTS { return false; }
    ok := HostNames.ValidatePrivateHosts(d.privateHosts, isIP);
  }

  // -------------------------------------------------------- strict decoding

  /** The value of the last member of that name. */
  function Lookup(ms: seq<Member>, name: string): Option<Json> {
    if ms == [] then None
    else if ms[|ms| - 1].name == name then Some(ms[|ms| - 1].value)
    else Lookup(ms[..|ms| - 1], name)
  }

  predicate Distinct(ms: seq<Member>) {
    forall i, j :: 0 <= i < j < |ms| ==> ms[i].name != ms[j].name
  }

  /** One object and nothing behind it, each name once and no other name. */
  ghost predicate Strict(s: Stream, names: set<string>) {
    && s.opens && s.closes && !s.extra
    && Distinct(s.members)
    && (forall i :: 0 <= i < |s.members| ==> s.members[i].name in names)
    && (forall n :: n in names ==> exists i :: 0 <= i < |s.members| && s.members[i].name == n)
  }

  function DecodeInt(v: Json): Option<int> {
    if v.JNumber? then
      var n := Decimal.Atoi(v.digits);
      if n.Some? && -0x8000_0000_0000_0000 <= n.value < 0x8000_0000_0000_0000 then n else None
    else None
  }

  function DecodeString(v: Json): Option<string> {
    if v.JString? then Some(v.text) else None
  }

  function DecodeTime(v: Json, parse: string -> Option<int>): Option<int> {
    if v.JString? then parse(v.text) else None
  }

  function DecodeHosts(v: Json): Option<seq<string>> {
    if v.JArray? then Strings(v.items) else None
  }

  const POINTER_NAMES: set<string> := {"schema_version", "environment", "revision"}
  const DOCUMENT_NAMES: set<string> := {"schema_version", "environment", "issued_at", "expires_at", "private_hosts"}

  lemma {:induction false} LookupFinds(ms: seq<Member>, name: string)
    ensures Lookup(ms, name).Some? <==> exists i :: 0 <= i < |ms| && ms[i].name == name
  {
    if ms != [] {
      var last := |ms| - 1;
      LookupFinds(ms[..last], name);
      if ms[last].name != name && Lookup(ms, name).Some? {
        var i :| 0 <= i < last && ms[..last][i].name == name;
        assert ms[i].name == name;
      }
      if i :| 0 <= i < |ms| && ms[i].name == name {
        if i < last { assert ms[..last][i].name == name; }
      }
    }
  }

  lemma {:induction false} LookupDistinct(ms: seq<Member>, i: nat)
    requires Distinct(ms) && i < |ms|
    ensures Lookup(ms, ms[i].name) == Some(ms[i].value)
  {
    if i < |ms| - 1 { LookupDistinct(ms[..|ms| - 1], i); }
  }

  predicate Allowed(ms: seq<Member>, names: set<string>) {
    Distinct(ms) && forall i :: 0 <= i < |ms| ==> ms[i].name in names
  }

  lemma AllowedNext(ms: seq<Member>, m: Member, names: set<string>)
    requires Allowed(ms, names) && m.name in names && Lookup(ms, m.name).None?
    ensures Allowed(ms + [m], names)
  {
    LookupFinds(ms, m.name);
  }

  ghost function PointerOf(s: Stream): Option<Pointer> {
    if !Strict(s, POINTER_NAMES) then None
    else
      LookupFinds(s.members, "schema_version");
      LookupFinds(s.members, "environment");
      LookupFinds(s.members, "revision");
      var schemaVersion := DecodeInt(Lookup(s.members, "schema_version").value);
      var environment := DecodeString(Lookup(s.members, "environment").value);
      var revision := DecodeString(Lookup(s.members, "revision").value);
      if schemaVersion.None? || environment.None? || revision.None? then None
      else Some(Pointer(schemaVersion.value, environment.value, revision.value))
  }

  /** Which members of a pointer have been read. */
  datatype PointerSeen = PointerSeen(schemaVersion: bool, environment: bool, revision: bool)

  ghost predicate PointerProgress(ms: seq<Member>, seen: PointerSeen, d: Pointer) {
    && seen.schemaVersion == Lookup(ms, "schema_version").Some?
    && seen.environment == Lookup(ms, "environment").Some?
    && seen.revision == Lookup(ms, "revision").Some?
    && (seen.schemaVersion ==> DecodeInt(Lookup(ms, "schema_version").value) == Some(d.schemaVersion))
    && (seen.environment ==> DecodeString(Lookup(ms, "environment").value) == Some(d.environment))
    && (seen.revision ==> DecodeString(Lookup(ms, "revision").value) == Some(d.revision))
  }

  /** One turn of the loop: refused when the name is unknown or was read
      before, or the value is null or of another type. */
  function TakePointer(seen: PointerSeen, d: Pointer, m: Member): Option<(PointerSeen, Pointer)> {
    if m.name == "schema_version" then
      var value := DecodeInt(m.value);
      if seen.schemaVersion || value.None? then None else Some((seen.(schemaVersion := true), d.(schemaVersion := value.value)))
    else if m.name == "environment" then
      var value := DecodeString(m.value);
      if seen.environment || value.None? then None else Some((seen.(environment := true), d.(environment := value.value)))
    else if m.name == "revision" then
      var value := DecodeString(m.value);
      if seen.revision || value.None? then None else Some((seen.(revision := true), d.(revision := value.value)))
    else None
  }

  lemma TakenPointer(ms: seq<Member>, m: Member, seen: PointerSeen, d: Pointer)
    requires PointerProgress(ms, seen, d) && TakePointer(seen, d, m).Some?
    ensures var next := TakePointer(seen, d, m).value; PointerProgress(ms + [m], next.0, next.1)
    ensures m.name in POINTER_NAMES && Lookup(ms, m.name).None?
  {
    assert (ms + [m])[..|ms|] == ms;
  }

  lemma RefusedPointer(s: Stream, i: nat, seen: PointerSeen, d: Pointer)
    requires i < |s.members| && PointerProgress(s.members[..i], seen, d)
    requires TakePointer(seen, d, s.members[i]).None?
    ensures PointerOf(s).None?
  {
    if Strict(s, POINTER_NAMES) {
      LookupDistinct(s.members, i);
      LookupFinds(s.members[..i], s.members[i].name);
    }
  }

  lemma CompletePointer(s: Stream, seen: PointerSeen, d: Pointer)
    requires s.opens && Allowed(s.members, POINTER_NAMES) && PointerProgress(s.members, seen, d)
    ensures PointerOf(s)
              == if s.closes && !s.extra && seen == PointerSeen(true, true, true) then Some(d) else None
  {
    forall n | n in POINTER_NAMES
      ensures Lookup(s.members, n).Some? <==> exists i :: 0 <= i < |s.members| && s.members[i].name == n
    {
      LookupFinds(s.members, n);
    }
  }

  /** The loop of DecodePointer, up to the end of the data. */
  method ReadPointer(s: Stream) returns (result: Option<Pointer>)
    ensures result == PointerOf(s)
  {
    if !s.opens { return None; }
    var ms := s.members;
    var d := Pointer(0, "", "");
    var seen := PointerSeen(false, false, false);
    for i := 0 to |ms|
      invariant Allowed(ms[..i], POINTER_NAMES)
      invariant PointerProgress(ms[..i], seen, d)
    {
      var next := TakePointer(seen, d, ms[i]);
      if next.None? {
        RefusedPointer(s, i, seen, d);
        return None;
      }
      assert ms[..i + 1] == ms[..i] + [ms[i]];
      TakenPointer(ms[..i], ms[i], seen, d);
      AllowedNext(ms[..i], ms[i], POINTER_NAMES);
      seen, d := next.value.0, next.value.1;
    }
    assert ms[..|ms|] == ms;
    CompletePointer(s, seen, d);
    if !s.closes || seen != PointerSeen(true, true, true) || s.extra { return None; }
    return Some(d);
  }

  ghost function DocumentOf(s: Stream, parse: string -> Option<int>): Option<Document> {
    if !Strict(s, DOCUMENT_NAMES) then None
    else
      LookupFinds(s.members, "schema_version");
      LookupFinds(s.members, "environment");
      LookupFinds(s.members, "issued_at");
      LookupFinds(s.members, "expires_at");
      LookupFinds(s.members, "private_hosts");
      var schemaVersion := DecodeInt(Lookup(s.members, "schema_version").value);
      var environment := DecodeString(Lookup(s.members, "environment").value);
      var issuedAt := DecodeTime(Lookup(s.members, "issued_at").value, parse);
      var expiresAt := DecodeTime(Lookup(s.members, "expires_at").value, parse);
      var privateHosts := DecodeHosts(Lookup(s.members, "private_hosts").value);
      if schemaVersion.None? || environment.None? || issuedAt.None? || expiresAt.None? || privateHosts.None? then None
      else Some(Document(schemaVersion.value, environment.value, issuedAt.value, expiresAt.value, privateHosts.value))
  }

  /** Which members of a document have been read. */
  datatype DocumentSeen = DocumentSeen(schemaVersion: bool, environment: bool, issuedAt: bool, expiresAt: bool, privateHosts: bool)

  ghost predicate DocumentProgress(ms: seq<Member>, seen: DocumentSeen, d: Document, parse: string -> Option<int>) {
    && seen.schemaVersion == Lookup(ms, "schema_version").Some?
    && seen.environment == Lookup(ms, "environment").Some?
    && seen.issuedAt == Lookup(ms, "issued_at").Some?
    && seen.expiresAt == Lookup(ms, "expires_at").Some?
    && seen.privateHosts == Lookup(ms, "private_hosts").Some?
    && (seen.schemaVersion ==> DecodeInt(Lookup(ms, "schema_version").value) == Some(d.schemaVersion))
    && (seen.environment ==> DecodeString(Lookup(ms, "environment").value) == Some(d.environment))
    && (seen.issuedAt ==> DecodeTime(Lookup(ms, "issued_at").value, parse) == Some(d.issuedAt))
    && (seen.expiresAt ==> DecodeTime(Lookup(ms, "expires_at").value, parse) == Some(d.expiresAt))
    && (seen.privateHosts ==> DecodeHosts(Lookup(ms, "private_hosts").value) == Some(d.privateHosts))
  }

  /** One turn of the loop: refused when the name is unknown or was read
      before, or the value is null or of another type. */
  function TakeDocument(seen: DocumentSeen, d: Document, m: Member, parse: string -> Option<int>): Option<(DocumentSeen, Document)> {
    if m.name == "schema_version" then
      var value := DecodeInt(m.value);
      if seen.schemaVersion || value.None? then None else Some((seen.(schemaVersion := true), d.(schemaVersion := value.value)))
    else if m.name == "environment" then
      var value := DecodeString(m.value);
      if seen.environment || value.None? then None else Some((seen.(environment := true), d.(environment := value.value)))
    else if m.name == "issued_at" then
      var value := DecodeTime(m.value, parse);
      if seen.issuedAt || value.None? then None else Some((seen.(issuedAt := true), d.(issuedAt := value.value)))
    else if m.name == "expires_at" then
      var value := DecodeTime(m.value, parse);
      if seen.expiresAt || value.None? then None else Some((seen.(expiresAt := true), d.(expiresAt := value.value)))
    else if m.name == "private_hosts" then
      var value := DecodeHosts(m.value);
      if seen.privateHosts || value.None? then None else Some((seen.(privateHosts := true), d.(privateHosts := value.value)))
    else None
  }

  lemma TakenDocument(ms: seq<Member>, m: Member, seen: DocumentSeen, d: Document, parse: string -> Option<int>)
    requires DocumentProgress(ms, seen, d, parse) && TakeDocument(seen, d, m, parse).Some?
    ensures var next := TakeDocument(seen, d, m, parse).value; DocumentProgress(ms + [m], next.0, next.1, parse)
    ensures m.name in DOCUMENT_NAMES && Lookup(ms, m.name).None?
  {
    assert (ms + [m])[..|ms|] == ms;
  }

  lemma RefusedDocument(s: Stream, i: nat, seen: DocumentSeen, d: Document, parse: string -> Option<int>)
    requires i < |s.members| && DocumentProgress(s.members[..i], seen, d, parse)
    requires TakeDocument(seen, d, s.members[i], parse).None?
    ensures DocumentOf(s, parse).None?
  {
    if Strict(s, DOCUMENT_NAMES) {
      LookupDistinct(s.members, i);
      LookupFinds(s.members[..i], s.members[i].name);
    }
  }

  lemma CompleteDocument(s: Stream, seen: DocumentSeen, d: Document, parse: string -> Option<int>)
    requires s.opens && Allowed(s.members, DOCUMENT_NAMES) && DocumentProgress(s.members, seen, d, parse)
    ensures DocumentOf(s, parse)
              == if s.closes && !s.extra && seen == DocumentSeen(true, true, true, true, true) then Some(d) else None
  {
    forall n | n in DOCUMENT_NAMES
      ensures Lookup(s.members, n).Some? <==> exists i :: 0 <= i < |s.members| && s.members[i].name == n
    {
      LookupFinds(s.members, n);
    }
  }

  /** The loop of Decode, up to the end of the data. */
  method ReadDocument(s: Stream, parse: string -> Option<int>) returns (result: Option<Document>)
    ensures result == DocumentOf(s, parse)
  {
    if !s.opens { return None; }
    var ms := s.members;
    var d := Document(0, "", 0, 0, []);
    var seen := DocumentSeen(false, false, false, false, false);
    for i := 0 to |ms|
      invariant Allowed(ms[..i], DOCUMENT_NAMES)
      invariant DocumentProgress(ms[..i], seen, d, parse)
    {
      var next := TakeDocument(seen, d, ms[i], parse);
      if next.None? {
        RefusedDocument(s, i, seen, d, parse);
        return None;
      }
      assert ms[..i + 1] == ms[..i] + [ms[i]];
      TakenDocument(ms[..i], ms[i], seen, d, parse);
      AllowedNext(ms[..i], ms[i], DOCUMENT_NAMES);
      seen, d := next.value.0, next.value.1;
    }
    assert ms[..|ms|] == ms;
    CompleteDocument(s, seen, d, parse);
    if !s.closes || seen != DocumentSeen(true, true, true, true, true) || s.extra { return None; }
    return Some(d);
  }

  // ---------------------------------------------------- the order of members

  lemma {:induction false} DistinctOnce(ms: seq<Member>, m: Member)
    requires Distinct(ms)
    ensures multiset(ms)[m] <= 1
  {
    if ms != [] {
      assert ms == [ms[0]] + ms[1..];
      DistinctOnce(ms[1..], m);
      if ms[0] == m { assert m !in ms[1..]; }
    }
  }

  lemma TwiceCounted(ns: seq<Member>, i: nat, j: nat)
    requires i < j < |ns| && ns[i] == ns[j]
    ensures multiset(ns)[ns[i]] >= 2
  {
    var rest := ns[i + 1..];
    assert ns == ns[..i] + [ns[i]] + rest;
    assert rest[j - i - 1] == ns[j];
    assert multiset(ns) == multiset(ns[..i]) + multiset{ns[i]} + multiset(rest);
  }

  lemma DistinctPermuted(ms: seq<Member>, ns: seq<Member>)
    requires multiset(ms) == multiset(ns) && Distinct(ms)
    ensures Distinct(ns)
  {
    forall i, j | 0 <= i < j < |ns| ensures ns[i].name != ns[j].name {
      DistinctOnce(ms, ns[i]);
      if ns[i] == ns[j] { TwiceCounted(ns, i, j); }
      assert ns[i] in multiset(ms) && ns[j] in multiset(ms);
      var a :| 0 <= a < |ms| && ms[a] == ns[i];
      var b :| 0 <= b < |ms| && ms[b] == ns[j];
      assert a != b;
    }
  }

  lemma SameLookup(ms: seq<Member>, ns: seq<Member>, name: string)
    requires multiset(ms) == multiset(ns) && Distinct(ms) && Distinct(ns)
    ensures Lookup(ms, name) == Lookup(ns, name)
  {
    LookupFinds(ms, name);
    LookupFinds(ns, name);
    if Lookup(ms, name).Some? {
      var i :| 0 <= i < |ms| && ms[i].name == name;
      assert ms[i] in multiset(ns);
      var j :| 0 <= j < |ns| && ns[j] == ms[i];
      LookupDistinct(ms, i);
      LookupDistinct(ns, j);
    } else {
      assert forall j :: 0 <= j < |ns| ==> ns[j] in multiset(ms);
    }
  }

  lemma StrictPermuted(s: Stream, ns: seq<Member>, names: set<string>)
    requires multiset(s.members) == multiset(ns) && Strict(s, names)
    ensures Strict(s.(members := ns), names)
    ensures forall n :: Lookup(s.members, n) == Lookup(ns, n)
  {
    DistinctPermuted(s.members, ns);
    forall n ensures Lookup(s.members, n) == Lookup(ns, n) {
      SameLookup(s.members, ns, n);
    }
    forall i | 0 <= i < |ns| ensures ns[i].name in names {
      assert ns[i] in multiset(s.members);
    }
    forall n | n in names ensures exists i :: 0 <= i < |ns| && ns[i].name == n {
      LookupFinds(s.members, n);
      LookupFinds(ns, n);
    }
  }

  /** What is decoded does not depend on the order of the members. */
  lemma OrderIrrelevant(s: Stream, ns: seq<Member>, parse: string -> Option<int>)
    requires multiset(s.members) == multiset(ns)
    ensures PointerOf(s) == PointerOf(s.(members := ns))
    ensures DocumentOf(s, parse) == DocumentOf(s.(members := ns), parse)
  {
    StrictEitherWay(s, ns, POINTER_NAMES);
    StrictEitherWay(s, ns, DOCUMENT_NAMES);
  }

  lemma StrictEitherWay(s: Stream, ns: seq<Member>, names: set<string>)
    requires multiset(s.members) == multiset(ns)
    ensures Strict(s, names) <==> Strict(s.(members := ns), names)
    ensures Strict(s, names) ==> forall n :: Lookup(s.members, n) == Lookup(ns, n)
  {
    var r := s.(members := ns);
    if Strict(s, names) { StrictPermuted(s, ns, names); }
    if Strict(r, names) {
      StrictPermuted(r, s.members, names);
      assert r.(members := s.members) == s;
    }
  }

  // ---------------------------------------------------------------- decoding

  ghost function DecodedPointer(data: string, environment: string, t: Tools): Option<Pointer> {
    var p := PointerOf(t.read(data));
    if |data| > 4096 || p.None? || p.value.schemaVersion != 1 || !ValidEnvironmentName(environment)
       || p.value.environment != environment || !ValidRevision(p.value.revision) then None
    else p
  }

  method DecodePointer(data: string, environment: string, t: Tools) returns (result: Option<Pointer>)
    ensures result == DecodedPointer(data, environment, t)
  {
    if |data| > MAX_POINTER_SIZE { return None; }
    result := ReadPointer(t.read(data));
    if result.None? || result.value.schemaVersion != 1 { return None; }
    if !ValidEnvironmentName(environment) || result.value.environment != environment { return None; }
    if !ValidRevision(result.value.revision) { return None; }
  }

  ghost function DecodedDocument(data: string, environment: string, revision: string, now: int, t: Tools): Option<Document> {
    var d := DocumentOf(t.read(data), t.parse);
    if |data| > 65536 || revision != RevisionOf(data, t) || d.None?
       || !Valid(d.value, environment, now, t.isIP) then None
    else d
  }

  method Decode(data: string, environment: string, revision: string, now: int, t: Tools) returns (result: Option<Document>)
    ensures result == DecodedDocument(data, environment, revision, now, t)
  {
    if |data| > MAX_DOCUMENT_SIZE { return None; }
    if revision != RevisionOf(data, t) { return None; }
    result := ReadDocument(t.read(data), t.parse);
    if result.None? { return None; }
    var ok := Validate(result.value, environment, now, t.isIP);
    if !ok { return None; }
  }

  /** A revision under which a document decodes spells the digest of its data,
      byte by byte; so under the revision of one text no other text decodes
      unless the two have the same digest. */
  lemma RevisionNamesDigest(data: string, environment: string, revision: string, now: int, t: Tools)
    requires DecodedDocument(data, environment, revision, now, t).Some?
    ensures |revision| == 64
    ensures forall i :: 0 <= i < 32 ==>
              DigitValue(revision[2 * i]) * 16 + DigitValue(revision[2 * i + 1]) == t.digest(data)[i]
  {
    forall i | 0 <= i < 32
      ensures DigitValue(revision[2 * i]) * 16 + DigitValue(revision[2 * i + 1]) == t.digest(data)[i]
    {
      HexReadsBack(t.digest(data), i);
    }
  }

  lemma ChangedDataIsRefused(data: string, changed: string, environment: string, now: int, t: Tools)
    requires t.digest(changed) != t.digest(data)
    ensures DecodedDocument(changed, environment, RevisionOf(data, t), now, t).None?
  {
    HexIsInjective(t.digest(changed), t.digest(data));
  }

  // ------------------------------------------- decoded values, member by member

  lemma FoundIsMember(ms: seq<Member>, name: string)
    requires Distinct(ms)
    ensures forall v :: Lookup(ms, name) == Some(v) <==> Member(name, v) in ms
  {
    LookupFinds(ms, name);
    forall v ensures Lookup(ms, name) == Some(v) <==> Member(name, v) in ms {
      if Lookup(ms, name) == Some(v) {
        var i :| 0 <= i < |ms| && ms[i].name == name;
        LookupDistinct(ms, i);
        assert ms[i] == Member(name, v);
      }
      if Member(name, v) in ms {
        var i :| 0 <= i < |ms| && ms[i] == Member(name, v);
        LookupDistinct(ms, i);
      }
    }
  }

  function NamesOf(ms: seq<Member>): set<string> {
    set i | 0 <= i < |ms| :: ms[i].name
  }

  lemma NamesOfNext(ms: seq<Member>)
    requires |ms| > 0
    ensures NamesOf(ms) == NamesOf(ms[..|ms| - 1]) + {ms[|ms| - 1].name}
  {
    assert forall i :: 0 <= i < |ms| - 1 ==> ms[i] == ms[..|ms| - 1][i];
  }

  lemma DistinctNext(ms: seq<Member>)
    requires |ms| > 0
    ensures Distinct(ms) <==> Distinct(ms[..|ms| - 1]) && ms[|ms| - 1].name !in NamesOf(ms[..|ms| - 1])
  {
    var front, name := ms[..|ms| - 1], ms[|ms| - 1].name;
    assert forall i :: 0 <= i < |front| ==> front[i] == ms[i] && front[i].name in NamesOf(front);
    if name in NamesOf(front) {
      var i :| 0 <= i < |front| && front[i].name == name;
      assert ms[i].name == ms[|ms| - 1].name;
    }
  }

  lemma {:induction false} NamesOfSize(ms: seq<Member>)
    ensures |NamesOf(ms)| <= |ms|
    ensures |NamesOf(ms)| == |ms| <==> Distinct(ms)
  {
    if |ms| > 0 {
      NamesOfSize(ms[..|ms| - 1]);
      NamesOfNext(ms);
      DistinctNext(ms);
    }
  }

  lemma SameSizeSameSet<T>(a: set<T>, b: set<T>)
    requires a <= b && |a| >= |b|
    ensures a == b
  {
    assert b == a + (b - a);
  }

  /** Each name once and no other name: as many members as names, and every
      name among them. */
  lemma StrictIsCount(s: Stream, names: set<string>)
    ensures Strict(s, names) <==>
            && s.opens && s.closes && !s.extra && |s.members| == |names|
            && forall n :: n in names ==> Named(s, n)
  {
    var ms := s.members;
    NamesOfSize(ms);
    forall n ensures n in NamesOf(ms) <==> Named(s, n) {
      if n in NamesOf(ms) {
        var i :| 0 <= i < |ms| && ms[i].name == n;
        assert ms[i] == Member(n, ms[i].value);
      }
      if v :| Member(n, v) in ms {
        var i :| 0 <= i < |ms| && ms[i] == Member(n, v);
        assert ms[i].name in NamesOf(ms);
      }
    }
    if Strict(s, names) {
      assert NamesOf(ms) == names;
    }
    if |ms| == |names| && forall n :: n in names ==> Named(s, n) {
      assert names <= NamesOf(ms);
      SameSizeSameSet(names, NamesOf(ms));
      assert forall i :: 0 <= i < |ms| ==> ms[i].name in NamesOf(ms);
    }
  }

  lemma NamesCounted()
    ensures |POINTER_NAMES| == 3 && |DOCUMENT_NAMES| == 5
    ensures POINTER_NAMES == {"schema_version", "environment", "revision"}
    ensures DOCUMENT_NAMES == {"schema_version", "environment", "issued_at", "expires_at", "private_hosts"}
  {
    var three := {"schema_version", "environment", "revision"};
    var two := {"environment", "revision"};
    assert two == {"environment"} + {"revision"} && |two| == 2;
    assert three == {"schema_version"} + two && |three| == 3;
    var times := {"issued_at", "expires_at"};
    assert times == {"issued_at"} + {"expires_at"} && |times| == 2;
    var rest := times + {"private_hosts"};
    assert |rest| == 3;
    assert DOCUMENT_NAMES == {"schema_version", "environment"} + rest;
    assert |{"schema_version", "environment"}| == 2;
  }

  predicate IsInt64(digits: string, n: int) {
    Decimal.Atoi(digits) == Some(n) && -0x8000_0000_0000_0000 <= n < 0x8000_0000_0000_0000
  }

  ghost predicate HasVersion(s: Stream, n: int) {
    exists digits :: Member("schema_version", JNumber(digits)) in s.members && IsInt64(digits, n)
  }

  ghost predicate HasText(s: Stream, name: string, text: string) {
    Member(name, JString(text)) in s.members
  }

  ghost predicate HasTime(s: Stream, name: string, time: int, parse: string -> Option<int>) {
    exists text :: Member(name, JString(text)) in s.members && parse(text) == Some(time)
  }

  /** An array of these strings, null counting as an empty one. */
  ghost predicate HasHosts(s: Stream, name: string, hosts: seq<string>) {
    exists items: seq<Json> ::
      && Member(name, JArray(items)) in s.members && |items| == |hosts|
      && forall i :: 0 <= i < |items| ==> items[i] == JString(hosts[i]) || (items[i].JNull? && hosts[i] == "")
  }

  lemma VersionRead(s: Stream, n: int)
    requires Distinct(s.members)
    ensures HasVersion(s, n) <==>
            var v := Lookup(s.members, "schema_version"); v.Some? && DecodeInt(v.value) == Some(n)
  {
    FoundIsMember(s.members, "schema_version");
  }

  lemma TextRead(s: Stream, name: string, text: string)
    requires Distinct(s.members)
    ensures HasText(s, name, text) <==> var v := Lookup(s.members, name); v.Some? && DecodeString(v.value) == Some(text)
  {
    FoundIsMember(s.members, name);
  }

  lemma TimeRead(s: Stream, name: string, time: int, parse: string -> Option<int>)
    requires Distinct(s.members)
    ensures HasTime(s, name, time, parse) <==>
            var v := Lookup(s.members, name); v.Some? && DecodeTime(v.value, parse) == Some(time)
  {
    FoundIsMember(s.members, name);
  }

  lemma HostsRead(s: Stream, name: string, hosts: seq<string>)
    requires Distinct(s.members)
    ensures HasHosts(s, name, hosts) <==> var v := Lookup(s.members, name); v.Some? && DecodeHosts(v.value) == Some(hosts)
  {
    FoundIsMember(s.members, name);
    var v := Lookup(s.members, name);
    if v.Some? && v.value.JArray? {
      var items := v.value.items;
      if DecodeHosts(v.value) == Some(hosts) {
        assert Member(name, JArray(items)) in s.members;
      }
      if HasHosts(s, name, hosts) {
        assert Strings(items).Some? && Strings(items).value == hosts;
      }
    }
  }

  lemma PresentInStrict(s: Stream, names: set<string>, name: string)
    requires Strict(s, names) && name in names
    ensures Lookup(s.members, name).Some?
  {
    LookupFinds(s.members, name);
  }

  lemma PointerReads(s: Stream, p: Pointer)
    requires Strict(s, POINTER_NAMES)
    ensures PointerOf(s) == Some(p) <==>
            HasVersion(s, p.schemaVersion) && HasText(s, "environment", p.environment) && HasText(s, "revision", p.revision)
  {
    PresentInStrict(s, POINTER_NAMES, "schema_version");
    PresentInStrict(s, POINTER_NAMES, "environment");
    PresentInStrict(s, POINTER_NAMES, "revision");
    VersionRead(s, p.schemaVersion);
    TextRead(s, "environment", p.environment);
    TextRead(s, "revision", p.revision);
  }

  /** The document's values, found and decoded one by one. */
  ghost predicate DecodesEach(s: Stream, parse: string -> Option<int>, d: Document) {
    var version, environment := Lookup(s.members, "schema_version"), Lookup(s.members, "environment");
    var issued, expires := Lookup(s.members, "issued_at"), Lookup(s.members, "expires_at");
    var hosts := Lookup(s.members, "private_hosts");
    && version.Some? && DecodeInt(version.value) == Some(d.schemaVersion)
    && environment.Some? && DecodeString(environment.value) == Some(d.environment)
    && issued.Some? && DecodeTime(issued.value, parse) == Some(d.issuedAt)
    && expires.Some? && DecodeTime(expires.value, parse) == Some(d.expiresAt)
    && hosts.Some? && DecodeHosts(hosts.value) == Some(d.privateHosts)
  }

  lemma DocumentOfEach(s: Stream, parse: string -> Option<int>, d: Document)
    requires Strict(s, DOCUMENT_NAMES)
    ensures DocumentOf(s, parse) == Some(d) <==> DecodesEach(s, parse, d)
  {
    PresentInStrict(s, DOCUMENT_NAMES, "schema_version");
    PresentInStrict(s, DOCUMENT_NAMES, "environment");
    PresentInStrict(s, DOCUMENT_NAMES, "issued_at");
    PresentInStrict(s, DOCUMENT_NAMES, "expires_at");
    PresentInStrict(s, DOCUMENT_NAMES, "private_hosts");
  }

  lemma DocumentReads(s: Stream, parse: string -> Option<int>, d: Document)
    requires Distinct(s.members)
    ensures DecodesEach(s, parse, d) <==> HasDocument(s, parse, d)
  {
    VersionRead(s, d.schemaVersion);
    TextRead(s, "environment", d.environment);
    TimeRead(s, "issued_at", d.issuedAt, parse);
    TimeRead(s, "expires_at", d.expiresAt, parse);
    HostsRead(s, "private_hosts", d.privateHosts);
  }

  ghost predicate HasDocument(s: Stream, parse: string -> Option<int>, d: Document) {
    && HasVersion(s, d.schemaVersion) && HasText(s, "environment", d.environment)
    && HasTime(s, "issued_at", d.issuedAt, parse) && HasTime(s, "expires_at", d.expiresAt, parse)
    && HasHosts(s, "private_hosts", d.privateHosts)
  }

  ghost predicate Named(s: Stream, name: string) {
    exists v :: Member(name, v) in s.members
  }

  lemma TextIsNamed(s: Stream, name: string, text: string)
    requires HasText(s, name, text)
    ensures Named(s, name)
  {
    assert Member(name, JString(text)) in s.members;
  }

  lemma DocumentIsNamed(s: Stream, parse: string -> Option<int>, d: Document)
    requires HasDocument(s, parse, d)
    ensures Named(s, "schema_version") && Named(s, "environment") && Named(s, "issued_at") && Named(s, "expires_at")
    ensures Named(s, "private_hosts")
  {
    TextIsNamed(s, "environment", d.environment);
    var digits :| Member("schema_version", JNumber(digits)) in s.members;
    var issued :| Member("issued_at", JString(issued)) in s.members;
    var expires :| Member("expires_at", JString(expires)) in s.members;
    var items :| Member("private_hosts", JArray(items)) in s.members;
  }

  /** A pointer is read exactly from an object of its three members. */
  lemma PointerReadExactly(s: Stream, p: Pointer)
    ensures PointerOf(s) == Some(p) <==>
            && s.opens && s.closes && !s.extra && |s.members| == 3
            && HasVersion(s, p.schemaVersion) && HasText(s, "environment", p.environment)
            && HasText(s, "revision", p.revision)
  {
    NamesCounted();
    StrictIsCount(s, POINTER_NAMES);
    if HasVersion(s, p.schemaVersion) && HasText(s, "environment", p.environment) && HasText(s, "revision", p.revision) {
      TextIsNamed(s, "environment", p.environment);
      TextIsNamed(s, "revision", p.revision);
      var digits :| Member("schema_version", JNumber(digits)) in s.members;
      assert forall n :: n in POINTER_NAMES ==> Named(s, n);
    }
    if Strict(s, POINTER_NAMES) { PointerReads(s, p); }
  }

  /** A document is read exactly from an object of its five members. */
  lemma DocumentReadExactly(s: Stream, parse: string -> Option<int>, d: Document)
    ensures DocumentOf(s, parse) == Some(d) <==>
            s.opens && s.closes && !s.extra && |s.members| == 5 && HasDocument(s, parse, d)
  {
    NamesCounted();
    StrictIsCount(s, DOCUMENT_NAMES);
    if HasDocument(s, parse, d) {
      DocumentIsNamed(s, parse, d);
      assert forall n :: n in DOCUMENT_NAMES ==> Named(s, n);
    }
    if Strict(s, DOCUMENT_NAMES) {
      DocumentOfEach(s, parse, d);
      DocumentReads(s, parse, d);
    }
  }
}
