/** The registry of active sessions (internal/session/active_sessions.go).

    A directory holds one record file per session; the owner keeps the file
    locked while the session lasts.  This module gives the record files, the
    critical sections that run under the registry lock, and what each of them
    does to the directory.  RegistryProtocol.dfy interleaves them. */
module SessionRegistry {
  import opened Wrappers

  type SessionId = nat

  type ProcessId = nat

  datatype Record = Record(
    id: SessionId,
    environment: string,
    maxSessions: int,
    proxyPort: int,
    socksPort: int,
    acr: bool)

  /** `owner` is the process holding the file's lock; `content` is None while
      the file is empty or does not decode. */
  datatype RecordFile = RecordFile(owner: Option<ProcessId>, content: Option<Record>)

  type Files = map<SessionId, RecordFile>

  datatype RegistryError =
    | LimitReached
    | CannotCreate
    | AlreadyClaimed
    | SessionEnded

  /** The changes that `update` is called with. */
  datatype Change =
    | SetPorts(proxyPort: int, socksPort: int)
    | ClaimACR
    | ReleaseACR

  function UnknownRecord(id: SessionId): Record {
    Record(id, "", 0, 0, 0, false)
  }

  /** What a scan reports for a locked file: a record that cannot be read, or
      that names another session, still counts but says nothing else. */
  function ReadRecord(id: SessionId, file: RecordFile): Record {
    if file.content.Some? && file.content.value.id == id then file.content.value else UnknownRecord(id)
  }

  /** The files that survive a scan: those whose lock is held. */
  function Surviving(files: Files): Files {
    map id | id in files && files[id].owner.Some? :: files[id]
  }

  /** The records a scan of `files` reports, by session. */
  function Reported(files: Files): map<SessionId, Record> {
    map id | id in files && files[id].owner.Some? :: ReadRecord(id, files[id])
  }

  /** `active` lists each record of `records` once. */
  ghost predicate Lists(active: seq<Record>, records: map<SessionId, Record>) {
    && |active| == |records|
    && (forall i :: 0 <= i < |active| ==> active[i].id in records && records[active[i].id] == active[i])
    && (forall id :: id in records ==> records[id] in active)
  }

  /** Every active session, and the new one, tolerates one session more. */
  ghost predicate Admits(records: map<SessionId, Record>, limit: int) {
    && |records| < limit
    && forall id :: id in records && records[id].maxSessions > 0 ==> |records| < records[id].maxSessions
  }

  /** Some session other than `id` has registry access. */
  ghost predicate ClaimedByOther(records: map<SessionId, Record>, id: SessionId) {
    exists other :: other in records && other != id && records[other].acr
  }


  /** A live session whose readable record carries the claim. */
  ghost predicate HoldsClaim(files: Files, id: SessionId) {
    && id in files && files[id].owner.Some? && files[id].content.Some?
    && files[id].content.value.id == id && files[id].content.value.acr
  }

  ghost predicate OtherHoldsClaim(files: Files, id: SessionId) {
    exists other :: other != id && HoldsClaim(files, other)
  }

  lemma ClaimedByHolder(files: Files, id: SessionId)
    ensures ClaimedByOther(Reported(files), id) <==> OtherHoldsClaim(files, id)
  {
    forall other ensures (other in Reported(files) && Reported(files)[other].acr) <==> HoldsClaim(files, other) {
    }
  }

  /** What a scan says of file `id`: its record, or no more than its name if
      that cannot be read or is another session's. */
  ghost predicate Describes(files: Files, id: SessionId, record: Record) {
    && id in files
    && if files[id].content.Some? && files[id].content.value.id == id then record == files[id].content.value
       else record == Record(id, "", 0, 0, 0, false)
  }

  lemma AdmitsSurvivors(files: Files, limit: int)
    ensures var left := Surviving(files);
            Admits(Reported(files), limit) <==>
            |left| + 1 <= limit &&
            forall id, record :: Describes(left, id, record) && record.maxSessions > 0 ==> |left| + 1 <= record.maxSessions
  {
    var left, reported := Surviving(files), Reported(files);
    assert left.Keys == reported.Keys;
    assert |left| == |left.Keys| == |reported.Keys| == |reported|;
    assert forall id, record :: Describes(left, id, record) ==> id in reported && reported[id] == record;
    assert forall id :: id in reported ==> Describes(left, id, reported[id]);
  }

  /** Whether a scan reports the claim of another session. */
  method ClaimedElsewhere(active: seq<Record>, id: SessionId, ghost files: Files) returns (taken: bool)
    requires forall record :: record in active <==> exists other :: Describes(Surviving(files), other, record)
    ensures taken <==> OtherHoldsClaim(files, id)
  {
    if other :| other != id && HoldsClaim(files, other) {
      assert Describes(Surviving(files), other, files[other].content.value);
      assert files[other].content.value in active;
    }
    for i := 0 to |active|
      invariant forall k :: 0 <= k < i ==> !(active[k].id != id && active[k].acr)
    {
      if active[i].id != id && active[i].acr {
        assert active[i] in active;
        ghost var other :| Describes(Surviving(files), other, active[i]);
        assert HoldsClaim(files, other);
        return true;
      }
    }
    return false;
  }

  lemma ListedAreDescribed(active: seq<Record>, files: Files, records: map<SessionId, Record>)
    requires Lists(active, records) && records.Keys == files.Keys
    requires forall id :: id in files ==> records[id] == ReadRecord(id, files[id])
    ensures |active| == |files|
    ensures forall record :: record in active <==> exists id :: Describes(files, id, record)
  {
    assert |active| == |records.Keys| == |files.Keys|;
    forall record ensures record in active <==> exists id :: Describes(files, id, record) {
      if record in active {
        assert Describes(files, record.id, record);
      }
      if id :| Describes(files, id, record) {
        assert records[id] == record;
      }
    }
  }

  /** One registration: its process, its random identifier, its profile. */
  datatype Registration = Registration(pid: ProcessId, id: SessionId, environment: string, limit: int)

  function FirstRecord(r: Registration): RecordFile {
    RecordFile(Some(r.pid), Some(Record(r.id, r.environment, r.limit, 0, 0, false)))
  }

  /** What a registration answers, and the files it leaves. */
  ghost function Joined(files: Files, r: Registration): (Outcome<RegistryError>, Files) {
    if !Admits(Reported(files), r.limit) then (Fail(LimitReached), Surviving(files))
    else if r.id in Surviving(files) then (Fail(CannotCreate), Surviving(files))
    else (Pass, Surviving(files)[r.id := FirstRecord(r)])
  }

  function Changed(record: Record, change: Change): Record {
    match change
    case SetPorts(proxyPort, socksPort) => record.(proxyPort := proxyPort, socksPort := socksPort)
    case ClaimACR => record.(acr := true)
    case ReleaseACR => record.(acr := false)
  }

  /** sessionLimitOf: the lowest positive limit among the records, or 0. */
  method SessionLimitOf(active: seq<Record>) returns (limit: int)
    ensures limit >= 0
    ensures limit == 0 <==> forall i :: 0 <= i < |active| ==> active[i].maxSessions <= 0
    ensures limit > 0 ==> exists i :: 0 <= i < |active| && active[i].maxSessions == limit
    ensures forall i :: 0 <= i < |active| && active[i].maxSessions > 0 ==> limit <= active[i].maxSessions
  {
    limit := 0;
    for k := 0 to |active|
      invariant limit >= 0
      invariant limit == 0 <==> forall i :: 0 <= i < k ==> active[i].maxSessions <= 0
      invariant limit > 0 ==> exists i :: 0 <= i < k && active[i].maxSessions == limit
      invariant forall i :: 0 <= i < k && active[i].maxSessions > 0 ==> limit <= active[i].maxSessions
    {
      if active[k].maxSessions > 0 && (limit == 0 || active[k].maxSessions < limit) {
        limit := active[k].maxSessions;
      }
    }
  }

  /** The test of registerSession: fewer records than the lowest limit among
      them and the new session's own. */
  method BelowLimits(active: seq<Record>, limit: int, ghost records: map<SessionId, Record>) returns (admitted: bool)
    requires Lists(active, records)
    ensures admitted <==> Admits(records, limit)
  {
    var effective := limit;
    var lowest := SessionLimitOf(active);
    if lowest > 0 && lowest < effective {
      effective := lowest;
    }
    AdmittedBelowLowest(active, records, limit, lowest);
    admitted := |active| < effective;
  }

  /** The directory, as the holder of registry.lock sees and changes it. */
  class Directory {
    var files: Files

    constructor ()
      ensures files == map[]
    {
      files := map[];
    }

    /** os.ReadDir: every name once. */
    method ReadDir() returns (entries: seq<SessionId>)
      ensures forall id :: id in entries <==> id in files
      ensures forall i, j :: 0 <= i < |entries| && 0 <= j < |entries| && i != j ==> entries[i] != entries[j]
    {
      entries := [];
      var rest := files.Keys;
      while rest != {}
        invariant rest <= files.Keys
        invariant forall id :: id in entries <==> id in files && id !in rest
        invariant forall i, j :: 0 <= i < j < |entries| ==> entries[i] != entries[j]
        decreases |rest|
      {
        var id :| id in rest;
        entries := entries + [id];
        rest := rest - {id};
      }
    }

    /** scanSessions: reports the locked records and removes the others. */
    method ScanSessions() returns (active: seq<Record>)
      modifies this
      ensures forall id :: id in files <==> id in old(files) && old(files)[id].owner.Some?
      ensures forall id :: id in files ==> files[id] == old(files)[id]
      ensures |active| == |files| && forall record :: record in active <==> exists id :: Describes(files, id, record)
      ensures files == Surviving(old(files))
      ensures Lists(active, Reported(old(files)))
    {
      ghost var before := files;
      var entries := ReadDir();
      active := [];
      ghost var visited: set<SessionId> := {};
      ghost var done: map<SessionId, Record> := map[];
      for i := 0 to |entries|
        invariant forall k :: 0 <= k < i ==> entries[k] in visited
        invariant forall k :: i <= k < |entries| ==> entries[k] !in visited
        invariant visited <= before.Keys
        invariant forall id :: id in files <==> id in before && (id in visited ==> before[id].owner.Some?)
        invariant forall id :: id in files ==> files[id] == before[id]
        invariant forall id :: id in done <==> id in visited && before[id].owner.Some?
        invariant forall id :: id in done ==> done[id] == ReadRecord(id, before[id])
        invariant Lists(active, done)
      {
        var id := entries[i];
        assert forall k :: i < k < |entries| ==> entries[k] != id;
        visited := visited + {id};
        if files[id].owner.None? {
          files := files - {id};
        } else {
          var record := ReadRecord(id, files[id]);
          ListsExtended(active, done, id, record);
          active := active + [record];
          done := done[id := record];
        }
      }
      assert visited == before.Keys by {
        forall id | id in before ensures id in visited {
          assert id in entries;
        }
      }
      ScanIsComplete(before, files, done);
      ListedAreDescribed(active, files, done);
    }

    /** The scan under the guard, and the test against the limits: with one
        session more, neither its own limit nor that of an active session
        whose record can be read is exceeded. */
    method Admit(limit: int) returns (admitted: bool)
      modifies this
      ensures files == Surviving(old(files))
      ensures admitted <==>
        |files| + 1 <= limit &&
        forall id, record :: Describes(files, id, record) && record.maxSessions > 0 ==> |files| + 1 <= record.maxSessions
      ensures admitted <==> Admits(Reported(old(files)), limit)
    {
      ghost var reported := Reported(files);
      var active := ScanSessions();
      admitted := BelowLimits(active, limit, reported);
      AdmitsSurvivors(old(files), limit);
    }

    /** The scan of an update, and the test of a claim against it. */
    method ScanForClaim(id: SessionId, claims: bool) returns (taken: bool)
      modifies this
      ensures files == Surviving(old(files))
      ensures taken <==> claims && OtherHoldsClaim(old(files), id)
    {
      ghost var before := files;
      var active := ScanSessions();
      taken := false;
      if claims {
        taken := ClaimedElsewhere(active, id, before);
      }
    }

    /** registerSession, from the acquired guard to its release.  `id` is the
        random identifier: creation fails when the name is taken. */
    method RegisterSession(pid: ProcessId, id: SessionId, environment: string, limit: int)
      returns (outcome: Outcome<RegistryError>)
      modifies this
      ensures outcome == Fail(LimitReached) <==> !Admits(Reported(old(files)), limit)
      ensures outcome == Fail(CannotCreate) <==> Admits(Reported(old(files)), limit) && id in Surviving(old(files))
      ensures outcome.Fail? ==> files == Surviving(old(files))
      ensures outcome.Pass? ==>
        && id !in Surviving(old(files))
        && files == Surviving(old(files))[id := RecordFile(Some(pid), Some(Record(id, environment, limit, 0, 0, false)))]
      ensures (outcome, files) == Joined(old(files), Registration(pid, id, environment, limit))
    {
      var admitted := Admit(limit);
      if !admitted {
        return Fail(LimitReached);
      }
      if id in files {
        return Fail(CannotCreate);
      }
      files := files[id := RecordFile(None, None)];
      files := files[id := RecordFile(Some(pid), None)];
      files := files[id := RecordFile(Some(pid), Some(Record(id, environment, limit, 0, 0, false)))];
      return Pass;
    }
  }

  /** One session's handle on its record. */
  class ActiveSession {
    const directory: Directory
    const pid: ProcessId
    const id: SessionId
    var open: bool
    var record: Record

    ghost predicate Valid()
      reads this, directory
    {
      && record.id == id
      && (open ==> id in directory.files && directory.files[id] == RecordFile(Some(pid), Some(record)))
    }

    constructor (directory: Directory, pid: ProcessId, record: Record)
      requires record.id in directory.files && directory.files[record.id] == RecordFile(Some(pid), Some(record))
      ensures Valid() && open
      ensures this.directory == directory && this.pid == pid && this.id == record.id && this.record == record
    {
      this.directory := directory;
      this.pid := pid;
      this.id := record.id;
      this.open := true;
      this.record := record;
    }

    /** update, with the guard acquired at once and the write succeeding. */
    method Update(change: Change) returns (outcome: Outcome<RegistryError>)
      requires Valid()
      modifies this`record, directory
      ensures Valid() && open == old(open)
      ensures outcome == Fail(SessionEnded) <==> !open
      ensures outcome == Fail(AlreadyClaimed) <==>
        open && change.ClaimACR? && ClaimedByOther(Reported(old(directory.files)), id)
      ensures outcome.Pass? || outcome == Fail(SessionEnded) || outcome == Fail(AlreadyClaimed)
      ensures outcome == Fail(AlreadyClaimed) <==>
        open && change.ClaimACR? && OtherHoldsClaim(old(directory.files), id)
      ensures record.id == old(record.id) && record.environment == old(record.environment)
      ensures record.maxSessions == old(record.maxSessions)
      ensures outcome.Pass? && change.SetPorts? ==>
        (record.proxyPort, record.socksPort, record.acr) == (change.proxyPort, change.socksPort, old(record.acr))
      ensures outcome.Pass? && !change.SetPorts? ==>
        (record.proxyPort, record.socksPort, record.acr) == (old(record.proxyPort), old(record.socksPort), change == ClaimACR)
      ensures outcome.Pass? ==> record == Changed(old(record), change)
      ensures outcome.Fail? ==> record == old(record)
      ensures !open ==> directory.files == old(directory.files)
      ensures open ==> directory.files == Surviving(old(directory.files))[id := RecordFile(Some(pid), Some(record))]
    {
      if !open {
        return Fail(SessionEnded);
      }
      ClaimedByHolder(directory.files, id);
      var taken := directory.ScanForClaim(id, change.ClaimACR?);
      if taken {
        assert directory.files == Surviving(old(directory.files))[id := RecordFile(Some(pid), Some(record))];
        return Fail(AlreadyClaimed);
      }
      match change {
        case SetPorts(proxyPort, socksPort) => record := record.(proxyPort := proxyPort, socksPort := socksPort);
        case ClaimACR => record := record.(acr := true);
        case ReleaseACR => record := record.(acr := false);
      }
      directory.files := directory.files[id := RecordFile(Some(pid), Some(record))];
      return Pass;
    }

    /** close: removes the record; a second call does nothing. */
    method Close()
      requires Valid()
      modifies this`open, directory
      ensures Valid() && !open
      ensures !old(open) ==> directory.files == old(directory.files)
      ensures old(open) ==> directory.files == old(directory.files) - {id}
    {
      if !open {
        return;
      }
      open := false;
      directory.files := directory.files[id := RecordFile(None, Some(record))];
      directory.files := directory.files - {id};
    }
  }

  /** Keeping the locked files one by one, and reading them, is what the scan
      is specified to do. */
  lemma ScanIsComplete(before: Files, after: Files, done: map<SessionId, Record>)
    requires forall id :: id in after <==> id in before && before[id].owner.Some?
    requires forall id :: id in after ==> after[id] == before[id]
    requires forall id :: id in done <==> id in before && before[id].owner.Some?
    requires forall id :: id in done ==> done[id] == ReadRecord(id, before[id])
    ensures after == Surviving(before) && done == Reported(before)
  {
    assert after.Keys == Surviving(before).Keys;
    assert done.Keys == Reported(before).Keys;
  }

  lemma ListsExtended(active: seq<Record>, records: map<SessionId, Record>, id: SessionId, record: Record)
    requires Lists(active, records) && id !in records && record.id == id
    ensures Lists(active + [record], records[id := record])
  {
    var extended := records[id := record];
    assert extended.Keys == records.Keys + {id};
    assert (active + [record])[|active|] == record;
    forall other | other in records
      ensures records[other] in active + [record]
    {
      assert records[other] in active;
    }
  }

  /** The comparison with the lowest limit decides the declarative condition. */
  lemma AdmittedBelowLowest(active: seq<Record>, records: map<SessionId, Record>, limit: int, lowest: int)
    requires Lists(active, records)
    requires lowest == 0 <==> forall i :: 0 <= i < |active| ==> active[i].maxSessions <= 0
    requires lowest >= 0
    requires lowest > 0 ==> exists i :: 0 <= i < |active| && active[i].maxSessions == lowest
    requires forall i :: 0 <= i < |active| && active[i].maxSessions > 0 ==> lowest <= active[i].maxSessions
    ensures |active| < (if 0 < lowest < limit then lowest else limit) <==> Admits(records, limit)
  {
    if Admits(records, limit) && lowest > 0 {
      var i :| 0 <= i < |active| && active[i].maxSessions == lowest;
      assert active[i].id in records;
    }
    forall id | id in records && records[id].maxSessions > 0
      ensures 0 < lowest <= records[id].maxSessions
    {
      var i :| 0 <= i < |active| && active[i] == records[id];
    }
  }

  // ------------------------------------------- registrations one after another

  /** The files after these registrations, in this order, from an empty directory. */
  ghost function JoinAll(rs: seq<Registration>): Files {
    if |rs| == 0 then map[] else Joined(JoinAll(rs[..|rs| - 1]), rs[|rs| - 1]).1
  }

  /** Session k of the list is admitted when its turn comes. */
  ghost predicate Passes(rs: seq<Registration>, k: nat)
    requires k < |rs|
  {
    Joined(JoinAll(rs[..k]), rs[k]).0.Pass?
  }

  ghost predicate AllAdmitted(rs: seq<Registration>) {
    forall k :: 0 <= k < |rs| ==> Passes(rs, k)
  }

  predicate DistinctIds(rs: seq<Registration>) {
    forall i, j :: 0 <= i < j < |rs| ==> rs[i].id != rs[j].id
  }

  /** The record files of these sessions. */
  function FilesOf(rs: seq<Registration>): Files {
    if |rs| == 0 then map[] else FilesOf(rs[..|rs| - 1])[rs[|rs| - 1].id := FirstRecord(rs[|rs| - 1])]
  }

  lemma {:induction false} FileOfEach(rs: seq<Registration>, k: nat)
    requires k < |rs| && DistinctIds(rs)
    ensures rs[k].id in FilesOf(rs) && FilesOf(rs)[rs[k].id] == FirstRecord(rs[k])
  {
    if k < |rs| - 1 { FileOfEach(rs[..|rs| - 1], k); }
  }

  lemma {:induction false} OneForEachFile(rs: seq<Registration>, id: SessionId)
    requires id in FilesOf(rs)
    ensures exists k :: 0 <= k < |rs| && rs[k].id == id && FilesOf(rs)[id] == FirstRecord(rs[k])
  {
    var last := |rs| - 1;
    if rs[last].id != id {
      OneForEachFile(rs[..last], id);
      var k :| 0 <= k < last && rs[..last][k].id == id && FilesOf(rs[..last])[id] == FirstRecord(rs[..last][k]);
      assert rs[k].id == id;
    }
  }

  lemma {:induction false} AsManyFiles(rs: seq<Registration>)
    requires DistinctIds(rs)
    ensures |FilesOf(rs)| == |rs|
  {
    if |rs| > 0 {
      var front, r := rs[..|rs| - 1], rs[|rs| - 1];
      AsManyFiles(front);
      if r.id in FilesOf(front) { OneForEachFile(front, r.id); }
      assert FilesOf(rs).Keys == FilesOf(front).Keys + {r.id};
    }
  }

  /** The files of sessions that are all alive survive a scan. */
  lemma AllSurvive(files: Files)
    requires forall id :: id in files ==> files[id].owner.Some?
    ensures Surviving(files) == files && Reported(files).Keys == files.Keys && |Reported(files)| == |files|
  {
    assert Surviving(files).Keys == files.Keys;
    assert Reported(files).Keys == files.Keys;
  }

  /** There is room for one more among these sessions. */
  predicate Fits(rs: seq<Registration>, limit: int) {
    |rs| < limit && forall j :: 0 <= j < |rs| && rs[j].limit > 0 ==> |rs| < rs[j].limit
  }

  lemma AdmitsWhenFits(rs: seq<Registration>, limit: int)
    requires DistinctIds(rs)
    ensures Surviving(FilesOf(rs)) == FilesOf(rs)
    ensures Admits(Reported(FilesOf(rs)), limit) <==> Fits(rs, limit)
  {
    var files := FilesOf(rs);
    forall id | id in files ensures exists k :: 0 <= k < |rs| && rs[k].id == id && files[id] == FirstRecord(rs[k]) {
      OneForEachFile(rs, id);
    }
    AllSurvive(files);
    AsManyFiles(rs);
    forall j | 0 <= j < |rs| ensures rs[j].id in Reported(files) && Reported(files)[rs[j].id].maxSessions == rs[j].limit {
      FileOfEach(rs, j);
    }
  }

  /** The next session is admitted exactly when it fits. */
  lemma JoinedWhenFits(rs: seq<Registration>, k: nat)
    requires k < |rs| && DistinctIds(rs)
    ensures Joined(FilesOf(rs[..k]), rs[k]).0.Pass? <==> Fits(rs[..k], rs[k].limit)
    ensures Joined(FilesOf(rs[..k]), rs[k]).0.Pass? ==> Joined(FilesOf(rs[..k]), rs[k]).1 == FilesOf(rs[..k + 1])
  {
    AdmitsWhenFits(rs[..k], rs[k].limit);
    assert rs[..k + 1][..k] == rs[..k];
    if rs[k].id in FilesOf(rs[..k]) { OneForEachFile(rs[..k], rs[k].id); }
  }

  lemma JoinAllNext(rs: seq<Registration>, k: nat)
    requires k < |rs|
    ensures JoinAll(rs[..k + 1]) == Joined(JoinAll(rs[..k]), rs[k]).1
  {
    assert rs[..k + 1][..k] == rs[..k];
  }

  /** As long as everybody has been admitted, the directory holds just their
      locked records. */
  lemma {:induction false} AdmittedAreRecorded(rs: seq<Registration>, k: nat)
    requires k <= |rs| && DistinctIds(rs)
    requires forall j :: 0 <= j < k ==> Passes(rs, j)
    ensures JoinAll(rs[..k]) == FilesOf(rs[..k])
  {
    if k > 0 {
      AdmittedAreRecorded(rs, k - 1);
      assert Passes(rs, k - 1);
      JoinAllNext(rs, k - 1);
      JoinedWhenFits(rs, k - 1);
    }
  }

  /** After everybody before, a session is admitted exactly when it fits. */
  lemma NextPasses(rs: seq<Registration>, k: nat)
    requires k < |rs| && DistinctIds(rs)
    requires forall j :: 0 <= j < k ==> Passes(rs, j)
    ensures Passes(rs, k) <==> Fits(rs[..k], rs[k].limit)
  {
    AdmittedAreRecorded(rs, k);
    JoinedWhenFits(rs, k);
  }

  lemma {:induction false} AllFit(rs: seq<Registration>, n: nat)
    requires n <= |rs| && DistinctIds(rs)
    requires forall k :: 0 <= k < n ==> Fits(rs[..k], rs[k].limit)
    ensures forall k :: 0 <= k < n ==> Passes(rs, k)
  {
    if n > 0 {
      AllFit(rs, n - 1);
      NextPasses(rs, n - 1);
    }
  }

  /** No member's limit is below n. */
  predicate WithinLimits(rs: seq<Registration>, n: nat) {
    forall k :: 0 <= k < |rs| ==> n <= rs[k].limit
  }

  /** Everybody fits at his turn exactly when all limits admit them together. */
  lemma FitInTurn(rs: seq<Registration>)
    ensures (forall k :: 0 <= k < |rs| ==> Fits(rs[..k], rs[k].limit)) <==> WithinLimits(rs, |rs|)
  {
    if forall k :: 0 <= k < |rs| ==> Fits(rs[..k], rs[k].limit) {
      forall k | 0 <= k < |rs| ensures |rs| <= rs[k].limit {
        var last := |rs| - 1;
        assert Fits(rs[..k], rs[k].limit) && Fits(rs[..last], rs[last].limit);
        if k < last { assert rs[..last][k] == rs[k]; }
      }
    }
  }

  /** From an empty directory the whole list registers, in this order, exactly
      when no member's limit is below the number of members. */
  lemma AdmittedInOrderIffWithinLimits(rs: seq<Registration>)
    requires DistinctIds(rs)
    ensures AllAdmitted(rs) <==> WithinLimits(rs, |rs|)
  {
    FitInTurn(rs);
    if AllAdmitted(rs) {
      forall k | 0 <= k < |rs| ensures Fits(rs[..k], rs[k].limit) { NextPasses(rs, k); }
    }
    if forall k :: 0 <= k < |rs| ==> Fits(rs[..k], rs[k].limit) {
      AllFit(rs, |rs|);
    }
  }

  /** Hence the order of arrival does not matter. */
  lemma AdmissionIgnoresOrder(rs: seq<Registration>, reordered: seq<Registration>)
    requires DistinctIds(rs) && DistinctIds(reordered) && multiset(rs) == multiset(reordered)
    ensures AllAdmitted(rs) <==> AllAdmitted(reordered)
  {
    AdmittedInOrderIffWithinLimits(rs);
    AdmittedInOrderIffWithinLimits(reordered);
    assert |rs| == |multiset(rs)| == |multiset(reordered)| == |reordered|;
    if WithinLimits(reordered, |rs|) { SameLimits(rs, reordered, |rs|); }
    if WithinLimits(rs, |rs|) { SameLimits(reordered, rs, |rs|); }
  }

  lemma SameLimits(rs: seq<Registration>, others: seq<Registration>, n: nat)
    requires multiset(rs) == multiset(others) && WithinLimits(others, n)
    ensures WithinLimits(rs, n)
  {
    forall k | 0 <= k < |rs| ensures n <= rs[k].limit {
      assert rs[k] in multiset(others);
      var j :| 0 <= j < |others| && others[j] == rs[k];
    }
  }
}
