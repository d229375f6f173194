/** Any number of processes sharing the session registry.

    Each step is one atomic action of one process: taking or dropping the
    registry lock, reading one directory entry, creating, locking, writing,
    unlocking or removing a file, starting or stopping the Podman session, or
    crashing, which drops every lock the process holds.  Writes of a record
    after registration, and lock calls, succeed; identifiers are fresh. */
module RegistryProtocol {
  import opened Wrappers
  import opened SessionRegistry

  /** Why a process holds the registry lock. */
  datatype Purpose =
    | Joining(limit: int)
    | Listing
    | Updating(change: Change)

  /** Where a process is inside the registry code. */
  datatype Section =
    | Outside
    | Scanning(purpose: Purpose, todo: set<SessionId>, seen: map<SessionId, Record>, atStart: map<SessionId, Record>)
    | Admitted(limit: int)
    | Created(limit: int, id: SessionId)
    | Locked(limit: int, id: SessionId)
    | Writing(change: Change, record: Record)
    | Leaving
    | Removing(guarded: bool, id: SessionId)

  /** Registry access within one session: `Claimed` from the recorded claim
      until startPodman returns, `Up` while the Podman session runs, `Undoing`
      between a failed enable and the return of releaseACR. */
  datatype Podman = Off | Claimed | Up | Undoing

  datatype Process = Process(section: Section, session: Option<SessionId>, podman: Podman)

  datatype State = State(
    files: Files,
    guard: Option<ProcessId>,
    procs: map<ProcessId, Process>,
    used: set<SessionId>)

  datatype Step =
    | Spawn
    | Crash
    | Acquire(purpose: Purpose)
    | ScanEntry(entry: SessionId)
    | Decide
    | CreateFile(id: SessionId)
    | LockFile
    | WriteNew(environment: string)
    | AbandonNew
    | WriteRecord
    | Release
    | UnlockRecord(guarded: bool)
    | RemoveFile
    | PodmanStarted(ok: bool)
    | EnableFailed
    | UndoFailed
    | ActivationClosed

  /** Sections that run under the registry lock. */
  predicate Guarded(section: Section) {
    !section.Outside? && !(section.Removing? && !section.guarded)
  }

  /** Sessions whose record is locked by its owner and written. */
  function Live(files: Files): set<SessionId> {
    set id | id in files && files[id].owner.Some? && files[id].content.Some?
  }

  /** The recorded limits and claims of the live sessions. */
  function LiveRecords(files: Files): map<SessionId, Record> {
    map id | id in Live(files) :: files[id].content.value
  }

  ghost predicate Init(s: State) {
    && s.procs == map[]
    && s.guard == None
    && forall id :: id in s.files ==> s.files[id].owner == None && id in s.used
  }

  function Update(s: State, p: ProcessId, process: Process): State {
    s.(procs := s.procs[p := process])
  }

  /** Process `p` takes one step. */
  ghost predicate Next(s: State, p: ProcessId, step: Step, t: State) {
    if step.Spawn? then
      p !in s.procs && t == Update(s, p, Process(Outside, None, Off))
    else
      p in s.procs && Acts(s, p, s.procs[p], step, t)
  }

  ghost predicate Acts(s: State, p: ProcessId, me: Process, step: Step, t: State) {
    match step
    case Spawn => false
    case Crash => Crashes(s, p, t)
    case Acquire(purpose) => Acquires(s, p, me, purpose, t)
    case ScanEntry(entry) => Scans(s, p, me, entry, t)
    case Decide => Decides(s, p, me, t)
    case CreateFile(id) => Creates(s, p, me, id, t)
    case LockFile => Locks(s, p, me, t)
    case WriteNew(environment) => GoesLive(s, p, me, environment, t)
    case AbandonNew => Abandons(s, p, me, t)
    case WriteRecord => Rewrites(s, p, me, t)
    case Release => Releases(s, p, me, t)
    case UnlockRecord(guarded) => Unlocks(s, p, me, guarded, t)
    case RemoveFile => Removes(s, p, me, t)
    case PodmanStarted(ok) => me.podman.Claimed? && TurnsPodman(s, p, me, if ok then Up else Undoing, t)
    // A failed enable closes the Podman session before it gives the claim back.
    case EnableFailed => me.podman.Up? && TurnsPodman(s, p, me, Undoing, t)
    case UndoFailed => me.podman.Undoing? && TurnsPodman(s, p, me, Off, t)
    // The activation closes the Podman session; the record goes afterwards.
    case ActivationClosed => me.podman.Up? && TurnsPodman(s, p, me, Off, t)
  }

  ghost predicate Crashes(s: State, p: ProcessId, t: State) {
    t == s.(
      procs := s.procs - {p},
      guard := if s.guard == Some(p) then None else s.guard,
      files := Unlocked(s.files, p))
  }

  ghost predicate Acquires(s: State, p: ProcessId, me: Process, purpose: Purpose, t: State) {
    && s.guard == None && me.section.Outside? && MayBegin(me, purpose)
    && t == Update(s, p, me.(section := Scanning(purpose, s.files.Keys, map[], LiveRecords(s.files)))).(guard := Some(p))
  }

  ghost predicate Scans(s: State, p: ProcessId, me: Process, entry: SessionId, t: State) {
    && me.section.Scanning? && entry in me.section.todo
    && t == Scanned(s, p, me, entry)
  }

  ghost predicate Decides(s: State, p: ProcessId, me: Process, t: State) {
    && me.section.Scanning? && me.section.todo == {}
    && Decided(s, p, me, t)
  }

  /** O_EXCL creation under a random, hence fresh, identifier. */
  ghost predicate Creates(s: State, p: ProcessId, me: Process, id: SessionId, t: State) {
    && me.section.Admitted? && id !in s.files && id !in s.used
    && t == Update(s, p, me.(section := Created(me.section.limit, id))).(
         files := s.files[id := RecordFile(None, None)], used := s.used + {id})
  }

  ghost predicate Locks(s: State, p: ProcessId, me: Process, t: State) {
    && me.section.Created? && me.section.id in s.files
    && t == Update(s, p, me.(section := Locked(me.section.limit, me.section.id))).(
         files := s.files[me.section.id := RecordFile(Some(p), None)])
  }

  ghost predicate GoesLive(s: State, p: ProcessId, me: Process, environment: string, t: State) {
    && me.section.Locked? && me.section.id in s.files
    && t == Update(s, p, me.(section := Leaving, session := Some(me.section.id))).(
         files := s.files[me.section.id :=
           RecordFile(Some(p), Some(Record(me.section.id, environment, me.section.limit, 0, 0, false)))])
  }

  /** The new file could not be locked or written. */
  ghost predicate Abandons(s: State, p: ProcessId, me: Process, t: State) {
    && (me.section.Created? || me.section.Locked?)
    && t == Update(s, p, me.(section := Leaving)).(files := s.files - {me.section.id})
  }

  ghost predicate Rewrites(s: State, p: ProcessId, me: Process, t: State) {
    && me.section.Writing? && me.session.Some? && me.session.value in s.files
    && t == Update(s, p, me.(section := Leaving, podman := AfterWrite(me))).(
         files := s.files[me.session.value := s.files[me.session.value].(content := Some(me.section.record))])
  }

  ghost predicate Releases(s: State, p: ProcessId, me: Process, t: State) {
    && (me.section.Leaving? || me.section.Admitted?)
    && t == Update(s, p, me.(section := Outside)).(guard := None)
  }

  /** close: it goes on without the guard when that cannot be taken. */
  ghost predicate Unlocks(s: State, p: ProcessId, me: Process, guarded: bool, t: State) {
    && me.section.Outside? && me.session.Some? && me.podman.Off? && me.session.value in s.files
    && (guarded ==> s.guard == None)
    && t == Update(s, p, me.(section := Removing(guarded, me.session.value), session := None)).(
         guard := if guarded then Some(p) else s.guard,
         files := s.files[me.session.value := s.files[me.session.value].(owner := None)])
  }

  ghost predicate Removes(s: State, p: ProcessId, me: Process, t: State) {
    && me.section.Removing?
    && t == Update(s, p, me.(section := if me.section.guarded then Leaving else Outside)).(
         files := s.files - {me.section.id})
  }

  ghost predicate TurnsPodman(s: State, p: ProcessId, me: Process, podman: Podman, t: State) {
    me.section.Outside? && t == Update(s, p, me.(podman := podman))
  }

  /** What the session code may ask of the registry: joining without a
      session; updates with one; claims while no claim of its own is in use;
      the release of a claim only to undo a failed enable. */
  predicate MayBegin(me: Process, purpose: Purpose) {
    match purpose
    case Joining(_) => me.session.None?
    case Listing => true
    case Updating(change) =>
      && me.session.Some?
      && (change.ClaimACR? ==> me.podman.Off?)
      && (change.ReleaseACR? ==> me.podman.Undoing?)
  }

  function AfterWrite(me: Process): Podman
    requires me.section.Writing?
  {
    match me.section.change
    case ClaimACR => Claimed
    case ReleaseACR => Off
    case SetPorts(_, _) => me.podman
  }

  /** The operating system drops the locks of an exited process. */
  function Unlocked(files: Files, p: ProcessId): Files {
    map id | id in files :: if files[id].owner == Some(p) then files[id].(owner := None) else files[id]
  }

  /** One directory entry: gone, stale and removed, or live and reported. */
  function Scanned(s: State, p: ProcessId, me: Process, entry: SessionId): State
    requires me.section.Scanning?
  {
    var rest := me.section.(todo := me.section.todo - {entry});
    if entry !in s.files then
      Update(s, p, me.(section := rest))
    else if s.files[entry].owner.None? then
      Update(s, p, me.(section := rest)).(files := s.files - {entry})
    else
      Update(s, p, me.(section := rest.(seen := me.section.seen[entry := ReadRecord(entry, s.files[entry])])))
  }

  /** The decision taken on the completed scan. */
  ghost predicate Decided(s: State, p: ProcessId, me: Process, t: State)
    requires me.section.Scanning?
  {
    match me.section.purpose
    case Listing => t == Update(s, p, me.(section := Leaving))
    case Joining(limit) =>
      t == Update(s, p, me.(section := if Admits(me.section.seen, limit) then Admitted(limit) else Leaving))
    case Updating(change) =>
      && me.session.Some? && me.session.value in s.files && s.files[me.session.value].content.Some?
      && var record := s.files[me.session.value].content.value;
         t == Update(s, p, me.(section :=
           if change.ClaimACR? && ClaimedByOther(me.section.seen, record.id) then Leaving
           else Writing(change, Changed(record, change))))
  }

  // ---------------------------------------------------------------- invariant

  ghost predicate GuardInv(s: State) {
    && (s.guard.Some? ==> s.guard.value in s.procs)
    && forall p :: p in s.procs && Guarded(s.procs[p].section) ==> s.guard == Some(p)
  }

  ghost predicate FileInv(s: State) {
    forall id :: id in s.files ==>
      && id in s.used
      && (s.files[id].owner.Some? && s.files[id].content.Some? ==> s.files[id].content.value.id == id)
      && (s.files[id].owner.Some? ==> Owns(s, s.files[id].owner.value, id))
      && (s.files[id].owner.Some? && s.files[id].content.Some? ==> s.files[id].content.value.maxSessions > 0)
  }

  /** A locked file is the record of its owner's session, or one that its
      owner has not written yet. */
  ghost predicate Owns(s: State, p: ProcessId, id: SessionId)
    requires id in s.files
  {
    && p in s.procs
    && if s.files[id].content.Some? then s.procs[p].session == Some(id)
       else s.procs[p].section.Locked? && s.procs[p].section.id == id
  }

  ghost predicate ProcessInv(s: State, p: ProcessId)
    requires p in s.procs
  {
    var me := s.procs[p];
    && (me.session.Some? ==>
      && me.session.value in s.files
      && s.files[me.session.value].owner == Some(p)
      && s.files[me.session.value].content.Some?)
    && (me.session.None? ==> me.podman.Off?)
    && (me.podman.Claimed? || me.podman.Up? ==>
      s.files[me.session.value].content.value.acr)
    && SectionInv(s, p, me)
  }

  ghost predicate SectionInv(s: State, p: ProcessId, me: Process) {
    match me.section
    case Outside => true
    case Leaving => true
    case Scanning(purpose, todo, seen, atStart) => MayBegin(me, purpose) && ScanInv(s.files, todo, seen, atStart)
    case Admitted(limit) => me.session.None? && Room(s.files, limit)
    case Created(limit, id) =>
      me.session.None? && Room(s.files, limit) && id in s.used && id in s.files && s.files[id] == RecordFile(None, None)
    case Locked(limit, id) =>
      me.session.None? && Room(s.files, limit) && id in s.used && id in s.files && s.files[id] == RecordFile(Some(p), None)
    case Writing(change, record) =>
      && me.session.Some? && me.session.value in s.files && s.files[me.session.value].content.Some?
      && record == Changed(s.files[me.session.value].content.value, change)
      && (change.ReleaseACR? ==> me.podman.Undoing?)
      && (change.ClaimACR? ==> !ClaimedByOther(LiveRecords(s.files), record.id))
    case Removing(guarded, id) =>
      me.session.None? && id in s.used && (id in s.files ==> s.files[id].owner.None?)
  }

  /** Every live session is still to be visited or has been reported as it
      is; everything reported was live when the scan began. */
  ghost predicate ScanInv(files: Files, todo: set<SessionId>, seen: map<SessionId, Record>, atStart: map<SessionId, Record>) {
    && (forall id :: id in Live(files) ==> id in todo || (id in seen && seen[id] == files[id].content.value))
    && (forall id :: id in Live(files) ==> id in atStart && atStart[id] == files[id].content.value)
    && (forall id :: id in files && files[id].owner.Some? ==> files[id].content.Some?)
    && (forall id :: id in seen ==> id in atStart && atStart[id] == seen[id])
  }

  /** One more session fits. */
  ghost predicate Room(files: Files, limit: int) {
    && |Live(files)| < limit
    && forall id :: id in Live(files) ==> |Live(files)| < files[id].content.value.maxSessions
  }

  /** The limit of every live session is respected. */
  ghost predicate LimitRespected(files: Files) {
    forall id :: id in Live(files) ==> |Live(files)| <= files[id].content.value.maxSessions
  }

  /** At most one live session has registry access. */
  ghost predicate SingleClaim(files: Files) {
    forall a, b :: a in Live(files) && b in Live(files) && files[a].content.value.acr && files[b].content.value.acr ==> a == b
  }

  /** A file about to be removed is never one that is being created. */
  ghost predicate NamesApart(s: State) {
    forall p, q :: p in s.procs && q in s.procs && s.procs[p].section.Created? && s.procs[q].section.Removing?
      ==> s.procs[p].section.id != s.procs[q].section.id
  }

  ghost predicate Inv(s: State) {
    && GuardInv(s)
    && FileInv(s)
    && (forall p :: p in s.procs ==> ProcessInv(s, p))
    && NamesApart(s)
    && LimitRespected(s.files)
    && SingleClaim(s.files)
  }

  lemma InitEstablishesInv(s: State)
    requires Init(s)
    ensures Inv(s)
  {
    assert Live(s.files) == {};
  }

  // ------------------------------------------------- effects on live sessions

  /** `after` has no live session that `before` has not, under the same record. */
  ghost predicate NoNewLive(before: Files, after: Files) {
    forall id :: id in Live(after) ==> id in Live(before) && after[id].content == before[id].content
  }

  lemma FewerLive(before: Files, after: Files)
    requires NoNewLive(before, after)
    ensures |Live(after)| <= |Live(before)|
    ensures LimitRespected(before) ==> LimitRespected(after)
    ensures SingleClaim(before) ==> SingleClaim(after)
    ensures forall limit :: Room(before, limit) ==> Room(after, limit)
    ensures forall id :: !ClaimedByOther(LiveRecords(before), id) ==> !ClaimedByOther(LiveRecords(after), id)
  {
    assert Live(after) <= Live(before);
    SubsetSize(Live(after), Live(before));
    forall id | !ClaimedByOther(LiveRecords(before), id) ensures !ClaimedByOther(LiveRecords(after), id) {
      forall other | other in LiveRecords(after) && other != id ensures !LiveRecords(after)[other].acr {
        assert other in LiveRecords(before);
      }
    }
  }

  lemma SubsetSize<T>(a: set<T>, b: set<T>)
    requires a <= b
    ensures |a| <= |b|
  {
    assert b == a + (b - a);
  }

  /** Files of `q` that `p`'s step leaves alone, and no new live session: then
      nothing the invariant says about `q` changes. */
  lemma BystanderKeeps(s: State, t: State, q: ProcessId)
    requires q in s.procs && ProcessInv(s, q)
    requires q in t.procs && t.procs[q] == s.procs[q]
    requires s.used <= t.used
    requires forall id :: id in s.files && s.files[id].owner == Some(q) ==> id in t.files && t.files[id] == s.files[id]
    requires s.procs[q].section.Created? ==>
      s.procs[q].section.id in t.files && t.files[s.procs[q].section.id] == RecordFile(None, None)
    requires s.procs[q].section.Removing? && s.procs[q].section.id in t.files ==>
      t.files[s.procs[q].section.id].owner.None?
    requires Guarded(s.procs[q].section) ==>
      NoNewLive(s.files, t.files) && forall id :: id in t.files && t.files[id].owner.Some? ==> id in s.files && s.files[id] == t.files[id]
    ensures ProcessInv(t, q)
  {
    if Guarded(s.procs[q].section) {
      FewerLive(s.files, t.files);
    }
  }

  // --------------------------------------------------------------- the steps

  lemma SpawnKeepsInv(s: State, p: ProcessId, t: State)
    requires Inv(s) && p !in s.procs && t == Update(s, p, Process(Outside, None, Off))
    ensures Inv(t)
  {
    forall q | q in t.procs ensures ProcessInv(t, q) {
      if q != p {
        assert ProcessInv(s, q);
      }
    }
  }

  lemma CrashLeavesOthers(s: State, p: ProcessId, t: State)
    requires Inv(s) && p in s.procs && Crashes(s, p, t)
    ensures NoNewLive(s.files, t.files)
    ensures forall id :: id in t.files && t.files[id].owner.Some? ==> id in s.files && s.files[id] == t.files[id]
    ensures forall id, q :: id in s.files && s.files[id].owner == Some(q) && q != p ==>
              id in t.files && t.files[id] == s.files[id]
    ensures forall id :: id in s.files && s.files[id].owner.None? ==> id in t.files && t.files[id] == s.files[id]
    ensures forall id :: id in t.files ==> id in s.files
  {
  }

  lemma CrashKeepsOther(s: State, p: ProcessId, t: State, q: ProcessId)
    requires Inv(s) && p in s.procs && Crashes(s, p, t) && q in t.procs
    ensures ProcessInv(t, q)
  {
    assert ProcessInv(s, q);
    CrashLeavesOthers(s, p, t);
    BystanderKeeps(s, t, q);
  }

  lemma CrashKeepsFiles(s: State, p: ProcessId, t: State)
    requires Inv(s) && p in s.procs && Crashes(s, p, t)
    ensures GuardInv(t) && FileInv(t) && NamesApart(t)
  {
  }

  lemma CrashKeepsInv(s: State, p: ProcessId, t: State)
    requires Inv(s) && p in s.procs && Crashes(s, p, t)
    ensures Inv(t)
  {
    CrashKeepsFiles(s, p, t);
    CrashLeavesOthers(s, p, t);
    FewerLive(s.files, t.files);
    forall q | q in t.procs ensures ProcessInv(t, q) {
      CrashKeepsOther(s, p, t, q);
    }
  }

  lemma AcquireKeepsFiles(s: State, p: ProcessId, purpose: Purpose, t: State)
    requires Inv(s) && p in s.procs && Acquires(s, p, s.procs[p], purpose, t)
    ensures GuardInv(t) && FileInv(t) && NamesApart(t)
  {
    assert ProcessInv(s, p);
  }

  lemma AcquireKeepsProcesses(s: State, p: ProcessId, purpose: Purpose, t: State)
    requires Inv(s) && p in s.procs && Acquires(s, p, s.procs[p], purpose, t)
    ensures forall q :: q in t.procs ==> ProcessInv(t, q)
  {
    forall q | q in t.procs ensures ProcessInv(t, q) {
      assert ProcessInv(s, q);
    }
  }

  lemma AcquireKeepsInv(s: State, p: ProcessId, purpose: Purpose, t: State)
    requires Inv(s) && p in s.procs && Acquires(s, p, s.procs[p], purpose, t)
    ensures Inv(t)
  {
    AcquireKeepsFiles(s, p, purpose, t);
    AcquireKeepsProcesses(s, p, purpose, t);
  }

  lemma ScanEntryKeepsActor(s: State, p: ProcessId, entry: SessionId, t: State)
    requires Inv(s) && p in s.procs && Scans(s, p, s.procs[p], entry, t)
    ensures p in t.procs && ProcessInv(t, p)
  {
    assert ProcessInv(s, p);
    assert Live(t.files) == Live(s.files);
  }

  lemma ScanEntryKeepsOthers(s: State, p: ProcessId, entry: SessionId, t: State)
    requires Inv(s) && p in s.procs && Scans(s, p, s.procs[p], entry, t)
    ensures forall q :: q in t.procs && q != p ==> ProcessInv(t, q)
  {
    assert ProcessInv(s, p);
    forall q | q in t.procs && q != p ensures ProcessInv(t, q) {
      assert ProcessInv(s, q);
      BystanderKeeps(s, t, q);
    }
  }

  lemma ScanEntryKeepsFiles(s: State, p: ProcessId, entry: SessionId, t: State)
    requires Inv(s) && p in s.procs && Scans(s, p, s.procs[p], entry, t)
    ensures GuardInv(t) && FileInv(t) && NamesApart(t)
  {
    assert ProcessInv(s, p);
  }

  lemma ScanEntryKeepsInv(s: State, p: ProcessId, entry: SessionId, t: State)
    requires Inv(s) && p in s.procs && Scans(s, p, s.procs[p], entry, t)
    ensures Inv(t)
  {
    ScanEntryKeepsFiles(s, p, entry, t);
    ScanEntryKeepsActor(s, p, entry, t);
    ScanEntryKeepsOthers(s, p, entry, t);
    assert ProcessInv(s, p);
    assert Live(t.files) == Live(s.files);
    FewerLive(s.files, t.files);
  }

  lemma DecideKeepsActor(s: State, p: ProcessId, t: State)
    requires Inv(s) && p in s.procs && Decides(s, p, s.procs[p], t)
    ensures p in t.procs && ProcessInv(t, p)
  {
    assert ProcessInv(s, p);
    var me := s.procs[p];
    var seen := me.section.seen;
    if me.section.purpose.Joining? && Admits(seen, me.section.purpose.limit) {
      SubsetSize(Live(s.files), seen.Keys);
      assert Room(s.files, me.section.purpose.limit);
    }
    if me.section.purpose.Updating? {
      assert me.session.value in Live(s.files);
    }
  }

  lemma DecideKeepsOthers(s: State, p: ProcessId, t: State)
    requires Inv(s) && p in s.procs && Decides(s, p, s.procs[p], t)
    ensures forall q :: q in t.procs && q != p ==> ProcessInv(t, q)
  {
    assert ProcessInv(s, p);
    forall q | q in t.procs && q != p ensures ProcessInv(t, q) {
      assert ProcessInv(s, q);
      BystanderKeeps(s, t, q);
    }
  }

  lemma DecideKeepsFiles(s: State, p: ProcessId, t: State)
    requires Inv(s) && p in s.procs && Decides(s, p, s.procs[p], t)
    ensures GuardInv(t) && FileInv(t) && NamesApart(t)
  {
    assert ProcessInv(s, p);
  }

  lemma DecideKeepsInv(s: State, p: ProcessId, t: State)
    requires Inv(s) && p in s.procs && Decides(s, p, s.procs[p], t)
    ensures Inv(t)
  {
    DecideKeepsFiles(s, p, t);
    DecideKeepsActor(s, p, t);
    DecideKeepsOthers(s, p, t);
    assert ProcessInv(s, p);
  }

  lemma CreateFileKeepsInv(s: State, p: ProcessId, id: SessionId, t: State)
    requires Inv(s) && p in s.procs && Creates(s, p, s.procs[p], id, t)
    ensures Inv(t)
  {
    assert ProcessInv(s, p);
    assert Live(t.files) == Live(s.files);
    FewerLive(s.files, t.files);
    forall q | q in t.procs ensures ProcessInv(t, q) {
      assert ProcessInv(s, q);
      if q != p {
        BystanderKeeps(s, t, q);
      }
    }
  }

  lemma LockFileKeepsInv(s: State, p: ProcessId, t: State)
    requires Inv(s) && p in s.procs && Locks(s, p, s.procs[p], t)
    ensures Inv(t)
  {
    assert ProcessInv(s, p);
    assert Live(t.files) == Live(s.files);
    FewerLive(s.files, t.files);
    forall q | q in t.procs ensures ProcessInv(t, q) {
      assert ProcessInv(s, q);
      if q != p {
        BystanderKeeps(s, t, q);
      }
    }
  }

  /** The moment a session goes live: the room checked under the lock is still there. */
  lemma WriteNewKeepsActor(s: State, p: ProcessId, environment: string, t: State)
    requires Inv(s) && p in s.procs && GoesLive(s, p, s.procs[p], environment, t)
    ensures p in t.procs && ProcessInv(t, p)
  {
    assert ProcessInv(s, p);
  }

  lemma WriteNewKeepsOthers(s: State, p: ProcessId, environment: string, t: State)
    requires Inv(s) && p in s.procs && GoesLive(s, p, s.procs[p], environment, t)
    ensures forall q :: q in t.procs && q != p ==> ProcessInv(t, q)
  {
    assert ProcessInv(s, p);
    forall q | q in t.procs && q != p ensures ProcessInv(t, q) {
      assert ProcessInv(s, q);
      BystanderKeeps(s, t, q);
    }
  }

  lemma WriteNewKeepsFiles(s: State, p: ProcessId, environment: string, t: State)
    requires Inv(s) && p in s.procs && GoesLive(s, p, s.procs[p], environment, t)
    ensures GuardInv(t) && FileInv(t) && NamesApart(t)
  {
    assert ProcessInv(s, p);
  }

  lemma WriteNewKeepsLimits(s: State, p: ProcessId, environment: string, t: State)
    requires Inv(s) && p in s.procs && GoesLive(s, p, s.procs[p], environment, t)
    ensures LimitRespected(t.files) && SingleClaim(t.files)
  {
    assert ProcessInv(s, p);
    var id := s.procs[p].section.id;
    assert Live(t.files) == Live(s.files) + {id};
  }

  lemma WriteNewKeepsInv(s: State, p: ProcessId, environment: string, t: State)
    requires Inv(s) && p in s.procs && GoesLive(s, p, s.procs[p], environment, t)
    ensures Inv(t)
  {
    WriteNewKeepsActor(s, p, environment, t);
    WriteNewKeepsOthers(s, p, environment, t);
    WriteNewKeepsFiles(s, p, environment, t);
    WriteNewKeepsLimits(s, p, environment, t);
  }

  lemma AbandonNewKeepsInv(s: State, p: ProcessId, t: State)
    requires Inv(s) && p in s.procs && Abandons(s, p, s.procs[p], t)
    ensures Inv(t)
  {
    assert ProcessInv(s, p);
    assert Live(t.files) == Live(s.files);
    FewerLive(s.files, t.files);
    forall q | q in t.procs ensures ProcessInv(t, q) {
      assert ProcessInv(s, q);
      if q != p {
        BystanderKeeps(s, t, q);
      }
    }
  }

  lemma WriteRecordKeepsActor(s: State, p: ProcessId, t: State)
    requires Inv(s) && p in s.procs && Rewrites(s, p, s.procs[p], t)
    ensures p in t.procs && ProcessInv(t, p)
  {
    assert ProcessInv(s, p);
  }

  lemma WriteRecordKeepsOthers(s: State, p: ProcessId, t: State)
    requires Inv(s) && p in s.procs && Rewrites(s, p, s.procs[p], t)
    ensures forall q :: q in t.procs && q != p ==> ProcessInv(t, q)
  {
    assert ProcessInv(s, p);
    forall q | q in t.procs && q != p ensures ProcessInv(t, q) {
      assert ProcessInv(s, q);
      BystanderKeeps(s, t, q);
    }
  }

  lemma WriteRecordKeepsFiles(s: State, p: ProcessId, t: State)
    requires Inv(s) && p in s.procs && Rewrites(s, p, s.procs[p], t)
    ensures GuardInv(t) && FileInv(t) && NamesApart(t)
  {
    assert ProcessInv(s, p);
  }

  lemma WriteRecordKeepsInv(s: State, p: ProcessId, t: State)
    requires Inv(s) && p in s.procs && Rewrites(s, p, s.procs[p], t)
    ensures Inv(t)
  {
    WriteRecordKeepsActor(s, p, t);
    WriteRecordKeepsOthers(s, p, t);
    WriteRecordKeepsFiles(s, p, t);
    assert ProcessInv(s, p);
    var id := s.procs[p].session.value;
    assert Live(t.files) == Live(s.files);
    if t.files[id].content.value.acr && !s.files[id].content.value.acr {
      forall other | other in Live(s.files) && other != id ensures !s.files[other].content.value.acr {
        assert other in LiveRecords(s.files);
      }
    }
  }

  lemma ReleaseKeepsInv(s: State, p: ProcessId, t: State)
    requires Inv(s) && p in s.procs && Releases(s, p, s.procs[p], t)
    ensures Inv(t)
  {
    forall q | q in t.procs ensures ProcessInv(t, q) {
      assert ProcessInv(s, q);
    }
  }

  lemma UnlockRecordKeepsActor(s: State, p: ProcessId, guarded: bool, t: State)
    requires Inv(s) && p in s.procs && Unlocks(s, p, s.procs[p], guarded, t)
    ensures p in t.procs && ProcessInv(t, p)
  {
    assert ProcessInv(s, p);
  }

  lemma UnlockRecordKeepsOthers(s: State, p: ProcessId, guarded: bool, t: State)
    requires Inv(s) && p in s.procs && Unlocks(s, p, s.procs[p], guarded, t)
    ensures forall q :: q in t.procs && q != p ==> ProcessInv(t, q)
  {
    assert ProcessInv(s, p);
    forall q | q in t.procs && q != p ensures ProcessInv(t, q) {
      assert ProcessInv(s, q);
      BystanderKeeps(s, t, q);
    }
  }

  lemma UnlockRecordKeepsFiles(s: State, p: ProcessId, guarded: bool, t: State)
    requires Inv(s) && p in s.procs && Unlocks(s, p, s.procs[p], guarded, t)
    ensures GuardInv(t) && FileInv(t) && NamesApart(t)
  {
    assert ProcessInv(s, p);
  }

  lemma UnlockRecordKeepsInv(s: State, p: ProcessId, guarded: bool, t: State)
    requires Inv(s) && p in s.procs && Unlocks(s, p, s.procs[p], guarded, t)
    ensures Inv(t)
  {
    UnlockRecordKeepsActor(s, p, guarded, t);
    UnlockRecordKeepsOthers(s, p, guarded, t);
    UnlockRecordKeepsFiles(s, p, guarded, t);
    assert ProcessInv(s, p);
    FewerLive(s.files, t.files);
  }

  lemma RemoveFileKeepsFiles(s: State, p: ProcessId, t: State)
    requires Inv(s) && p in s.procs && Removes(s, p, s.procs[p], t)
    ensures GuardInv(t) && FileInv(t) && NamesApart(t)
  {
    assert ProcessInv(s, p);
  }

  lemma RemoveFileKeepsOthers(s: State, p: ProcessId, t: State)
    requires Inv(s) && p in s.procs && Removes(s, p, s.procs[p], t)
    ensures forall q :: q in t.procs && q != p ==> ProcessInv(t, q)
  {
    assert ProcessInv(s, p);
    assert Live(t.files) == Live(s.files);
    forall q | q in t.procs && q != p ensures ProcessInv(t, q) {
      assert ProcessInv(s, q);
      BystanderKeeps(s, t, q);
    }
  }

  lemma RemoveFileKeepsInv(s: State, p: ProcessId, t: State)
    requires Inv(s) && p in s.procs && Removes(s, p, s.procs[p], t)
    ensures Inv(t)
  {
    RemoveFileKeepsFiles(s, p, t);
    RemoveFileKeepsOthers(s, p, t);
    assert ProcessInv(s, p);
    assert Live(t.files) == Live(s.files);
    FewerLive(s.files, t.files);
  }

  lemma PodmanKeepsInv(s: State, p: ProcessId, podman: Podman, t: State)
    requires Inv(s) && p in s.procs && TurnsPodman(s, p, s.procs[p], podman, t)
    requires s.procs[p].podman != Off
    requires podman.Claimed? || podman.Up? ==> s.procs[p].podman.Claimed? || s.procs[p].podman.Up?
    ensures Inv(t)
  {
    forall q | q in t.procs ensures ProcessInv(t, q) {
      assert ProcessInv(s, q);
    }
  }

  /** Every step of every process keeps the invariant. */
  lemma NextKeepsInv(s: State, p: ProcessId, step: Step, t: State)
    requires Inv(s) && Next(s, p, step, t)
    ensures Inv(t)
  {
    match step
    case Spawn => SpawnKeepsInv(s, p, t);
    case Crash => CrashKeepsInv(s, p, t);
    case Acquire(purpose) => AcquireKeepsInv(s, p, purpose, t);
    case ScanEntry(entry) => ScanEntryKeepsInv(s, p, entry, t);
    case Decide => DecideKeepsInv(s, p, t);
    case CreateFile(id) => CreateFileKeepsInv(s, p, id, t);
    case LockFile => LockFileKeepsInv(s, p, t);
    case WriteNew(environment) => WriteNewKeepsInv(s, p, environment, t);
    case AbandonNew => AbandonNewKeepsInv(s, p, t);
    case WriteRecord => WriteRecordKeepsInv(s, p, t);
    case Release => ReleaseKeepsInv(s, p, t);
    case UnlockRecord(guarded) => UnlockRecordKeepsInv(s, p, guarded, t);
    case RemoveFile => RemoveFileKeepsInv(s, p, t);
    case PodmanStarted(ok) => PodmanKeepsInv(s, p, if ok then Up else Undoing, t);
    case EnableFailed => PodmanKeepsInv(s, p, Undoing, t);
    case UndoFailed => PodmanKeepsInv(s, p, Off, t);
    case ActivationClosed => PodmanKeepsInv(s, p, Off, t);
  }

  // -------------------------------------------------------------------- runs

  /** A run: state i makes move i to state i + 1. */
  ghost predicate IsRun(states: seq<State>, moves: seq<(ProcessId, Step)>) {
    && |states| == |moves| + 1
    && Init(states[0])
    && forall i :: 0 <= i < |moves| ==> Next(states[i], moves[i].0, moves[i].1, states[i + 1])
  }

  lemma {:induction false} RunKeepsInv(states: seq<State>, moves: seq<(ProcessId, Step)>, i: nat)
    requires IsRun(states, moves) && i < |states|
    ensures Inv(states[i])
  {
    if i == 0 {
      InitEstablishesInv(states[0]);
    } else {
      RunKeepsInv(states, moves, i - 1);
      NextKeepsInv(states[i - 1], moves[i - 1].0, moves[i - 1].1, states[i]);
    }
  }

  /** The limit with which a process is registering. */
  function JoiningLimit(section: Section): Option<int> {
    match section
    case Scanning(purpose, _, _, _) => if purpose.Joining? then Some(purpose.limit) else None
    case Admitted(limit) => Some(limit)
    case Created(limit, _) => Some(limit)
    case Locked(limit, _) => Some(limit)
    case _ => None
  }

  lemma OthersStay(s: State, p: ProcessId, step: Step, t: State, q: ProcessId)
    requires Next(s, p, step, t) && q in t.procs && q != p
    ensures q in s.procs && t.procs[q].section == s.procs[q].section
  {
  }

  lemma OwnJoining(s: State, p: ProcessId, step: Step, t: State)
    requires Next(s, p, step, t) && p in t.procs && JoiningLimit(t.procs[p].section).Some?
    ensures || step == Acquire(Joining(JoiningLimit(t.procs[p].section).value))
            || (p in s.procs && JoiningLimit(s.procs[p].section) == JoiningLimit(t.procs[p].section))
  {
  }

  lemma JoiningStep(s: State, p: ProcessId, step: Step, t: State, q: ProcessId)
    requires Next(s, p, step, t) && q in t.procs && JoiningLimit(t.procs[q].section).Some?
    ensures || (p == q && step == Acquire(Joining(JoiningLimit(t.procs[q].section).value)))
            || (q in s.procs && JoiningLimit(s.procs[q].section) == JoiningLimit(t.procs[q].section))
  {
    if p == q {
      OwnJoining(s, p, step, t);
    } else {
      OthersStay(s, p, step, t, q);
    }
  }

  /** A registration under way began by taking the lock with its limit. */
  lemma {:induction false} JoiningBegan(states: seq<State>, moves: seq<(ProcessId, Step)>, i: nat, q: ProcessId)
    returns (k: nat)
    requires IsRun(states, moves) && i < |states|
    requires q in states[i].procs && JoiningLimit(states[i].procs[q].section).Some?
    ensures k < i && moves[k] == (q, Acquire(Joining(JoiningLimit(states[i].procs[q].section).value)))
    ensures forall m :: k < m <= i ==>
              q in states[m].procs && JoiningLimit(states[m].procs[q].section) == JoiningLimit(states[i].procs[q].section)
  {
    JoiningStep(states[i - 1], moves[i - 1].0, moves[i - 1].1, states[i], q);
    var limit := JoiningLimit(states[i].procs[q].section).value;
    if moves[i - 1] == (q, Acquire(Joining(limit))) {
      k := i - 1;
    } else {
      k := JoiningBegan(states, moves, i - 1, q);
    }
  }

  /** A session goes live by the write of its own registration. */
  lemma GoesLiveByWriting(s: State, p: ProcessId, step: Step, t: State, id: SessionId)
    requires Next(s, p, step, t) && id !in Live(s.files) && id in Live(t.files) && Inv(s)
    ensures step.WriteNew? && p in s.procs && s.procs[p].section.Locked? && s.procs[p].section.id == id
    ensures t.files[id].owner == Some(p) && t.files[id].content.value.maxSessions == s.procs[p].section.limit
  {
    assert p in s.procs ==> ProcessInv(s, p);
  }

  /** And while it lives no step changes its owner, its name or its limit. */
  lemma LimitStays(s: State, p: ProcessId, step: Step, t: State, id: SessionId)
    requires Inv(s) && Next(s, p, step, t) && id in Live(s.files) && id in Live(t.files)
    ensures t.files[id].owner == s.files[id].owner
    ensures t.files[id].content.value.maxSessions == s.files[id].content.value.maxSessions
    ensures t.files[id].content.value.environment == s.files[id].content.value.environment
  {
    if p in s.procs {
      assert ProcessInv(s, p);
    }
  }

  /** A live session was registered by its owner with the limit its record
      still gives, and has been live with that limit ever since. */
  lemma {:induction false} RegisteredWith(states: seq<State>, moves: seq<(ProcessId, Step)>, i: nat, id: SessionId)
    returns (k: nat, w: nat, limit: int)
    requires IsRun(states, moves) && i < |states| && id in Live(states[i].files)
    ensures k < w < i && moves[w].1.WriteNew? && states[i].files[id].owner == Some(moves[w].0)
    ensures moves[k] == (moves[w].0, Acquire(Joining(limit)))
    ensures forall m :: w < m <= i ==>
              id in Live(states[m].files) && states[m].files[id].content.value.maxSessions == limit
  {
    RunKeepsInv(states, moves, i - 1);
    var s, t := states[i - 1], states[i];
    if id in Live(s.files) {
      LimitStays(s, moves[i - 1].0, moves[i - 1].1, t, id);
      k, w, limit := RegisteredWith(states, moves, i - 1, id);
    } else {
      GoesLiveByWriting(s, moves[i - 1].0, moves[i - 1].1, t, id);
      w, limit := i - 1, s.procs[moves[i - 1].0].section.limit;
      k := JoiningBegan(states, moves, i - 1, moves[i - 1].0);
    }
  }

  /** The session limit: whatever registers, updates, closes, scans and
      crashes, in any interleaving, there are never more live sessions than
      any one of them registered with as its limit. */
  lemma SessionLimitHolds(states: seq<State>, moves: seq<(ProcessId, Step)>, i: nat, id: SessionId)
    returns (k: nat, limit: int)
    requires IsRun(states, moves) && i < |states|
    requires id in Live(states[i].files)
    ensures k < i && states[i].files[id].owner == Some(moves[k].0) && moves[k].1 == Acquire(Joining(limit))
    ensures 0 < |Live(states[i].files)| <= limit == states[i].files[id].content.value.maxSessions
  {
    RunKeepsInv(states, moves, i);
    assert {id} <= Live(states[i].files);
    SubsetSize({id}, Live(states[i].files));
    var w;
    k, w, limit := RegisteredWith(states, moves, i, id);
  }

  /** At most one process at a time is between a successful startPodman and
      the end of that Podman session. */
  lemma SinglePodmanOwner(states: seq<State>, moves: seq<(ProcessId, Step)>, i: nat, p: ProcessId, q: ProcessId)
    requires IsRun(states, moves) && i < |states|
    requires p in states[i].procs && states[i].procs[p].podman.Up?
    requires q in states[i].procs && states[i].procs[q].podman.Up?
    ensures p == q
  {
    RunKeepsInv(states, moves, i);
    var s := states[i];
    assert ProcessInv(s, p) && ProcessInv(s, q);
    assert s.procs[p].session.value in Live(s.files) && s.procs[q].session.value in Live(s.files);
  }

  /** And it is the one whose live record carries the claim. */
  lemma PodmanOwnerHoldsClaim(states: seq<State>, moves: seq<(ProcessId, Step)>, i: nat, p: ProcessId, id: SessionId)
    requires IsRun(states, moves) && i < |states|
    requires p in states[i].procs && states[i].procs[p].podman.Up?
    requires id in Live(states[i].files)
    ensures states[i].files[id].content.value.acr <==> states[i].procs[p].session == Some(id)
  {
    RunKeepsInv(states, moves, i);
    var s := states[i];
    assert ProcessInv(s, p);
    assert s.procs[p].session.value in Live(s.files);
  }

  /** The records a scan is compared with are those of the sessions that were
      live when its process took the lock. */
  lemma {:induction false} ScanBegan(states: seq<State>, moves: seq<(ProcessId, Step)>, i: nat, p: ProcessId)
    returns (j: nat)
    requires IsRun(states, moves) && i < |states|
    requires p in states[i].procs && states[i].procs[p].section.Scanning?
    ensures j < i && moves[j] == (p, Acquire(states[i].procs[p].section.purpose))
    ensures states[i].procs[p].section.atStart == LiveRecords(states[j].files)
  {
    var s, t := states[i - 1], states[i];
    var (mover, step) := moves[i - 1];
    assert Next(s, mover, step, t);
    if mover == p && step.Acquire? {
      j := i - 1;
    } else {
      assert p in s.procs && s.procs[p].section.Scanning?;
      assert s.procs[p].section.atStart == t.procs[p].section.atStart;
      assert s.procs[p].section.purpose == t.procs[p].section.purpose;
      j := ScanBegan(states, moves, i - 1, p);
    }
  }

  /** Move `i` is the decision of a process that took the lock for `purpose`,
      and it goes against the process. */
  ghost predicate Refuses(states: seq<State>, moves: seq<(ProcessId, Step)>, i: nat, purpose: Purpose)
    requires IsRun(states, moves) && i < |moves|
  {
    var (p, step) := moves[i];
    && step.Decide?
    && p in states[i].procs && states[i].procs[p].section.Scanning? && states[i].procs[p].section.purpose == purpose
    && p in states[i + 1].procs && states[i + 1].procs[p].section.Leaving?
  }

  lemma AdmitsFewer(fewer: map<SessionId, Record>, more: map<SessionId, Record>, limit: int)
    requires forall id :: id in fewer ==> id in more && more[id] == fewer[id]
    ensures Admits(more, limit) ==> Admits(fewer, limit)
  {
    SubsetSize(fewer.Keys, more.Keys);
  }

  /** A session is refused exactly for want of room among the sessions that
      were live when the registration took the lock: crashed and closed ones
      never count, and one that would fit is never turned away. */
  lemma RefusalIsJustified(states: seq<State>, moves: seq<(ProcessId, Step)>, i: nat, limit: int)
    returns (j: nat)
    requires IsRun(states, moves) && i < |moves| && Refuses(states, moves, i, Joining(limit))
    ensures j < i && moves[j] == (moves[i].0, Acquire(Joining(limit)))
    ensures var live := Live(states[j].files);
            || |live| + 1 > limit
            || exists id :: id in live && 0 < states[j].files[id].content.value.maxSessions < |live| + 1
  {
    var p := moves[i].0;
    RunKeepsInv(states, moves, i);
    assert ProcessInv(states[i], p) && Next(states[i], p, Decide, states[i + 1]);
    j := ScanBegan(states, moves, i, p);
    AdmitsFewer(states[i].procs[p].section.seen, states[i].procs[p].section.atStart, limit);
    assert LiveRecords(states[j].files).Keys == Live(states[j].files);
    assert !Admits(LiveRecords(states[j].files), limit);
  }

  /** A claim is refused only when another session that was live when the
      claim took the lock held the claim. */
  lemma ClaimRefusalIsJustified(states: seq<State>, moves: seq<(ProcessId, Step)>, i: nat)
    returns (j: nat)
    requires IsRun(states, moves) && i < |moves| && Refuses(states, moves, i, Updating(ClaimACR))
    ensures j < i && moves[j] == (moves[i].0, Acquire(Updating(ClaimACR)))
    ensures states[i].procs[moves[i].0].session.Some?
    ensures exists other :: && other in Live(states[j].files) && states[j].files[other].content.value.acr
                            && other != states[i].procs[moves[i].0].session.value
  {
    var p := moves[i].0;
    RunKeepsInv(states, moves, i);
    assert ProcessInv(states[i], p) && Next(states[i], p, Decide, states[i + 1]);
    j := ScanBegan(states, moves, i, p);
    var section := states[i].procs[p].section;
    var id := states[i].procs[p].session.value;
    var other :| other in section.seen && other != id && section.seen[other].acr;
    assert other in section.atStart;
  }
}
