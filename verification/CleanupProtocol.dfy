/** Publishers and cleaners of one publication directory, from any number of
    sessions, interleaved step by step.

    Descriptor names and capabilities are fresh random values, and dialling a
    port that somebody listens on is never refused. */
module CleanupProtocol {
  import opened Wrappers
  import opened Cleanup

  /** Who listens on a loopback port. */
  datatype Server = Gateway(token: Token, closed: bool) | Stranger(code: int)

  /** How far a publication has come. */
  datatype Publisher =
    | Bound(port: Port, token: Token)
    | Writing(port: Port, token: Token, name: nat)
    | Placed(port: Port, token: Token, name: nat)
    | Closing(port: Port, token: Token, path: Option<Path>)
    | Unbound(path: Option<Path>)

  datatype Cleaner =
    | Listing(todo: set<Path>, probes: map<Path, Descriptor>)
    | Probing(probes: map<Path, Descriptor>, verdicts: map<Path, bool>)
    | Removing(verdicts: map<Path, bool>, rest: set<Path>)

  type AgentId = nat

  datatype State = State(
    files: Files,
    ports: map<Port, Server>,
    publishers: map<AgentId, Publisher>,
    cleaners: map<AgentId, Cleaner>,
    home: map<Token, Port>,
    names: set<nat>,
    placed: set<nat>)

  datatype Step =
    | Binds(port: Port, token: Token)
    | CreatesTemporary(name: nat)
    | Renames
    | Closes
    | Unbinds
    | RemovesOwn
    | PublisherCrashes
    | StrangerBinds(port: Port, code: int)
    | StrangerLeaves(port: Port)
    | Ages(path: Path)
    | Lists
    | Reads(path: Path)
    | StartsProbing
    | Probes(path: Path, outcome: ProbeOutcome)
    | StartsRemoving
    | Removes(path: Path)
    | CleanerCrashes

  ghost predicate Init(s: State) {
    && s.publishers == map[] && s.cleaners == map[] && s.ports == map[]
    && (forall path :: path in s.files && path.Json? ==> path.name in s.placed)
    && (forall path :: path in s.files && path.Tmp? ==> path.name in s.names)
    && s.placed <= s.names
    && (forall path :: path in s.files && s.files[path].content.Some? ==> Homed(s, s.files[path].content.value))
  }

  /** The capability of this descriptor belongs to this port and no other. */
  ghost predicate Homed(s: State, d: Descriptor) {
    d.token in s.home && s.home[d.token] == d.port
  }

  /** A gateway with this capability accepts clients. */
  ghost predicate Alive(s: State, token: Token) {
    exists port :: port in s.ports && s.ports[port] == Gateway(token, false)
  }

  /** What probing descriptor `d` can yield right now. */
  ghost predicate CanYield(s: State, d: Descriptor, outcome: ProbeOutcome) {
    || outcome.Ambiguous?
    || (d.port !in s.ports && outcome.Refused?)
    || (d.port in s.ports && outcome == Status(Answer(s.ports[d.port], d.token)))
  }

  /** The answer to GET /health: sessionPublication.ServeHTTP checks the
      capability before anything else. */
  function Answer(server: Server, token: Token): int {
    match server
    case Stranger(code) => code
    case Gateway(own, closed) => if own != token then FORBIDDEN else if closed then GONE else NO_CONTENT
  }

  function PutPublisher(s: State, a: AgentId, publisher: Publisher): State {
    s.(publishers := s.publishers[a := publisher])
  }

  function PutCleaner(s: State, a: AgentId, cleaner: Cleaner): State {
    s.(cleaners := s.cleaners[a := cleaner])
  }

  ghost predicate Next(s: State, a: AgentId, step: Step, t: State) {
    match step
    case Binds(port, token) => Opens(s, a, port, token, t)
    case CreatesTemporary(name) => a in s.publishers && Creates(s, a, s.publishers[a], name, t)
    case Renames => a in s.publishers && Renaming(s, a, s.publishers[a], t)
    case Closes => a in s.publishers && Closure(s, a, s.publishers[a], t)
    case Unbinds => a in s.publishers && Unbinding(s, a, s.publishers[a], t)
    case RemovesOwn => a in s.publishers && RemovingOwn(s, a, s.publishers[a], t)
    case PublisherCrashes => a in s.publishers && Crashing(s, a, s.publishers[a], t)
    case StrangerBinds(port, code) => port !in s.ports && t == s.(ports := s.ports[port := Stranger(code)])
    case StrangerLeaves(port) => port in s.ports && s.ports[port].Stranger? && t == s.(ports := s.ports - {port})
    case Ages(path) => path in s.files && t == s.(files := s.files[path := s.files[path].(stale := true)])
    case Lists => a !in s.cleaners && t == PutCleaner(s, a, Listing(s.files.Keys, map[]))
    case Reads(path) => a in s.cleaners && Reading(s, a, s.cleaners[a], path, t)
    case StartsProbing => a in s.cleaners && ListDone(s, a, s.cleaners[a], t)
    case Probes(path, outcome) => a in s.cleaners && ProbeDone(s, a, s.cleaners[a], path, outcome, t)
    case StartsRemoving => a in s.cleaners && ProbingDone(s, a, s.cleaners[a], t)
    case Removes(path) => a in s.cleaners && RemovingPath(s, a, s.cleaners[a], path, t)
    case CleanerCrashes => a in s.cleaners && t == s.(cleaners := s.cleaners - {a})
  }

  ghost predicate Opens(s: State, a: AgentId, port: Port, token: Token, t: State) {
    && a !in s.publishers && port !in s.ports && token !in s.home
    && t == PutPublisher(s, a, Bound(port, token)).(
         ports := s.ports[port := Gateway(token, false)], home := s.home[token := port])
  }

  ghost predicate Creates(s: State, a: AgentId, me: Publisher, name: nat, t: State) {
    && me.Bound? && name !in s.names
    && t == PutPublisher(s, a, Writing(me.port, me.token, name)).(
         files := s.files[Tmp(name) := File(false, None)], names := s.names + {name})
  }

  /** Renaming fails when a cleaner has taken the temporary file for stale. */
  ghost predicate Renaming(s: State, a: AgentId, me: Publisher, t: State) {
    && me.Writing? && Tmp(me.name) in s.files
    && t == PutPublisher(s, a, Placed(me.port, me.token, me.name)).(
         files := (s.files - {Tmp(me.name)})[Json(me.name) := File(false, Some(Descriptor(me.port, me.token)))],
         placed := s.placed + {me.name})
  }

  /** sessionPublication.close in its order: marked closed, unbound, removed. */
  ghost predicate Closure(s: State, a: AgentId, me: Publisher, t: State) {
    && (me.Bound? || me.Writing? || me.Placed?)
    && t == PutPublisher(s, a, Closing(me.port, me.token, OwnPath(me))).(
         ports := s.ports[me.port := Gateway(me.token, true)])
  }

  ghost predicate Unbinding(s: State, a: AgentId, me: Publisher, t: State) {
    me.Closing? && t == PutPublisher(s, a, Unbound(me.path)).(ports := s.ports - {me.port})
  }

  ghost predicate RemovingOwn(s: State, a: AgentId, me: Publisher, t: State) {
    && me.Unbound?
    && t == s.(publishers := s.publishers - {a}, files := if me.path.Some? then s.files - {me.path.value} else s.files)
  }

  ghost predicate Crashing(s: State, a: AgentId, me: Publisher, t: State) {
    t == s.(publishers := s.publishers - {a}, ports := if me.Unbound? then s.ports else s.ports - {me.port})
  }

  function OwnPath(me: Publisher): Option<Path> {
    match me
    case Writing(_, _, name) => Some(Tmp(name))
    case Placed(_, _, name) => Some(Json(name))
    case _ => None
  }

  ghost predicate Reading(s: State, a: AgentId, me: Cleaner, path: Path, t: State) {
    && me.Listing? && path in me.todo
    && if StaleTemporary(s.files, path) then
         t == PutCleaner(s, a, Listing(me.todo - {path}, me.probes)).(files := s.files - {path})
       else if Probed(s.files, path) then
         t == PutCleaner(s, a, Listing(me.todo - {path}, me.probes[path := s.files[path].content.value]))
       else
         t == PutCleaner(s, a, Listing(me.todo - {path}, me.probes))
  }

  ghost predicate ListDone(s: State, a: AgentId, me: Cleaner, t: State) {
    me.Listing? && me.todo == {} && t == PutCleaner(s, a, Probing(me.probes, map[]))
  }

  ghost predicate ProbeDone(s: State, a: AgentId, me: Cleaner, path: Path, outcome: ProbeOutcome, t: State) {
    && me.Probing? && path in me.probes && path !in me.verdicts && CanYield(s, me.probes[path], outcome)
    && t == PutCleaner(s, a, Probing(me.probes, me.verdicts[path := OwnerGone(outcome)]))
  }

  ghost predicate ProbingDone(s: State, a: AgentId, me: Cleaner, t: State) {
    && me.Probing? && me.verdicts.Keys == me.probes.Keys
    && t == PutCleaner(s, a, Removing(me.verdicts, me.verdicts.Keys))
  }

  ghost predicate RemovingPath(s: State, a: AgentId, me: Cleaner, path: Path, t: State) {
    && me.Removing? && path in me.rest && path in me.verdicts
    && t == PutCleaner(s, a, Removing(me.verdicts, me.rest - {path})).(
         files := if me.verdicts[path] then s.files - {path} else s.files)
  }

  // ---------------------------------------------------------------- invariant

  ghost predicate PublisherInv(s: State, me: Publisher) {
    match me
    case Bound(port, token) => Open(s, port, token)
    case Writing(port, token, name) => Open(s, port, token) && name in s.names && name !in s.placed
    case Placed(port, token, name) =>
      && Open(s, port, token) && name in s.placed
      && Json(name) in s.files && s.files[Json(name)].content == Some(Descriptor(port, token))
    case Closing(port, token, path) =>
      && port in s.ports && s.ports[port] == Gateway(token, true) && token in s.home && s.home[token] == port
      && PathUsed(s, path)
    case Unbound(path) => PathUsed(s, path)
  }

  ghost predicate Open(s: State, port: Port, token: Token) {
    port in s.ports && s.ports[port] == Gateway(token, false) && token in s.home && s.home[token] == port
  }

  ghost predicate PathUsed(s: State, path: Option<Path>) {
    path.Some? ==> path.value.name in s.names && !path.value.Unrelated? && (path.value.Json? ==> path.value.name in s.placed)
  }

  /** Publications share no port and no file. */
  ghost predicate Apart(s: State) {
    forall a, b :: a in s.publishers && b in s.publishers && a != b ==> Disjoint(s.publishers[a], s.publishers[b])
  }

  ghost predicate Disjoint(p: Publisher, q: Publisher) {
    && (PortOf(p).Some? ==> PortOf(p) != PortOf(q))
    && (NameOf(p).Some? ==> NameOf(p) != NameOf(q))
  }

  ghost function PortOf(p: Publisher): Option<Port> {
    if p.Unbound? then None else Some(p.port)
  }

  /** The name under which a publication still creates, relies on or removes a file. */
  ghost function NameOf(p: Publisher): Option<nat> {
    match p
    case Bound(_, _) => None
    case Writing(_, _, name) => Some(name)
    case Placed(_, _, name) => Some(name)
    case Closing(_, _, path) => if path.Some? then Some(path.value.name) else None
    case Unbound(path) => if path.Some? then Some(path.value.name) else None
  }

  ghost predicate CleanerInv(s: State, me: Cleaner) {
    match me
    case Listing(todo, probes) => ProbesInv(s, probes)
    case Probing(probes, verdicts) =>
      && ProbesInv(s, probes) && verdicts.Keys <= probes.Keys
      && forall path :: path in verdicts && verdicts[path] ==> !Alive(s, probes[path].token)
    case Removing(verdicts, rest) =>
      && rest <= verdicts.Keys
      && (forall path :: path in verdicts ==> path.Json? && path.name in s.placed)
      && (forall path :: path in verdicts && verdicts[path] && path in s.files ==>
            s.files[path].content.Some? && !Alive(s, s.files[path].content.value.token))
      && (forall path :: path in verdicts && verdicts[path] && path !in rest ==> path !in s.files)
  }

  /** A descriptor that has been read is never rewritten. */
  ghost predicate ProbesInv(s: State, probes: map<Path, Descriptor>) {
    forall path :: path in probes ==>
      && path.Json? && path.name in s.placed && Homed(s, probes[path])
      && (path in s.files ==> s.files[path].content == Some(probes[path]))
  }

  ghost predicate FilesInv(s: State) {
    && s.placed <= s.names
    && (forall path :: path in s.files && path.Json? ==> path.name in s.placed)
    && (forall path :: path in s.files && path.Tmp? ==> path.name in s.names)
    && (forall path :: path in s.files && s.files[path].content.Some? ==> Homed(s, s.files[path].content.value))
    && (forall port :: port in s.ports && s.ports[port].Gateway? ==>
          s.ports[port].token in s.home && s.home[s.ports[port].token] == port)
  }

  ghost predicate Inv(s: State) {
    && FilesInv(s)
    && Apart(s)
    && (forall a :: a in s.publishers ==> PublisherInv(s, s.publishers[a]))
    && (forall a :: a in s.cleaners ==> CleanerInv(s, s.cleaners[a]))
  }

  // ------------------------------------------------------------------ frames

  /** Nothing a cleaner has learnt is undone: descriptors once read are not
      rewritten, and a capability that is dead stays dead. */
  ghost predicate Settled(s: State, t: State) {
    && s.placed <= t.placed
    && (forall token :: token in s.home ==> token in t.home && t.home[token] == s.home[token])
    && (forall path :: path in t.files && path.Json? && path.name in s.placed ==>
          path in s.files && t.files[path].content == s.files[path].content)
    && (forall token :: token in s.home && Alive(t, token) ==> Alive(s, token))
  }

  lemma CleanerKeeps(s: State, t: State, me: Cleaner)
    requires FilesInv(s) && CleanerInv(s, me) && Settled(s, t)
    ensures CleanerInv(t, me)
  {
    if me.Removing? {
      forall path | path in me.verdicts && me.verdicts[path] && path in t.files
        ensures t.files[path].content.Some? && !Alive(t, t.files[path].content.value.token)
      {
        assert path in s.files && Homed(s, s.files[path].content.value);
      }
    }
  }

  lemma CleanersKeep(s: State, a: AgentId, t: State)
    requires Inv(s) && Settled(s, t)
    requires forall c :: c in t.cleaners && c != a ==> c in s.cleaners && t.cleaners[c] == s.cleaners[c]
    requires a in t.cleaners ==> CleanerInv(t, t.cleaners[a])
    ensures forall c :: c in t.cleaners ==> CleanerInv(t, t.cleaners[c])
  {
    forall c | c in t.cleaners && c != a ensures CleanerInv(t, t.cleaners[c]) {
      CleanerKeeps(s, t, s.cleaners[c]);
    }
  }

  lemma AllCleanersKeep(s: State, t: State)
    requires Inv(s) && Settled(s, t) && t.cleaners == s.cleaners
    ensures forall c :: c in t.cleaners ==> CleanerInv(t, t.cleaners[c])
  {
    forall c | c in t.cleaners ensures CleanerInv(t, t.cleaners[c]) {
      CleanerKeeps(s, t, s.cleaners[c]);
    }
  }

  /** The ports, names and files that publication `me` relies on are as before. */
  ghost predicate Untouched(s: State, t: State, me: Publisher) {
    && (PortOf(me).Some? ==> me.port in s.ports && me.port in t.ports && t.ports[me.port] == s.ports[me.port])
    && s.names <= t.names && s.placed <= t.placed
    && (me.Writing? ==> me.name !in t.placed)
    && (PortOf(me).Some? ==> me.token in s.home && me.token in t.home && t.home[me.token] == s.home[me.token])
    && (me.Placed? ==>
      Json(me.name) in s.files && Json(me.name) in t.files && t.files[Json(me.name)].content == s.files[Json(me.name)].content)
  }

  lemma PublisherKeeps(s: State, t: State, me: Publisher)
    requires PublisherInv(s, me) && Untouched(s, t, me)
    ensures PublisherInv(t, me)
  {
  }

  lemma PublishersKeep(s: State, a: AgentId, t: State)
    requires Inv(s)
    requires forall b :: b in t.publishers && b != a ==>
      b in s.publishers && t.publishers[b] == s.publishers[b] && Untouched(s, t, s.publishers[b])
    requires a in t.publishers ==> PublisherInv(t, t.publishers[a])
    ensures forall b :: b in t.publishers ==> PublisherInv(t, t.publishers[b])
  {
    forall b | b in t.publishers && b != a ensures PublisherInv(t, t.publishers[b]) {
      PublisherKeeps(s, t, s.publishers[b]);
    }
  }

  lemma AllPublishersKeep(s: State, t: State)
    requires Inv(s) && t.publishers == s.publishers
    requires forall b :: b in s.publishers ==> Untouched(s, t, s.publishers[b])
    ensures forall b :: b in t.publishers ==> PublisherInv(t, t.publishers[b])
  {
    forall b | b in t.publishers ensures PublisherInv(t, t.publishers[b]) {
      PublisherKeeps(s, t, s.publishers[b]);
    }
  }

  lemma NextKeepsInv(s: State, a: AgentId, step: Step, t: State)
    requires Inv(s) && Next(s, a, step, t)
    ensures Inv(t)
  {
    match step
    case Binds(port, token) => OpensKeeps(s, a, port, token, t);
    case CreatesTemporary(name) => CreatesKeeps(s, a, name, t);
    case Renames => RenamingKeeps(s, a, t);
    case Closes => ClosureKeeps(s, a, t);
    case Unbinds => UnbindingKeeps(s, a, t);
    case RemovesOwn => RemovingOwnKeeps(s, a, t);
    case PublisherCrashes => CrashingKeeps(s, a, t);
    case StrangerBinds(_, _) => StrangersKeep(s, t);
    case StrangerLeaves(_) => StrangersKeep(s, t);
    case Ages(path) => AgesKeeps(s, path, t);
    case Lists => CleanerOnlyKeeps(s, a, t);
    case Reads(path) => ReadingKeeps(s, a, path, t);
    case StartsProbing => CleanerOnlyKeeps(s, a, t);
    case Probes(path, outcome) => ProbeKeeps(s, a, path, outcome, t);
    case StartsRemoving => StartsRemovingKeeps(s, a, t);
    case Removes(path) => RemovingPathKeeps(s, a, path, t);
    case CleanerCrashes => CleanerOnlyKeeps(s, a, t);
  }

  lemma OpensSettles(s: State, a: AgentId, port: Port, token: Token, t: State)
    requires Inv(s) && Opens(s, a, port, token, t)
    ensures FilesInv(t) && Settled(s, t)
  {
  }

  lemma OpensApart(s: State, a: AgentId, port: Port, token: Token, t: State)
    requires Inv(s) && Opens(s, a, port, token, t)
    ensures Apart(t)
  {
    forall b | b in s.publishers ensures PortOf(s.publishers[b]) != Some(port) {
      assert PublisherInv(s, s.publishers[b]);
    }
  }

  lemma OpensKeeps(s: State, a: AgentId, port: Port, token: Token, t: State)
    requires Inv(s) && Opens(s, a, port, token, t)
    ensures Inv(t)
  {
    OpensSettles(s, a, port, token, t);
    OpensApart(s, a, port, token, t);
    AllCleanersKeep(s, t);
    forall b | b in s.publishers && b != a ensures Untouched(s, t, s.publishers[b]) {
      assert PublisherInv(s, s.publishers[b]);
    }
    PublishersKeep(s, a, t);
  }

  lemma CreatesSettles(s: State, a: AgentId, name: nat, t: State)
    requires Inv(s) && a in s.publishers && Creates(s, a, s.publishers[a], name, t)
    ensures FilesInv(t) && Settled(s, t)
  {
    assert PublisherInv(s, s.publishers[a]);
  }

  lemma NamesAreUsed(s: State, b: AgentId)
    requires Inv(s) && b in s.publishers
    ensures NameOf(s.publishers[b]).Some? ==> NameOf(s.publishers[b]).value in s.names
  {
    assert PublisherInv(s, s.publishers[b]);
  }

  lemma CreatesApart(s: State, a: AgentId, name: nat, t: State)
    requires Inv(s) && a in s.publishers && Creates(s, a, s.publishers[a], name, t)
    ensures Apart(t)
  {
    forall b | b in s.publishers ensures NameOf(s.publishers[b]) != Some(name) {
      NamesAreUsed(s, b);
    }
    forall b, c | b in t.publishers && c in t.publishers && b != c ensures Disjoint(t.publishers[b], t.publishers[c]) {
      assert Disjoint(s.publishers[b], s.publishers[c]);
    }
  }

  lemma CreatesKeeps(s: State, a: AgentId, name: nat, t: State)
    requires Inv(s) && a in s.publishers && Creates(s, a, s.publishers[a], name, t)
    ensures Inv(t)
  {
    CreatesSettles(s, a, name, t);
    CreatesApart(s, a, name, t);
    AllCleanersKeep(s, t);
    assert PublisherInv(s, s.publishers[a]);
    forall b | b in s.publishers && b != a ensures Untouched(s, t, s.publishers[b]) {
      assert PublisherInv(s, s.publishers[b]);
    }
    PublishersKeep(s, a, t);
  }

  lemma RenamingSettles(s: State, a: AgentId, t: State)
    requires Inv(s) && a in s.publishers && Renaming(s, a, s.publishers[a], t)
    ensures FilesInv(t) && Settled(s, t)
  {
    assert PublisherInv(s, s.publishers[a]);
  }

  lemma RenamingKeeps(s: State, a: AgentId, t: State)
    requires Inv(s) && a in s.publishers && Renaming(s, a, s.publishers[a], t)
    ensures Inv(t)
  {
    RenamingSettles(s, a, t);
    AllCleanersKeep(s, t);
    assert PublisherInv(s, s.publishers[a]);
    forall b | b in s.publishers && b != a ensures Untouched(s, t, s.publishers[b]) {
      assert PublisherInv(s, s.publishers[b]);
    }
    PublishersKeep(s, a, t);
  }

  lemma ClosureSettles(s: State, a: AgentId, t: State)
    requires Inv(s) && a in s.publishers && Closure(s, a, s.publishers[a], t)
    ensures FilesInv(t) && Settled(s, t)
  {
    assert PublisherInv(s, s.publishers[a]);
  }

  lemma ClosureKeeps(s: State, a: AgentId, t: State)
    requires Inv(s) && a in s.publishers && Closure(s, a, s.publishers[a], t)
    ensures Inv(t)
  {
    ClosureSettles(s, a, t);
    AllCleanersKeep(s, t);
    assert PublisherInv(s, s.publishers[a]);
    forall b | b in s.publishers && b != a ensures Untouched(s, t, s.publishers[b]) {
      assert PublisherInv(s, s.publishers[b]);
    }
    PublishersKeep(s, a, t);
  }

  lemma UnbindingSettles(s: State, a: AgentId, t: State)
    requires Inv(s) && a in s.publishers && Unbinding(s, a, s.publishers[a], t)
    ensures FilesInv(t) && Settled(s, t)
  {
    assert PublisherInv(s, s.publishers[a]);
  }

  lemma UnbindingKeeps(s: State, a: AgentId, t: State)
    requires Inv(s) && a in s.publishers && Unbinding(s, a, s.publishers[a], t)
    ensures Inv(t)
  {
    UnbindingSettles(s, a, t);
    AllCleanersKeep(s, t);
    assert PublisherInv(s, s.publishers[a]);
    forall b | b in s.publishers && b != a ensures Untouched(s, t, s.publishers[b]) {
      assert PublisherInv(s, s.publishers[b]);
    }
    PublishersKeep(s, a, t);
  }

  lemma RemovingOwnSettles(s: State, a: AgentId, t: State)
    requires Inv(s) && a in s.publishers && RemovingOwn(s, a, s.publishers[a], t)
    ensures FilesInv(t) && Settled(s, t)
  {
    assert PublisherInv(s, s.publishers[a]);
  }

  lemma RemovingOwnKeeps(s: State, a: AgentId, t: State)
    requires Inv(s) && a in s.publishers && RemovingOwn(s, a, s.publishers[a], t)
    ensures Inv(t)
  {
    RemovingOwnSettles(s, a, t);
    AllCleanersKeep(s, t);
    assert PublisherInv(s, s.publishers[a]);
    forall b | b in s.publishers && b != a ensures Untouched(s, t, s.publishers[b]) {
      assert PublisherInv(s, s.publishers[b]);
    }
    PublishersKeep(s, a, t);
  }

  lemma CrashingSettles(s: State, a: AgentId, t: State)
    requires Inv(s) && a in s.publishers && Crashing(s, a, s.publishers[a], t)
    ensures FilesInv(t) && Settled(s, t)
  {
    assert PublisherInv(s, s.publishers[a]);
  }

  lemma CrashingKeeps(s: State, a: AgentId, t: State)
    requires Inv(s) && a in s.publishers && Crashing(s, a, s.publishers[a], t)
    ensures Inv(t)
  {
    CrashingSettles(s, a, t);
    AllCleanersKeep(s, t);
    assert PublisherInv(s, s.publishers[a]);
    forall b | b in s.publishers && b != a ensures Untouched(s, t, s.publishers[b]) {
      assert PublisherInv(s, s.publishers[b]);
    }
    PublishersKeep(s, a, t);
  }

  lemma StrangersKeep(s: State, t: State)
    requires Inv(s) && t.ports.Keys >= s.ports.Keys - (set port | port in s.ports && s.ports[port].Stranger?)
    requires t == s.(ports := t.ports)
    requires forall port :: port in t.ports ==>
      if port in s.ports then t.ports[port] == s.ports[port] else t.ports[port].Stranger?
    ensures Inv(t)
  {
    AllCleanersKeep(s, t);
  }

  lemma AgesKeeps(s: State, path: Path, t: State)
    requires Inv(s) && path in s.files && t == s.(files := s.files[path := s.files[path].(stale := true)])
    ensures Inv(t)
  {
    AllCleanersKeep(s, t);
  }

  /** Steps that change nothing but what one cleaner remembers. */
  lemma CleanerOnlyKeeps(s: State, a: AgentId, t: State)
    requires Inv(s) && t == s.(cleaners := t.cleaners)
    requires forall c :: c in t.cleaners && c != a ==> c in s.cleaners && t.cleaners[c] == s.cleaners[c]
    requires a in t.cleaners ==> CleanerInv(s, t.cleaners[a])
    ensures Inv(t)
  {
    if a in t.cleaners {
      CleanerKeeps(s, t, t.cleaners[a]);
    }
    assert forall b :: b in s.publishers ==> PublisherInv(s, s.publishers[b]) && Untouched(s, t, s.publishers[b]);
    AllPublishersKeep(s, t);
    CleanersKeep(s, a, t);
  }

  lemma ReadingSettles(s: State, a: AgentId, path: Path, t: State)
    requires Inv(s) && a in s.cleaners && Reading(s, a, s.cleaners[a], path, t)
    ensures FilesInv(t) && Settled(s, t)
  {
  }

  lemma ReadingKeepsReader(s: State, a: AgentId, path: Path, t: State)
    requires Inv(s) && a in s.cleaners && Reading(s, a, s.cleaners[a], path, t)
    ensures CleanerInv(t, t.cleaners[a])
  {
    assert CleanerInv(s, s.cleaners[a]);
  }

  lemma ReadingKeeps(s: State, a: AgentId, path: Path, t: State)
    requires Inv(s) && a in s.cleaners && Reading(s, a, s.cleaners[a], path, t)
    ensures Inv(t)
  {
    ReadingSettles(s, a, path, t);
    ReadingKeepsReader(s, a, path, t);
    CleanersKeep(s, a, t);
    forall b | b in s.publishers ensures Untouched(s, t, s.publishers[b]) {
      assert CleanerInv(s, s.cleaners[a]) && PublisherInv(s, s.publishers[b]);
    }
    AllPublishersKeep(s, t);
  }

  /** The heart of the argument: a conclusive outcome means that the
      capability of the descriptor is dead, wherever its port went. */
  lemma ProbeKeeps(s: State, a: AgentId, path: Path, outcome: ProbeOutcome, t: State)
    requires Inv(s) && a in s.cleaners && ProbeDone(s, a, s.cleaners[a], path, outcome, t)
    ensures Inv(t)
  {
    assert CleanerInv(s, s.cleaners[a]);
    CleanerOnlyKeeps(s, a, t);
  }

  lemma StartsRemovingKeeps(s: State, a: AgentId, t: State)
    requires Inv(s) && a in s.cleaners && ProbingDone(s, a, s.cleaners[a], t)
    ensures Inv(t)
  {
    assert CleanerInv(s, s.cleaners[a]);
    CleanerOnlyKeeps(s, a, t);
  }

  lemma RemovingPathSettles(s: State, a: AgentId, path: Path, t: State)
    requires Inv(s) && a in s.cleaners && RemovingPath(s, a, s.cleaners[a], path, t)
    ensures FilesInv(t) && Settled(s, t) && CleanerInv(t, t.cleaners[a])
  {
    assert CleanerInv(s, s.cleaners[a]);
  }

  lemma RemovingPathKeeps(s: State, a: AgentId, path: Path, t: State)
    requires Inv(s) && a in s.cleaners && RemovingPath(s, a, s.cleaners[a], path, t)
    ensures Inv(t)
  {
    RemovingPathSettles(s, a, path, t);
    CleanersKeep(s, a, t);
    forall b | b in s.publishers ensures Untouched(s, t, s.publishers[b]) {
      assert CleanerInv(s, s.cleaners[a]) && PublisherInv(s, s.publishers[b]);
    }
    AllPublishersKeep(s, t);
  }

  // -------------------------------------------------------------------- runs

  ghost predicate IsRun(states: seq<State>, moves: seq<(AgentId, Step)>) {
    && |states| == |moves| + 1
    && Init(states[0])
    && forall i :: 0 <= i < |moves| ==> Next(states[i], moves[i].0, moves[i].1, states[i + 1])
  }

  lemma {:induction false} RunKeepsInv(states: seq<State>, moves: seq<(AgentId, Step)>, i: nat)
    requires IsRun(states, moves) && i < |states|
    ensures Inv(states[i])
  {
    if i > 0 {
      RunKeepsInv(states, moves, i - 1);
      NextKeepsInv(states[i - 1], moves[i - 1].0, moves[i - 1].1, states[i]);
    }
  }

  /** Whatever cleaners and other publishers do, the descriptor of a
      publication is in place for as long as the publication is. */
  lemma PlacedDescriptorStays(states: seq<State>, moves: seq<(AgentId, Step)>, i: nat, a: AgentId)
    requires IsRun(states, moves) && i < |states|
    requires a in states[i].publishers && states[i].publishers[a].Placed?
    ensures
      var s, me := states[i], states[i].publishers[a];
      && Json(me.name) in s.files && s.files[Json(me.name)].content == Some(Descriptor(me.port, me.token))
      && Alive(s, me.token)
  {
    RunKeepsInv(states, moves, i);
    assert PublisherInv(states[i], states[i].publishers[a]);
  }

  /** A cleaner removes a descriptor only when no gateway accepts its
      capability any more. */
  lemma OnlyDeadDescriptorsGo(states: seq<State>, moves: seq<(AgentId, Step)>, i: nat, path: Path)
    requires IsRun(states, moves) && i < |moves|
    requires moves[i].1 == Removes(path) || moves[i].1 == Reads(path)
    requires path in states[i].files && path !in states[i + 1].files
    ensures || (path.Tmp? && states[i].files[path].stale)
            || (path.Json? && states[i].files[path].content.Some?
                && !Alive(states[i], states[i].files[path].content.value.token))
  {
    RunKeepsInv(states, moves, i);
    assert Next(states[i], moves[i].0, moves[i].1, states[i + 1]);
    assert CleanerInv(states[i], states[i].cleaners[moves[i].0]);
  }

  /** Cleaner `a` is still past the probe of `path`, with a verdict that the
      owner is gone. */
  ghost predicate Condemned(s: State, a: AgentId, path: Path) {
    && a in s.cleaners
    && (s.cleaners[a].Probing? || s.cleaners[a].Removing?)
    && path in s.cleaners[a].verdicts && s.cleaners[a].verdicts[path]
  }

  /** A dead descriptor does go: when its port refuses, or a gateway with
      another capability or a closed one answers, a cleaner that gets through
      its list leaves no such file behind. */
  lemma ConclusiveProbeRemoves(states: seq<State>, moves: seq<(AgentId, Step)>, i: nat, j: nat, path: Path, outcome: ProbeOutcome)
    requires IsRun(states, moves) && i < |moves| && i < j < |states|
    requires moves[i].1 == Probes(path, outcome)
    requires outcome.Refused? || outcome == Status(403) || outcome == Status(410)
    requires forall k :: i < k < j ==> moves[k] != (moves[i].0, CleanerCrashes)
    requires moves[i].0 in states[j].cleaners && states[j].cleaners[moves[i].0].Removing?
    requires states[j].cleaners[moves[i].0].rest == {}
    ensures path !in states[j].files
  {
    assert Next(states[i], moves[i].0, moves[i].1, states[i + 1]);
    StaysCondemned(states, moves, i + 1, j, moves[i].0, path);
    RunKeepsInv(states, moves, j);
    assert CleanerInv(states[j], states[j].cleaners[moves[i].0]);
  }

  lemma {:induction false} StaysCondemned(states: seq<State>, moves: seq<(AgentId, Step)>, i: nat, j: nat, a: AgentId, path: Path)
    requires IsRun(states, moves) && i <= j < |states|
    requires Condemned(states[i], a, path)
    requires forall k :: i <= k < j ==> moves[k] != (a, CleanerCrashes)
    ensures Condemned(states[j], a, path)
  {
    if i < j {
      StaysCondemned(states, moves, i, j - 1, a, path);
      assert Next(states[j - 1], moves[j - 1].0, moves[j - 1].1, states[j]);
    }
  }

  /** What the outcome of a probe tells: a port that refuses, or answers for
      another capability, is always conclusive; the descriptor's own live
      gateway never is. */
  lemma ProbeOutcomes(s: State, d: Descriptor, outcome: ProbeOutcome)
    requires CanYield(s, d, outcome) && !outcome.Ambiguous?
    ensures d.port !in s.ports <==> outcome.Refused?
    ensures d.port !in s.ports ==> OwnerGone(outcome)
    ensures d.port in s.ports && s.ports[d.port].Gateway? ==>
      (OwnerGone(outcome) <==> s.ports[d.port] != Gateway(d.token, false))
    ensures d.port in s.ports && s.ports[d.port].Gateway? ==>
      var gateway := s.ports[d.port];
      && (outcome == Status(403) <==> gateway.token != d.token)
      && (outcome == Status(410) <==> gateway.token == d.token && gateway.closed)
      && (outcome == Status(204) <==> gateway.token == d.token && !gateway.closed)
  {
  }
}
