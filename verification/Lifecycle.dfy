/** One platform session from its registration to its last release, and the
    chain of sessions that managed switches make (internal/session/platform.go
    and run.go).

    Everything outside the session code is an outcome in a `Script`.  A session
    leaves a log of what it acquired, released and established. */
module Lifecycle {
  import opened Wrappers
  import opened Controller

  /** What a session owns, in the order it acquires it.  `User` is the shell,
      or the command of `bivrost run`. */
  datatype Resource = Registration | Proxy | Bastion | Ssh | Activations | User

  datatype Port = SocksPort | ApiPort

  datatype Event =
    | Begins
    | PortReserved(port: Port)
    | PortFreed(port: Port)
    | Acquired(resource: Resource)
    | Released(resource: Resource)
    | TargetPrepared
    | ForwardReady(port: Port)
    | MetadataRequired
    | MetadataInstalled
    | FallbackAllowed
    | PodmanEnabled

  type Log = seq<Event>

  /** Where a log leaves the session. */
  datatype Position = Position(
    stack: seq<Resource>,
    ports: set<Port>,
    needed: set<Port>,
    ready: set<Port>,
    metadata: bool,
    unwinding: bool,
    podman: bool)

  const IDLE := Position([], {}, {}, {}, true, false, false)

  /** The order in which a session acquires what it gets to. */
  const ORDER: seq<Resource> := [Registration, Proxy, Bastion, Ssh, Activations, User]

  /** One event on top of a lawful log; None if it breaks a rule:
      - a session begins with everything of the previous one released;
      - nothing is acquired after the first release, or beside a shell;
      - SSH starts with no port reserved;
      - a shell or command starts only with every needed forward ready and
        the metadata routes settled;
      - ports are reserved and a target is prepared before SSH, and metadata is
        demanded before the shell or command;
      - a Podman session is enabled under the activations, whose closing ends it
        (Activation.Close in Controller.dfy);
      - what is released is what was acquired last. */
  function Advance(st: Position, event: Event): Option<Position> {
    match event
    case Begins =>
      if st.stack == [] && st.ports == {} then Some(IDLE.(needed := {SocksPort})) else None
    case PortReserved(port) =>
      if st.unwinding || Ssh in st.stack then None else Some(st.(ports := st.ports + {port}))
    case PortFreed(port) => Some(st.(ports := st.ports - {port}))
    case Acquired(resource) =>
      if st.unwinding || User in st.stack then None
      else if resource == Ssh && st.ports != {} then None
      else if resource == User && !(st.needed <= st.ready && st.metadata) then None
      else Some(st.(stack := st.stack + [resource]))
    case Released(resource) =>
      if st.stack != [] && st.stack[|st.stack| - 1] == resource
      then Some(st.(stack := st.stack[..|st.stack| - 1], unwinding := true, podman := st.podman && resource != Activations))
      else None
    case TargetPrepared =>
      if st.unwinding || Ssh in st.stack || User in st.stack then None else Some(st.(needed := st.needed + {ApiPort}))
    case ForwardReady(port) => if Ssh in st.stack then Some(st.(ready := st.ready + {port})) else None
    case MetadataRequired =>
      if st.unwinding || User in st.stack then None else Some(st.(metadata := false))
    case MetadataInstalled => Some(st.(metadata := true))
    case FallbackAllowed => Some(st.(metadata := true))
    case PodmanEnabled => if Activations in st.stack then Some(st.(podman := true)) else None
  }

  function Observe(log: Log): Option<Position> {
    if |log| == 0 then Some(IDLE)
    else
      var before := Observe(log[..|log| - 1]);
      if before.None? then None else Advance(before.value, log[|log| - 1])
  }

  /** What an event does to the stack. */
  lemma StackStep(st: Position, event: Event)
    requires Advance(st, event).Some?
    ensures var next := Advance(st, event).value;
            && (event.Acquired? ==> next.stack == st.stack + [event.resource] && !st.unwinding && !next.unwinding)
            && (event.Released? ==>
                  && st.stack != [] && st.stack[|st.stack| - 1] == event.resource
                  && next.stack == st.stack[..|st.stack| - 1] && next.unwinding)
            && (event.Begins? ==> st.stack == [] && next.stack == [] && !next.unwinding)
            && (!event.Acquired? && !event.Released? && !event.Begins? ==>
                  next.stack == st.stack && next.unwinding == st.unwinding)
  {
  }

  lemma ObserveLast(log: Log)
    requires |log| > 0 && Observe(log).Some?
    ensures Observe(log[..|log| - 1]).Some?
    ensures Advance(Observe(log[..|log| - 1]).value, log[|log| - 1]) == Observe(log)
  {
  }

  lemma ObserveAppend(log: Log, event: Event)
    ensures Observe(log + [event]) == if Observe(log).None? then None else Advance(Observe(log).value, event)
  {
    assert (log + [event])[..|log|] == log;
  }

  // ------------------------------------------------------------------ outcomes

  datatype Kube = KubePrepared | KubeUnavailable | KubeFailed

  /** The first thing that happens to a running shell or command. */
  datatype Ending =
    | Exits(switchCode: bool, ok: bool)
    | PodmanLost
    | ProxyStopped
    | SshStopped
    | BastionStopped
    | ContextEnded
    | Terminated

  /** What the controller did while the shell ran, in order. */
  datatype ControllerEvent =
    | PublicationInstalled(gateway: Gateway)
    | UnpublishAccepted
    | SwitchAccepted(target: Profile)

  datatype Script = Script(
    nested: bool,
    valid: bool,
    registered: bool,
    socksReserved: bool,
    apiReserved: bool,
    proxyStarted: bool,
    portsRecorded: bool,
    bastionOpened: bool,
    kube: Kube,
    emptyKubeconfig: bool,
    socksFreed: bool,
    apiFreed: bool,
    sshStarted: bool,
    socksForward: bool,
    apiForward: bool,
    fetched: Option<bool>,
    routesInstalled: bool,
    shellSelected: bool,
    enabled: bool,
    prepared: bool,
    userStarted: bool,
    enabledLater: bool,
    events: seq<ControllerEvent>,
    ending: Ending)

  datatype Result = SessionFailed | Finished | Reconnect(target: Profile, published: bool)

  /** The controller after some of its events; an event that its rules do not
      admit leaves it as it is. */
  function After(c: Control, events: seq<ControllerEvent>): Control {
    if |events| == 0 then c
    else
      var before := After(c, events[..|events| - 1]);
      match events[|events| - 1]
      case PublicationInstalled(gateway) => if PublicationState(before).None? then Install(before, gateway) else before
      case UnpublishAccepted => if before.ended then before else Withdraw(before)
      case SwitchAccepted(target) => SwitchTo(before, target).0
  }

  /** The controller of a session when its shell starts. */
  function Fresh(c: Profile, kube: Kube, resume: bool): Control {
    Control(false, None, None, resume, 0, c.aks && kube.KubePrepared?)
  }

  function ReservedPorts(c: Profile): set<Port> {
    if c.aks then {SocksPort, ApiPort} else {SocksPort}
  }

  // When each stage gets through.

  predicate PortsReserved(c: Profile, s: Script) {
    !s.nested && s.valid && s.registered && s.socksReserved && (c.aks ==> s.apiReserved)
  }

  predicate TransportsOpen(s: Script) {
    s.proxyStarted && s.portsRecorded && s.bastionOpened
  }

  /** A kubeconfig that cannot be prepared for an operational reason is
      replaced by an empty one; any other failure ends the session. */
  predicate ForwardsPrepared(c: Profile, s: Script) {
    && (!(c.aks && s.kube.KubePrepared?) ==> !(c.aks && s.kube.KubeFailed?) && s.emptyKubeconfig)
    && s.socksFreed && (c.aks ==> s.apiFreed)
  }

  function NeededPorts(c: Profile, s: Script): set<Port> {
    if c.aks && s.kube.KubePrepared? then {SocksPort, ApiPort} else {SocksPort}
  }

  predicate ForwardsReady(c: Profile, s: Script) {
    s.sshStarted && s.socksForward && (c.aks && s.kube.KubePrepared? ==> s.apiForward)
  }

  predicate MetadataSettled(c: Profile, s: Script) {
    c.heimdal.Some? ==> s.fetched.Some? && if s.fetched.value then s.routesInstalled else c.heimdal.value
  }

  predicate UserPrepared(c: Profile, command: bool, s: Script) {
    (command || s.shellSelected) && (c.acrSession ==> s.enabled) && (command || s.prepared)
  }

  /** The session gets as far as its shell or command. */
  predicate Reaches(c: Profile, command: bool, s: Script) {
    && PortsReserved(c, s) && TransportsOpen(s) && ForwardsPrepared(c, s) && ForwardsReady(c, s)
    && MetadataSettled(c, s) && UserPrepared(c, command, s) && s.userStarted
  }

  /** How a session ends whose shell or command has started: a switch needs
      both the accepted target and the shell's switch exit code. */
  function SessionResult(c: Profile, resume: bool, command: bool, s: Script): Result {
    var control := After(Fresh(c, s.kube, resume), s.events);
    if s.ending.Exits? && !command && s.ending.switchCode && control.pending.Some?
    then Reconnect(control.pending.value, control.requested)
    else if s.ending.Exits? && s.ending.ok then Finished
    else SessionFailed
  }

  /** The reservations, and what is made known of the Kubernetes target and the
      metadata, by a session that gets to them. */
  function PortMarks(c: Profile, s: Script): set<Event> {
    if !s.socksReserved then {}
    else if c.aks && s.apiReserved then {PortReserved(SocksPort), PortReserved(ApiPort)}
    else {PortReserved(SocksPort)}
  }

  function TargetMarks(c: Profile, s: Script): set<Event> {
    if c.aks && s.kube.KubePrepared? then {TargetPrepared} else {}
  }

  function MetadataMarks(c: Profile, s: Script): set<Event> {
    if c.heimdal.None? then {}
    else if !MetadataSettled(c, s) then {MetadataRequired}
    else {MetadataRequired, if s.fetched.value then MetadataInstalled else FallbackAllowed}
  }

  /** How many resources of ORDER a session acquires. */
  function Depth(c: Profile, command: bool, s: Script): nat {
    if s.nested || !s.valid || !s.registered then 0
    else if !PortsReserved(c, s) || !s.proxyStarted then 1
    else if !s.portsRecorded || !s.bastionOpened then 2
    else if !ForwardsPrepared(c, s) || !s.sshStarted then 3
    else if !ForwardsReady(c, s) || !MetadataSettled(c, s) || !(command || s.shellSelected) then 4
    else if !UserPrepared(c, command, s) || !s.userStarted then 5
    else 6
  }

  function MarksOf(c: Profile, command: bool, s: Script): set<Event> {
    (if Depth(c, command, s) >= 1 then PortMarks(c, s) else {})
    + (if Depth(c, command, s) >= 3 then TargetMarks(c, s) else {})
    + (if Depth(c, command, s) >= 4 && ForwardsReady(c, s) then MetadataMarks(c, s) else {})
  }

  predicate IsMark(event: Event) {
    event.PortReserved? || event.TargetPrepared? || event.MetadataRequired? || event.MetadataInstalled?
    || event.FallbackAllowed?
  }

  function Marks(log: Log): set<Event> {
    set event | event in log && IsMark(event)
  }

  /** A log of one session that has acquired the first d resources in order. */
  ghost predicate Made(session: Log, d: nat, marks: set<Event>) {
    && session != [] && session[0] == Begins && OneSession(session)
    && d <= |ORDER| && Acquisitions(session) == ORDER[..d] && Marks(session) == marks
  }

  lemma MadeAppend(session: Log, d: nat, marks: set<Event>, event: Event)
    requires Made(session, d, marks) && !event.Begins?
    requires event.Acquired? ==> d < |ORDER| && event.resource == ORDER[d]
    ensures Made(session + [event], if event.Acquired? then d + 1 else d, if IsMark(event) then marks + {event} else marks)
  {
    assert (session + [event])[..|session|] == session;
    assert Marks(session + [event]) == if IsMark(event) then marks + {event} else marks;
    if event.Acquired? { assert ORDER[..d + 1] == ORDER[..d] + [ORDER[d]]; }
  }

  lemma Beginning()
    ensures Observe([Begins]) == Some(IDLE.(needed := {SocksPort}))
    ensures Made([Begins], 0, {})
  {
    ObserveAppend([], Begins);
    assert [] + [Begins] == [Begins];
    assert [Begins][..0] == [] && ORDER[..0] == [];
    assert Acquisitions([Begins]) == [];
    assert Marks([Begins]) == {};
  }

  /** Everything the log of one ended session is known to be. */
  ghost predicate SessionLog(session: Log, c: Profile, command: bool, s: Script) {
    && Observe(session).Some? && Observe(session).value.stack == [] && Observe(session).value.ports == {}
    && Made(session, Depth(c, command, s), MarksOf(c, command, s))
  }

  /** Deferred work of platformSession. */
  datatype Deferred = ClosePort(port: Port) | CloseResource(resource: Resource)

  function Resources(deferred: seq<Deferred>): seq<Resource> {
    if |deferred| == 0 then []
    else
      var rest := Resources(deferred[..|deferred| - 1]);
      match deferred[|deferred| - 1]
      case ClosePort(_) => rest
      case CloseResource(resource) => rest + [resource]
  }

  lemma ResourcesAppend(deferred: seq<Deferred>, last: Deferred)
    ensures Resources(deferred + [last])
         == if last.CloseResource? then Resources(deferred) + [last.resource] else Resources(deferred)
  {
    assert (deferred + [last])[..|deferred|] == deferred;
  }

  /** The process that runs platformSession. */
  class Host {
    /** The log of the current or last session, where it stands, how many
        resources it has acquired, and the marks it has left. */
    ghost var session: Log
    ghost var standing: Position
    ghost var depth: nat
    ghost var marks: set<Event>
    var deferred: seq<Deferred>

    ghost predicate Valid()
      reads this
    {
      && Observe(session) == Some(standing)
      && Made(session, depth, marks)
      && standing.stack == Resources(deferred)
      && forall port :: port in standing.ports ==> ClosePort(port) in deferred
    }

    /** Nothing is held: a session may begin. */
    ghost predicate Idle()
      reads this
    {
      Valid() && deferred == [] && standing.stack == [] && standing.ports == {}
    }

    constructor ()
      ensures Idle()
    {
      standing, depth, marks, deferred := IDLE.(needed := {SocksPort}), 0, {}, [];
      session := [Begins];
      new;
      Begin();
    }

    ghost method Begin()
      requires deferred == []
      modifies this`session, this`standing, this`depth, this`marks
      ensures Idle() && session == [Begins]
      ensures standing == IDLE.(needed := {SocksPort}) && depth == 0 && marks == {}
    {
      Beginning();
      session, standing, depth, marks := [Begins], IDLE.(needed := {SocksPort}), 0, {};
    }

    ghost method Note(event: Event)
      requires Observe(session) == Some(standing) && Made(session, depth, marks)
      requires Advance(standing, event).Some? && !event.Begins?
      requires event.Acquired? ==> depth < |ORDER| && event.resource == ORDER[depth]
      modifies this`session, this`standing, this`depth, this`marks
      ensures Observe(session) == Some(standing) && Made(session, depth, marks)
      ensures standing == Advance(old(standing), event).value
      ensures depth == if event.Acquired? then old(depth) + 1 else old(depth)
      ensures marks == if IsMark(event) then old(marks) + {event} else old(marks)
    {
      ObserveAppend(session, event);
      MadeAppend(session, depth, marks, event);
      session := session + [event];
      standing := Advance(standing, event).value;
      depth := if event.Acquired? then depth + 1 else depth;
      marks := if IsMark(event) then marks + {event} else marks;
    }

    /** A successful acquisition followed by its `defer`. */
    method Acquire(resource: Resource)
      requires Valid() && Advance(standing, Acquired(resource)).Some?
      requires depth < |ORDER| && resource == ORDER[depth]
      modifies this
      ensures Valid() && depth == old(depth) + 1 && marks == old(marks)
      ensures standing == old(standing).(stack := old(standing.stack) + [resource])
      ensures deferred == old(deferred) + [CloseResource(resource)]
    {
      StackStep(standing, Acquired(resource));
      assert Advance(standing, Acquired(resource)).value == standing.(stack := standing.stack + [resource]);
      Note(Acquired(resource));
      ResourcesAppend(deferred, CloseResource(resource));
      deferred := deferred + [CloseResource(resource)];
    }

    method Reserve(port: Port)
      requires Valid() && Advance(standing, PortReserved(port)).Some?
      modifies this
      ensures Valid() && depth == old(depth) && marks == old(marks) + {PortReserved(port)}
      ensures standing == old(standing).(ports := old(standing.ports) + {port})
    {
      Note(PortReserved(port));
      ResourcesAppend(deferred, ClosePort(port));
      deferred := deferred + [ClosePort(port)];
    }

    /** The deferred calls, last first. */
    method Unwind()
      requires Valid()
      modifies this
      ensures Idle() && depth == old(depth) && marks == old(marks)
    {
      while deferred != []
        invariant Valid() && depth == old(depth) && marks == old(marks)
        decreases |deferred|
      {
        UnwindOne();
      }
    }

    method UnwindOne()
      requires Valid() && deferred != []
      modifies this
      ensures Valid() && depth == old(depth) && marks == old(marks) && |deferred| < |old(deferred)|
    {
      var last := deferred[|deferred| - 1];
      var rest := deferred[..|deferred| - 1];
      assert deferred == rest + [last];
      ResourcesAppend(rest, last);
      if last.ClosePort? {
        Note(PortFreed(last.port));
      } else {
        Note(Released(last.resource));
      }
      deferred := rest;
    }

    /** The registration and the port reservations. */
    method RegisterAndReserve(c: Profile, s: Script) returns (ok: bool)
      requires Valid() && standing == IDLE.(needed := {SocksPort}) && depth == 0 && marks == {}
      modifies this
      ensures Valid()
      ensures ok <==> PortsReserved(c, s)
      ensures depth == (if s.nested || !s.valid || !s.registered then 0 else 1)
      ensures marks == (if depth == 0 then {} else PortMarks(c, s))
      ensures ok ==> standing == Position([Registration], ReservedPorts(c), {SocksPort}, {}, true, false, false)
    {
      if s.nested || !s.valid || !s.registered {
        return false;
      }
      Acquire(Registration);
      if !s.socksReserved {
        return false;
      }
      Reserve(SocksPort);
      if c.aks {
        if !s.apiReserved {
          return false;
        }
        Reserve(ApiPort);
      }
      return true;
    }

    /** The proxy and the Bastion tunnel. */
    method OpenTransports(c: Profile, s: Script) returns (ok: bool)
      requires Valid() && depth == 1
      requires standing == Position([Registration], ReservedPorts(c), {SocksPort}, {}, true, false, false)
      modifies this
      ensures Valid() && marks == old(marks)
      ensures ok <==> TransportsOpen(s)
      ensures depth == (if !s.proxyStarted then 1 else if !ok then 2 else 3)
      ensures ok ==>
        standing == Position([Registration, Proxy, Bastion], ReservedPorts(c), {SocksPort}, {}, true, false, false)
    {
      if !s.proxyStarted {
        return false;
      }
      Acquire(Proxy);
      if !s.portsRecorded || !s.bastionOpened {
        return false;
      }
      Acquire(Bastion);
      return true;
    }

    /** The kubeconfig, and the ports given up for SSH. */
    method PrepareForwards(c: Profile, s: Script) returns (ok: bool)
      requires Valid() && depth == 3
      requires standing == Position([Registration, Proxy, Bastion], ReservedPorts(c), {SocksPort}, {}, true, false, false)
      modifies this
      ensures Valid() && depth == 3 && marks == old(marks) + TargetMarks(c, s)
      ensures ok <==> ForwardsPrepared(c, s)
      ensures ok ==> standing == Position([Registration, Proxy, Bastion], {}, NeededPorts(c, s), {}, true, false, false)
    {
      if c.aks && s.kube.KubePrepared? {
        Note(TargetPrepared);
      } else if (c.aks && s.kube.KubeFailed?) || !s.emptyKubeconfig {
        return false;
      }
      if !s.socksFreed {
        return false;
      }
      Note(PortFreed(SocksPort));
      if c.aks {
        if !s.apiFreed {
          return false;
        }
        Note(PortFreed(ApiPort));
      }
      return true;
    }

    /** SSH and its forwards. */
    method ForwardPorts(c: Profile, s: Script) returns (ok: bool)
      requires Valid() && depth == 3
      requires standing == Position([Registration, Proxy, Bastion], {}, NeededPorts(c, s), {}, true, false, false)
      modifies this
      ensures Valid() && marks == old(marks)
      ensures depth == (if s.sshStarted then 4 else 3)
      ensures ok <==> ForwardsReady(c, s)
      ensures ok ==>
        standing ==
          Position([Registration, Proxy, Bastion, Ssh], {}, NeededPorts(c, s), NeededPorts(c, s), true, false, false)
    {
      if !s.sshStarted {
        return false;
      }
      Acquire(Ssh);
      if !s.socksForward {
        return false;
      }
      Note(ForwardReady(SocksPort));
      if c.aks && s.kube.KubePrepared? {
        if !s.apiForward {
          return false;
        }
        Note(ForwardReady(ApiPort));
      }
      return true;
    }

    /** The Heimdal stage. */
    method SettleMetadata(c: Profile, s: Script) returns (ok: bool)
      requires Valid() && standing.metadata && !standing.unwinding && User !in standing.stack
      modifies this
      ensures Valid() && depth == old(depth) && marks == old(marks) + MetadataMarks(c, s)
      ensures ok <==> MetadataSettled(c, s)
      ensures ok ==> standing == old(standing)
    {
      if c.heimdal.None? {
        return true;
      }
      Note(MetadataRequired);
      if s.fetched.None? {
        return false;
      }
      if !s.fetched.value {
        if !c.heimdal.value {
          return false;
        }
        Note(FallbackAllowed);
      } else {
        if !s.routesInstalled {
          return false;
        }
        Note(MetadataInstalled);
      }
      return true;
    }

    /** Everything else before the shell or command starts. */
    method PrepareUser(c: Profile, command: bool, s: Script) returns (ok: bool)
      requires Valid() && !standing.unwinding && User !in standing.stack
      requires depth == 4 && !standing.podman
      modifies this
      ensures Valid() && marks == old(marks)
      ensures depth == (if command || s.shellSelected then 5 else 4)
      ensures ok <==> UserPrepared(c, command, s)
      ensures ok ==>
        standing == old(standing).(stack := old(standing.stack) + [Activations], podman := c.acrSession)
    {
      if !command && !s.shellSelected {
        return false;
      }
      Acquire(Activations);
      if c.acrSession {
        if !s.enabled {
          return false;
        }
        EnablePodman();
      }
      return command || s.prepared;
    }

    method EnablePodman()
      requires Valid() && Activations in standing.stack
      modifies this
      ensures Valid() && depth == old(depth) && marks == old(marks) && deferred == old(deferred)
      ensures standing == old(standing).(podman := true)
    {
      Note(PodmanEnabled);
    }

    /** What the ending of a started shell or command makes of the session. */
    method EndUser(c: Profile, resume: bool, command: bool, s: Script) returns (result: Result)
      ensures result == SessionResult(c, resume, command, s)
    {
      match s.ending {
        case Exits(switchCode, exitedOk) =>
          if !command && switchCode {
            var control := After(Fresh(c, s.kube, resume), s.events);
            if control.pending.Some? {
              return Reconnect(control.pending.value, control.requested);
            }
          }
          return if exitedOk then Finished else SessionFailed;
        case _ =>
          return SessionFailed;
      }
    }

    /** The shell or the command: in every case it has ended, by itself or
        because it was stopped and waited for, before this returns. */
    method RunUser(c: Profile, resume: bool, command: bool, s: Script) returns (result: Result)
      requires Valid() && depth == 5
      requires !standing.unwinding && User !in standing.stack && Activations in standing.stack
      requires standing.needed <= standing.ready && standing.metadata
      modifies this
      ensures Valid() && marks == old(marks) && depth == (if s.userStarted then 6 else 5)
      ensures result == if s.userStarted then SessionResult(c, resume, command, s) else SessionFailed
    {
      if !s.userStarted {
        return SessionFailed;
      }
      result := EndUser(c, resume, command, s);
      UserComesAndGoes(s.enabledLater);
    }

    /** A shell or command that has started, perhaps enabled Podman, and has
        ended again. */
    method UserComesAndGoes(enables: bool)
      requires Valid() && depth == 5
      requires !standing.unwinding && User !in standing.stack && Activations in standing.stack
      requires standing.needed <= standing.ready && standing.metadata
      modifies this
      ensures Valid() && marks == old(marks) && depth == 6
    {
      Acquire(User);
      if enables {
        EnablePodman();
      }
      Note(Released(User));
      deferred := deferred[..|deferred| - 1];
      assert deferred == old(deferred);
    }

    /** platformSession: its log is that of one session, which acquired and
        settled what the outcomes let it, and released it all. */
    method PlatformSession(c: Profile, resume: bool, command: bool, s: Script) returns (result: Result)
      requires Idle()
      modifies this
      ensures Idle() && SessionLog(session, c, command, s)
      ensures result == if Reaches(c, command, s) then SessionResult(c, resume, command, s) else SessionFailed
    {
      Begin();
      result := RunStages(c, resume, command, s);
      Unwind();
    }

    /** From the registration to the forwards. */
    method OpenForwards(c: Profile, s: Script) returns (ok: bool)
      requires Valid() && standing == IDLE.(needed := {SocksPort}) && depth == 0 && marks == {}
      modifies this
      ensures Valid()
      ensures ok <==> PortsReserved(c, s) && TransportsOpen(s) && ForwardsPrepared(c, s) && ForwardsReady(c, s)
      ensures !ok ==> forall command :: depth == Depth(c, command, s) && marks == MarksOf(c, command, s)
      ensures ok ==>
        && standing ==
             Position([Registration, Proxy, Bastion, Ssh], {}, NeededPorts(c, s), NeededPorts(c, s), true, false, false)
        && depth == 4 && marks == PortMarks(c, s) + TargetMarks(c, s)
    {
      ok := RegisterAndReserve(c, s);
      if ok {
        ok := OpenTransports(c, s);
      }
      if ok {
        ok := PrepareForwards(c, s);
      }
      if ok {
        ok := ForwardPorts(c, s);
      }
    }

    /** Everything a session does before its deferred calls. */
    method RunStages(c: Profile, resume: bool, command: bool, s: Script) returns (result: Result)
      requires Valid() && standing == IDLE.(needed := {SocksPort}) && depth == 0 && marks == {}
      modifies this
      ensures Valid() && depth == Depth(c, command, s) && marks == MarksOf(c, command, s)
      ensures result == if Reaches(c, command, s) then SessionResult(c, resume, command, s) else SessionFailed
    {
      result := SessionFailed;
      var ok := OpenForwards(c, s);
      if ok {
        ok := SettleMetadata(c, s);
      }
      if ok {
        ok := PrepareUser(c, command, s);
      }
      if ok {
        result := RunUser(c, resume, command, s);
      }
    }

    /** platformConnectLoop: one session after another for as long as each ends
        in a switch; `scripts` are the sessions until the context ends. */
    method PlatformConnectLoop(first: Profile, scripts: seq<Script>)
      returns (visits: seq<Visit>, result: Result, ghost logs: seq<Log>)
      requires Idle()
      modifies this
      ensures Idle() && ChainRun(first, scripts, visits, logs)
      ensures NextVisit(first, scripts, visits).Some? ==> |visits| == |scripts| && result == SessionFailed
      ensures NextVisit(first, scripts, visits).None? ==>
                |visits| > 0 && result == VisitResult(visits[|visits| - 1], scripts[|visits| - 1]) && !result.Reconnect?
    {
      visits, logs := [], [];
      var c, published := first, false;
      while true
        invariant Idle() && ChainRun(first, scripts, visits, logs)
        invariant NextVisit(first, scripts, visits) == Some(Visit(c.(prompt := first.prompt), published))
        decreases |scripts| - |visits|
      {
        if |visits| == |scripts| {
          return visits, SessionFailed, logs;
        }
        c := c.(prompt := first.prompt);
        var script := scripts[|visits|];
        result := PlatformSession(c, published, false, script);
        ChainGoesOn(first, scripts, visits, logs, Visit(c, published), session);
        visits, logs := visits + [Visit(c, published)], logs + [session];
        if !result.Reconnect? {
          return;
        }
        published := result.published;
        c := result.target;
      }
    }
  }

  /** What a session of the chain results in. */
  function VisitResult(visit: Visit, script: Script): Result {
    if Reaches(visit.profile, false, script) then SessionResult(visit.profile, visit.resume, false, script) else SessionFailed
  }

  /** A session of the chain: the profile it connects to, and whether it is to
      resume the publication of the one before. */
  datatype Visit = Visit(profile: Profile, resume: bool)

  /** Where a chain goes on after these visits, if it does. */
  function NextVisit(first: Profile, scripts: seq<Script>, visits: seq<Visit>): Option<Visit>
    requires |visits| <= |scripts|
  {
    if |visits| == 0 then Some(Visit(first, false))
    else
      var k := |visits| - 1;
      if !Reaches(visits[k].profile, false, scripts[k]) then None
      else
        var result := SessionResult(visits[k].profile, visits[k].resume, false, scripts[k]);
        if result.Reconnect? then Some(Visit(result.target.(prompt := first.prompt), result.published)) else None
  }

  /** Each visit is where the ones before it lead. */
  ghost predicate Chain(first: Profile, scripts: seq<Script>, visits: seq<Visit>) {
    && |visits| <= |scripts|
    && forall k :: 0 <= k < |visits| ==> NextVisit(first, scripts[..k], visits[..k]) == Some(visits[k])
  }

  /** These visits were made, one after another, and left these logs. */
  ghost predicate ChainRun(first: Profile, scripts: seq<Script>, visits: seq<Visit>, logs: seq<Log>) {
    && Chain(first, scripts, visits) && |logs| == |visits|
    && forall k :: 0 <= k < |visits| ==> SessionLog(logs[k], visits[k].profile, false, scripts[k])
  }

  lemma ChainGoesOn(first: Profile, scripts: seq<Script>, visits: seq<Visit>, logs: seq<Log>, visit: Visit, log: Log)
    requires ChainRun(first, scripts, visits, logs) && |visits| < |scripts|
    requires NextVisit(first, scripts, visits) == Some(visit)
    requires SessionLog(log, visit.profile, false, scripts[|visits|])
    ensures ChainRun(first, scripts, visits + [visit], logs + [log])
    ensures NextVisit(first, scripts, visits + [visit]) == Onward(first, VisitResult(visit, scripts[|visits|]))
  {
    ChainExtends(first, scripts, visits, visit);
    LastVisitLeads(first, scripts, visits, visit);
    var longer, all := visits + [visit], logs + [log];
    forall k | 0 <= k < |longer| ensures SessionLog(all[k], longer[k].profile, false, scripts[k]) {
      if k < |visits| { assert longer[k] == visits[k] && all[k] == logs[k]; }
    }
  }

  /** Where a session that ended like this leads. */
  function Onward(first: Profile, result: Result): Option<Visit> {
    if result.Reconnect? then Some(Visit(result.target.(prompt := first.prompt), result.published)) else None
  }

  lemma LastVisitLeads(first: Profile, scripts: seq<Script>, visits: seq<Visit>, visit: Visit)
    requires |visits| < |scripts|
    ensures NextVisit(first, scripts, visits + [visit]) == Onward(first, VisitResult(visit, scripts[|visits|]))
  {
  }

  lemma ChainExtends(first: Profile, scripts: seq<Script>, visits: seq<Visit>, visit: Visit)
    requires Chain(first, scripts, visits) && |visits| < |scripts| && NextVisit(first, scripts, visits) == Some(visit)
    ensures Chain(first, scripts, visits + [visit])
  {
    var longer := visits + [visit];
    forall k | 0 <= k < |longer| ensures NextVisit(first, scripts[..k], longer[..k]) == Some(longer[k]) {
      assert longer[..k] == visits[..k];
      if k == |visits| {
        assert visits[..k] == visits;
        NextVisitOfPrefix(first, scripts, visits);
      }
    }
  }

  /** The scripts that are still to come do not matter. */
  lemma NextVisitOfPrefix(first: Profile, scripts: seq<Script>, visits: seq<Visit>)
    requires |visits| <= |scripts|
    ensures NextVisit(first, scripts[..|visits|], visits) == NextVisit(first, scripts, visits)
  {
  }

  // --------------------------------------------------------- what a log means

  function Acquisitions(log: Log): seq<Resource> {
    if |log| == 0 then []
    else
      var before := Acquisitions(log[..|log| - 1]);
      if log[|log| - 1].Acquired? then before + [log[|log| - 1].resource] else before
  }

  function Releases(log: Log): seq<Resource> {
    if |log| == 0 then []
    else
      var before := Releases(log[..|log| - 1]);
      if log[|log| - 1].Released? then before + [log[|log| - 1].resource] else before
  }

  function Reverse(rs: seq<Resource>): seq<Resource> {
    if |rs| == 0 then [] else [rs[|rs| - 1]] + Reverse(rs[..|rs| - 1])
  }

  /** A log of one session. */
  ghost predicate OneSession(log: Log) {
    forall i :: 0 < i < |log| ==> !log[i].Begins?
  }

  /** Releases undo acquisitions, last first. */
  lemma {:induction false} ReleasesUndoAcquisitions(log: Log)
    requires OneSession(log) && Observe(log).Some?
    ensures Acquisitions(log) == Observe(log).value.stack + Reverse(Releases(log))
    ensures !Observe(log).value.unwinding ==> Releases(log) == []
  {
    if |log| > 0 {
      var before, last := log[..|log| - 1], log[|log| - 1];
      ObserveLast(log);
      ReleasesUndoAcquisitions(before);
      StackStep(Observe(before).value, last);
      UndoneBy(Observe(before).value.stack, Acquisitions(before), Releases(before), last, |before| == 0);
    }
  }

  /** One more event keeps acquisitions equal to what is held and released. */
  lemma UndoneBy(stack: seq<Resource>, acquired: seq<Resource>, released: seq<Resource>, event: Event, first: bool)
    requires acquired == stack + Reverse(released)
    requires event.Begins? ==> first && stack == [] && released == []
    requires event.Released? ==> |stack| > 0 && stack[|stack| - 1] == event.resource
    requires event.Acquired? ==> released == []
    ensures event.Acquired? ==> acquired + [event.resource] == (stack + [event.resource]) + Reverse(released)
    ensures event.Released? ==> acquired == stack[..|stack| - 1] + Reverse(released + [event.resource])
  {
    if event.Released? { PopUndoes(stack, released, event.resource); }
  }

  lemma PopUndoes(stack: seq<Resource>, released: seq<Resource>, r: Resource)
    requires |stack| > 0 && stack[|stack| - 1] == r
    ensures stack + Reverse(released) == stack[..|stack| - 1] + Reverse(released + [r])
  {
    assert (released + [r])[..|released|] == released;
  }

  /** A session that has ended released exactly what it acquired, in reverse
      order. */
  lemma EndedSessionReleasedAll(log: Log)
    requires OneSession(log) && Observe(log).Some? && Observe(log).value.stack == []
    ensures Acquisitions(log) == Reverse(Releases(log))
  {
    ReleasesUndoAcquisitions(log);
  }

  lemma {:induction false} ObservePrefix(log: Log, i: nat)
    requires Observe(log).Some? && i <= |log|
    ensures Observe(log[..i]).Some?
  {
    if i < |log| {
      ObservePrefix(log[..|log| - 1], i);
      assert log[..|log| - 1][..i] == log[..i];
    } else {
      assert log[..i] == log;
    }
  }

  lemma StepAt(log: Log, i: nat)
    requires Observe(log).Some? && i < |log|
    ensures Observe(log[..i]).Some? && Observe(log[..i + 1]).Some?
    ensures Observe(log[..i + 1]) == Advance(Observe(log[..i]).value, log[i])
  {
    ObservePrefix(log, i);
    ObservePrefix(log, i + 1);
    assert log[..i + 1][..i] == log[..i];
  }

  predicate UserOnTop(st: Position) {
    |st.stack| >= 1 && st.stack[|st.stack| - 1] == User
  }

  lemma UserOnTopNext(st: Position, event: Event)
    requires UserOnTop(st) && Advance(st, event).Some? && event != Released(User)
    ensures UserOnTop(Advance(st, event).value) && !event.Released? && !event.Begins?
  {
    assert User in st.stack;
  }

  lemma UserGetsOnTop(st: Position)
    requires Advance(st, Acquired(User)).Some?
    ensures UserOnTop(Advance(st, Acquired(User)).value)
  {
  }

  lemma OnTopStep(log: Log, j: nat)
    requires Observe(log).Some? && j < |log| && Observe(log[..j]).Some?
    requires log[j] == Acquired(User) || (UserOnTop(Observe(log[..j]).value) && log[j] != Released(User))
    ensures Observe(log[..j + 1]).Some? && UserOnTop(Observe(log[..j + 1]).value)
    ensures !log[j].Released? && !log[j].Begins?
  {
    StepAt(log, j);
    if log[j] == Acquired(User) { UserGetsOnTop(Observe(log[..j]).value); } else { UserOnTopNext(Observe(log[..j]).value, log[j]); }
  }

  /** While a shell or command runs it is on top. */
  lemma {:induction false} UserStaysOnTop(log: Log, i: nat, j: nat)
    requires Observe(log).Some? && i < j <= |log| && log[i] == Acquired(User)
    requires forall k :: i < k < j ==> log[k] != Released(User)
    ensures Observe(log[..j]).Some? && UserOnTop(Observe(log[..j]).value)
  {
    if j > i + 1 {
      UserStaysOnTop(log, i, j - 1);
    } else {
      ObservePrefix(log, i);
    }
    OnTopStep(log, j - 1);
  }

  /** And nothing else is released, and no session begins. */
  lemma NothingElseReleased(log: Log, i: nat, j: nat)
    requires Observe(log).Some? && i < j < |log| && log[i] == Acquired(User)
    requires forall k :: i < k <= j ==> log[k] != Released(User)
    ensures !log[j].Released? && !log[j].Begins?
  {
    UserStaysOnTop(log, i, j);
    OnTopStep(log, j);
  }

  /** The shell or command has ended before any transport is released. */
  lemma UserEndsBeforeTransports(log: Log, i: nat, j: nat) returns (k: nat)
    requires Observe(log).Some? && i < j < |log|
    requires log[i] == Acquired(User) && log[j].Released?
    ensures i < k <= j && log[k] == Released(User)
  {
    if l :| i < l < j && log[l] == Released(User) {
      k := l;
    } else {
      UserStaysOnTop(log, i, j);
      StepAt(log, j);
      k := j;
    }
  }

  /** Since the session began, `port` was needed, got ready, and so on. */
  ghost predicate Since(log: Log, i: nat, event: Event) {
    exists k :: 0 <= k < i && i <= |log| && log[k] == event && forall l :: k < l < i ==> !log[l].Begins?
  }

  lemma ReadyStep(st: Position, event: Event, port: Port)
    requires Advance(st, event).Some? && port in Advance(st, event).value.ready
    ensures event == ForwardReady(port) || (port in st.ready && !event.Begins?)
  {
  }

  lemma {:induction false} ReadyMeansReported(log: Log, i: nat, port: Port)
    requires Observe(log).Some? && i <= |log|
    ensures Observe(log[..i]).Some?
    ensures port in Observe(log[..i]).value.ready ==> Since(log, i, ForwardReady(port))
  {
    ObservePrefix(log, i);
    if i > 0 && port in Observe(log[..i]).value.ready {
      StepAt(log, i - 1);
      ReadyStep(Observe(log[..i - 1]).value, log[i - 1], port);
      ReadyMeansReported(log, i - 1, port);
      SinceStep(log, i - 1, ForwardReady(port));
    }
  }

  lemma NeededStep(st: Position, event: Event)
    requires Advance(st, event).Some?
    ensures var next := Advance(st, event).value;
            && (event.TargetPrepared? || (ApiPort in st.needed && !event.Begins?) ==> ApiPort in next.needed)
            && (event.Begins? || SocksPort in st.needed ==> SocksPort in next.needed)
  {
  }

  lemma {:induction false} NeededIfTarget(log: Log, i: nat)
    requires Observe(log).Some? && i <= |log|
    ensures Observe(log[..i]).Some?
    ensures Since(log, i, TargetPrepared) ==> ApiPort in Observe(log[..i]).value.needed
    ensures Since(log, i, Begins) ==> SocksPort in Observe(log[..i]).value.needed
  {
    ObservePrefix(log, i);
    if i > 0 {
      StepAt(log, i - 1);
      NeededIfTarget(log, i - 1);
      NeededStep(Observe(log[..i - 1]).value, log[i - 1]);
      SinceStep(log, i - 1, TargetPrepared);
      SinceStep(log, i - 1, Begins);
    }
  }

  lemma SinceStep(log: Log, i: nat, event: Event)
    requires i < |log|
    ensures Since(log, i + 1, event) <==> log[i] == event || (Since(log, i, event) && !log[i].Begins?)
  {
    if Since(log, i + 1, event) && log[i] != event {
      var k :| 0 <= k < i + 1 && log[k] == event && forall l :: k < l < i + 1 ==> !log[l].Begins?;
      assert k < i;
    }
  }

  /** No shell or command starts before its forwards are ready: SOCKS always,
      the API as well when a kubeconfig points to it. */
  lemma UserStartsAfterForwards(log: Log, i: nat)
    requires Observe(log).Some? && i < |log| && log[i] == Acquired(User) && Since(log, i, Begins)
    ensures Since(log, i, ForwardReady(SocksPort))
    ensures Since(log, i, TargetPrepared) ==> Since(log, i, ForwardReady(ApiPort))
  {
    StepAt(log, i);
    ReadyMeansReported(log, i, SocksPort);
    ReadyMeansReported(log, i, ApiPort);
    NeededIfTarget(log, i);
  }

  lemma MetadataStep(st: Position, event: Event)
    requires Advance(st, event).Some? && Advance(st, event).value.metadata
    ensures event.MetadataInstalled? || event.FallbackAllowed? || event.Begins? || (st.metadata && !event.MetadataRequired?)
  {
  }

  /** Nor before required metadata has been installed, or its absence allowed. */
  lemma {:induction false} MetadataMeansSettled(log: Log, i: nat, k: nat)
    requires Observe(log).Some? && k < i <= |log| && log[k] == MetadataRequired
    requires forall l :: k < l < i ==> !log[l].Begins?
    requires Observe(log[..i]).Some? && Observe(log[..i]).value.metadata
    ensures exists l :: k < l < i && (log[l] == MetadataInstalled || log[l] == FallbackAllowed)
  {
    StepAt(log, i - 1);
    MetadataStep(Observe(log[..i - 1]).value, log[i - 1]);
    if log[i - 1] == MetadataInstalled || log[i - 1] == FallbackAllowed {
    } else {
      MetadataMeansSettled(log, i - 1, k);
      var l :| k < l < i - 1 && (log[l] == MetadataInstalled || log[l] == FallbackAllowed);
    }
  }

  lemma UserStartsAfterMetadata(log: Log, i: nat, k: nat)
    requires Observe(log).Some? && k < i < |log| && log[i] == Acquired(User) && log[k] == MetadataRequired
    requires forall l :: k < l < i ==> !log[l].Begins?
    ensures exists l :: k < l < i && (log[l] == MetadataInstalled || log[l] == FallbackAllowed)
  {
    StepAt(log, i);
    MetadataMeansSettled(log, i, k);
  }

  lemma PortLeaves(st: Position, event: Event, port: Port)
    requires Advance(st, event).Some? && port !in Advance(st, event).value.ports
    ensures event != PortReserved(port) && (event == PortFreed(port) || port !in st.ports)
  {
  }

  /** SSH starts on ports that Bivrost has given up: each one reserved before
      has been freed in the meantime. */
  lemma {:induction false} HeldMeansReserved(log: Log, i: nat, k: nat) returns (l: nat)
    requires Observe(log).Some? && k < i <= |log| && log[k].PortReserved?
    requires Observe(log[..i]).Some? && log[k].port !in Observe(log[..i]).value.ports
    ensures k < l < i && log[l] == PortFreed(log[k].port)
  {
    StepAt(log, i - 1);
    PortLeaves(Observe(log[..i - 1]).value, log[i - 1], log[k].port);
    l := i - 1;
    if log[l] != PortFreed(log[k].port) {
      l := HeldMeansReserved(log, i - 1, k);
    }
  }

  lemma SshStartsOnFreePorts(log: Log, i: nat, k: nat) returns (l: nat)
    requires Observe(log).Some? && k < i < |log| && log[i] == Acquired(Ssh) && log[k].PortReserved?
    ensures k < l < i && log[l] == PortFreed(log[k].port)
  {
    StepAt(log, i);
    l := HeldMeansReserved(log, i, k);
  }

  /** The old registration is gone before the next is made. */
  lemma RegistrationsDoNotOverlap(log: Log, i: nat, j: nat) returns (l: nat)
    requires Observe(log).Some? && i < j < |log| && log[i] == Acquired(Registration) && log[j].Begins?
    ensures i < l < j && log[l] == Released(Registration)
  {
    StepAt(log, j);
    StackStep(Observe(log[..j]).value, log[j]);
    l := KeptUntilReleased(log, i, j);
  }

  lemma {:induction false} KeptUntilReleased(log: Log, i: nat, j: nat) returns (l: nat)
    requires Observe(log).Some? && i < j <= |log| && log[i].Acquired?
    requires Observe(log[..j]).Some? && log[i].resource !in Observe(log[..j]).value.stack
    ensures i < l < j && log[l] == Released(log[i].resource)
  {
    NotHeldBefore(log, i, j);
    l := j - 1;
    if log[l] != Released(log[i].resource) {
      l := KeptUntilReleased(log, i, j - 1);
    }
  }

  lemma NotHeldBefore(log: Log, i: nat, j: nat)
    requires Observe(log).Some? && i < j <= |log| && log[i].Acquired?
    requires Observe(log[..j]).Some? && log[i].resource !in Observe(log[..j]).value.stack
    ensures log[j - 1] == Released(log[i].resource) ||
            (i < j - 1 && Observe(log[..j - 1]).Some? && log[i].resource !in Observe(log[..j - 1]).value.stack)
  {
    StepAt(log, j - 1);
    LeavesByRelease(Observe(log[..j - 1]).value, log[j - 1], log[i].resource);
  }

  lemma LeavesByRelease(st: Position, event: Event, r: Resource)
    requires Advance(st, event).Some? && r !in Advance(st, event).value.stack
    ensures event != Acquired(r) && (event == Released(r) || r !in st.stack)
  {
    StackStep(st, event);
    if event.Released? {
      assert st.stack == st.stack[..|st.stack| - 1] + [event.resource];
    }
  }

  // ----------------------------------------------- what each session's log shows

  lemma ReverseAppend(rs: seq<Resource>, r: Resource)
    ensures Reverse(rs + [r]) == [r] + Reverse(rs)
  {
    assert (rs + [r])[..|rs|] == rs;
  }

  lemma {:induction false} ReverseCons(r: Resource, rs: seq<Resource>)
    ensures Reverse([r] + rs) == Reverse(rs) + [r]
  {
    if |rs| == 0 {
      assert [r] + rs == [] + [r];
      ReverseAppend([], r);
    } else {
      var front, last := rs[..|rs| - 1], rs[|rs| - 1];
      assert [r] + rs == ([r] + front) + [last] && rs == front + [last];
      ReverseAppend([r] + front, last);
      ReverseCons(r, front);
      ReverseAppend(front, last);
    }
  }

  lemma {:induction false} ReverseTwice(rs: seq<Resource>)
    ensures Reverse(Reverse(rs)) == rs
  {
    if |rs| > 0 {
      var front, last := rs[..|rs| - 1], rs[|rs| - 1];
      assert rs == front + [last];
      ReverseAppend(front, last);
      ReverseCons(last, Reverse(front));
      ReverseTwice(front);
    }
  }

  /** A session acquires resources in their order as far as it gets, and
      releases exactly these in the opposite order. */
  lemma SessionReleasesInReverse(session: Log, c: Profile, command: bool, s: Script)
    requires SessionLog(session, c, command, s)
    ensures Acquisitions(session) == ORDER[..Depth(c, command, s)]
    ensures Releases(session) == Reverse(ORDER[..Depth(c, command, s)])
  {
    EndedSessionReleasedAll(session);
    ReverseTwice(Releases(session));
  }

  lemma {:induction false} AcquiredInLog(log: Log, r: Resource)
    ensures r in Acquisitions(log) <==> Acquired(r) in log
  {
    if |log| > 0 {
      AcquiredInLog(log[..|log| - 1], r);
      assert log == log[..|log| - 1] + [log[|log| - 1]];
    }
  }

  lemma {:induction false} AcquisitionsGrow(log: Log, i: nat)
    requires i <= |log|
    ensures Acquisitions(log[..i]) <= Acquisitions(log)
  {
    if i == |log| {
      assert log[..i] == log;
    } else {
      AcquisitionsGrow(log[..|log| - 1], i);
      assert log[..|log| - 1][..i] == log[..i];
    }
  }

  lemma InOrder(d: nat, k: nat)
    requires d <= |ORDER| && k < |ORDER|
    ensures ORDER[k] in ORDER[..d] <==> k < d
  {
    assert forall i, j :: 0 <= i < j < |ORDER| ==> ORDER[i] != ORDER[j];
    if k < d { assert ORDER[..d][k] == ORDER[k]; }
    assert forall i :: 0 <= i < d ==> ORDER[..d][i] == ORDER[i];
  }

  /** A shell or command starts exactly in the sessions that reach it. */
  lemma SessionStartsWhenReached(session: Log, c: Profile, command: bool, s: Script)
    requires SessionLog(session, c, command, s)
    ensures Acquired(User) in session <==> Reaches(c, command, s)
    ensures Acquired(Ssh) in session ==> PortsReserved(c, s) && TransportsOpen(s) && ForwardsPrepared(c, s)
  {
    AcquiredInLog(session, User);
    AcquiredInLog(session, Ssh);
    InOrder(Depth(c, command, s), 5);
    InOrder(Depth(c, command, s), 3);
  }

  /** In one session nothing that was acquired leaves the stack before the
      session unwinds. */
  lemma {:induction false} HeldOrUnwinding(session: Log, i: nat, k: nat)
    requires OneSession(session) && Observe(session).Some? && i < k <= |session| && session[i].Acquired?
    ensures Observe(session[..k]).Some?
    ensures session[i].resource in Observe(session[..k]).value.stack || Observe(session[..k]).value.unwinding
  {
    StepAt(session, k - 1);
    StackStep(Observe(session[..k - 1]).value, session[k - 1]);
    if k - 1 > i {
      HeldOrUnwinding(session, i, k - 1);
      HeldStep(Observe(session[..k - 1]).value, session[k - 1], session[i].resource);
    }
  }

  lemma HeldStep(st: Position, event: Event, r: Resource)
    requires Advance(st, event).Some? && !event.Begins? && (r in st.stack || st.unwinding)
    ensures r in Advance(st, event).value.stack || Advance(st, event).value.unwinding
  {
    StackStep(st, event);
  }

  /** The reservations and the target come before SSH, the demand for metadata
      before the shell or command. */
  lemma MarksComeBefore(session: Log, i: nat, k: nat)
    requires OneSession(session) && Observe(session).Some? && i < |session| && k < |session|
    requires || (session[i] == Acquired(Ssh) && (session[k].PortReserved? || session[k].TargetPrepared?))
             || (session[i] == Acquired(User) && (session[k].MetadataRequired? || session[k].TargetPrepared?))
    ensures k < i
  {
    StepAt(session, k);
    if i < k { HeldOrUnwinding(session, i, k); }
  }

  lemma MarkAt(session: Log, d: nat, marks: set<Event>, event: Event) returns (k: nat)
    requires Made(session, d, marks) && event in marks
    ensures k < |session| && session[k] == event
  {
    assert event in Marks(session);
    k :| 0 <= k < |session| && session[k] == event;
  }

  /** SSH starts in a session only after each of the profile's ports has been
      reserved and then given up. */
  lemma SessionFreesPortsForSsh(session: Log, c: Profile, command: bool, s: Script, i: nat, port: Port)
    returns (k: nat, l: nat)
    requires SessionLog(session, c, command, s) && i < |session| && session[i] == Acquired(Ssh)
    requires port in ReservedPorts(c)
    ensures k < l < i && session[k] == PortReserved(port) && session[l] == PortFreed(port)
  {
    SessionStartsWhenReached(session, c, command, s);
    k := MarkAt(session, Depth(c, command, s), MarksOf(c, command, s), PortReserved(port));
    MarksComeBefore(session, i, k);
    l := SshStartsOnFreePorts(session, i, k);
  }

  /** A shell or command starts in a session only after the SOCKS forward is
      ready, and the API forward where there is a Kubernetes target. */
  lemma SessionForwardsFirst(session: Log, c: Profile, command: bool, s: Script, i: nat)
    requires SessionLog(session, c, command, s) && i < |session| && session[i] == Acquired(User)
    ensures exists k :: 0 <= k < i && session[k] == ForwardReady(SocksPort)
    ensures c.aks && s.kube.KubePrepared? ==> exists k :: 0 <= k < i && session[k] == ForwardReady(ApiPort)
  {
    assert Since(session, i, Begins) by {
      assert session[0] == Begins && i > 0;
    }
    if c.aks && s.kube.KubePrepared? {
      SessionStartsWhenReached(session, c, command, s);
      var k := MarkAt(session, Depth(c, command, s), MarksOf(c, command, s), TargetPrepared);
      MarksComeBefore(session, i, k);
      assert Since(session, i, TargetPrepared);
    }
    UserStartsAfterForwards(session, i);
  }

  /** Where metadata is configured, a session's shell or command starts only
      after it has been demanded and then settled: installed if it was fetched, done without only if that is allowed. */
  lemma SessionMetadataFirst(session: Log, c: Profile, command: bool, s: Script, i: nat) returns (k: nat, l: nat)
    requires SessionLog(session, c, command, s) && i < |session| && session[i] == Acquired(User) && c.heimdal.Some?
    ensures k < l < i && session[k] == MetadataRequired && s.fetched.Some?
    ensures session[l] == if s.fetched.value then MetadataInstalled else FallbackAllowed
    ensures if s.fetched.value then s.routesInstalled else c.heimdal.value
  {
    SessionStartsWhenReached(session, c, command, s);
    k := MarkAt(session, Depth(c, command, s), MarksOf(c, command, s), MetadataRequired);
    MarksComeBefore(session, i, k);
    UserStartsAfterMetadata(session, i, k);
    l :| k < l < i && (session[l] == MetadataInstalled || session[l] == FallbackAllowed);
    assert session[l] in Marks(session);
  }

  /** Whatever is released in a session that started its shell or command is
      released after that has started, and not before it has ended. */
  lemma SessionEndsUserFirst(session: Log, c: Profile, command: bool, s: Script, i: nat, j: nat) returns (k: nat)
    requires SessionLog(session, c, command, s) && i < |session| && j < |session|
    requires session[i] == Acquired(User) && session[j].Released?
    ensures i < k <= j && session[k] == Released(User)
  {
    StepAt(session, i);
    if j < i { UnwindingStays(session, j, i); }
    k := UserEndsBeforeTransports(session, i, j);
  }

  lemma {:induction false} UnwindingStays(session: Log, j: nat, i: nat)
    requires OneSession(session) && Observe(session).Some? && j < i <= |session| && session[j].Released?
    ensures Observe(session[..i]).Some? && Observe(session[..i]).value.unwinding
  {
    StepAt(session, i - 1);
    if j < i - 1 { UnwindingStays(session, j, i - 1); }
  }

  /** What is held at any moment of a session is a part of the order from its start. */
  lemma HeldInOrder(session: Log, d: nat, marks: set<Event>, i: nat)
    requires Observe(session).Some? && Made(session, d, marks) && i <= |session|
    ensures Observe(session[..i]).Some?
    ensures Observe(session[..i]).value.stack <= ORDER
  {
    ObservePrefix(session, i);
    HeldIsAcquired(session[..i]);
    AcquisitionsGrow(session, i);
    PrefixOfPrefix(Observe(session[..i]).value.stack, Acquisitions(session[..i]), Acquisitions(session));
  }

  lemma HeldIsAcquired(log: Log)
    requires OneSession(log) && Observe(log).Some?
    ensures Observe(log).value.stack <= Acquisitions(log)
  {
    ReleasesUndoAcquisitions(log);
  }

  lemma PrefixOfPrefix(a: seq<Resource>, b: seq<Resource>, c: seq<Resource>)
    requires a <= b <= c
    ensures a <= c
  {
  }

  lemma {:induction false} PodmanUnderActivations(log: Log)
    requires Observe(log).Some?
    ensures Observe(log).value.podman ==> Activations in Observe(log).value.stack
  {
    if |log| > 0 {
      ObserveLast(log);
      PodmanUnderActivations(log[..|log| - 1]);
      PodmanStep(Observe(log[..|log| - 1]).value, log[|log| - 1]);
    }
  }

  lemma PodmanStep(st: Position, event: Event)
    requires Advance(st, event).Some? && (st.podman ==> Activations in st.stack)
    ensures Advance(st, event).value.podman ==> Activations in Advance(st, event).value.stack
  {
    StackStep(st, event);
    if event.Released? { assert st.stack == st.stack[..|st.stack| - 1] + [event.resource]; }
  }

  /** When a session's registration is given up nothing else is held any more,
      and no Podman session that it enabled is left: what RegistryProtocol
      requires of a process that unlocks its record. */
  lemma RegistrationOutlivesPodman(session: Log, c: Profile, command: bool, s: Script, i: nat)
    requires SessionLog(session, c, command, s) && i < |session| && session[i] == Released(Registration)
    ensures Observe(session[..i]).Some?
    ensures Observe(session[..i]).value.stack == [Registration] && !Observe(session[..i]).value.podman
  {
    StepAt(session, i);
    HeldInOrder(session, Depth(c, command, s), MarksOf(c, command, s), i);
    PodmanUnderActivations(session[..i]);
    var stack := Observe(session[..i]).value.stack;
    assert stack[|stack| - 1] == ORDER[|stack| - 1];
    assert |stack| == 1;
  }

  // ------------------------------------------------------- the log of a chain

  function Flatten(logs: seq<Log>): Log {
    if |logs| == 0 then [] else Flatten(logs[..|logs| - 1]) + logs[|logs| - 1]
  }

  function Beginnings(log: Log): nat {
    if |log| == 0 then 0 else Beginnings(log[..|log| - 1]) + if log[|log| - 1].Begins? then 1 else 0
  }

  /** After an ended session a new one is observed as if it were the first. */
  lemma {:induction false} SessionAfter(before: Log, session: Log)
    requires Observe(before).Some? && Observe(before).value.stack == [] && Observe(before).value.ports == {}
    requires session != [] && session[0] == Begins && OneSession(session) && Observe(session).Some?
    ensures Observe(before + session) == Observe(session)
    ensures Beginnings(before + session) == Beginnings(before) + 1
  {
    var last := |session| - 1;
    assert (before + session)[..|before| + last] == before + session[..last];
    assert (before + session)[|before| + last] == session[last];
    if last == 0 {
      assert session[..0] == [] && before + session[..0] == before;
    } else {
      SessionAfter(before, session[..last]);
    }
  }

  /** The sessions of a chain make one lawful log, with one beginning each. */
  lemma {:induction false} ChainLogIsLawful(first: Profile, scripts: seq<Script>, visits: seq<Visit>, logs: seq<Log>, n: nat)
    requires ChainRun(first, scripts, visits, logs) && n <= |logs|
    ensures Observe(Flatten(logs[..n])).Some? && Beginnings(Flatten(logs[..n])) == n
    ensures Observe(Flatten(logs[..n])).value.stack == [] && Observe(Flatten(logs[..n])).value.ports == {}
  {
    if n > 0 {
      ChainLogIsLawful(first, scripts, visits, logs, n - 1);
      assert logs[..n][..n - 1] == logs[..n - 1];
      SessionAfter(Flatten(logs[..n - 1]), logs[n - 1]);
    }
  }

  /** In a chain of sessions the registration of one is gone before the next
      one begins. */
  lemma ChainRegistrationsDoNotOverlap(first: Profile, scripts: seq<Script>, visits: seq<Visit>, logs: seq<Log>,
                                       i: nat, j: nat)
    requires ChainRun(first, scripts, visits, logs)
    requires i < j < |Flatten(logs)| && Flatten(logs)[i] == Acquired(Registration) && Flatten(logs)[j].Begins?
    ensures Beginnings(Flatten(logs)) == |visits|
    ensures exists l :: i < l < j && Flatten(logs)[l] == Released(Registration)
  {
    assert logs[..|logs|] == logs;
    ChainLogIsLawful(first, scripts, visits, logs, |logs|);
    var l := RegistrationsDoNotOverlap(Flatten(logs), i, j);
  }

  // ------------------------------------------------------------ switch chains

  /** Event i of the controller was admitted by its rules. */
  ghost predicate Admitted(c: Control, events: seq<ControllerEvent>, i: nat)
    requires i < |events|
  {
    match events[i]
    case PublicationInstalled(_) => PublicationState(After(c, events[..i])).None?
    case UnpublishAccepted => !After(c, events[..i]).ended
    case SwitchAccepted(_) => SwitchTo(After(c, events[..i]), events[i].target).1.Accepted?
  }

  lemma AfterStep(c: Control, events: seq<ControllerEvent>)
    requires |events| > 0
    ensures
      var last := |events| - 1;
      After(c, events) ==
        if !Admitted(c, events, last) then After(c, events[..last])
        else match events[last]
          case PublicationInstalled(gateway) => Install(After(c, events[..last]), gateway)
          case UnpublishAccepted => Withdraw(After(c, events[..last]))
          case SwitchAccepted(target) => After(c, events[..last]).(pending := Some(target))
  {
  }

  lemma AdmittedInPrefix(c: Control, events: seq<ControllerEvent>, i: nat, n: nat)
    requires i < n <= |events|
    ensures Admitted(c, events[..n], i) <==> Admitted(c, events, i)
  {
    assert events[..n][..i] == events[..i];
  }

  /** The target of a switch is the one that was accepted first; later
      requests, accepted by nobody, do not change it. */
  lemma {:induction false} SwitchTargetSetOnce(c: Control, events: seq<ControllerEvent>, i: nat)
    requires c.pending.None? && i < |events| && events[i].SwitchAccepted? && Admitted(c, events, i)
    ensures After(c, events).pending == Some(events[i].target)
    ensures forall j :: i < j < |events| && !events[j].UnpublishAccepted? ==> !Admitted(c, events, j)
  {
    AfterStep(c, events);
    var last := |events| - 1;
    if i < last {
      AdmittedInPrefix(c, events, i, last);
      SwitchTargetSetOnce(c, events[..last], i);
      forall j | i < j < last && !events[j].UnpublishAccepted? ensures !Admitted(c, events, j) {
        AdmittedInPrefix(c, events, j, last);
      }
    }
  }

  /** Sharing intent is what the last installed publish or accepted unpublish
      left it at; without one, what the session started with. */
  lemma {:induction false} IntentIsLastDecision(c: Control, events: seq<ControllerEvent>, i: nat)
    requires i < |events| && !events[i].SwitchAccepted? && Admitted(c, events, i)
    requires forall j :: i < j < |events| && !events[j].SwitchAccepted? ==> !Admitted(c, events, j)
    ensures After(c, events).requested == events[i].PublicationInstalled?
  {
    AfterStep(c, events);
    var last := |events| - 1;
    if i < last {
      AdmittedInPrefix(c, events, i, last);
      forall j | i < j < last && !events[j].SwitchAccepted? ensures !Admitted(c, events[..last], j) {
        AdmittedInPrefix(c, events, j, last);
      }
      IntentIsLastDecision(c, events[..last], i);
    }
  }

  lemma {:induction false} IntentIsKept(c: Control, events: seq<ControllerEvent>)
    requires forall j :: 0 <= j < |events| && !events[j].SwitchAccepted? ==> !Admitted(c, events, j)
    ensures After(c, events).requested == c.requested
  {
    if |events| > 0 {
      AfterStep(c, events);
      var last := |events| - 1;
      forall j | 0 <= j < last && !events[j].SwitchAccepted? ensures !Admitted(c, events[..last], j) {
        AdmittedInPrefix(c, events, j, last);
      }
      IntentIsKept(c, events[..last]);
    }
  }

  /** Without Kubernetes nothing is installed, so the intent survives unless
      it is withdrawn. */
  lemma {:induction false} IntentSurvivesWithoutKubernetes(c: Control, events: seq<ControllerEvent>)
    requires !c.kubernetes && forall j :: 0 <= j < |events| ==> !events[j].UnpublishAccepted?
    ensures After(c, events).requested == c.requested && !After(c, events).kubernetes
    ensures After(c, events).publication == c.publication
  {
    if |events| > 0 {
      AfterStep(c, events);
      IntentSurvivesWithoutKubernetes(c, events[..|events| - 1]);
    }
  }

  lemma ChainFollowsSwitch(first: Profile, scripts: seq<Script>, visits: seq<Visit>, k: nat)
    requires Chain(first, scripts, visits) && 0 < k < |visits|
    ensures
      var c := Fresh(visits[k - 1].profile, scripts[k - 1].kube, visits[k - 1].resume);
      && After(c, scripts[k - 1].events).pending.Some?
      && visits[k].profile == After(c, scripts[k - 1].events).pending.value.(prompt := first.prompt)
      && visits[k].resume == After(c, scripts[k - 1].events).requested
    ensures Reaches(visits[k - 1].profile, false, scripts[k - 1])
    ensures scripts[k - 1].ending.Exits? && scripts[k - 1].ending.switchCode
    ensures visits[0] == Visit(first, false)
  {
    assert NextVisit(first, scripts[..k], visits[..k]) == Some(visits[k]);
    assert NextVisit(first, scripts[..0], visits[..0]) == Some(visits[0]);
    assert visits[..k][k - 1] == visits[k - 1] && scripts[..k][k - 1] == scripts[k - 1];
  }

  /** Of the sessions that ran, every one after the first connects to exactly
      the profile whose switch was admitted, once, in the session before, under
      the first profile's prompt; that session had started its shell; and
      sharing is resumed exactly if it was still wanted. */
  lemma ChainFollowsAcceptedSwitches(first: Profile, scripts: seq<Script>, visits: seq<Visit>, logs: seq<Log>, k: nat)
    returns (i: nat)
    requires ChainRun(first, scripts, visits, logs) && 0 < k < |visits|
    ensures
      var c, events := Fresh(visits[k - 1].profile, scripts[k - 1].kube, visits[k - 1].resume), scripts[k - 1].events;
      && i < |events| && events[i].SwitchAccepted? && Admitted(c, events, i)
      && visits[k].profile == events[i].target.(prompt := first.prompt)
      && visits[k].resume == After(c, events).requested
    ensures Acquired(User) in logs[k - 1] && scripts[k - 1].ending.Exits? && scripts[k - 1].ending.switchCode
  {
    ChainFollowsSwitch(first, scripts, visits, k);
    SessionStartsWhenReached(logs[k - 1], visits[k - 1].profile, false, scripts[k - 1]);
    var c := Fresh(visits[k - 1].profile, scripts[k - 1].kube, visits[k - 1].resume);
    i := PendingWasAdmitted(c, scripts[k - 1].events);
  }

  /** A pending target comes from an admitted switch. */
  lemma {:induction false} PendingWasAdmitted(c: Control, events: seq<ControllerEvent>) returns (i: nat)
    requires c.pending.None? && After(c, events).pending.Some?
    ensures i < |events| && events[i].SwitchAccepted? && Admitted(c, events, i)
    ensures After(c, events).pending == Some(events[i].target)
  {
    AfterStep(c, events);
    var last := |events| - 1;
    if After(c, events[..last]).pending.Some? {
      i := PendingWasAdmitted(c, events[..last]);
      AdmittedInPrefix(c, events, i, last);
      SwitchTargetSetOnce(c, events, i);
    } else {
      i := last;
    }
  }

  // ------------------------------------------ results, in terms of what happened

  /** The first switch request of a session, which is the one that is accepted. */
  ghost predicate FirstSwitch(events: seq<ControllerEvent>, i: nat, target: Profile) {
    i < |events| && events[i] == SwitchAccepted(target) && forall j :: 0 <= j < i ==> !events[j].SwitchAccepted?
  }

  /** Event i decides about sharing: an unpublish, or a publication while a
      Kubernetes target is available and no switch has been requested. */
  ghost predicate Decides(events: seq<ControllerEvent>, kubernetes: bool, i: nat) {
    && i < |events|
    && (|| events[i].UnpublishAccepted?
        || (events[i].PublicationInstalled? && kubernetes && forall j :: 0 <= j < i ==> !events[j].SwitchAccepted?))
  }

  /** The last such event asks for sharing; without one it is as at the start. */
  ghost predicate WantsSharing(events: seq<ControllerEvent>, kubernetes: bool, resumed: bool) {
    if exists i: nat :: Decides(events, kubernetes, i)
    then exists i: nat :: Decides(events, kubernetes, i) && events[i].PublicationInstalled?
                          && forall j: nat :: j > i ==> !Decides(events, kubernetes, j)
    else resumed
  }

  /** A controller of a session that started without a switch or publication. */
  ghost predicate Fits(c: Control, kubernetes: bool, events: seq<ControllerEvent>, resumed: bool) {
    && !c.ended && c.kubernetes == kubernetes
    && (c.pending.Some? <==> exists i: nat, target :: FirstSwitch(events, i, target))
    && (forall i: nat, target :: FirstSwitch(events, i, target) ==> c.pending == Some(target))
    && (c.publication.Some? ==> c.requested)
    && (c.requested <==> WantsSharing(events, kubernetes, resumed))
  }

  lemma FirstSwitchGrows(events: seq<ControllerEvent>, event: ControllerEvent, i: nat, target: Profile)
    ensures FirstSwitch(events + [event], i, target) <==>
            || FirstSwitch(events, i, target)
            || (i == |events| && event == SwitchAccepted(target) && forall j :: 0 <= j < i ==> !events[j].SwitchAccepted?)
  {
    var longer := events + [event];
    assert forall j :: 0 <= j < |events| ==> longer[j] == events[j];
  }

  lemma SomeFirstSwitch(events: seq<ControllerEvent>)
    ensures (exists i: nat, target :: FirstSwitch(events, i, target)) <==>
            exists j :: 0 <= j < |events| && events[j].SwitchAccepted?
  {
    if j :| 0 <= j < |events| && events[j].SwitchAccepted? {
      var i := FirstOf(events, j);
      assert FirstSwitch(events, i, events[i].target);
    }
  }

  lemma {:induction false} FirstOf(events: seq<ControllerEvent>, j: nat) returns (i: nat)
    requires j < |events| && events[j].SwitchAccepted?
    ensures i <= j && events[i].SwitchAccepted? && FirstSwitch(events, i, events[i].target)
  {
    if k :| 0 <= k < j && events[k].SwitchAccepted? {
      i := FirstOf(events, k);
    } else {
      i := j;
    }
  }

  lemma DecidesGrows(events: seq<ControllerEvent>, event: ControllerEvent, kubernetes: bool, i: nat)
    ensures i < |events| ==> (Decides(events + [event], kubernetes, i) <==> Decides(events, kubernetes, i))
    ensures i > |events| ==> !Decides(events + [event], kubernetes, i)
  {
    var longer := events + [event];
    assert forall j :: 0 <= j < |events| ==> longer[j] == events[j];
  }

  /** Only an event that decides changes the wish to share. */
  lemma SharingGrows(events: seq<ControllerEvent>, event: ControllerEvent, kubernetes: bool, resumed: bool)
    ensures var longer := events + [event];
            WantsSharing(longer, kubernetes, resumed) <==>
              if Decides(longer, kubernetes, |events|) then event.PublicationInstalled?
              else WantsSharing(events, kubernetes, resumed)
  {
    var longer, n := events + [event], |events|;
    forall i: nat ensures (i < n ==> (Decides(longer, kubernetes, i) <==> Decides(events, kubernetes, i)))
                          && (i > n ==> !Decides(longer, kubernetes, i)) {
      DecidesGrows(events, event, kubernetes, i);
    }
    assert longer[n] == event && forall i :: 0 <= i < n ==> longer[i] == events[i];
    if Decides(longer, kubernetes, n) {
      assert forall j: nat :: j > n ==> !Decides(longer, kubernetes, j);
    } else {
      assert forall i: nat :: Decides(longer, kubernetes, i) <==> Decides(events, kubernetes, i);
    }
  }

  lemma FitsGrows(c: Control, kubernetes: bool, events: seq<ControllerEvent>, event: ControllerEvent, resumed: bool)
    requires Fits(c, kubernetes, events, resumed)
    ensures var next := (match event
              case PublicationInstalled(gateway) => if PublicationState(c).None? then Install(c, gateway) else c
              case UnpublishAccepted => Withdraw(c)
              case SwitchAccepted(target) => SwitchTo(c, target).0);
            Fits(next, kubernetes, events + [event], resumed)
  {
    SharingGrows(events, event, kubernetes, resumed);
    SomeFirstSwitch(events);
    SomeFirstSwitch(events + [event]);
    var longer := events + [event];
    assert longer[|events|] == event && forall j :: 0 <= j < |events| ==> longer[j] == events[j];
    forall i: nat, target ensures FirstSwitch(longer, i, target) <==>
            || FirstSwitch(events, i, target)
            || (i == |events| && event == SwitchAccepted(target) && forall j :: 0 <= j < i ==> !events[j].SwitchAccepted?)
    {
      FirstSwitchGrows(events, event, i, target);
    }
  }

  /** What the controller of a session is left with, whatever its events. */
  lemma {:induction false} ControllerFits(kubernetes: bool, events: seq<ControllerEvent>, resumed: bool)
    ensures Fits(After(Control(false, None, None, resumed, 0, kubernetes), events), kubernetes, events, resumed)
  {
    var c := Control(false, None, None, resumed, 0, kubernetes);
    if |events| > 0 {
      var before := events[..|events| - 1];
      assert events == before + [events[|events| - 1]];
      ControllerFits(kubernetes, before, resumed);
      FitsGrows(After(c, before), kubernetes, before, events[|events| - 1], resumed);
    }
  }

  /** A shell that has started exits with the switch code after `target` was
      the first to be requested. */
  ghost predicate Switches(session: Log, command: bool, s: Script, target: Profile) {
    && Acquired(User) in session && !command && s.ending.Exits? && s.ending.switchCode
    && exists i: nat :: FirstSwitch(s.events, i, target)
  }

  /** The result of a session, in terms of what happened in it: a reconnection
      exactly for a switching shell, to the first target requested, with the
      last decision about sharing; success exactly for a shell or command that
      ended well otherwise; and failure in all other cases. */
  lemma SessionResultExactly(session: Log, c: Profile, resume: bool, command: bool, s: Script, result: Result)
    requires SessionLog(session, c, command, s)
    requires result == if Reaches(c, command, s) then SessionResult(c, resume, command, s) else SessionFailed
    ensures forall target, published :: result == Reconnect(target, published) <==>
              Switches(session, command, s, target)
              && published == WantsSharing(s.events, c.aks && s.kube.KubePrepared?, resume)
    ensures result == Finished <==>
              && Acquired(User) in session && s.ending.Exits? && s.ending.ok
              && forall target :: !Switches(session, command, s, target)
  {
    SessionStartsWhenReached(session, c, command, s);
    ControllerFits(c.aks && s.kube.KubePrepared?, s.events, resume);
    var control := After(Control(false, None, None, resume, 0, c.aks && s.kube.KubePrepared?), s.events);
    assert control == After(Fresh(c, s.kube, resume), s.events);
    forall target ensures (exists i: nat :: FirstSwitch(s.events, i, target)) <==> control.pending == Some(target) {
      if control.pending == Some(target) {
        var i: nat, t :| FirstSwitch(s.events, i, t);
      }
    }
  }

  /** The chain goes on after every switching session for as long as the
      context lasts, to the profile requested and with the wish to share. */
  lemma ChainGoesOnAfterSwitch(first: Profile, scripts: seq<Script>, visits: seq<Visit>, logs: seq<Log>, k: nat, target: Profile)
    requires ChainRun(first, scripts, visits, logs)
    requires NextVisit(first, scripts, visits).Some? ==> |visits| == |scripts|
    requires k < |visits| && k + 1 < |scripts| && Switches(logs[k], false, scripts[k], target)
    ensures k + 1 < |visits| && visits[k + 1].profile == target.(prompt := first.prompt)
    ensures visits[k + 1].resume <==>
            WantsSharing(scripts[k].events, visits[k].profile.aks && scripts[k].kube.KubePrepared?, visits[k].resume)
  {
    var visit := visits[k];
    var result := VisitResult(visit, scripts[k]);
    SessionResultExactly(logs[k], visit.profile, visit.resume, false, scripts[k], result);
    var published := WantsSharing(scripts[k].events, visit.profile.aks && scripts[k].kube.KubePrepared?, visit.resume);
    assert result == Reconnect(target, published);
    assert visits[..|visits|] == visits;
    if k + 1 < |visits| {
      assert NextVisit(first, scripts[..k + 1], visits[..k + 1]) == Some(visits[k + 1]);
    }
  }
}
