/** The controller of one interactive session (internal/session/activation.go
    and the locked parts of publication.go).

    `Control` is what the controller's mutex protects; the functions on it are
    its critical sections.  The class `Activation` carries them out on fields.
    PublicationProtocol.dfy interleaves them. */
module Controller {
  import opened Wrappers
  import opened SessionRegistry

  /** The parts of a profile that the session code looks at; `heimdal` holds
      allow_local_fallback when a metadata source is configured. */
  datatype Profile = Profile(
    environment: string,
    privateHosts: seq<string>,
    aks: bool,
    acrSession: bool,
    heimdal: Option<bool>,
    prompt: string)

  /** A publication: its own gateway and capability, never reused. */
  type Gateway = nat

  /** withdrawals is a uint64. */
  const WITHDRAWALS_MODULUS: nat := 0x1_0000_0000_0000_0000

  datatype Control = Control(
    ended: bool,
    pending: Option<Profile>,
    publication: Option<Gateway>,
    requested: bool,
    withdrawals: nat,
    kubernetes: bool)

  datatype PublishReply =
    | Published(gateway: Gateway)
    | EndedOrSwitching
    | NoKubernetesTarget
    | Withdrawn
    | CannotPrepare

  datatype SwitchReply = Accepted | SessionGone | AlreadyPending

  /** publicationStateLocked: None when publishing may proceed. */
  function PublicationState(c: Control): (reply: Option<PublishReply>)
    ensures reply.None? <==> !c.ended && c.pending.None? && c.publication.None? && c.kubernetes
    ensures reply.Some? && reply.value.Published? <==>
      !c.ended && c.pending.None? && c.publication.Some?
    ensures reply.Some? && reply.value.Published? ==> reply.value.gateway == c.publication.value
    ensures reply == Some(EndedOrSwitching) <==> c.ended || c.pending.Some?
    ensures reply == Some(NoKubernetesTarget) <==>
      !c.ended && c.pending.None? && c.publication.None? && !c.kubernetes
  {
    if c.ended || c.pending.Some? then Some(EndedOrSwitching)
    else if c.publication.Some? then Some(Published(c.publication.value))
    else if !c.kubernetes then Some(NoKubernetesTarget)
    else None
  }

  /** The test a publish repeats once it holds the mutex again; `withdrawals`
      is the counter it saw the first time. */
  function SecondCheck(c: Control, withdrawals: nat): (reply: Option<PublishReply>)
    ensures reply.None? <==> PublicationState(c).None? && c.withdrawals == withdrawals
    ensures reply == Some(Withdrawn) <==> PublicationState(c).None? && c.withdrawals != withdrawals
    ensures PublicationState(c).Some? ==> reply == PublicationState(c)
  {
    var state := PublicationState(c);
    if state.Some? then state
    else if c.withdrawals != withdrawals then Some(Withdrawn)
    else None
  }

  function Install(c: Control, gateway: Gateway): Control {
    c.(publication := Some(gateway), requested := true)
  }

  /** /unpublish on a session that has not ended. */
  function Withdraw(c: Control): Control {
    c.(publication := None, requested := false, withdrawals := (c.withdrawals + 1) % WITHDRAWALS_MODULUS)
  }

  /** The second, deciding check of /switch: the first target to be accepted
      in a live session stays. */
  function SwitchTo(c: Control, target: Profile): (r: (Control, SwitchReply))
    ensures r.1 == Accepted <==> !c.ended && c.pending.None?
    ensures r.1 == SessionGone <==> c.ended
    ensures r.0 == c.(pending := r.0.pending)
    ensures r.0.pending == if !c.ended && c.pending.None? then Some(target) else c.pending
  {
    if c.ended then (c, SessionGone)
    else if c.pending.Some? then (c, AlreadyPending)
    else (c.(pending := Some(target)), Accepted)
  }

  /** What enable does to the world outside the controller, in order. */
  datatype Effect = ClaimRecorded | PodmanStarted | PodmanClosed | ClaimReleased

  datatype EnableReply = Enabled | NotConfigured | Ended | ClaimRefused | Failed

  /** The outcomes of the operations that enable calls. */
  datatype EnableOutcomes = EnableOutcomes(configured: bool, start: bool, registry: bool, login: bool, script: bool)

  /** Every Podman session started in `effects` began under a recorded claim
      that was not released before that session was closed; `claimed` and `up`
      are the situation before, the result is the situation after. */
  function Discipline(effects: seq<Effect>, claimed: bool, up: bool): Option<(bool, bool)> {
    if |effects| == 0 then Some((claimed, up))
    else match effects[0]
      case ClaimRecorded => Discipline(effects[1..], true, up)
      case PodmanStarted => if claimed && !up then Discipline(effects[1..], claimed, true) else None
      case PodmanClosed => if up then Discipline(effects[1..], claimed, false) else None
      case ClaimReleased => if !up then Discipline(effects[1..], false, up) else None
  }

  /** What the rule demands: every start lies behind a recorded claim that has
      not been released since, and no release between a start and its close. */
  lemma {:induction false} DisciplineMeans(effects: seq<Effect>, claimed: bool, up: bool)
    requires Discipline(effects, claimed, up).Some?
    ensures forall i :: 0 <= i < |effects| && effects[i] == PodmanStarted ==> ClaimStands(effects, claimed, i)
    ensures forall i, j :: 0 <= i < j < |effects| && effects[i] == PodmanStarted && effects[j] == ClaimReleased ==>
              exists m :: i < m < j && effects[m] == PodmanClosed
    ensures up ==> forall j :: 0 <= j < |effects| && effects[j] == ClaimReleased ==>
              exists m :: 0 <= m < j && effects[m] == PodmanClosed
  {
    if |effects| > 0 {
      var rest := effects[1..];
      var stands := effects[0] == ClaimRecorded || (claimed && effects[0] != ClaimReleased);
      var runs := effects[0] == PodmanStarted || (up && effects[0] != PodmanClosed);
      DisciplineMeans(rest, stands, runs);
      forall i | 0 <= i < |effects| && effects[i] == PodmanStarted ensures ClaimStands(effects, claimed, i) {
        if i > 0 {
          assert rest[i - 1] == effects[i] && ClaimStands(rest, stands, i - 1);
          if k :| 0 <= k < i - 1 && rest[k] == ClaimRecorded && forall m :: k < m < i - 1 ==> rest[m] != ClaimReleased {
            assert effects[k + 1] == ClaimRecorded;
            assert forall m :: k + 1 < m < i ==> effects[m] == rest[m - 1];
          } else {
            assert forall m :: 0 < m < i ==> effects[m] == rest[m - 1];
          }
        }
      }
      forall i, j | 0 <= i < j < |effects| && effects[i] == PodmanStarted && effects[j] == ClaimReleased
        ensures exists m :: i < m < j && effects[m] == PodmanClosed
      {
        assert rest[j - 1] == effects[j];
        if i == 0 {
          var m :| 0 <= m < j - 1 && rest[m] == PodmanClosed;
          assert effects[m + 1] == PodmanClosed;
        } else {
          assert rest[i - 1] == effects[i];
          var m :| i - 1 < m < j - 1 && rest[m] == PodmanClosed;
          assert effects[m + 1] == PodmanClosed;
        }
      }
      if up {
        forall j | 0 <= j < |effects| && effects[j] == ClaimReleased
          ensures exists m :: 0 <= m < j && effects[m] == PodmanClosed
        {
          if effects[0] != PodmanClosed {
            assert rest[j - 1] == effects[j];
            var m :| 0 <= m < j - 1 && rest[m] == PodmanClosed;
            assert effects[m + 1] == PodmanClosed;
          }
        }
      }
    }
  }

  /** Before effect i the claim has been recorded and not released again. */
  ghost predicate ClaimStands(effects: seq<Effect>, claimed: bool, i: nat)
    requires i < |effects|
  {
    || (exists k :: 0 <= k < i && effects[k] == ClaimRecorded && forall m :: k < m < i ==> effects[m] != ClaimReleased)
    || (claimed && forall m :: 0 <= m < i ==> effects[m] != ClaimReleased)
  }

  lemma {:induction false} DisciplineExtends(effects: seq<Effect>, next: Effect, claimed: bool, up: bool)
    requires Discipline(effects, claimed, up).Some?
    ensures Discipline(effects + [next], claimed, up)
         == (var (c, u) := Discipline(effects, claimed, up).value; Discipline([next], c, u))
  {
    if |effects| == 0 {
      assert effects + [next] == [next];
    } else {
      assert (effects + [next])[1..] == effects[1..] + [next];
      match effects[0]
      case ClaimRecorded => DisciplineExtends(effects[1..], next, true, up);
      case PodmanStarted => DisciplineExtends(effects[1..], next, claimed, true);
      case PodmanClosed => DisciplineExtends(effects[1..], next, claimed, false);
      case ClaimReleased => DisciplineExtends(effects[1..], next, false, up);
    }
  }

  /** One session's controller.  Each method is one critical section of its mutex. */
  class Activation {
    const kubernetes: bool
    const registration: ActiveSession
    var ended: bool
    var pending: Option<Profile>
    var publication: Option<Gateway>
    var publicationRequested: bool
    var withdrawals: nat
    /** Whether the activation holds a Podman session. */
    var podman: bool
    /** Gateways of this session that still accept clients. */
    var live: set<Gateway>
    ghost var closed: bool
    ghost var effects: seq<Effect>

    ghost function State(): Control
      reads this
    {
      Control(ended, pending, publication, publicationRequested, withdrawals, kubernetes)
    }

    ghost predicate Valid()
      reads this, registration, registration.directory
    {
      && registration.Valid()
      && withdrawals < WITHDRAWALS_MODULUS
      && (publication.Some? ==> publicationRequested)
      && live == (if publication.Some? && !closed then {publication.value} else {})
      && (closed ==> ended && !podman)
      && (podman ==> registration.record.acr)
      && Discipline(effects, false, false) == Some((registration.record.acr, podman))
    }

    constructor (kubernetes: bool, registration: ActiveSession, resume: bool)
      requires registration.Valid() && !registration.record.acr
      ensures Valid() && this.registration == registration
      ensures State() == Control(false, None, None, resume, 0, kubernetes)
      ensures !podman && !closed && effects == []
    {
      this.kubernetes := kubernetes;
      this.registration := registration;
      this.ended := false;
      this.pending := None;
      this.publication := None;
      this.publicationRequested := resume;
      this.withdrawals := 0;
      this.podman := false;
      this.live := {};
      this.closed := false;
      this.effects := [];
    }

    /** The first lock of publish: an answer at once, or the counter to compare. */
    method PublishBegins() returns (reply: Option<PublishReply>, seen: nat)
      requires Valid()
      ensures reply == PublicationState(State()) && seen == withdrawals
    {
      reply := PublicationState(Control(ended, pending, publication, publicationRequested, withdrawals, kubernetes));
      seen := withdrawals;
    }

    /** The second lock of publish; `prepared` is the new gateway with its
        descriptor in place, or None when one of the two could not be set up
        and what existed has been taken down again. */
    method PublishEnds(seen: nat, prepared: Option<Gateway>) returns (reply: PublishReply)
      requires Valid()
      modifies this`publication, this`publicationRequested, this`live
      ensures Valid()
      ensures SecondCheck(old(State()), seen).Some? ==>
        reply == SecondCheck(old(State()), seen).value && State() == old(State()) && live == old(live)
      ensures SecondCheck(old(State()), seen).None? && prepared.None? ==>
        reply == CannotPrepare && State() == old(State()) && live == old(live)
      ensures SecondCheck(old(State()), seen).None? && prepared.Some? ==>
        && reply == Published(prepared.value) && State() == Install(old(State()), prepared.value)
        && old(live) == {} && live == {prepared.value}
    {
      var check := SecondCheck(Control(ended, pending, publication, publicationRequested, withdrawals, kubernetes), seen);
      if check.Some? {
        return check.value;
      }
      if prepared.None? {
        return CannotPrepare;
      }
      live := live + {prepared.value};
      publication := prepared;
      publicationRequested := true;
      return Published(prepared.value);
    }

    method Unpublish() returns (accepted: bool)
      requires Valid()
      modifies this`publication, this`publicationRequested, this`withdrawals, this`live
      ensures Valid()
      ensures accepted <==> !ended
      ensures withdrawals == if accepted then (old(withdrawals) + 1) % 0x1_0000_0000_0000_0000 else old(withdrawals)
      ensures State() == if accepted then Withdraw(old(State())) else old(State())
      ensures live == if accepted then {} else old(live)
    {
      if ended {
        return false;
      }
      publicationRequested := false;
      withdrawals := (withdrawals + 1) % WITHDRAWALS_MODULUS;
      if publication.Some? {
        live := live - {publication.value};
        publication := None;
      }
      return true;
    }

    method AcceptSwitch(target: Profile) returns (reply: SwitchReply)
      requires Valid()
      modifies this`pending
      ensures Valid()
      ensures reply == Accepted <==> !ended && old(pending).None?
      ensures reply == SessionGone <==> ended
      ensures old(pending).Some? ==> pending == old(pending)
      ensures reply == Accepted ==> pending == Some(target)
      ensures reply != Accepted ==> pending == old(pending)
      ensures State() == old(State()).(pending := pending)
      ensures (State(), reply) == SwitchTo(old(State()), target)
    {
      if ended {
        return SessionGone;
      }
      if pending.Some? {
        return AlreadyPending;
      }
      pending := Some(target);
      return Accepted;
    }

    method PendingSwitch() returns (target: Option<Profile>)
      ensures target == pending
    {
      target := pending;
    }

    method WantsPublication() returns (requested: bool)
      ensures requested == publicationRequested
    {
      requested := publicationRequested;
    }

    /** What a shell that exits with the switch code is followed by: the
        accepted target together with the intent to share. */
    method NextSession() returns (next: Option<(Profile, bool)>)
      ensures next.Some? <==> State().pending.Some?
      ensures next.Some? ==> next.value == (State().pending.value, State().requested)
    {
      var target := PendingSwitch();
      if target.None? {
        return None;
      }
      var published := WantsPublication();
      return Some((target.value, published));
    }

    /** A publish that no other request comes between: it installs exactly
        when the session admits one and it can be prepared, and otherwise
        changes nothing. */
    method Publish(cleaned: bool, prepared: Option<Gateway>) returns (reply: PublishReply)
      requires Valid()
      modifies this`publication, this`publicationRequested, this`live
      ensures Valid()
      ensures publication != old(publication) <==>
              !ended && pending.None? && old(publication).None? && kubernetes && cleaned && prepared.Some?
      ensures publication != old(publication) ==>
              && publication == prepared && publicationRequested && live == {prepared.value}
              && reply == Published(prepared.value)
      ensures publication == old(publication) ==> State() == old(State()) && live == old(live)
      ensures reply.Published? ==> publication == Some(reply.gateway)
    {
      var first, seen := PublishBegins();
      if first.Some? {
        return first.value;
      }
      if !cleaned {
        return CannotPrepare;
      }
      reply := PublishEnds(seen, prepared);
    }

    /** enable, with the two deferred undo steps of a failure after the claim. */
    method Enable(outcomes: EnableOutcomes) returns (reply: EnableReply)
      requires Valid()
      modifies this`podman, this`effects, registration`record, registration.directory
      ensures Valid() && old(effects) <= effects
      ensures reply == Ended <==> ended
      ensures reply == Enabled <==>
        !ended && (old(podman) ||
          (outcomes == EnableOutcomes(true, true, true, true, true) && registration.open
           && !OtherHoldsClaim(old(registration.directory.files), registration.id)))
      ensures reply == ClaimRefused <==>
        !ended && !old(podman) && outcomes.configured
        && (!registration.open || OtherHoldsClaim(old(registration.directory.files), registration.id))
      ensures reply == NotConfigured <==> !ended && !old(podman) && !outcomes.configured
      ensures podman == (old(podman) || reply == Enabled)
      ensures reply == Failed ==> !registration.record.acr && !podman
      ensures reply != Enabled && reply != Failed ==> effects == old(effects)
    {
      if ended {
        return Ended;
      }
      if podman {
        return Enabled;
      }
      if !outcomes.configured {
        return NotConfigured;
      }
      var claim := registration.Update(ClaimACR);
      if claim.Fail? {
        return ClaimRefused;
      }
      Record(ClaimRecorded);
      var accepted := StartUnderClaim(outcomes);
      return if accepted then Enabled else Failed;
    }

    /** The part of enable after the claim, with its deferred undo steps: the
        Podman session is closed first, then the claim is given back. */
    method StartUnderClaim(outcomes: EnableOutcomes) returns (accepted: bool)
      requires registration.Valid() && registration.open && registration.record.acr
      requires !podman && Discipline(effects, false, false) == Some((true, false))
      modifies this`podman, this`effects, registration`record, registration.directory
      ensures registration.Valid() && old(effects) <= effects
      ensures accepted <==> outcomes.start && outcomes.registry && outcomes.login && outcomes.script
      ensures podman == registration.record.acr == accepted
      ensures Discipline(effects, false, false) == Some((accepted, accepted))
    {
      if !outcomes.start {
        GiveClaimBack();
        return false;
      }
      Record(PodmanStarted);
      if !outcomes.registry || !outcomes.login || !outcomes.script {
        Record(PodmanClosed);
        GiveClaimBack();
        return false;
      }
      podman := true;
      return true;
    }

    /** releaseACR, once no Podman session of this activation is left. */
    method GiveClaimBack()
      requires registration.Valid() && registration.open
      requires Discipline(effects, false, false) == Some((true, false))
      modifies this`effects, registration`record, registration.directory
      ensures registration.Valid() && !registration.record.acr
      ensures Discipline(effects, false, false) == Some((false, false))
      ensures effects == old(effects) + [ClaimReleased]
    {
      var released := registration.Update(ReleaseACR);
      Record(ClaimReleased);
    }

    ghost method Record(effect: Effect)
      modifies this`effects
      requires Discipline(effects, false, false).Some?
      ensures effects == old(effects) + [effect]
      ensures Discipline(effects, false, false)
           == (var (c, u) := Discipline(old(effects), false, false).value; Discipline([effect], c, u))
    {
      DisciplineExtends(effects, effect, false, false);
      effects := effects + [effect];
    }

    /** The cancellation of the session context; it takes no lock. */
    method Cancel()
      requires Valid()
      modifies this`ended
      ensures Valid() && State() == old(State()).(ended := true)
    {
      ended := true;
    }

    /** close: the publication and the Podman session end with the activation;
        the claim goes with the record, which is closed after it. */
    method Close()
      requires Valid()
      modifies this`ended, this`live, this`podman, this`closed, this`effects
      ensures Valid() && closed && State() == old(State()).(ended := true)
      ensures live == {} && !podman
      ensures effects == if old(podman) then old(effects) + [PodmanClosed] else old(effects)
    {
      Cancel();
      if publication.Some? {
        live := live - {publication.value};
      }
      if podman {
        Record(PodmanClosed);
        podman := false;
      }
      closed := true;
    }
  }
}
