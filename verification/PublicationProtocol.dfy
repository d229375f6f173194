/** Concurrent requests to one session controller.

    Requests hold the controller's mutex for whole critical sections, except
    that a publish works between two of them, and that the second one is split
    here: the session context is cancelled without the mutex, so it can end
    while a publish prepares its gateway under the lock. */
module PublicationProtocol {
  import opened Wrappers
  import opened Controller

  type RequestId = nat

  /** `accepted` is how many unpublish requests had been accepted when the
      publish first held the mutex. */
  datatype Request =
    | Arrived
    | Cleaning(withdrawals: nat, accepted: nat)
    | Preparing(accepted: nat)
    | Serving(gateway: Gateway, accepted: nat)
    | Answered(reply: PublishReply)
    | LoadingTarget(target: Profile)
    | SwitchAnswered(outcome: SwitchReply)

  datatype State = State(
    control: Control,
    holder: Option<RequestId>,
    requests: map<RequestId, Request>,
    live: set<Gateway>,
    used: set<Gateway>,
    closed: bool,
    accepted: nat)

  datatype Step =
    | PublishArrives(r: RequestId)
    | FirstLock(r: RequestId)
    | CleanFails(r: RequestId)
    | SecondLock(r: RequestId)
    | PrepareFails(r: RequestId)
    | GatewayOpens(r: RequestId, gateway: Gateway)
    | DescriptorFails(r: RequestId)
    | Installs(r: RequestId)
    | Unpublishes
    | SwitchBegins(r: RequestId, target: Profile)
    | SwitchDecides(r: RequestId)
    | ContextEnds
    | ActivationCloses

  ghost predicate Init(s: State) {
    && !s.control.ended && s.control.pending.None? && s.control.publication.None? && s.control.withdrawals == 0
    && s.holder == None && s.requests == map[] && s.live == {} && !s.closed && s.accepted == 0
  }

  function Put(s: State, r: RequestId, request: Request): State {
    s.(requests := s.requests[r := request])
  }

  predicate At(s: State, r: RequestId) {
    r in s.requests
  }

  ghost predicate Next(s: State, step: Step, t: State) {
    match step
    case PublishArrives(r) => r !in s.requests && t == Put(s, r, Arrived)
    case FirstLock(r) => s.holder == None && At(s, r) && s.requests[r].Arrived? && t == FirstLocked(s, r)
    case CleanFails(r) => At(s, r) && s.requests[r].Cleaning? && t == Put(s, r, Answered(CannotPrepare))
    case SecondLock(r) => s.holder == None && At(s, r) && s.requests[r].Cleaning? && t == SecondLocked(s, r)
    case PrepareFails(r) =>
      At(s, r) && s.requests[r].Preparing? && t == Put(s, r, Answered(CannotPrepare)).(holder := None)
    case GatewayOpens(r, gateway) =>
      && At(s, r) && s.requests[r].Preparing? && gateway !in s.used
      && t == Put(s, r, Serving(gateway, s.requests[r].accepted)).(live := s.live + {gateway}, used := s.used + {gateway})
    case DescriptorFails(r) =>
      && At(s, r) && s.requests[r].Serving?
      && t == Put(s, r, Answered(CannotPrepare)).(holder := None, live := s.live - {s.requests[r].gateway})
    case Installs(r) =>
      && At(s, r) && s.requests[r].Serving?
      && t == Put(s, r, Answered(Published(s.requests[r].gateway))).(
           holder := None, control := Install(s.control, s.requests[r].gateway))
    case Unpublishes => s.holder == None && t == Unpublished(s)
    case SwitchBegins(r, target) =>
      && s.holder == None && r !in s.requests && !s.control.ended && s.control.pending.None?
      && t == Put(s, r, LoadingTarget(target))
    case SwitchDecides(r) =>
      && s.holder == None && At(s, r) && s.requests[r].LoadingTarget?
      && var (control, outcome) := SwitchTo(s.control, s.requests[r].target);
         t == Put(s, r, SwitchAnswered(outcome)).(control := control)
    case ContextEnds => t == s.(control := s.control.(ended := true))
    case ActivationCloses =>
      s.holder == None && s.control.ended && t == s.(closed := true, live := s.live - InPlace(s.control))
  }

  function InPlace(c: Control): set<Gateway> {
    if c.publication.Some? then {c.publication.value} else {}
  }

  function FirstLocked(s: State, r: RequestId): State {
    var reply := PublicationState(s.control);
    Put(s, r, if reply.Some? then Answered(reply.value) else Cleaning(s.control.withdrawals, s.accepted))
  }

  function SecondLocked(s: State, r: RequestId): State
    requires At(s, r) && s.requests[r].Cleaning?
  {
    var reply := SecondCheck(s.control, s.requests[r].withdrawals);
    if reply.Some? then Put(s, r, Answered(reply.value))
    else Put(s, r, Preparing(s.requests[r].accepted)).(holder := Some(r))
  }

  function Unpublished(s: State): State {
    if s.control.ended then s
    else s.(control := Withdraw(s.control), live := s.live - InPlace(s.control), accepted := s.accepted + 1)
  }

  // ---------------------------------------------------------------- invariant

  ghost predicate Holds(s: State, r: RequestId) {
    At(s, r) && (s.requests[r].Preparing? || s.requests[r].Serving?)
  }

  ghost predicate RequestInv(s: State, r: RequestId)
    requires At(s, r)
  {
    match s.requests[r]
    case Cleaning(withdrawals, accepted) =>
      accepted <= s.accepted && withdrawals == accepted % WITHDRAWALS_MODULUS
    case Preparing(accepted) => HolderInv(s, accepted)
    case Serving(gateway, accepted) => HolderInv(s, accepted) && gateway in s.used
    case _ => true
  }

  /** What the second check established still holds while the lock is held;
      only the context may have ended since. */
  ghost predicate HolderInv(s: State, accepted: nat) {
    && s.control.publication.None? && s.control.pending.None? && s.control.kubernetes && !s.closed
    && accepted <= s.accepted && (s.accepted - accepted) % WITHDRAWALS_MODULUS == 0
  }

  /** The gateways that may accept clients: the installed one until the
      activation has closed, and the one being prepared under the lock. */
  ghost predicate LiveInv(s: State) {
    s.live == (if s.closed then {} else InPlace(s.control))
            + (if s.holder.Some? && At(s, s.holder.value) && s.requests[s.holder.value].Serving?
               then {s.requests[s.holder.value].gateway} else {})
  }

  ghost predicate Inv(s: State) {
    && LockInv(s)
    && (forall r: RequestId :: At(s, r) ==> RequestInv(s, r))
    && LiveInv(s)
    && (s.control.publication.Some? ==> s.control.requested && s.control.publication.value in s.used)
    && s.control.withdrawals == s.accepted % WITHDRAWALS_MODULUS
    && (s.closed ==> s.control.ended && s.holder.None?)
  }

  lemma Wraps(a: nat, b: nat)
    requires a <= b
    ensures a % WITHDRAWALS_MODULUS == b % WITHDRAWALS_MODULUS <==> (b - a) % WITHDRAWALS_MODULUS == 0
    ensures (a % WITHDRAWALS_MODULUS + 1) % WITHDRAWALS_MODULUS == (a + 1) % WITHDRAWALS_MODULUS
  {
  }

  /** The request of a step that some request makes. */
  function Actor(step: Step): Option<RequestId> {
    match step
    case PublishArrives(r) => Some(r)
    case FirstLock(r) => Some(r)
    case CleanFails(r) => Some(r)
    case SecondLock(r) => Some(r)
    case PrepareFails(r) => Some(r)
    case GatewayOpens(r, _) => Some(r)
    case DescriptorFails(r) => Some(r)
    case Installs(r) => Some(r)
    case SwitchBegins(r, _) => Some(r)
    case SwitchDecides(r) => Some(r)
    case _ => None
  }

  /** The holder of the lock, and nobody else, acts under it. */
  ghost predicate LockInv(s: State) {
    && (s.holder.Some? ==> Holds(s, s.holder.value))
    && forall r: RequestId :: Holds(s, r) ==> s.holder == Some(r)
  }

  lemma BystandersStay(s: State, step: Step, t: State)
    requires Next(s, step, t)
    ensures forall r: RequestId :: Actor(step) != Some(r) ==>
              (At(t, r) <==> At(s, r)) && (At(s, r) ==> t.requests[r] == s.requests[r])
  {
  }

  /** The lock passes to a request that begins to hold it, and from one that
      ceases to. */
  lemma HolderFollows(s: State, step: Step, t: State)
    requires LockInv(s) && Next(s, step, t)
    ensures Actor(step).None? ==> t.holder == s.holder
    ensures Actor(step).Some? ==>
              var r := Actor(step).value;
              && t.holder == (if Holds(t, r) then Some(r) else if Holds(s, r) then None else s.holder)
              && (Holds(t, r) && !Holds(s, r) ==> s.holder == None)
  {
    if Actor(step).Some? { assert Holds(s, Actor(step).value) ==> s.holder == Some(Actor(step).value); }
  }

  lemma NextKeepsLock(s: State, step: Step, t: State)
    requires LockInv(s) && Next(s, step, t)
    ensures LockInv(t)
  {
    BystandersStay(s, step, t);
    HolderFollows(s, step, t);
    LockPasses(s, t, Actor(step));
  }

  lemma LockPasses(s: State, t: State, actor: Option<RequestId>)
    requires LockInv(s)
    requires forall r: RequestId :: actor != Some(r) ==>
               (At(t, r) <==> At(s, r)) && (At(s, r) ==> t.requests[r] == s.requests[r])
    requires actor.None? ==> t.holder == s.holder
    requires actor.Some? ==>
               && t.holder == (if Holds(t, actor.value) then actor else if Holds(s, actor.value) then None else s.holder)
               && (Holds(t, actor.value) && !Holds(s, actor.value) ==> s.holder == None)
    ensures LockInv(t)
  {
    forall r: RequestId | Holds(t, r) && actor != Some(r) ensures t.holder == Some(r) {
      assert Holds(s, r);
    }
  }

  lemma NextKeepsActor(s: State, step: Step, t: State, r: RequestId)
    requires Inv(s) && Next(s, step, t) && Actor(step) == Some(r) && At(t, r)
    ensures RequestInv(t, r)
  {
    if At(s, r) {
      assert RequestInv(s, r);
      Wraps(s.accepted, s.accepted);
      if s.requests[r].Cleaning? { Wraps(s.requests[r].accepted, s.accepted); }
    }
  }

  lemma NextKeepsBystander(s: State, step: Step, t: State, r: RequestId)
    requires Inv(s) && Next(s, step, t) && Actor(step) != Some(r) && At(t, r)
    ensures RequestInv(t, r)
  {
    assert At(s, r) && t.requests[r] == s.requests[r];
    assert RequestInv(s, r);
  }

  lemma NextKeepsLive(s: State, step: Step, t: State)
    requires Inv(s) && Next(s, step, t)
    ensures LiveInv(t)
  {
    if Actor(step).Some? && At(s, Actor(step).value) { assert RequestInv(s, Actor(step).value); }
  }

  /** The counter, the intent and the end of the activation. */
  lemma NextKeepsControl(s: State, step: Step, t: State)
    requires Inv(s) && Next(s, step, t)
    ensures t.control.publication.Some? ==> t.control.requested && t.control.publication.value in t.used
    ensures t.control.withdrawals == t.accepted % WITHDRAWALS_MODULUS
    ensures t.closed ==> t.control.ended && t.holder.None?
  {
    if Actor(step).Some? && At(s, Actor(step).value) { assert RequestInv(s, Actor(step).value); }
    Wraps(s.accepted, s.accepted);
  }

  lemma NextKeepsInv(s: State, step: Step, t: State)
    requires Inv(s) && Next(s, step, t)
    ensures Inv(t)
  {
    NextKeepsLock(s, step, t);
    NextKeepsLive(s, step, t);
    NextKeepsControl(s, step, t);
    forall r: RequestId | At(t, r) ensures RequestInv(t, r) {
      if Actor(step) == Some(r) { NextKeepsActor(s, step, t, r); } else { NextKeepsBystander(s, step, t, r); }
    }
  }

  // -------------------------------------------------------------------- runs

  ghost predicate IsRun(states: seq<State>, steps: seq<Step>) {
    && |states| == |steps| + 1
    && Init(states[0])
    && forall i :: 0 <= i < |steps| ==> Next(states[i], steps[i], states[i + 1])
  }

  lemma {:induction false} RunKeepsInv(states: seq<State>, steps: seq<Step>, i: nat)
    requires IsRun(states, steps) && i < |states|
    ensures Inv(states[i])
  {
    if i > 0 {
      RunKeepsInv(states, steps, i - 1);
      NextKeepsInv(states[i - 1], steps[i - 1], states[i]);
    }
  }

  /** No publication is leaked: besides the gateway being prepared under the
      lock, the only one alive is the one the controller can still close; and
      a held publication means that sharing is requested. */
  lemma NoPublicationLeaks(states: seq<State>, steps: seq<Step>, i: nat, gateway: Gateway)
    requires IsRun(states, steps) && i < |states| && gateway in states[i].live
    ensures
      var s := states[i];
      || (s.control.publication == Some(gateway) && s.control.requested && !s.closed)
      || (s.holder.Some? && At(s, s.holder.value) && s.requests[s.holder.value].Serving?
          && s.requests[s.holder.value].gateway == gateway && s.control.publication.None?)
  {
    RunKeepsInv(states, steps, i);
  }

  /** Facts that, once true of a run, stay true. */
  lemma {:induction false} Lasting(states: seq<State>, steps: seq<Step>, i: nat, j: nat)
    requires IsRun(states, steps) && i <= j < |states|
    ensures states[i].closed ==> states[j].closed
    ensures states[i].control.ended ==> states[j].control.ended
    ensures states[i].control.pending.Some? ==> states[j].control.pending == states[i].control.pending
    ensures states[i].accepted <= states[j].accepted
    ensures states[j].control.kubernetes == states[i].control.kubernetes
  {
    if i < j {
      Lasting(states, steps, i, j - 1);
      assert Next(states[j - 1], steps[j - 1], states[j]);
    }
  }

  /** Once the activation has closed, nothing is ever published again. */
  lemma NoneLiveAfterClose(states: seq<State>, steps: seq<Step>, i: nat, j: nat)
    requires IsRun(states, steps) && i <= j < |states| && states[i].closed
    ensures states[j].live == {}
  {
    Lasting(states, steps, i, j);
    RunKeepsInv(states, steps, j);
  }

  /** The target of an accepted switch is set once: it is the one the request
      carried, and every later state still holds it. */
  lemma SwitchTargetIsFinal(states: seq<State>, steps: seq<Step>, i: nat, j: nat, r: RequestId)
    requires IsRun(states, steps) && i < j < |states|
    requires steps[i] == SwitchDecides(r) && states[i + 1].requests[r] == SwitchAnswered(Accepted)
    ensures states[i].control.pending.None? && !states[i].control.ended
    ensures states[j].control.pending == Some(states[i].requests[r].target)
  {
    assert Next(states[i], steps[i], states[i + 1]);
    Lasting(states, steps, i + 1, j);
  }

  /** A publication is installed only over none, and never once a switch is
      pending. */
  lemma InstallsOnlyOverNone(states: seq<State>, steps: seq<Step>, i: nat, j: nat, r: RequestId)
    requires IsRun(states, steps) && i <= j < |steps| && steps[j] == Installs(r)
    ensures states[j].control.publication.None? && states[j].control.pending.None?
    ensures states[i].control.pending.None?
    ensures states[j + 1].live == {states[j + 1].control.publication.value}
  {
    RunKeepsInv(states, steps, j);
    assert Next(states[j], steps[j], states[j + 1]);
    assert RequestInv(states[j], r);
    Lasting(states, steps, i, j);
    RunKeepsInv(states, steps, j + 1);
  }

  /** Where a publish that holds or held the lock came from: it passed the
      second check at `k`, and has held the lock ever since. */
  lemma {:induction false} CheckedAt(states: seq<State>, steps: seq<Step>, i: nat, r: RequestId) returns (k: nat)
    requires IsRun(states, steps) && i < |states| && Holds(states[i], r)
    ensures k < i && steps[k] == SecondLock(r)
    ensures At(states[k], r) && states[k].requests[r].Cleaning?
    ensures SecondCheck(states[k].control, states[k].requests[r].withdrawals).None?
    ensures forall j :: k < j <= i ==> states[j].holder == Some(r)
    ensures states[i].requests[r].accepted == states[k].requests[r].accepted
  {
    var s := states[i - 1];
    assert Next(s, steps[i - 1], states[i]);
    RunKeepsInv(states, steps, i - 1);
    RunKeepsInv(states, steps, i);
    if steps[i - 1] == SecondLock(r) {
      k := i - 1;
    } else {
      assert Holds(s, r);
      k := CheckedAt(states, steps, i - 1, r);
    }
  }

  /** Only the context's end ends the session. */
  lemma {:induction false} EndedExactlyWhen(states: seq<State>, steps: seq<Step>, i: nat, j: nat)
    requires IsRun(states, steps) && i <= j < |states|
    ensures states[j].control.ended <==>
            states[i].control.ended || exists k :: i <= k < j && steps[k].ContextEnds?
  {
    if i < j {
      EndedExactlyWhen(states, steps, i, j - 1);
      EndsByContext(states[j - 1], steps[j - 1], states[j]);
    }
  }

  lemma EndsByContext(s: State, step: Step, t: State)
    requires Next(s, step, t)
    ensures t.control.ended <==> s.control.ended || step.ContextEnds?
  {
  }

  /** A publication is installed after the session context has ended exactly
      when the context ended after the publish took its second lock, under
      which it had checked the context and which it has kept since; closing
      the activation waits for that lock. */
  lemma InstallAfterEndWasChecked(states: seq<State>, steps: seq<Step>, j: nat, r: RequestId) returns (k: nat)
    requires IsRun(states, steps) && j < |steps| && steps[j] == Installs(r)
    ensures k < j && steps[k] == SecondLock(r) && !states[k].control.ended
    ensures forall i :: k < i <= j ==> states[i].holder == Some(r) && !states[i].closed
    ensures states[j].control.ended <==> exists i :: k < i < j && steps[i].ContextEnds?
  {
    assert Next(states[j], steps[j], states[j + 1]);
    k := CheckedAt(states, steps, j, r);
    EndedExactlyWhen(states, steps, k, j);
    forall i | k < i <= j ensures !states[i].closed {
      RunKeepsInv(states, steps, i);
    }
  }

  /** When a publish first held the lock: `accepted` counts the unpublish
      requests up to then. */
  lemma {:induction false} BeganAt(states: seq<State>, steps: seq<Step>, i: nat, r: RequestId) returns (k: nat)
    requires IsRun(states, steps) && i < |states| && At(states[i], r) && states[i].requests[r].Cleaning?
    ensures k < i && steps[k] == FirstLock(r)
    ensures states[k].accepted == states[i].requests[r].accepted
  {
    var s := states[i - 1];
    assert Next(s, steps[i - 1], states[i]);
    if steps[i - 1] == FirstLock(r) {
      k := i - 1;
    } else {
      assert At(s, r) && s.requests[r] == states[i].requests[r];
      k := BeganAt(states, steps, i - 1, r);
    }
  }

  /** A publish never undoes a withdrawal made while it was under way: between
      its first lock and its installation no unpublish was accepted, short of
      2^64 of them, which bring the counter back to where it was. */
  lemma InstallSawNoWithdrawal(states: seq<State>, steps: seq<Step>, j: nat, r: RequestId) returns (k: nat)
    requires IsRun(states, steps) && j < |steps| && steps[j] == Installs(r)
    ensures k < j && steps[k] == FirstLock(r)
    ensures (states[j].accepted - states[k].accepted) % 0x1_0000_0000_0000_0000 == 0
  {
    assert Next(states[j], steps[j], states[j + 1]);
    RunKeepsInv(states, steps, j);
    assert RequestInv(states[j], r);
    var checked := CheckedAt(states, steps, j, r);
    k := BeganAt(states, steps, checked, r);
  }

  /** The second lock of a publish.  If the number of unpublish requests
      accepted since its first lock is not a multiple of the counter's
      modulus, nothing is prepared: the publish fails, except when another one
      has installed a publication since, with which it then succeeds.  If it
      is a multiple (none, or a wrap-around), the publish goes on exactly when
      nothing else stands in its way. */
  lemma OvertakenPublishAnswer(states: seq<State>, steps: seq<Step>, i: nat, r: RequestId)
    requires IsRun(states, steps) && i < |steps| && steps[i] == SecondLock(r)
    requires At(states[i], r) && states[i].requests[r].Cleaning?
    ensures
      var s, t, reply := states[i], states[i + 1], states[i + 1].requests[r];
      var overtaken := (s.accepted - s.requests[r].accepted) % 0x1_0000_0000_0000_0000 != 0;
      var admitted := !s.control.ended && s.control.pending.None?
                      && s.control.publication.None? && s.control.kubernetes;
      && t.control == s.control && t.live == s.live
      && (reply.Answered? || reply.Preparing?)
      && (reply.Preparing? <==> !overtaken && admitted)
      && (reply.Answered? && reply.reply.Published? <==>
            s.control.publication.Some? && s.control.pending.None? && !s.control.ended)
  {
    assert Next(states[i], steps[i], states[i + 1]);
    RunKeepsInv(states, steps, i);
    var s := states[i];
    assert RequestInv(s, r);
    Wraps(s.requests[r].accepted, s.accepted);
  }

  lemma Extends(states: seq<State>, steps: seq<Step>, step: Step, t: State)
    requires IsRun(states, steps) && Next(states[|steps|], step, t)
    ensures IsRun(states + [t], steps + [step])
  {
    forall i | 0 <= i < |steps| + 1 ensures Next((states + [t])[i], (steps + [step])[i], (states + [t])[i + 1]) {
      if i < |steps| {
        assert Next(states[i], steps[i], states[i + 1]);
      }
    }
  }

  /** Request 1 has passed its first lock, and an unpublish has been accepted. */
  lemma WithdrawnRun() returns (states: seq<State>, steps: seq<Step>)
    ensures IsRun(states, steps) && steps == [PublishArrives(1), FirstLock(1), Unpublishes]
    ensures states[3].accepted == states[2].accepted + 1
    ensures states[3] ==
      State(Control(false, None, None, false, 1, true), None, map[1 := Cleaning(0, 0)], {}, {}, false, 1)
  {
    var s0 := State(Control(false, None, None, false, 0, true), None, map[], {}, {}, false, 0);
    var s1 := Put(s0, 1, Arrived);
    var s2 := Put(s1, 1, Cleaning(0, 0));
    var s3 := s2.(control := Withdraw(s2.control), accepted := 1);
    states, steps := [s0, s1, s2, s3], [PublishArrives(1), FirstLock(1), Unpublishes];
  }

  /** Then request 2 installs gateway 9. */
  lemma OvertakingRun() returns (states: seq<State>, steps: seq<Step>)
    ensures IsRun(states, steps) && |steps| == 8
    ensures steps[1] == FirstLock(1) && steps[2] == Unpublishes && states[3].accepted == states[2].accepted + 1
    ensures states[8].control == Control(false, None, Some(9), true, 1, true) && states[8].holder == None
    ensures At(states[8], 1) && states[8].requests[1] == Cleaning(0, 0)
  {
    states, steps := WithdrawnRun();
    var s4 := Put(states[3], 2, Arrived);
    Extends(states, steps, PublishArrives(2), s4);
    states, steps := states + [s4], steps + [PublishArrives(2)];
    var s5 := Put(s4, 2, Cleaning(1, 1));
    Extends(states, steps, FirstLock(2), s5);
    states, steps := states + [s5], steps + [FirstLock(2)];
    var s6 := Put(s5, 2, Preparing(1)).(holder := Some(2));
    Extends(states, steps, SecondLock(2), s6);
    states, steps := states + [s6], steps + [SecondLock(2)];
    var s7 := Put(s6, 2, Serving(9, 1)).(live := {9}, used := {9});
    Extends(states, steps, GatewayOpens(2, 9), s7);
    states, steps := states + [s7], steps + [GatewayOpens(2, 9)];
    var s8 := Put(s7, 2, Answered(Published(9))).(holder := None, control := Install(s7.control, 9));
    Extends(states, steps, Installs(2), s8);
    states, steps := states + [s8], steps + [Installs(2)];
  }

  /** Hence an unpublish between the two locks of a publish does not always
      make it fail: here request 1 is overtaken by an unpublish and by request
      2, and is then answered with the publication of request 2. */
  lemma OvertakenPublishCanSucceed() returns (states: seq<State>, steps: seq<Step>)
    ensures IsRun(states, steps) && |steps| == 9
    ensures steps[1] == FirstLock(1) && steps[2] == Unpublishes && states[3].accepted == states[2].accepted + 1
    ensures steps[8] == SecondLock(1) && At(states[9], 1) && states[9].requests[1] == Answered(Published(9))
  {
    states, steps := OvertakingRun();
    var last := SecondLocked(states[8], 1);
    Extends(states, steps, SecondLock(1), last);
    states, steps := states + [last], steps + [SecondLock(1)];
  }

  /** The context can end while a publish that already checked it holds the
      lock; that publish still installs. */
  lemma InstallAfterEndCanHappen() returns (states: seq<State>, steps: seq<Step>)
    ensures IsRun(states, steps) && |steps| == 6
    ensures steps[5] == Installs(1) && states[5].control.ended && states[6].control.publication == Some(9)
  {
    var s0 := State(Control(false, None, None, false, 0, true), None, map[], {}, {}, false, 0);
    var s1 := Put(s0, 1, Arrived);
    var s2 := FirstLocked(s1, 1);
    var s3 := SecondLocked(s2, 1);
    var s4 := s3.(control := s3.control.(ended := true));
    var s5 := Put(s4, 1, Serving(9, 0)).(live := s4.live + {9}, used := s4.used + {9});
    var s6 := Put(s5, 1, Answered(Published(9))).(holder := None, control := Install(s5.control, 9));
    steps := [PublishArrives(1), FirstLock(1), SecondLock(1), ContextEnds, GatewayOpens(1, 9), Installs(1)];
    states := [s0, s1, s2, s3, s4, s5, s6];
  }

  /** What the last installed publish or accepted unpublish asked for. */
  ghost function Intent(states: seq<State>, steps: seq<Step>, i: nat): bool
    requires IsRun(states, steps) && i < |states|
  {
    if i == 0 then states[0].control.requested
    else if steps[i - 1].Installs? then true
    else if steps[i - 1].Unpublishes? && !states[i - 1].control.ended then false
    else Intent(states, steps, i - 1)
  }

  lemma NextRequested(s: State, step: Step, t: State)
    requires Next(s, step, t)
    ensures t.control.requested ==
      if step.Installs? then true else if step.Unpublishes? && !s.control.ended then false else s.control.requested
  {
  }

  /** The sharing intent that a switch carries over. */
  lemma {:induction false} RequestedIsIntent(states: seq<State>, steps: seq<Step>, i: nat)
    requires IsRun(states, steps) && i < |states|
    ensures states[i].control.requested == Intent(states, steps, i)
  {
    if i > 0 {
      RequestedIsIntent(states, steps, i - 1);
      NextRequested(states[i - 1], steps[i - 1], states[i]);
    }
  }
}
