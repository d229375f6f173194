/** Stop requests during `bivrost run` (runPlatformCommand and
    runSessionCommand in internal/session/run.go).

    Two goroutines share the `running` flag and the `terminate` channel: the
    signal goroutine and the main path.  Every access to either is one step. */
module StopRequests {
  import opened Wrappers

  /** When an interrupt reached Bivrost, as seen from the command. */
  datatype Arrival = BeforeStart | WhileRunning | AfterExit

  datatype Signals =
    | Waiting
    | TookTermination
    | TookInterrupt(arrival: Arrival)
    | ClosedTerminate
    | SawNotRunning
    | Done

  datatype Main =
    | Setup
    | MarkedRunning
    | ContextChecked
    | Starting
    | Selecting
    | Stopping
    | Leaving
    | Returned

  datatype Command = NotStarted | Running | Exited

  /** `told` is a request to stop that has reached the command. */
  datatype State = State(
    ownGroup: bool,
    main: Main,
    signals: Signals,
    running: bool,
    terminateCloses: nat,
    sessionCancelled: bool,
    termination: bool,
    queued: Option<Arrival>,
    command: Command,
    told: bool)

  datatype Step =
    | TerminationArrives
    | InterruptArrives
    | TakesTermination
    | TakesInterrupt
    | LoadsForInterrupt
    | ClosesTerminate
    | LoadsAfterClose
    | CancelsSession
    | SignalsQuit
    | SetupFails
    | MarksRunning
    | ChecksContext
    | ChecksTerminate
    | Starts(ok: bool)
    | CommandExits
    | SelectsExit
    | SelectsTerminate
    | SelectsLoss
    | StopsCommand
    | Unmarks

  ghost predicate Init(s: State) {
    s == State(s.ownGroup, Setup, Waiting, false, 0, false, false, None, NotStarted, false)
  }

  function ArrivalNow(s: State): Arrival {
    match s.command
    case NotStarted => BeforeStart
    case Running => WhileRunning
    case Exited => AfterExit
  }

  ghost predicate Next(s: State, step: Step, t: State) {
    if MainStep(step) then MainNext(s, step, t) else SignalNext(s, step, t)
  }

  /** The signals, their goroutine, and the command itself. */
  ghost predicate SignalNext(s: State, step: Step, t: State) {
    match step
    case TerminationArrives => t == s.(termination := true)
    case InterruptArrives =>
      // The channel holds one; in the foreground the terminal also signals the command.
      t == s.(
        queued := if s.queued.Some? then s.queued else Some(ArrivalNow(s)),
        told := s.told || (!s.ownGroup && s.command.Running?))
    case TakesTermination => s.signals.Waiting? && s.termination && t == s.(signals := TookTermination)
    case TakesInterrupt =>
      s.signals.Waiting? && s.queued.Some? && t == s.(signals := TookInterrupt(s.queued.value), queued := None)
    case LoadsForInterrupt =>
      && s.signals.TookInterrupt?
      && t == s.(signals := if Ignored(s) then Waiting else TookTermination)
    case ClosesTerminate =>
      s.signals.TookTermination? && t == s.(signals := ClosedTerminate, terminateCloses := s.terminateCloses + 1)
    case LoadsAfterClose =>
      s.signals.ClosedTerminate? && t == s.(signals := if s.running then Done else SawNotRunning)
    case CancelsSession => s.signals.SawNotRunning? && t == s.(signals := Done, sessionCancelled := true)
    case SignalsQuit => s.signals.Waiting? && s.main.Returned? && t == s.(signals := Done)
    case CommandExits => s.command.Running? && t == s.(command := Exited)
    case _ => false
  }

  /** The main path. */
  ghost predicate MainNext(s: State, step: Step, t: State) {
    match step
    case SetupFails => s.main.Setup? && t == s.(main := Returned)
    case MarksRunning => s.main.Setup? && t == s.(main := MarkedRunning, running := true)
    case ChecksContext =>
      s.main.MarkedRunning? && t == s.(main := if s.sessionCancelled then Leaving else ContextChecked)
    case ChecksTerminate =>
      s.main.ContextChecked? && t == s.(main := if s.terminateCloses > 0 then Leaving else Starting)
    case Starts(ok) =>
      s.main.Starting? && t == if ok then s.(main := Selecting, command := Running) else s.(main := Leaving)
    case SelectsExit => s.main.Selecting? && s.command.Exited? && t == s.(main := Leaving)
    case SelectsTerminate => s.main.Selecting? && s.terminateCloses > 0 && t == s.(main := Stopping)
    // Podman, the proxy, SSH, Bastion or the context ended first.
    case SelectsLoss => s.main.Selecting? && t == s.(main := Stopping)
    // cancelCommand and process.stop, which waits for the exit.
    case StopsCommand =>
      s.main.Stopping? && t == if s.command.Exited? then s.(main := Leaving) else s.(told := true)
    case Unmarks => s.main.Leaving? && t == s.(main := Returned, running := false)
    case _ => false
  }

  /** The test that leaves an interrupt to the terminal. */
  predicate Ignored(s: State) {
    s.running && !s.ownGroup
  }

  predicate MainStep(step: Step) {
    step.SetupFails? || step.MarksRunning? || step.ChecksContext? || step.ChecksTerminate? || step.Starts?
    || step.SelectsExit? || step.SelectsTerminate? || step.SelectsLoss? || step.StopsCommand? || step.Unmarks?
  }

  /** The main path has not yet made the last check before starting. */
  predicate Unchecked(main: Main) {
    main.Setup? || main.MarkedRunning? || main.ContextChecked?
  }

  ghost predicate Inv(s: State) {
    PathInv(s) && HandshakeInv(s) && InterruptInv(s)
  }

  /** The main path, its flag and its command. */
  ghost predicate PathInv(s: State) {
    && (s.running <==> !s.main.Setup? && !s.main.Returned?)
    && (s.command.Running? ==> s.main.Selecting? || s.main.Stopping?)
    && (s.main.Selecting? || s.main.Stopping? ==> !s.command.NotStarted?)
    && (Unchecked(s.main) || s.main.Starting? ==> s.command.NotStarted?)
  }

  /** The channel is closed at most once, and the session is only cancelled
      when no command runs or will. */
  ghost predicate HandshakeInv(s: State) {
    && s.terminateCloses <= 1
    && (s.signals.ClosedTerminate? || s.signals.SawNotRunning? ==> s.terminateCloses == 1)
    && (s.signals.Waiting? || s.signals.TookTermination? || s.signals.TookInterrupt? ==> s.terminateCloses == 0)
    && (s.signals.Done? ==> s.terminateCloses == 1 || s.main.Returned?)
    && (s.signals.SawNotRunning? || s.sessionCancelled ==>
          s.terminateCloses == 1 && (Unchecked(s.main) || s.main.Leaving? || s.main.Returned?))
  }

  ghost predicate InterruptInv(s: State) {
    && (s.queued.Some? ==> ArrivalInv(s, s.queued.value))
    && (s.signals.TookInterrupt? ==> ArrivalInv(s, s.signals.arrival))
  }

  /** An interrupt that arrived while the foreground command ran reached it. */
  ghost predicate ArrivalInv(s: State, arrival: Arrival) {
    match arrival
    case BeforeStart => true
    case WhileRunning => !s.command.NotStarted? && (!s.ownGroup ==> s.told)
    case AfterExit => s.command.Exited?
  }

  lemma SignalsKeepPath(s: State, step: Step, t: State)
    requires Inv(s) && SignalNext(s, step, t)
    ensures PathInv(t)
  {
  }

  lemma SignalsKeepHandshake(s: State, step: Step, t: State)
    requires Inv(s) && SignalNext(s, step, t)
    ensures HandshakeInv(t)
  {
  }

  lemma SignalsKeepInterrupt(s: State, step: Step, t: State)
    requires Inv(s) && SignalNext(s, step, t)
    ensures InterruptInv(t)
  {
  }

  lemma MainKeepPath(s: State, step: Step, t: State)
    requires Inv(s) && MainNext(s, step, t)
    ensures PathInv(t)
  {
  }

  lemma MainKeepHandshake(s: State, step: Step, t: State)
    requires Inv(s) && MainNext(s, step, t)
    ensures HandshakeInv(t)
  {
  }

  lemma MainKeepInterrupt(s: State, step: Step, t: State)
    requires Inv(s) && MainNext(s, step, t)
    ensures InterruptInv(t)
  {
  }

  lemma NextKeepsInv(s: State, step: Step, t: State)
    requires Inv(s) && Next(s, step, t)
    ensures Inv(t)
  {
    if MainStep(step) {
      MainKeepPath(s, step, t);
      MainKeepHandshake(s, step, t);
      MainKeepInterrupt(s, step, t);
    } else {
      SignalsKeepPath(s, step, t);
      SignalsKeepHandshake(s, step, t);
      SignalsKeepInterrupt(s, step, t);
    }
  }

  ghost predicate IsRun(states: seq<State>, steps: seq<Step>) {
    && |states| == |steps| + 1
    && Init(states[0])
    && forall i :: 0 <= i < |steps| ==> Next(states[i], steps[i], states[i + 1])
  }

  lemma InitHasInv(s: State)
    requires Init(s)
    ensures Inv(s)
  {
  }

  lemma {:induction false} RunKeepsInv(states: seq<State>, steps: seq<Step>, i: nat)
    requires IsRun(states, steps) && i < |states|
    ensures Inv(states[i])
  {
    if i == 0 {
      InitHasInv(states[0]);
    } else {
      RunKeepsInv(states, steps, i - 1);
      NextKeepsInv(states[i - 1], steps[i - 1], states[i]);
    }
  }

  /** Closing a channel twice would panic; it never happens. */
  lemma TerminateClosedOnce(states: seq<State>, steps: seq<Step>, i: nat, j: nat)
    requires IsRun(states, steps) && i < |steps| && j < |steps|
    requires steps[i].ClosesTerminate? && steps[j].ClosesTerminate?
    ensures i == j
  {
    if i < j {
      OnceClosed(states, steps, i, j);
    } else if j < i {
      OnceClosed(states, steps, j, i);
    }
  }

  lemma OnceClosed(states: seq<State>, steps: seq<Step>, i: nat, j: nat)
    requires IsRun(states, steps) && i < j < |steps| && steps[i].ClosesTerminate?
    ensures !steps[j].ClosesTerminate?
  {
    assert Next(states[i], steps[i], states[i + 1]);
    Lasting(states, steps, i + 1, j);
    RunKeepsInv(states, steps, j);
    assert Next(states[j], steps[j], states[j + 1]);
  }

  /** What one step can never undo. */
  ghost predicate Onwards(s: State, t: State) {
    && t.terminateCloses >= s.terminateCloses
    && (s.termination ==> t.termination)
    && (s.sessionCancelled ==> t.sessionCancelled)
    && (s.told ==> t.told)
    && (s.command.Exited? ==> t.command.Exited?)
    && (s.main.Returned? ==> t.main.Returned?)
    && t.ownGroup == s.ownGroup
    && (!s.command.NotStarted? ==> !t.command.NotStarted?)
  }

  lemma SignalsGoOnwards(s: State, step: Step, t: State)
    requires SignalNext(s, step, t)
    ensures Onwards(s, t)
  {
  }

  lemma MainGoesOnwards(s: State, step: Step, t: State)
    requires MainNext(s, step, t) && (s.main.Starting? ==> s.command.NotStarted?)
    ensures Onwards(s, t)
  {
  }

  lemma {:induction false} Lasting(states: seq<State>, steps: seq<Step>, i: nat, j: nat)
    requires IsRun(states, steps) && i <= j < |states|
    ensures Onwards(states[i], states[j])
  {
    if i < j {
      Lasting(states, steps, i, j - 1);
      RunKeepsInv(states, steps, j - 1);
      if MainStep(steps[j - 1]) {
        MainGoesOnwards(states[j - 1], steps[j - 1], states[j]);
      } else {
        SignalsGoOnwards(states[j - 1], steps[j - 1], states[j]);
      }
    }
  }

  /** The command has not been started and will not be. */
  ghost predicate NeverStarts(s: State) {
    && s.terminateCloses > 0 && s.command.NotStarted?
    && (Unchecked(s.main) || s.main.Leaving? || s.main.Returned?)
  }

  lemma NeverStartsStays(s: State, step: Step, t: State)
    requires NeverStarts(s) && Next(s, step, t)
    ensures NeverStarts(t)
  {
    if MainStep(step) {
      MainGoesOnwards(s, step, t);
    } else {
      SignalsGoOnwards(s, step, t);
    }
  }

  /** A request accepted before the last check: the command never starts. */
  lemma {:induction false} AcceptedInTimeNeverStarts(states: seq<State>, steps: seq<Step>, i: nat, j: nat)
    requires IsRun(states, steps) && i <= j < |states|
    requires states[i].terminateCloses > 0 && Unchecked(states[i].main)
    ensures NeverStarts(states[j])
  {
    if i == j {
      RunKeepsInv(states, steps, i);
    } else {
      AcceptedInTimeNeverStarts(states, steps, i, j - 1);
      assert Next(states[j - 1], steps[j - 1], states[j]);
      NeverStartsStays(states[j - 1], steps[j - 1], states[j]);
    }
  }

  // ----------------------------------------------------------- no step is idle

  /** How many of the steps from i to j satisfy `counted`. */
  function Count(steps: seq<Step>, counted: Step -> bool, i: nat, j: nat): nat
    requires i <= j <= |steps|
  {
    if i == j then 0 else Count(steps, counted, i, j - 1) + if counted(steps[j - 1]) then 1 else 0
  }

  /** How many steps of the main path an accepted request still needs to reach
      a command that runs or is about to. */
  function StepsToTell(s: State): nat {
    if s.told || s.command.Exited? then 0
    else match s.main
      case Starting => 3
      case Selecting => 2
      case Stopping => 1
      case _ => 0
  }

  lemma MainTells(s: State, step: Step, t: State)
    requires Inv(s) && MainNext(s, step, t) && s.terminateCloses > 0
    ensures StepsToTell(t) == 0 || StepsToTell(t) < StepsToTell(s)
  {
  }

  lemma SignalsTellNoLater(s: State, step: Step, t: State)
    requires SignalNext(s, step, t)
    ensures StepsToTell(t) <= StepsToTell(s)
  {
  }

  lemma StepTells(s: State, step: Step, t: State)
    requires Inv(s) && Next(s, step, t) && s.terminateCloses > 0
    ensures StepsToTell(t) == 0 || StepsToTell(t) + (if MainStep(step) then 1 else 0) <= StepsToTell(s)
  {
    if MainStep(step) { MainTells(s, step, t); } else { SignalsTellNoLater(s, step, t); }
  }

  lemma RunTells(states: seq<State>, steps: seq<Step>, i: nat, j: nat)
    requires IsRun(states, steps) && i <= j < |steps| && states[i].terminateCloses > 0
    ensures StepsToTell(states[j + 1]) == 0 ||
            StepsToTell(states[j + 1]) + (if MainStep(steps[j]) then 1 else 0) <= StepsToTell(states[j])
  {
    RunKeepsInv(states, steps, j);
    Lasting(states, steps, i, j);
    StepTells(states[j], steps[j], states[j + 1]);
  }

  /** Ranks that every counted step lowers until they are 0. */
  lemma {:induction false} Countdown(ranks: seq<nat>, steps: seq<Step>, counted: Step -> bool, i: nat, j: nat)
    requires i <= j < |ranks| == |steps| + 1
    requires forall k :: i <= k < j ==>
               ranks[k + 1] == 0 || ranks[k + 1] + (if counted(steps[k]) then 1 else 0) <= ranks[k]
    ensures ranks[j] == 0 || ranks[j] + Count(steps, counted, i, j) <= ranks[i]
  {
    if i < j { Countdown(ranks, steps, counted, i, j - 1); }
  }

  /** The same where an interrupt may raise them by two. */
  lemma {:induction false} CountdownWithInterrupts(ranks: seq<nat>, steps: seq<Step>, counted: Step -> bool, i: nat, j: nat)
    requires i <= j < |ranks| == |steps| + 1
    requires forall k :: i <= k < j ==>
               ranks[k + 1] == 0 ||
               (ranks[k] > 0 && ranks[k + 1] + (if counted(steps[k]) then 1 else 0)
                                  <= ranks[k] + if InterruptStep(steps[k]) then 2 else 0)
    ensures ranks[j] == 0 || ranks[j] + Count(steps, counted, i, j) <= ranks[i] + 2 * Count(steps, InterruptStep, i, j)
  {
    if i < j { CountdownWithInterrupts(ranks, steps, counted, i, j - 1); }
  }

  predicate InterruptStep(step: Step) {
    step.InterruptArrives?
  }

  lemma StepsToTellBound(states: seq<State>, steps: seq<Step>, i: nat, j: nat)
    requires IsRun(states, steps) && i <= j < |states| && states[i].terminateCloses > 0
    ensures StepsToTell(states[j]) == 0 ||
            StepsToTell(states[j]) + Count(steps, MainStep, i, j) <= StepsToTell(states[i])
  {
    var ranks := seq(|states|, k requires 0 <= k < |states| => StepsToTell(states[k]));
    forall k | i <= k < j
      ensures ranks[k + 1] == 0 || ranks[k + 1] + (if MainStep(steps[k]) then 1 else 0) <= ranks[k]
    {
      RunTells(states, steps, i, k);
    }
    Countdown(ranks, steps, MainStep, i, j);
  }

  /** Three steps of the main path after a request has been accepted, the
      command has been told of it, or does not run. */
  lemma AcceptedLateIsTold(states: seq<State>, steps: seq<Step>, i: nat, j: nat)
    requires IsRun(states, steps) && i <= j < |states| && states[i].terminateCloses > 0
    requires Count(steps, MainStep, i, j) >= 3
    ensures states[j].told || !states[j].command.Running?
  {
    StepsToTellBound(states, steps, i, j);
    RunKeepsInv(states, steps, j);
  }

  predicate SignalStep(step: Step) {
    step.TakesTermination? || step.TakesInterrupt? || step.LoadsForInterrupt? || step.ClosesTerminate?
    || step.LoadsAfterClose? || step.CancelsSession? || step.SignalsQuit?
  }

  predicate Accepted(s: State) {
    s.terminateCloses > 0 || s.main.Returned?
  }

  /** How many steps the signal goroutine is away from accepting a request. */
  function StepsToAccept(s: State): nat {
    if Accepted(s) then 0
    else match s.signals
      case TookTermination => 1
      case Waiting => if s.queued.Some? then 4 else 2
      case TookInterrupt(_) => if s.queued.Some? then 5 else 3
      case _ => 0
  }

  lemma SignalsAccept(s: State, step: Step, t: State)
    requires Inv(s) && SignalNext(s, step, t)
    ensures StepsToAccept(t) == 0 ||
            (StepsToAccept(s) > 0
             && StepsToAccept(t) + (if SignalStep(step) then 1 else 0)
                  <= StepsToAccept(s) + if InterruptStep(step) then 2 else 0)
  {
  }

  lemma MainAcceptsNoLater(s: State, step: Step, t: State)
    requires MainNext(s, step, t)
    ensures StepsToAccept(t) <= StepsToAccept(s) && !SignalStep(step)
  {
  }

  lemma RunAccepts(states: seq<State>, steps: seq<Step>, k: nat)
    requires IsRun(states, steps) && k < |steps|
    ensures StepsToAccept(states[k + 1]) == 0 ||
            (StepsToAccept(states[k]) > 0
             && StepsToAccept(states[k + 1]) + (if SignalStep(steps[k]) then 1 else 0)
                  <= StepsToAccept(states[k]) + if InterruptStep(steps[k]) then 2 else 0)
  {
    RunKeepsInv(states, steps, k);
    if MainStep(steps[k]) {
      MainAcceptsNoLater(states[k], steps[k], states[k + 1]);
    } else {
      SignalsAccept(states[k], steps[k], states[k + 1]);
    }
  }

  lemma StepsToAcceptBound(states: seq<State>, steps: seq<Step>, i: nat, j: nat)
    requires IsRun(states, steps) && i <= j < |states|
    ensures StepsToAccept(states[j]) == 0 ||
            StepsToAccept(states[j]) + Count(steps, SignalStep, i, j)
              <= StepsToAccept(states[i]) + 2 * Count(steps, InterruptStep, i, j)
  {
    var ranks := seq(|states|, k requires 0 <= k < |states| => StepsToAccept(states[k]));
    forall k | i <= k < j
      ensures ranks[k + 1] == 0 ||
              (ranks[k] > 0 && ranks[k + 1] + (if SignalStep(steps[k]) then 1 else 0)
                                 <= ranks[k] + if InterruptStep(steps[k]) then 2 else 0)
    {
      RunAccepts(states, steps, k);
    }
    CountdownWithInterrupts(ranks, steps, SignalStep, i, j);
  }

  /** The signal goroutine is not blocked. */
  ghost predicate SignalsCanStep(s: State) {
    exists step: Step, t: State :: SignalStep(step) && SignalNext(s, step, t)
  }

  /** A termination signal is never lost: the goroutine is never blocked
      before it has accepted the signal, or the run is over, and it has
      accepted it after five of its steps and two more for every interrupt. */
  lemma TerminationIsNeverLost(states: seq<State>, steps: seq<Step>, i: nat, j: nat)
    requires IsRun(states, steps) && i <= j < |states| && states[i].termination
    ensures Accepted(states[j]) ||
            (SignalsCanStep(states[j]) && Count(steps, SignalStep, i, j) < 5 + 2 * Count(steps, InterruptStep, i, j))
  {
    StepsToAcceptBound(states, steps, i, j);
    AcceptedOrEnabled(states, steps, i, j);
  }

  lemma AcceptedOrEnabled(states: seq<State>, steps: seq<Step>, i: nat, j: nat)
    requires IsRun(states, steps) && i <= j < |states| && states[i].termination
    ensures Accepted(states[j]) || (SignalsCanStep(states[j]) && StepsToAccept(states[j]) > 0)
    ensures StepsToAccept(states[i]) <= 5
  {
    Lasting(states, steps, i, j);
    RunKeepsInv(states, steps, j);
    SignalsEnabled(states[j]);
  }

  lemma SignalsEnabled(s: State)
    requires Inv(s) && s.termination
    ensures Accepted(s) || (SignalsCanStep(s) && StepsToAccept(s) > 0)
  {
    match s.signals {
      case Waiting => assert SignalNext(s, TakesTermination, s.(signals := TookTermination));
      case TookTermination =>
        assert SignalNext(s, ClosesTerminate, s.(signals := ClosedTerminate, terminateCloses := s.terminateCloses + 1));
      case TookInterrupt(_) =>
        assert SignalNext(s, LoadsForInterrupt, s.(signals := if Ignored(s) then Waiting else TookTermination));
      case _ =>
    }
  }

  // ---------------------------------------------------------------- interrupts

  /** The request has not been thrown away: it is still to be taken up, has
      been accepted, has reached the command, or has come too late for it. */
  predicate Outstanding(s: State) {
    || s.queued.Some? || s.signals.TookInterrupt? || s.signals.TookTermination?
    || s.terminateCloses > 0 || s.told || s.command.Exited? || s.main.Returned?
  }

  /** This step leaves to the terminal an interrupt that the terminal sent
      before there was a command. */
  predicate Drops(s: State, step: Step) {
    step.LoadsForInterrupt? && Ignored(s) && s.signals.TookInterrupt? && s.signals.arrival.BeforeStart?
  }

  ghost predicate DropsWithin(states: seq<State>, steps: seq<Step>, i: nat, j: nat)
    requires i <= j <= |steps| < |states|
  {
    exists k :: i <= k < j && Drops(states[k], steps[k])
  }

  /** What becomes of an interrupt that the goroutine takes up: it is accepted
      unless the flag is set and the command shares the foreground; one that is
      ignored has reached the command, or the command has ended, or it is dropped. */
  lemma InterruptFate(states: seq<State>, steps: seq<Step>, i: nat)
    requires IsRun(states, steps) && i < |steps| && steps[i].LoadsForInterrupt?
    ensures states[i].signals.TookInterrupt?
    ensures states[i + 1].signals.TookTermination? <==> !(states[i].running && !states[i].ownGroup)
    ensures states[i + 1].signals.Waiting? && !Drops(states[i], steps[i]) ==> states[i].told || states[i].command.Exited?
  {
    assert Next(states[i], steps[i], states[i + 1]);
    RunKeepsInv(states, steps, i);
  }

  lemma SignalsKeepOutstanding(s: State, step: Step, t: State)
    requires Inv(s) && SignalNext(s, step, t) && Outstanding(s)
    ensures Outstanding(t) || Drops(s, step)
  {
  }

  lemma MainKeepsOutstanding(s: State, step: Step, t: State)
    requires MainNext(s, step, t) && Outstanding(s) && (s.main.Starting? ==> s.command.NotStarted?)
    ensures Outstanding(t)
  {
  }

  lemma RunKeepsOutstanding(states: seq<State>, steps: seq<Step>, k: nat)
    requires IsRun(states, steps) && k < |steps| && Outstanding(states[k])
    ensures Outstanding(states[k + 1]) || Drops(states[k], steps[k])
  {
    RunKeepsInv(states, steps, k);
    if MainStep(steps[k]) {
      MainKeepsOutstanding(states[k], steps[k], states[k + 1]);
    } else {
      SignalsKeepOutstanding(states[k], steps[k], states[k + 1]);
    }
  }

  /** What holds at i and lasts except across some steps holds at j, or one of
      those steps lies between. */
  lemma {:induction false} LastsBut(holds: seq<bool>, drops: seq<bool>, i: nat, j: nat)
    requires i <= j < |holds| == |drops| + 1 && holds[i]
    requires forall k :: i <= k < j && holds[k] ==> holds[k + 1] || drops[k]
    ensures holds[j] || exists k :: i <= k < j && drops[k]
  {
    if i < j { LastsBut(holds, drops, i, j - 1); }
  }

  lemma OutstandingLasts(states: seq<State>, steps: seq<Step>, i: nat, j: nat)
    requires IsRun(states, steps) && i <= j < |states| && Outstanding(states[i])
    ensures Outstanding(states[j]) || DropsWithin(states, steps, i, j)
  {
    var holds := seq(|states|, k requires 0 <= k < |states| => Outstanding(states[k]));
    var drops := seq(|steps|, k requires 0 <= k < |steps| => Drops(states[k], steps[k]));
    forall k | i <= k < j && holds[k] ensures holds[k + 1] || drops[k] {
      RunKeepsOutstanding(states, steps, k);
    }
    LastsBut(holds, drops, i, j);
  }

  /** What becomes of an interrupt that arrives: it is served, unless it
      arrived before the command, in the foreground, and an interrupt was
      taken up after it while the command counted as running. */
  lemma ArrivalIsServed(states: seq<State>, steps: seq<Step>, i: nat, j: nat)
    requires IsRun(states, steps) && i < j < |states| && steps[i].InterruptArrives?
    ensures Outstanding(states[j]) ||
            (states[i].command.NotStarted? && !states[i].ownGroup && DropsWithin(states, steps, i + 1, j))
  {
    assert SignalNext(states[i], steps[i], states[i + 1]);
    OutstandingLasts(states, steps, i + 1, j);
    Lasting(states, steps, i + 1, j);
    if states[i].ownGroup {
      forall k | i + 1 <= k < j ensures !Drops(states[k], steps[k]) {
        Lasting(states, steps, i + 1, k);
      }
    }
  }

  /** Outside the foreground every interrupt is served. */
  lemma OwnGroupNeverLoses(states: seq<State>, steps: seq<Step>, i: nat, j: nat)
    requires IsRun(states, steps) && i < j < |states| && steps[i].InterruptArrives? && states[i].ownGroup
    ensures Outstanding(states[j])
  {
    ArrivalIsServed(states, steps, i, j);
  }

  /** The command runs, nothing has told it to stop, and nothing is going to. */
  predicate Lost(s: State) {
    s.command.Running? && !s.told && s.terminateCloses == 0 && s.queued.None? && s.signals.Waiting?
  }

  lemma LostMeansNotOutstanding(s: State)
    requires Inv(s) && s.command.Running?
    ensures Lost(s) <==> !Outstanding(s)
  {
  }

  /** This step lets a request to stop reach the command. */
  predicate Tells(s: State, step: Step) {
    || (step.InterruptArrives? && !s.ownGroup && s.command.Running?)
    || (step.StopsCommand? && !s.command.Exited?)
  }

  ghost predicate ToldBy(states: seq<State>, steps: seq<Step>, j: nat)
    requires j <= |steps| < |states|
  {
    exists k :: 0 <= k < j && Tells(states[k], steps[k])
  }

  lemma SignalsTell(s: State, step: Step, t: State)
    requires SignalNext(s, step, t)
    ensures t.told <==> s.told || Tells(s, step)
  {
  }

  lemma MainTellsWhen(s: State, step: Step, t: State)
    requires MainNext(s, step, t)
    ensures t.told <==> s.told || Tells(s, step)
  {
  }

  lemma {:induction false} ToldExactlyWhen(states: seq<State>, steps: seq<Step>, j: nat)
    requires IsRun(states, steps) && j < |states|
    ensures states[j].told <==> ToldBy(states, steps, j)
  {
    if j > 0 {
      ToldExactlyWhen(states, steps, j - 1);
      ToldByNext(states, steps, j - 1);
      if MainStep(steps[j - 1]) {
        MainTellsWhen(states[j - 1], steps[j - 1], states[j]);
      } else {
        SignalsTell(states[j - 1], steps[j - 1], states[j]);
      }
    }
  }

  lemma ToldByNext(states: seq<State>, steps: seq<Step>, j: nat)
    requires j < |steps| < |states|
    ensures ToldBy(states, steps, j + 1) <==> ToldBy(states, steps, j) || Tells(states[j], steps[j])
  {
  }

  /** Step k drops an interrupt with no other queued, and no request arrives or
      is taken up between k and j. */
  ghost predicate DropsForGood(states: seq<State>, steps: seq<Step>, k: nat, j: nat)
    requires k < j <= |steps| < |states|
  {
    && Drops(states[k], steps[k]) && states[k].queued.None?
    && forall m :: k < m < j ==> !steps[m].InterruptArrives? && !steps[m].TakesTermination?
  }

  /** No request is under way. */
  predicate Quiet(s: State) {
    s.queued.None? && s.terminateCloses == 0 && (s.signals.Waiting? || (s.signals.Done? && s.main.Returned?))
  }

  lemma SignalsKeepQuiet(s: State, step: Step, t: State)
    requires SignalNext(s, step, t) && Quiet(s) && !step.InterruptArrives? && !step.TakesTermination?
    ensures Quiet(t)
  {
  }

  lemma MainKeepsQuiet(s: State, step: Step, t: State)
    requires MainNext(s, step, t) && Quiet(s)
    ensures Quiet(t)
  {
  }

  lemma {:induction false} QuietAfterDrop(states: seq<State>, steps: seq<Step>, k: nat, j: nat)
    requires IsRun(states, steps) && k < j < |states| && DropsForGood(states, steps, k, j)
    ensures Quiet(states[j])
  {
    if j == k + 1 {
      RunKeepsInv(states, steps, k);
      assert SignalNext(states[k], steps[k], states[j]);
    } else {
      QuietAfterDrop(states, steps, k, j - 1);
      if MainStep(steps[j - 1]) {
        MainKeepsQuiet(states[j - 1], steps[j - 1], states[j]);
      } else {
        SignalsKeepQuiet(states[j - 1], steps[j - 1], states[j]);
      }
    }
  }

  lemma {:induction false} LastDrop(states: seq<State>, steps: seq<Step>, i: nat, j: nat) returns (k: nat)
    requires i <= j <= |steps| < |states| && DropsWithin(states, steps, i, j)
    ensures i <= k < j && Drops(states[k], steps[k]) && !DropsWithin(states, steps, k + 1, j)
  {
    k := j - 1;
    if !Drops(states[k], steps[k]) {
      k := LastDrop(states, steps, i, j - 1);
    }
  }

  /** With nothing outstanding at j, the last drop was for good. */
  lemma LastDropIsForGood(states: seq<State>, steps: seq<Step>, k: nat, j: nat)
    requires IsRun(states, steps) && k < j < |states| && !Outstanding(states[j])
    requires Drops(states[k], steps[k]) && !DropsWithin(states, steps, k + 1, j)
    ensures DropsForGood(states, steps, k, j)
  {
    assert SignalNext(states[k], steps[k], states[k + 1]);
    if Outstanding(states[k + 1]) { OutstandingLasts(states, steps, k + 1, j); }
    forall m | k < m < j ensures !steps[m].InterruptArrives? && !steps[m].TakesTermination? {
      if Outstanding(states[m + 1]) { OutstandingLasts(states, steps, m + 1, j); }
      assert Next(states[m], steps[m], states[m + 1]);
    }
  }

  /** An interrupt arrived and the command runs.  It runs on as if there had
      been none exactly when an interrupt that arrived before it was dropped
      after that arrival, nothing has told the command since, and no other
      request has come or been taken up. */
  lemma LostExactlyWhen(states: seq<State>, steps: seq<Step>, i: nat, j: nat)
    requires IsRun(states, steps) && i < j < |states| && steps[i].InterruptArrives? && states[j].command.Running?
    ensures Lost(states[j]) <==>
            !ToldBy(states, steps, j) && exists k :: i < k < j && DropsForGood(states, steps, k, j)
  {
    RunKeepsInv(states, steps, j);
    LostMeansNotOutstanding(states[j]);
    ToldExactlyWhen(states, steps, j);
    if Lost(states[j]) {
      ArrivalIsServed(states, steps, i, j);
      var k := LastDrop(states, steps, i + 1, j);
      LastDropIsForGood(states, steps, k, j);
    }
    if k :| i < k < j && DropsForGood(states, steps, k, j) {
      QuietAfterDrop(states, steps, k, j);
    }
  }

  /** Ctrl+C during setup, taken up only after the flag is set. */
  lemma InterruptIgnoredRun() returns (states: seq<State>, steps: seq<Step>)
    ensures IsRun(states, steps) && steps == [InterruptArrives, MarksRunning, TakesInterrupt, LoadsForInterrupt]
    ensures states[0].command.NotStarted? && !states[0].ownGroup
    ensures states[4] == State(false, MarkedRunning, Waiting, true, 0, false, false, None, NotStarted, false)
  {
    var s0 := State(false, Setup, Waiting, false, 0, false, false, None, NotStarted, false);
    var s1 := s0.(queued := Some(BeforeStart));
    states, steps := Extends([s0], [], InterruptArrives, s1);
    var s2 := s1.(main := MarkedRunning, running := true);
    states, steps := Extends(states, steps, MarksRunning, s2);
    var s3 := s2.(signals := TookInterrupt(BeforeStart), queued := None);
    states, steps := Extends(states, steps, TakesInterrupt, s3);
    var s4 := s3.(signals := Waiting);
    states, steps := Extends(states, steps, LoadsForInterrupt, s4);
  }

  /** In the foreground one can be: the interrupt is left to a command that did
      not exist when the terminal sent it.  The command then starts, and runs
      untold. */
  lemma ForegroundInterruptCanBeLost() returns (states: seq<State>, steps: seq<Step>)
    ensures IsRun(states, steps) && |steps| == 7
    ensures steps[0] == InterruptArrives && states[0].command.NotStarted? && !states[0].ownGroup
    ensures Lost(states[7])
  {
    states, steps := InterruptIgnoredRun();
    var s5 := states[4].(main := ContextChecked);
    states, steps := Extends(states, steps, ChecksContext, s5);
    var s6 := s5.(main := Starting);
    states, steps := Extends(states, steps, ChecksTerminate, s6);
    var s7 := s6.(main := Selecting, command := Running);
    states, steps := Extends(states, steps, Starts(true), s7);
  }

  lemma Extends(states: seq<State>, steps: seq<Step>, step: Step, t: State)
    returns (states': seq<State>, steps': seq<Step>)
    requires IsRun(states, steps) && Next(states[|steps|], step, t)
    ensures states' == states + [t] && steps' == steps + [step] && IsRun(states', steps')
  {
    states', steps' := states + [t], steps + [step];
    forall i | 0 <= i < |steps'| ensures Next(states'[i], steps'[i], states'[i + 1]) {
      if i < |steps| {
        assert Next(states[i], steps[i], states[i + 1]);
      }
    }
  }

  /** A stop request accepted at any time is served by the time the main path
      leaves: the command has ended, or never started. */
  lemma AcceptedIsServedOnLeaving(states: seq<State>, steps: seq<Step>, i: nat, j: nat)
    requires IsRun(states, steps) && i <= j < |states|
    requires states[i].terminateCloses > 0 && (states[j].main.Leaving? || states[j].main.Returned?)
    ensures states[j].command.NotStarted? || states[j].command.Exited?
    ensures Unchecked(states[i].main) ==> states[j].command.NotStarted?
  {
    RunKeepsInv(states, steps, j);
    if Unchecked(states[i].main) { AcceptedInTimeNeverStarts(states, steps, i, j); }
  }

  /** The handshake never cancels the session, and with it the tunnels, of a
      command that has started and not yet ended. */
  lemma TunnelsOutliveCommand(states: seq<State>, steps: seq<Step>, i: nat)
    requires IsRun(states, steps) && i < |states| && states[i].sessionCancelled
    ensures !states[i].command.Running? && !states[i].main.Starting?
  {
    RunKeepsInv(states, steps, i);
  }
}
