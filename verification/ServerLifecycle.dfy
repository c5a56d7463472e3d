/**
 * Shutdown and startup of a server as a state machine. `Shutdown` is the synchronous part of the
 * call; `Resume` is the continuation of the clean-up after the promise it awaits has settled.
 */
module ServerLifecycle {
  import opened Prelude

  datatype Error = Plain(code: nat) | Interrupted | Cleanup(errors: seq<Error>)

  datatype Outcome = Fulfilled | Rejected(e: Error)

  datatype Stage = Stage(cancellable: bool, settled: Option<Outcome>)

  /** Where the clean-up stands: at which await, in which clean-up step, or done. */
  datatype Phase = Idle | AwaitIngress | AwaitCancel | AwaitStage | InStep(i: nat) | Done(outcome: Outcome)

  /** `cancel` is None when nothing had to be cancelled; an inner None is a promise not settled yet. */
  datatype State = State(
    shuttingDown: bool,
    stages: seq<Stage>,
    active: Option<nat>,
    captured: Option<nat>,
    ingressCalls: nat,
    ingress: Option<Outcome>,
    cancel: Option<Option<Outcome>>,
    phase: Phase,
    errors: seq<Error>,
    started: seq<nat>,
    results: seq<Outcome>)

  /**
   * A stage settles when its promise does; it ends when `runStartupStage` resumes and forgets it.
   * The first `Shutdown` says what `stopIngress` and `cancel` do at once; None is
   * a promise still pending.
   */
  datatype Step =
    | RunStage(cancellable: bool)
    | StageSettles(id: nat, outcome: Outcome)
    | StageEnds(id: nat)
    | Shutdown(ingress: Option<Outcome>, cancel: Option<Outcome>)
    | IngressSettles(outcome: Outcome)
    | CancelSettles(outcome: Outcome)
    | Resume
    | StepSettles(outcome: Outcome)

  const INITIAL := State(false, [], None, None, 0, None, None, Idle, [], [], [])

  function ErrorsOf(o: Outcome): seq<Error> {
    if o.Rejected? then [o.e] else []
  }

  /** No error resolves, one is rethrown as it is, several are thrown together. */
  function Classify(errors: seq<Error>): Outcome {
    if |errors| == 0 then Fulfilled
    else if |errors| == 1 then Rejected(errors[0])
    else Rejected(Cleanup(errors))
  }

  predicate Enabled(s: State, step: Step) {
    match step
    case StageSettles(id, _) => id < |s.stages| && s.stages[id].settled.None?
    case StageEnds(id) => id < |s.stages| && s.stages[id].settled.Some?
    case IngressSettles(_) => s.shuttingDown && s.ingress.None?
    case CancelSettles(_) => s.cancel == Some(None)
    case Resume =>
      && (s.phase.AwaitIngress? || s.phase.AwaitCancel? || s.phase.AwaitStage?)
      && (s.phase.AwaitIngress? ==> s.ingress.Some?)
      && (s.phase.AwaitCancel? ==> s.cancel.None? || s.cancel.value.Some?)
      && (s.phase.AwaitStage? && s.captured.Some? ==> s.captured.value < |s.stages| && s.stages[s.captured.value].settled.Some?)
    case StepSettles(_) => s.phase.InStep?
    case _ => true
  }

  /** Enter clean-up step i of n, or finish behind the last one. */
  function EnterStep(s: State, n: nat, i: nat): State {
    if i < n then s.(phase := InStep(i), started := s.started + [i])
    else s.(phase := Done(Classify(s.errors)))
  }

  function ApplyRunStage(s: State, cancellable: bool): State {
    if s.shuttingDown then s
    else s.(stages := s.stages + [Stage(cancellable, None)], active := Some(|s.stages|))
  }

  function ApplyStageSettles(s: State, id: nat, outcome: Outcome): State
    requires id < |s.stages|
  {
    s.(stages := s.stages[id := s.stages[id].(settled := Some(outcome))])
  }

  function ApplyStageEnds(s: State, id: nat): State {
    s.(active := if s.active == Some(id) then None else s.active)
  }

  function ApplyShutdown(s: State, ingress: Option<Outcome>, cancel: Option<Outcome>): State {
    if s.shuttingDown then s
    else
      var cancels := s.active.Some? && s.active.value < |s.stages| && s.stages[s.active.value].cancellable;
      s.(shuttingDown := true, captured := s.active, ingressCalls := s.ingressCalls + 1, ingress := ingress,
         cancel := if cancels then Some(cancel) else None, phase := AwaitIngress)
  }

  function ApplyResume(s: State, n: nat): State
    requires Enabled(s, Resume)
  {
    match s.phase
    case AwaitIngress => s.(phase := AwaitCancel, errors := s.errors + ErrorsOf(s.ingress.value))
    case AwaitCancel => s.(phase := AwaitStage, errors := s.errors + if s.cancel.Some? then ErrorsOf(s.cancel.value.value) else [])
    case _ => EnterStep(s, n, 0)
  }

  function ApplyStepSettles(s: State, n: nat, outcome: Outcome): State
    requires s.phase.InStep?
  {
    EnterStep(s.(errors := s.errors + ErrorsOf(outcome), results := s.results + [outcome]), n, s.phase.i + 1)
  }

  /** `n` is the number of clean-up steps. */
  function Apply(s: State, n: nat, step: Step): State
    requires Enabled(s, step)
  {
    match step
    case RunStage(cancellable) => ApplyRunStage(s, cancellable)
    case StageSettles(id, outcome) => ApplyStageSettles(s, id, outcome)
    case StageEnds(id) => ApplyStageEnds(s, id)
    case Shutdown(ingress, cancel) => ApplyShutdown(s, ingress, cancel)
    case IngressSettles(outcome) => s.(ingress := Some(outcome))
    case CancelSettles(outcome) => s.(cancel := Some(Some(outcome)))
    case Resume => ApplyResume(s, n)
    case StepSettles(outcome) => ApplyStepSettles(s, n, outcome)
  }

  ghost predicate IsRun(n: nat, states: seq<State>, steps: seq<Step>) {
    && |states| == |steps| + 1 && states[0] == INITIAL
    && forall i | 0 <= i < |steps| :: Enabled(states[i], steps[i]) && states[i + 1] == Apply(states[i], n, steps[i])
  }

  // ---- the reference outcome ----

  function StepErrors(results: seq<Outcome>): seq<Error> {
    if results == [] then [] else StepErrors(results[..|results| - 1]) + ErrorsOf(results[|results| - 1])
  }

  /** The failures in their fixed order: ingress, cancellation, steps. */
  function AllErrors(ingress: Outcome, cancel: Option<Outcome>, results: seq<Outcome>): seq<Error> {
    ErrorsOf(ingress) + (if cancel.Some? then ErrorsOf(cancel.value) else []) + StepErrors(results)
  }

  function FirstN(n: nat): seq<nat> {
    seq(n, i requires 0 <= i < n => i)
  }

  function CancelOutcome(s: State): Option<Outcome> {
    if s.cancel.None? then None else s.cancel.value
  }

  /** Everything the clean-up waits for before its first step has settled. */
  predicate Prepared(s: State) {
    && s.ingress.Some?
    && (s.cancel.Some? ==> s.cancel.value.Some?)
    && (s.captured.Some? ==> s.captured.value < |s.stages| && s.stages[s.captured.value].settled.Some?)
  }

  ghost predicate Inv(s: State, n: nat) {
    && (s.active.Some? ==> s.active.value < |s.stages|)
    && (s.captured.Some? ==> s.captured.value < |s.stages|)
    && (s.cancel.Some? <==> s.captured.Some? && s.stages[s.captured.value].cancellable)
    && s.ingressCalls == (if s.shuttingDown then 1 else 0)
    && (s.phase.Idle? <==> !s.shuttingDown)
    && |s.started| <= n && s.started == FirstN(|s.started|)
    && match s.phase
       case Idle => s.captured.None? && s.ingress.None? && s.cancel.None? && s.errors == [] && s.started == [] && s.results == []
       case AwaitIngress => s.errors == [] && s.started == [] && s.results == []
       case AwaitCancel => s.ingress.Some? && s.errors == ErrorsOf(s.ingress.value) && s.started == [] && s.results == []
       case AwaitStage =>
         && s.ingress.Some? && (s.cancel.Some? ==> s.cancel.value.Some?)
         && s.errors == AllErrors(s.ingress.value, CancelOutcome(s), []) && s.started == [] && s.results == []
       case InStep(i) =>
         && Prepared(s) && s.started == FirstN(i + 1) && |s.results| == i && i < n
         && s.errors == AllErrors(s.ingress.value, CancelOutcome(s), s.results)
       case Done(outcome) =>
         && Prepared(s) && s.started == FirstN(n) && |s.results| == n
         && outcome == Classify(AllErrors(s.ingress.value, CancelOutcome(s), s.results))
  }

  lemma ResultSnoc(ingress: Outcome, cancel: Option<Outcome>, results: seq<Outcome>, outcome: Outcome)
    ensures AllErrors(ingress, cancel, results + [outcome]) == AllErrors(ingress, cancel, results) + ErrorsOf(outcome)
  {
    assert (results + [outcome])[..|results + [outcome]| - 1] == results;
  }

  lemma FirstNSnoc(n: nat)
    ensures FirstN(n) + [n] == FirstN(n + 1)
  {
  }

  lemma InvStages(s: State, n: nat, step: Step)
    requires Inv(s, n) && Enabled(s, step) && (step.RunStage? || step.StageSettles? || step.StageEnds?)
    ensures Inv(Apply(s, n, step), n)
  {
  }

  lemma InvWaits(s: State, n: nat, step: Step)
    requires Inv(s, n) && Enabled(s, step) && (step.Shutdown? || step.IngressSettles? || step.CancelSettles?)
    ensures Inv(Apply(s, n, step), n)
  {
  }

  lemma InvResume(s: State, n: nat)
    requires Inv(s, n) && Enabled(s, Resume)
    ensures Inv(Apply(s, n, Resume), n)
  {
    FirstNSnoc(0);
  }

  lemma InvStepSettles(s: State, n: nat, outcome: Outcome)
    requires Inv(s, n) && s.phase.InStep?
    ensures Inv(ApplyStepSettles(s, n, outcome), n)
  {
    var errors, results := s.errors + ErrorsOf(outcome), s.results + [outcome];
    ResultSnoc(s.ingress.value, CancelOutcome(s), s.results, outcome);
    FirstNSnoc(s.phase.i + 1);
    assert errors == AllErrors(s.ingress.value, CancelOutcome(s), results);
    var t := s.(errors := errors, results := results);
    if s.phase.i + 1 < n {
      assert ApplyStepSettles(s, n, outcome) == t.(phase := InStep(s.phase.i + 1), started := s.started + [s.phase.i + 1]);
    } else {
      assert ApplyStepSettles(s, n, outcome) == t.(phase := Done(Classify(errors)));
    }
  }

  lemma InvStep(s: State, n: nat, step: Step)
    requires Inv(s, n) && Enabled(s, step)
    ensures Inv(Apply(s, n, step), n)
  {
    if step.StepSettles? {
      InvStepSettles(s, n, step.outcome);
    } else if step.Resume? {
      InvResume(s, n);
    } else if step.Shutdown? || step.IngressSettles? || step.CancelSettles? {
      InvWaits(s, n, step);
    } else {
      InvStages(s, n, step);
    }
  }

  lemma {:induction false} RunInv(n: nat, states: seq<State>, steps: seq<Step>, i: nat)
    requires IsRun(n, states, steps) && i < |states|
    ensures Inv(states[i], n)
    decreases i
  {
    if i == 0 {
    } else {
      RunInv(n, states, steps, i - 1);
      InvStep(states[i - 1], n, steps[i - 1]);
    }
  }

  /**
   * Main result: ingress is stopped once, a captured stage that can be cancelled is cancelled, and
   * clean-up steps start in list order, each once and one at a time, only after everything before
   * them has settled.
   */
  lemma CleanupOrder(n: nat, states: seq<State>, steps: seq<Step>, i: nat)
    requires IsRun(n, states, steps) && i < |states|
    ensures states[i].ingressCalls == if states[i].shuttingDown then 1 else 0
    ensures states[i].cancel.Some? <==>
      && states[i].captured.Some? && states[i].captured.value < |states[i].stages|
      && states[i].stages[states[i].captured.value].cancellable
    ensures |states[i].started| <= n && states[i].started == FirstN(|states[i].started|)
    ensures states[i].started != [] ==> Prepared(states[i])
    ensures |states[i].results| <= |states[i].started| <= |states[i].results| + 1
  {
    RunInv(n, states, steps, i);
  }

  /** Main result: a finished clean-up ran every step and ends with exactly the ordered failures. */
  lemma CleanupOutcome(n: nat, states: seq<State>, steps: seq<Step>, i: nat)
    requires IsRun(n, states, steps) && i < |states| && states[i].phase.Done?
    ensures states[i].started == FirstN(n) && |states[i].results| == n && Prepared(states[i])
    ensures states[i].phase.outcome == Classify(AllErrors(states[i].ingress.value, CancelOutcome(states[i]), states[i].results))
  {
    RunInv(n, states, steps, i);
  }

  /** A clean-up step that fails is followed by the next one, exactly as one that succeeds. */
  lemma FailureNeverSkips(s: State, n: nat, e: Error)
    requires Inv(s, n) && s.phase.InStep?
    ensures var failed, passed := Apply(s, n, StepSettles(Rejected(e))), Apply(s, n, StepSettles(Fulfilled));
      && failed.started == passed.started
      && (failed.phase.InStep? <==> passed.phase.InStep?)
      && (s.phase.i + 1 < n ==> failed.phase == InStep(s.phase.i + 1))
  {
  }

  /** After shutdown begins nothing admits a stage, starts it over, or changes what was captured. */
  lemma {:induction false} ShutdownIsFinal(n: nat, states: seq<State>, steps: seq<Step>, i: nat, j: nat)
    requires IsRun(n, states, steps) && i <= j < |states| && states[i].shuttingDown
    ensures states[j].shuttingDown && |states[j].stages| == |states[i].stages|
    ensures states[j].captured == states[i].captured && states[j].ingressCalls == states[i].ingressCalls
    ensures states[i].phase.Done? ==> states[j].phase == states[i].phase
    decreases j
  {
    if i == j {
    } else {
      ShutdownIsFinal(n, states, steps, i, j - 1);
    }
  }

  /** The clean-up never waits for something that has settled. */
  lemma CleanupProgress(n: nat, states: seq<State>, steps: seq<Step>, i: nat)
    requires IsRun(n, states, steps) && i < |states|
    requires states[i].shuttingDown && !states[i].phase.Done? && Prepared(states[i])
    ensures Enabled(states[i], Resume) || (forall o :: Enabled(states[i], StepSettles(o)))
  {
    RunInv(n, states, steps, i);
  }

  // ---- the loops of the program ----

  /** `finishCleanup`, once everything it awaits has its result. */
  method FinishCleanup(ingress: Outcome, cancel: Option<Outcome>, results: seq<Outcome>) returns (outcome: Outcome)
    ensures outcome == Classify(AllErrors(ingress, cancel, results))
  {
    var errors: seq<Error> := [];
    if ingress.Rejected? {
      errors := errors + [ingress.e];
    }
    if cancel.Some? && cancel.value.Rejected? {
      errors := errors + [cancel.value.e];
    }
    assert errors == AllErrors(ingress, cancel, []);
    var i := 0;
    while i < |results|
      invariant 0 <= i <= |results|
      invariant errors == AllErrors(ingress, cancel, results[..i])
    {
      ResultSnoc(ingress, cancel, results[..i], results[i]);
      assert results[..i + 1] == results[..i] + [results[i]];
      if results[i].Rejected? {
        errors := errors + [results[i].e];
      }
      i := i + 1;
    }
    assert results[..|results|] == results;
    if |errors| == 1 {
      return Rejected(errors[0]);
    }
    if |errors| > 1 {
      return Rejected(Cleanup(errors));
    }
    return Fulfilled;
  }

  /** What ends a startup: nothing, one error, or a startup error with the errors of the clean-up. */
  datatype Startup = Started | Failed(e: Error) | FailedTwice(errors: seq<Error>)

  function CleanupErrors(e: Error): seq<Error> {
    if e.Cleanup? then e.errors else [e]
  }

  /** One stage of a startup: its own result, and whether shutdown had begun by the time it ended. */
  datatype StageRun = StageRun(outcome: Outcome, shutdownBegan: bool)

  /** The stage at which the loop stops, |runs| when it does not. */
  function StopIndex(runs: seq<StageRun>): (k: nat)
    ensures k <= |runs|
    ensures k < |runs| ==> runs[k].outcome.Rejected? || runs[k].shutdownBegan
  {
    if runs == [] then 0
    else if runs[0].outcome.Rejected? || runs[0].shutdownBegan then 0
    else 1 + StopIndex(runs[1..])
  }

  lemma {:induction false} StopIndexIs(runs: seq<StageRun>, k: nat)
    requires k <= |runs| && forall i | 0 <= i < k :: runs[i].outcome.Fulfilled? && !runs[i].shutdownBegan
    requires k < |runs| ==> runs[k].outcome.Rejected? || runs[k].shutdownBegan
    ensures StopIndex(runs) == k
  {
    if k == 0 {
    } else {
      StopIndexIs(runs[1..], k - 1);
    }
  }

  /** During a shutdown every error but the interruption itself is reported as the interruption. */
  function Reported(began: bool, e: Error): Error {
    if began && e != Interrupted then Interrupted else e
  }

  function EndStartup(reported: Error, shutdown: Outcome): Startup {
    if shutdown.Fulfilled? then Failed(reported) else FailedTwice([reported] + CleanupErrors(shutdown.e))
  }

  /** How a startup over these stages ends, and how many of them ran. */
  predicate StartupSays(began: bool, runs: seq<StageRun>, shutdown: Outcome, r: Startup, ran: nat) {
    if began then
      ran == 0 && r == if |runs| == 0 then Started else EndStartup(Interrupted, shutdown)
    else if StopIndex(runs) == |runs| then
      ran == |runs| && r == Started
    else
      var last := runs[StopIndex(runs)];
      && ran == StopIndex(runs) + 1
      && r == EndStartup(if last.shutdownBegan then Interrupted else last.outcome.e, shutdown)
  }

  /**
   * `runServerStartup`. Stages run in order; none runs once shutdown has begun. The startup fails
   * exactly when shutdown began or a stage failed, and an error during shutdown is reported as an
   * interruption, followed by what the clean-up reports.
   */
  method RunServerStartup(began: bool, runs: seq<StageRun>, shutdown: Outcome) returns (r: Startup, ran: nat)
    ensures StartupSays(began, runs, shutdown, r, ran)
  {
    ran := 0;
    var shuttingDown := began;
    var thrown: Option<Error> := None;
    while ran < |runs| && thrown.None?
      invariant 0 <= ran <= |runs|
      invariant began ==> ran == 0 && shuttingDown
      invariant thrown.None? ==>
        (!began ==> !shuttingDown) && forall i | 0 <= i < ran :: runs[i].outcome.Fulfilled? && !runs[i].shutdownBegan
      invariant thrown.Some? && began ==> thrown.value == Interrupted && |runs| > 0
      invariant thrown.Some? && !began ==>
        && ran > 0 && StopIndex(runs) == ran - 1
        && shuttingDown == runs[ran - 1].shutdownBegan
        && thrown.value == (if runs[ran - 1].outcome.Rejected? then runs[ran - 1].outcome.e else Interrupted)
        && (runs[ran - 1].outcome.Rejected? || runs[ran - 1].shutdownBegan)
      decreases |runs| - ran, thrown.None?
    {
      if shuttingDown {
        thrown := Some(Interrupted);
      } else {
        var run := runs[ran];
        shuttingDown := run.shutdownBegan;
        if run.outcome.Rejected? {
          StopIndexIs(runs, ran);
          thrown := Some(run.outcome.e);
        } else if shuttingDown {
          StopIndexIs(runs, ran);
          thrown := Some(Interrupted);
        }
        ran := ran + 1;
      }
    }
    if thrown.None? {
      StopIndexIs(runs, ran);
      return Started, ran;
    }
    var reported := Reported(shuttingDown, thrown.value);
    if shutdown.Rejected? {
      return FailedTwice([reported] + CleanupErrors(shutdown.e)), ran;
    }
    return Failed(reported), ran;
  }

  // ---- the lifecycle object ----

  /**
   * The variables of `createServerLifecycle` and of its one pending clean-up. Each method is one
   * synchronous frame of the program: a call, or what runs when an awaited promise settles.
   */
  class Lifecycle {
    const cleanupSteps: nat
    var shuttingDown: bool
    var stages: seq<Stage>
    var active: Option<nat>
    var captured: Option<nat>
    var ingressCalls: nat
    var ingress: Option<Outcome>
    var cancel: Option<Option<Outcome>>
    var phase: Phase
    var errors: seq<Error>
    var started: seq<nat>
    var results: seq<Outcome>

    ghost function View(): State
      reads this
    {
      State(shuttingDown, stages, active, captured, ingressCalls, ingress, cancel, phase, errors, started, results)
    }

    constructor (cleanupSteps: nat)
      ensures this.cleanupSteps == cleanupSteps && View() == INITIAL
    {
      this.cleanupSteps := cleanupSteps;
      shuttingDown, stages, active, captured := false, [], None, None;
      ingressCalls, ingress, cancel, phase := 0, None, None, Idle;
      errors, started, results := [], [], [];
    }

    /** None is the interruption error. */
    method RunStage(cancellable: bool) returns (id: Option<nat>)
      modifies this
      ensures View() == Apply(old(View()), cleanupSteps, Step.RunStage(cancellable))
      ensures id == if old(shuttingDown) then None else Some(|old(stages)|)
    {
      if shuttingDown {
        return None;
      }
      id := Some(|stages|);
      stages := stages + [Stage(cancellable, None)];
      active := id;
    }

    method EndStage(id: nat)
      requires Enabled(View(), StageEnds(id))
      modifies this`active
      ensures View() == Apply(old(View()), cleanupSteps, StageEnds(id))
    {
      if active == Some(id) {
        active := None;
      }
    }

    /** Every call but the first only hands out the promise of the clean-up under way. */
    method Shutdown(stopIngress: Option<Outcome>, cancelled: Option<Outcome>)
      requires active.Some? ==> active.value < |stages|
      modifies this
      ensures View() == Apply(old(View()), cleanupSteps, Step.Shutdown(stopIngress, cancelled))
    {
      if shuttingDown {
        return;
      }
      shuttingDown := true;
      captured := active;
      ingressCalls := ingressCalls + 1;
      ingress := stopIngress;
      cancel := None;
      if captured.Some? {
        if stages[captured.value].cancellable {
          cancel := Some(cancelled);
        }
      }
      phase := AwaitIngress;
    }

    method Enter(i: nat)
      modifies this`phase, this`started
      ensures View() == EnterStep(old(View()), cleanupSteps, i)
    {
      if i < cleanupSteps {
        started := started + [i];
        phase := InStep(i);
      } else if |errors| == 1 {
        phase := Done(Rejected(errors[0]));
      } else if |errors| > 1 {
        phase := Done(Rejected(Cleanup(errors)));
      } else {
        phase := Done(Fulfilled);
      }
    }

    method Resume()
      requires Enabled(View(), Step.Resume)
      modifies this
      ensures View() == Apply(old(View()), cleanupSteps, Step.Resume)
    {
      if phase == AwaitIngress {
        if ingress.value.Rejected? {
          errors := errors + [ingress.value.e];
        }
        phase := AwaitCancel;
      } else if phase == AwaitCancel {
        if cancel.Some? && cancel.value.value.Rejected? {
          errors := errors + [cancel.value.value.e];
        }
        phase := AwaitStage;
      } else {
        Enter(0);
      }
    }

    method StepSettles(outcome: Outcome)
      requires phase.InStep?
      modifies this
      ensures View() == Apply(old(View()), cleanupSteps, Step.StepSettles(outcome))
    {
      if outcome.Rejected? {
        errors := errors + [outcome.e];
      }
      results := results + [outcome];
      assert errors == old(errors) + ErrorsOf(outcome);
      Enter(phase.i + 1);
    }
  }
}
