/**
 * A startup that runs beside the lifecycle it starts: its stages are stages of the lifecycle, its
 * failure joins the shutdown of the lifecycle, and signals may shut it down at any moment.
 */
module ServerStartup {
  import opened Prelude

  import opened ServerLifecycle

  /** Where `runServerStartup` stands: at the await of a stage, at the await of the shutdown, or over. */
  datatype Progress = NotCalled | InStage(k: nat, id: nat) | Joining(reported: Error) | Over(result: Startup)

  /** `began` says whether the startup was called during a shutdown; `returned` are the stages that ended. */
  datatype World = World(life: State, progress: Progress, began: bool, returned: seq<StageRun>)

  /** The first shutdown may be the startup's own; then the moves say what it meets. */
  datatype Move =
    | Other(step: Step)
    | Call(ingress: Option<Outcome>, cancel: Option<Outcome>)
    | StageReturns(ingress: Option<Outcome>, cancel: Option<Outcome>)
    | ShutdownEnds

  const INITIAL_WORLD := World(INITIAL, NotCalled, false, [])

  /** The startup resumes when its stage has settled and the lifecycle has forgotten it. */
  predicate EnabledMove(w: World, move: Move) {
    match move
    case Other(step) => Enabled(w.life, step)
    case Call(_, _) => w.progress.NotCalled?
    case StageReturns(_, _) =>
      && w.progress.InStage? && w.progress.id < |w.life.stages|
      && w.life.stages[w.progress.id].settled.Some? && w.life.active != Some(w.progress.id)
    case ShutdownEnds => w.progress.Joining? && w.life.phase.Done?
  }

  function Thrown(w: World, e: Error, ingress: Option<Outcome>, cancel: Option<Outcome>): World {
    w.(life := ApplyShutdown(w.life, ingress, cancel), progress := Joining(Reported(w.life.shuttingDown, e)))
  }

  /** `stages` says of each startup stage whether it can be cancelled. */
  function EnterStage(w: World, stages: seq<bool>, k: nat, ingress: Option<Outcome>, cancel: Option<Outcome>): World
    requires k <= |stages|
  {
    if k == |stages| then w.(progress := Over(Started))
    else if w.life.shuttingDown then Thrown(w, Interrupted, ingress, cancel)
    else w.(life := ApplyRunStage(w.life, stages[k]), progress := InStage(k, |w.life.stages|))
  }

  function ApplyStageReturns(w: World, stages: seq<bool>, ingress: Option<Outcome>, cancel: Option<Outcome>): World
    requires EnabledMove(w, StageReturns(ingress, cancel))
  {
    var outcome := w.life.stages[w.progress.id].settled.value;
    var next := w.(returned := w.returned + [StageRun(outcome, w.life.shuttingDown)]);
    if outcome.Rejected? then Thrown(next, outcome.e, ingress, cancel)
    else if w.life.shuttingDown then Thrown(next, Interrupted, ingress, cancel)
    else if w.progress.k < |stages| then EnterStage(next, stages, w.progress.k + 1, ingress, cancel)
    else next
  }

  /** `n` is the number of clean-up steps. */
  function ApplyMove(w: World, stages: seq<bool>, n: nat, move: Move): World
    requires EnabledMove(w, move)
  {
    match move
    case Other(step) => w.(life := Apply(w.life, n, step))
    case Call(ingress, cancel) => EnterStage(w.(began := w.life.shuttingDown), stages, 0, ingress, cancel)
    case StageReturns(ingress, cancel) => ApplyStageReturns(w, stages, ingress, cancel)
    case ShutdownEnds => w.(progress := Over(EndStartup(w.progress.reported, w.life.phase.outcome)))
  }

  ghost predicate Follows(worlds: seq<World>, moves: seq<Move>, stages: seq<bool>, n: nat, i: int)
    requires |worlds| == |moves| + 1 && 0 <= i < |moves|
  {
    EnabledMove(worlds[i], moves[i]) && worlds[i + 1] == ApplyMove(worlds[i], stages, n, moves[i])
  }

  ghost predicate IsStartupRun(worlds: seq<World>, moves: seq<Move>, stages: seq<bool>, n: nat) {
    && |worlds| == |moves| + 1 && worlds[0] == INITIAL_WORLD
    && forall i | 0 <= i < |moves| :: Follows(worlds, moves, stages, n, i)
  }

  // ---- invariants ----

  predicate Clean(run: StageRun) {
    run.outcome.Fulfilled? && !run.shutdownBegan
  }

  ghost predicate AllClean(runs: seq<StageRun>) {
    forall i | 0 <= i < |runs| :: Clean(runs[i])
  }

  /** The startup was stopped, and this is what it reports. */
  ghost predicate Stopped(w: World, stages: seq<bool>, reported: Error) {
    if w.began then w.returned == [] && |stages| > 0 && reported == Interrupted
    else
      && 0 < |w.returned| <= |stages|
      && var last := w.returned[|w.returned| - 1];
         && AllClean(w.returned[..|w.returned| - 1]) && !Clean(last)
         && reported == if last.shutdownBegan then Interrupted else last.outcome.e
  }

  ghost predicate ProgressInv(w: World, stages: seq<bool>) {
    match w.progress
    case NotCalled => w.returned == []
    case InStage(k, id) => !w.began && |w.returned| == k < |stages| && AllClean(w.returned)
    case Joining(reported) => w.life.shuttingDown && Stopped(w, stages, reported)
    case Over(result) =>
      if result.Started? then |stages| == 0 == |w.returned| || (!w.began && |w.returned| == |stages| && AllClean(w.returned))
      else
        && w.life.phase.Done?
        && exists reported :: Stopped(w, stages, reported) && result == EndStartup(reported, w.life.phase.outcome)
  }

  ghost predicate WorldInv(w: World, stages: seq<bool>, n: nat) {
    Inv(w.life, n) && ProgressInv(w, stages)
  }

  lemma ThrownInv(w: World, stages: seq<bool>, n: nat, e: Error, ingress: Option<Outcome>, cancel: Option<Outcome>)
    requires Inv(w.life, n) && Stopped(w, stages, Reported(w.life.shuttingDown, e))
    ensures WorldInv(Thrown(w, e, ingress, cancel), stages, n)
  {
    InvWaits(w.life, n, Step.Shutdown(ingress, cancel));
  }

  lemma EnterInv(w: World, stages: seq<bool>, n: nat, k: nat, ingress: Option<Outcome>, cancel: Option<Outcome>)
    requires Inv(w.life, n) && |w.returned| == k <= |stages| && AllClean(w.returned)
    requires w.began ==> w.returned == []
    requires w.life.shuttingDown == w.began
    ensures WorldInv(EnterStage(w, stages, k, ingress, cancel), stages, n)
  {
    if k == |stages| {
    } else if w.life.shuttingDown {
      ThrownInv(w, stages, n, Interrupted, ingress, cancel);
    } else {
      InvStages(w.life, n, Step.RunStage(stages[k]));
    }
  }

  lemma ReturnsInv(w: World, stages: seq<bool>, n: nat, ingress: Option<Outcome>, cancel: Option<Outcome>)
    requires WorldInv(w, stages, n) && EnabledMove(w, StageReturns(ingress, cancel))
    ensures WorldInv(ApplyStageReturns(w, stages, ingress, cancel), stages, n)
  {
    var outcome := w.life.stages[w.progress.id].settled.value;
    var run := StageRun(outcome, w.life.shuttingDown);
    var next := w.(returned := w.returned + [run]);
    assert next.returned[..|next.returned| - 1] == w.returned;
    if outcome.Rejected? {
      ThrownInv(next, stages, n, outcome.e, ingress, cancel);
    } else if w.life.shuttingDown {
      ThrownInv(next, stages, n, Interrupted, ingress, cancel);
    } else {
      EnterInv(next, stages, n, w.progress.k + 1, ingress, cancel);
    }
  }

  /** A finished clean-up stays finished, and a shutdown that has begun stays begun. */
  lemma OtherInv(w: World, stages: seq<bool>, n: nat, step: Step)
    requires WorldInv(w, stages, n) && Enabled(w.life, step)
    ensures WorldInv(w.(life := Apply(w.life, n, step)), stages, n)
  {
    InvStep(w.life, n, step);
    var life := Apply(w.life, n, step);
    assert w.life.shuttingDown ==> life.shuttingDown;
    assert w.life.phase.Done? ==> life.phase == w.life.phase;
    if w.progress.Over? && !w.progress.result.Started? {
      var reported :| Stopped(w, stages, reported) && w.progress.result == EndStartup(reported, w.life.phase.outcome);
      assert Stopped(w.(life := life), stages, reported);
    }
  }

  lemma MoveInv(w: World, stages: seq<bool>, n: nat, move: Move)
    requires WorldInv(w, stages, n) && EnabledMove(w, move)
    ensures WorldInv(ApplyMove(w, stages, n, move), stages, n)
  {
    match move
    case Other(step) => OtherInv(w, stages, n, step);
    case Call(ingress, cancel) => EnterInv(w.(began := w.life.shuttingDown), stages, n, 0, ingress, cancel);
    case StageReturns(ingress, cancel) => ReturnsInv(w, stages, n, ingress, cancel);
    case ShutdownEnds =>
      assert Stopped(w.(progress := Over(EndStartup(w.progress.reported, w.life.phase.outcome))), stages, w.progress.reported);
  }

  lemma {:induction false} RunInv(worlds: seq<World>, moves: seq<Move>, stages: seq<bool>, n: nat, i: nat)
    requires IsStartupRun(worlds, moves, stages, n) && i < |worlds|
    ensures WorldInv(worlds[i], stages, n)
    decreases i
  {
    if i == 0 {
    } else {
      RunInv(worlds, moves, stages, n, i - 1);
      assert Follows(worlds, moves, stages, n, i - 1);
      MoveInv(worlds[i - 1], stages, n, moves[i - 1]);
    }
  }

  // ---- main results ----

  lemma {:induction false} StopsAfter(runs: seq<StageRun>, returned: seq<StageRun>)
    requires returned != [] && returned <= runs
    requires AllClean(returned[..|returned| - 1]) && !Clean(returned[|returned| - 1])
    ensures StopIndex(runs) == |returned| - 1 && runs[|returned| - 1] == returned[|returned| - 1]
  {
    forall i | 0 <= i < |returned| - 1 ensures Clean(runs[i]) {
      assert returned[..|returned| - 1][i] == runs[i];
    }
    StopIndexIs(runs, |returned| - 1);
  }

  /**
   * Main result: a startup that is over ended exactly as the loop over its stages says, whatever
   * the stages that did not run would have done.
   */
  lemma StartupExactly(worlds: seq<World>, moves: seq<Move>, stages: seq<bool>, n: nat, i: nat, runs: seq<StageRun>)
    requires IsStartupRun(worlds, moves, stages, n) && i < |worlds| && worlds[i].progress.Over?
    requires |runs| == |stages| && worlds[i].returned <= runs
    ensures var w := worlds[i];
      exists shutdown :: StartupSays(w.began, runs, shutdown, w.progress.result, |w.returned|)
        && (!w.progress.result.Started? ==> w.life.phase == Done(shutdown))
  {
    RunInv(worlds, moves, stages, n, i);
    var w := worlds[i];
    if w.progress.result.Started? {
      if |stages| > 0 {
        assert w.returned == runs;
        StopIndexIs(runs, |runs|);
      }
      assert StartupSays(w.began, runs, Fulfilled, w.progress.result, |w.returned|);
    } else {
      if !w.began {
        StopsAfter(runs, w.returned);
      }
      assert StartupSays(w.began, runs, w.life.phase.outcome, w.progress.result, |w.returned|);
    }
  }

  /**
   * Main result: a startup that failed has joined a clean-up that is complete: every step ran, and
   * what the startup throws carries the classified failures of all of it.
   */
  lemma FailedStartupCleansUp(worlds: seq<World>, moves: seq<Move>, stages: seq<bool>, n: nat, i: nat)
    requires IsStartupRun(worlds, moves, stages, n) && i < |worlds|
    requires worlds[i].progress.Over? && !worlds[i].progress.result.Started?
    ensures var w := worlds[i];
      && Prepared(w.life) && w.life.started == FirstN(n) && |w.life.results| == n
      && exists reported :: w.progress.result
           == EndStartup(reported, Classify(AllErrors(w.life.ingress.value, CancelOutcome(w.life), w.life.results)))
  {
    RunInv(worlds, moves, stages, n, i);
    var w := worlds[i];
    var reported :| Stopped(w, stages, reported) && w.progress.result == EndStartup(reported, w.life.phase.outcome);
  }

  /**
   * The errors behind the reported one are all failures of the clean-up in order, except that a
   * single failure which is itself a clean-up error is taken apart.
   */
  lemma ErrorsListed(reported: Error, errors: seq<Error>)
    ensures errors == [] ==> EndStartup(reported, Classify(errors)) == Failed(reported)
    ensures errors != [] ==>
      (EndStartup(reported, Classify(errors)) == FailedTwice([reported] + errors) <==> |errors| > 1 || !errors[0].Cleanup?)
  {
    if |errors| == 1 && errors[0].Cleanup? {
      assert errors[0].errors != [errors[0]] by {
        if errors[0].errors == [errors[0]] {
          NotItsOwnPart(errors[0]);
        }
      }
      assert ([reported] + errors[0].errors)[1..] == errors[0].errors;
      assert ([reported] + errors)[1..] == errors;
    }
  }

  lemma NotItsOwnPart(e: Error)
    requires e.Cleanup?
    ensures e !in e.errors
  {
  }
}
