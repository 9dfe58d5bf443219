/**
  Histories in which each session is run by the sequential or by the parallel runner
  (src/kitt/campaign/runner.py and parallel_runner.py over one state file).
*/
module MixedHistory {
  import opened Basics
  import opened CampaignState
  import opened Planning
  import opened CampaignSession
  import opened CrashResume
  import opened CampaignTheorems
  import opened ParallelRunner

  /** One process lifetime of either runner, and how many steps it gets through. */
  datatype Life =
    | Sequential(session: Session)
    | Pipelined(config: Config, world: World, late: RunSpec -> bool, cut: nat)
  {
    function Settings(): Config { if Sequential? then session.config else config }

    function Surroundings(): World { if Sequential? then session.world else world }
  }

  function LifeSteps(x: Life, file: Option<Snapshot>): seq<Step> {
    match x
    case Sequential(s) => Trace(s, file)
    case Pipelined(c, w, late, cut) => Take(PipeSteps(c, w, late, file), cut)
  }

  /** The session came to its end: it neither crashed nor lost a wait for a prefetch to a timeout. */
  predicate Ended(x: Life, file: Option<Snapshot>) {
    match x
    case Sequential(s) => !Crashed(s, file)
    case Pipelined(c, w, late, cut) => cut >= |PipeSteps(c, w, late, file)| && !AnyLate(late, SessionTodo(c, w, file))
  }

  function Lives(xs: seq<Life>, file: Option<Snapshot>): seq<Step> {
    if xs == [] then []
    else LifeSteps(xs[0], file) + Lives(xs[1..], FileAfter(file, LifeSteps(xs[0], file)))
  }

  /** The sessions that did not come to their end. */
  function Unended(xs: seq<Life>, file: Option<Snapshot>): nat {
    if xs == [] then 0
    else (if Ended(xs[0], file) then 0 else 1) + Unended(xs[1..], FileAfter(file, LifeSteps(xs[0], file)))
  }

  ghost predicate LifePlansDistinct(xs: seq<Life>) {
    forall x :: x in xs ==> Distinct(SpecKeys(FullPlan(x.Settings(), x.Surroundings())))
  }

  // ----- each life as a sequential session -----

  /** The sequential session that does the same, up to traffic with the pool. */
  function AsSession(x: Life, file: Option<Snapshot>): Session {
    match x
    case Sequential(s) => s
    case Pipelined(c, w, late, cut) => Session(c, w, |Main(LifeSteps(x, file))|)
  }

  function AsSessions(xs: seq<Life>, file: Option<Snapshot>): seq<Session> {
    if xs == [] then []
    else [AsSession(xs[0], file)] + AsSessions(xs[1..], FileAfter(file, LifeSteps(xs[0], file)))
  }

  lemma {:induction false} MainHasNoPool(steps: seq<Step>)
    ensures NoPool(Main(steps))
  {
    if steps != [] {
      MainHasNoPool(steps[1..]);
    }
  }

  lemma SessionHasNoPool(c: Config, w: World, file: Option<Snapshot>)
    ensures NoPool(SessionSteps(c, w, file))
  {
    hide SessionSteps, SessionTodo, PipeSteps, Main, NoPool;
    PipelineRefinesSequential(c, w, _ => false, file);
    MainHasNoPool(PipeSteps(c, w, _ => false, file));
  }

  lemma TraceIsMain(s: Session, file: Option<Snapshot>)
    ensures Main(Trace(s, file)) == Trace(s, file)
  {
    hide SessionSteps, Main;
    SessionHasNoPool(s.config, s.world, file);
    MainOfNoPool(Trace(s, file));
  }

  /** In the state file and in its starts, a life is a sequential session, and it ends when that session does. */
  lemma LifeIsSession(x: Life, file: Option<Snapshot>)
    ensures Main(LifeSteps(x, file)) == Trace(AsSession(x, file), file)
    ensures FileAfter(file, LifeSteps(x, file)) == FileAfter(file, Trace(AsSession(x, file), file))
    ensures Ended(x, file) <==> !Crashed(AsSession(x, file), file)
  {
    hide SessionSteps, PipeSteps, Main, FileAfter, SessionTodo, AnyLate;
    match x
    case Sequential(s) => TraceIsMain(s, file);
    case Pipelined(c, w, late, cut) =>
      var prog := PipeSteps(c, w, late, file);
      var n := Min(cut, |prog|);
      assert LifeSteps(x, file) == prog[..n];
      CrashedPipelineIsCrashedSession(c, w, late, file, n);
      LastStepCounts(c, w, late, file, n);
  }

  /** The main thread's work is complete exactly when the whole program has run, without a timeout. */
  lemma LastStepCounts(c: Config, w: World, late: RunSpec -> bool, file: Option<Snapshot>, n: nat)
    requires n <= |PipeSteps(c, w, late, file)|
    ensures var prog := PipeSteps(c, w, late, file);
      n == |prog| && !AnyLate(late, SessionTodo(c, w, file)) <==> |Main(prog[..n])| >= |SessionSteps(c, w, file)|
  {
    hide SessionSteps, PipeSteps, Main, SessionTodo, AnyLate;
    var prog := PipeSteps(c, w, late, file);
    PipelineRefinesSequential(c, w, late, file);
    assert prog == prog[..n] + prog[n..] && prog[..|prog|] == prog;
    MainConcat(prog[..n], prog[n..]);
    if n < |prog| && !AnyLate(late, SessionTodo(c, w, file)) {
      EndsWithSave(c, w, late, file);
      var last := prog[|prog| - 1];
      assert prog[n..] == prog[n..|prog| - 1] + [last];
      MainConcat(prog[n..|prog| - 1], [last]);
      MainOfOne(last);
    }
  }

  lemma EndsWithSave(c: Config, w: World, late: RunSpec -> bool, file: Option<Snapshot>)
    requires !AnyLate(late, SessionTodo(c, w, file))
    ensures var prog := PipeSteps(c, w, late, file); prog != [] && prog[|prog| - 1].Saved?
  {
    hide SessionTodo, OpenSteps, PipeLoop, AtLoop, FinalRuns, AnyLate, SubmitStep;
  }

  lemma MainOfOne(step: Step)
    ensures step.Saved? || step.Attempt? ==> Main([step]) == [step]
  {
    assert [step][1..] == [] && Main([]) == [];
  }

  /** A whole mixed history, likewise. */
  lemma {:induction false} LivesAreSessions(xs: seq<Life>, file: Option<Snapshot>)
    ensures Main(Lives(xs, file)) == History(AsSessions(xs, file), file)
    ensures Unended(xs, file) == Crashes(AsSessions(xs, file), file)
    ensures LifePlansDistinct(xs) ==> PlansDistinct(AsSessions(xs, file))
    decreases |xs|
  {
    hide LifeSteps, AsSession, Trace, FileAfter, FullPlan, Main, Ended, Crashed, Distinct;
    if xs == [] {
      NoMain();
    } else {
      var first := LifeSteps(xs[0], file);
      var mid := FileAfter(file, first);
      LifeIsSession(xs[0], file);
      LivesAreSessions(xs[1..], mid);
      MainConcat(first, Lives(xs[1..], mid));
      assert AsSessions(xs, file)[1..] == AsSessions(xs[1..], mid);
      SameSettings(xs[0], file);
    }
  }

  lemma NoMain()
    ensures Main([]) == []
  {
  }

  lemma SameSettings(x: Life, file: Option<Snapshot>)
    ensures AsSession(x, file).config == x.Settings() && AsSession(x, file).world == x.Surroundings()
  {
  }

  // ----- the theorems over mixed histories -----

  /** A moment of a mixed history is a moment of the sequential one. */
  lemma MomentInMain(file: Option<Snapshot>, steps: seq<Step>, i: nat) returns (k: nat)
    requires i <= |steps|
    ensures k == |Main(steps[..i])| <= |Main(steps)| && Main(steps)[..k] == Main(steps[..i])
    ensures FileAfter(file, Main(steps)[..k]) == FileAfter(file, steps[..i])
    ensures i < |steps| && steps[i].Attempt? ==> k < |Main(steps)| && Main(steps)[k] == steps[i]
  {
    hide Main, FileAfter;
    k := |Main(steps[..i])|;
    assert steps == steps[..i] + steps[i..];
    MainConcat(steps[..i], steps[i..]);
    MainKeepsFile(file, steps[..i]);
    if i < |steps| && steps[i].Attempt? {
      assert steps[i..] == [steps[i]] + steps[i + 1..];
      MainConcat([steps[i]], steps[i + 1..]);
      MainOfOne(steps[i]);
    }
  }

  lemma EarlierInMain(steps: seq<Step>, i: nat, j: nat)
    requires i <= j <= |steps|
    ensures |Main(steps[..i])| <= |Main(steps[..j])|
  {
    hide Main;
    assert steps[..j] == steps[..i] + steps[i..j];
    MainConcat(steps[..i], steps[i..j]);
  }

  /**
    Whichever runner each session uses: once a run's terminal status is in the state
    file (after step i), it is never started again (step j).
  */
  lemma FinishedStaysFinished(xs: seq<Life>, file: Option<Snapshot>, i: nat, j: nat)
    requires LifePlansDistinct(xs)
    requires i <= j < |Lives(xs, file)| && Lives(xs, file)[j].Attempt?
    ensures Lives(xs, file)[j].key !in Finished(FileAfter(file, Lives(xs, file)[..i]))
  {
    hide Lives, History, AsSessions, Finished, FileAfter, LifePlansDistinct, PlansDistinct, Main;
    var h := Lives(xs, file);
    LivesAreSessions(xs, file);
    var k := MomentInMain(file, h, i);
    var n := MomentInMain(file, h, j);
    EarlierInMain(h, i, j);
    FinishedNeverRestarted(AsSessions(xs, file), file, k, n);
  }

  lemma {:induction false} AttemptsOfMain(steps: seq<Step>)
    ensures AttemptKeys(Main(steps)) == AttemptKeys(steps)
  {
    if steps != [] {
      var first := if steps[0].Submit? || steps[0].Await? then [] else [steps[0]];
      AttemptsOfMain(steps[1..]);
      assert Main(steps) == first + Main(steps[1..]);
      AttemptsConcat(first, Main(steps[1..]));
      assert first != [] ==> first[1..] == [];
    }
  }

  /** Whichever runner each session uses: each session that did not end costs at most one start for nothing. */
  lemma StartsBoundedByUnended(xs: seq<Life>, file: Option<Snapshot>)
    requires LifePlansDistinct(xs)
    ensures |AttemptKeys(Lives(xs, file))| + |Finished(file)|
            <= |Finished(FileAfter(file, Lives(xs, file)))| + Unended(xs, file)
  {
    hide Lives, History, AsSessions, Finished, FileAfter, LifePlansDistinct, PlansDistinct, Main, AttemptKeys;
    LivesAreSessions(xs, file);
    MainKeepsFile(file, Lives(xs, file));
    AttemptsOfMain(Lives(xs, file));
    StartsBoundedByCrashes(AsSessions(xs, file), file);
  }
}
