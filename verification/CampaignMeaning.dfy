/**
  What a campaign session's state and result say, in terms of the plan, the entries it
  finds and the world's answers (src/kitt/campaign/runner.py).
*/
module CampaignMeaning {
  import opened Basics
  import opened CampaignState
  import opened Planning
  import opened CampaignSession
  import opened CrashResume
  import opened CampaignTheorems
  import opened ParallelRunner
  import opened Picking

  // ----- registration and filtering -----

  predicate KeyAmong(runs: seq<RunState>, key: string) {
    exists i :: 0 <= i < |runs| && runs[i].Key() == key
  }

  /** A planned run whose key no entry has gets a pending entry. */
  function FreshEntry(runs: seq<RunState>): RunSpec -> Option<RunState> {
    (spec: RunSpec) =>
      if KeyAmong(runs, spec.Key()) then None
      else Some(RunState(spec.modelName, spec.engineName, spec.quant, Pending, 0.0, "", ""))
  }

  lemma KeySetIs(runs: seq<RunState>, key: string)
    ensures key in KeySet(runs) <==> KeyAmong(runs, key)
  {
    if KeyAmong(runs, key) {
      var i :| 0 <= i < |runs| && runs[i].Key() == key;
      assert runs[i] in runs;
    }
  }

  lemma {:induction false} NewEntriesPicked(runs: seq<RunState>, plan: seq<RunSpec>)
    ensures Picked(plan, FreshEntry(runs), NewEntries(KeySet(runs), plan))
  {
    hide Picked, KeySet, KeyAmong, JoinKey;
    var pick := FreshEntry(runs);
    if plan == [] {
      PickedNone(pick);
    } else {
      var front, last := plan[..|plan| - 1], plan[|plan| - 1];
      NewEntriesPicked(runs, front);
      PickedSnoc(front, pick, NewEntries(KeySet(runs), front), last);
      KeySetIs(runs, last.Key());
      assert plan == front + [last];
      assert NewEntries(KeySet(runs), plan) == NewEntries(KeySet(runs), front) + One(pick(last));
    }
  }

  /** Registering keeps the entries and adds, in plan order, a pending one for each planned key not among them. */
  lemma RegisteredExactly(runs: seq<RunState>, plan: seq<RunSpec>)
    ensures var after := Registered(runs, plan);
      && |after| >= |runs| && after[..|runs|] == runs
      && Picked(plan, FreshEntry(runs), after[|runs|..])
  {
    hide Picked, FreshEntry, NewEntries;
    NewEntriesPicked(runs, plan);
  }

  /** Some entry with the key has come to an end. */
  predicate Ended(runs: seq<RunState>, key: string) {
    exists i :: 0 <= i < |runs| && runs[i].Key() == key && runs[i].status in {Success, Failed, Skipped}
  }

  lemma DoneExactly(runs: seq<RunState>, key: string)
    ensures key in DoneKeys(runs) <==> Ended(runs, key)
  {
    if Ended(runs, key) {
      var i :| 0 <= i < |runs| && runs[i].Key() == key && runs[i].status in {Success, Failed, Skipped};
      assert runs[i] in runs;
    }
  }

  function StillToDo(runs: seq<RunState>): RunSpec -> Option<RunSpec> {
    (spec: RunSpec) => if Ended(runs, spec.Key()) then None else Some(spec)
  }

  /** A session runs, in plan order, exactly the planned runs without an entry that succeeded, failed or was skipped. */
  lemma {:induction false} RemainingExactly(runs: seq<RunState>, plan: seq<RunSpec>)
    ensures Picked(plan, StillToDo(runs), Remaining(DoneKeys(runs), plan))
  {
    hide Picked, DoneKeys, Ended, JoinKey;
    var pick := StillToDo(runs);
    if plan == [] {
      PickedNone(pick);
    } else {
      var front, last := plan[..|plan| - 1], plan[|plan| - 1];
      RemainingExactly(runs, front);
      PickedSnoc(front, pick, Remaining(DoneKeys(runs), front), last);
      DoneExactly(runs, last.Key());
      assert plan == front + [last];
      assert Remaining(DoneKeys(runs), plan) == Remaining(DoneKeys(runs), front) + One(pick(last));
    }
  }

  /** Both together, for the state file that a session finds: interrupted and pending runs are done again. */
  lemma TodoExactly(c: Config, w: World, file: Option<Snapshot>)
    ensures var runs := if file.Some? then file.value.runs else [];
      Picked(FullPlan(c, w), StillToDo(runs), SessionTodo(c, w, file))
  {
    hide Picked, StillToDo, Remaining, DoneKeys, FullPlan, Registered;
    RemainingExactly(Opening(file).runs, FullPlan(c, w));
    RegisteredDone(Opening(file).runs, FullPlan(c, w));
  }

  // ----- results and counters -----

  ghost predicate IsSkipped(c: Config, w: World, spec: RunSpec) {
    TooLarge(c, spec) || NoRoom(c, w, spec) || Closed(c, w, spec)
  }

  /** A dry run, or a benchmark that was given a path and returned. */
  ghost predicate Succeeds(c: Config, w: World, spec: RunSpec) {
    !IsSkipped(c, w, spec) && (c.dryRun || exists path :: HasPath(w, spec, path) && w.benchmark(spec, path).Ok?)
  }

  ghost predicate Fails(c: Config, w: World, spec: RunSpec) {
    !IsSkipped(c, w, spec) && !c.dryRun && !exists path :: HasPath(w, spec, path) && w.benchmark(spec, path).Ok?
  }

  lemma StatusExactly(c: Config, w: World, spec: RunSpec, r: RunResult)
    requires RecordEnds(c, w, spec, r)
    ensures r.status == Success <==> Succeeds(c, w, spec)
    ensures r.status == Failed <==> Fails(c, w, spec)
    ensures r.status == Skipped <==> IsSkipped(c, w, spec)
  {
    hide TooLarge, NoRoom, Closed, HasPath;
    if !IsSkipped(c, w, spec) && !c.dryRun {
      if path :| HasPath(w, spec, path) {
        forall other | HasPath(w, spec, other)
          ensures other == path
        {
          OnePath(w, spec, path, other);
        }
      }
    }
  }

  lemma OnePath(w: World, spec: RunSpec, a: string, b: string)
    requires HasPath(w, spec, a) && HasPath(w, spec, b)
    ensures a == b
  {
  }

  lemma {:induction false} CountResultsSnoc(front: seq<RunResult>, last: RunResult, s: Status)
    ensures CountResults(front + [last], s) == CountResults(front, s) + (if last.status == s then 1 else 0)
  {
    var all := front + [last];
    if front != [] {
      assert all[1..] == front[1..] + [last];
      CountResultsSnoc(front[1..], last, s);
    }
  }

  lemma {:induction false} CountResultsIs(runs: seq<RunResult>, s: Status)
    ensures CountResults(runs, s) == |set i | 0 <= i < |runs| && runs[i].status == s|
  {
    CountResultsIsTally(runs, s);
    TallyIs(runs, (r: RunResult) => r.status == s);
    assert (set i | 0 <= i < |runs| && runs[i].status == s) == Holding(runs, (r: RunResult) => r.status == s);
  }

  lemma {:induction false} CountResultsIsTally(runs: seq<RunResult>, s: Status)
    ensures CountResults(runs, s) == Tally(runs, (r: RunResult) => r.status == s)
  {
    if runs != [] {
      var front, last := runs[..|runs| - 1], runs[|runs| - 1];
      CountResultsIsTally(front, s);
      CountResultsSnoc(front, last, s);
      assert runs == front + [last];
    }
  }

  lemma {:induction false} CountStatusSnoc(front: seq<RunState>, last: RunState, s: Status)
    ensures CountStatus(front + [last], s) == CountStatus(front, s) + (if last.status == s then 1 else 0)
  {
    var all := front + [last];
    if front != [] {
      assert all[1..] == front[1..] + [last];
      CountStatusSnoc(front[1..], last, s);
    }
  }

  lemma {:induction false} CountStatusIs(runs: seq<RunState>, s: Status)
    ensures CountStatus(runs, s) == |set i | 0 <= i < |runs| && runs[i].status == s|
  {
    CountStatusIsTally(runs, s);
    TallyIs(runs, (r: RunState) => r.status == s);
    assert (set i | 0 <= i < |runs| && runs[i].status == s) == Holding(runs, (r: RunState) => r.status == s);
  }

  lemma {:induction false} CountStatusIsTally(runs: seq<RunState>, s: Status)
    ensures CountStatus(runs, s) == Tally(runs, (r: RunState) => r.status == s)
  {
    if runs != [] {
      var front, last := runs[..|runs| - 1], runs[|runs| - 1];
      CountStatusIsTally(front, s);
      CountStatusSnoc(front, last, s);
      assert runs == front + [last];
    }
  }

  lemma CountedSet(c: Config, w: World, todo: seq<RunSpec>, results: seq<RunResult>)
    requires Reports(c, w, todo, results)
    ensures CountResults(results, Success) == |set i | 0 <= i < |todo| && Succeeds(c, w, todo[i])|
    ensures CountResults(results, Failed) == |set i | 0 <= i < |todo| && Fails(c, w, todo[i])|
    ensures CountResults(results, Skipped) == |set i | 0 <= i < |todo| && IsSkipped(c, w, todo[i])|
  {
    hide RecordEnds, Succeeds, Fails, IsSkipped, CountResults;
    forall i | 0 <= i < |todo|
      ensures results[i].status == Success <==> Succeeds(c, w, todo[i])
      ensures results[i].status == Failed <==> Fails(c, w, todo[i])
      ensures results[i].status == Skipped <==> IsSkipped(c, w, todo[i])
    {
      StatusExactly(c, w, todo[i], results[i]);
    }
    CountResultsIs(results, Success);
    CountResultsIs(results, Failed);
    CountResultsIs(results, Skipped);
    assert (set i | 0 <= i < |results| && results[i].status == Success)
           == set i | 0 <= i < |todo| && Succeeds(c, w, todo[i]);
    assert (set i | 0 <= i < |results| && results[i].status == Failed)
           == set i | 0 <= i < |todo| && Fails(c, w, todo[i]);
    assert (set i | 0 <= i < |results| && results[i].status == Skipped)
           == set i | 0 <= i < |todo| && IsSkipped(c, w, todo[i]);
  }

  /**
    What `run` returns: one record for each remaining run, and its counters count exactly
    the runs whose benchmark returned (or dry runs), those that failed, and those skipped.
  */
  lemma ResultsExactly(c: Config, w: World, todo: seq<RunSpec>, id: string)
    ensures var r := CampaignResult(id, LoopResults(c, w, todo));
      && Reports(c, w, todo, r.runs)
      && r.Succeeded() == |set i | 0 <= i < |todo| && Succeeds(c, w, todo[i])|
      && r.Failures() == |set i | 0 <= i < |todo| && Fails(c, w, todo[i])|
      && r.SkippedRuns() == |set i | 0 <= i < |todo| && IsSkipped(c, w, todo[i])|
  {
    hide Reports, LoopResults, Succeeds, Fails, IsSkipped, CountResults;
    ReportsSo(c, w, todo);
    CountedSet(c, w, todo, LoopResults(c, w, todo));
  }

  /** The state object's counters count the entries of each status. */
  lemma CountersExactly(state: CampaignState)
    ensures state.Succeeded() == |set i | 0 <= i < |state.runs| && state.runs[i].status == Success|
    ensures state.FailedCount() == |set i | 0 <= i < |state.runs| && state.runs[i].status == Failed|
    ensures state.SkippedCount() == |set i | 0 <= i < |state.runs| && state.runs[i].status == Skipped|
    ensures state.PendingCount() == |set i | 0 <= i < |state.runs| && state.runs[i].status == Pending|
  {
    hide CountStatus;
    CountStatusIs(state.runs, Success);
    CountStatusIs(state.runs, Failed);
    CountStatusIs(state.runs, Skipped);
    CountStatusIs(state.runs, Pending);
  }

  // ----- what a run does -----

  ghost predicate Tried(c: Config, w: World, spec: RunSpec) {
    !c.dryRun && !IsSkipped(c, w, spec)
  }

  /** The model that a benchmark needs in local storage, if any. */
  ghost predicate Needs(spec: RunSpec, needs: Option<Artifact>) {
    match needs
    case Some(a) => HasRepo(spec, a.repo) && a.pattern == spec.includePattern
    case None => forall repo :: !HasRepo(spec, repo)
  }

  ghost predicate CleansUp(c: Config, w: World, spec: RunSpec) {
    Fails(c, w, spec) || (c.cleanupAfterRun && !c.dryRun && Succeeds(c, w, spec))
  }

  /** The order of a run's steps; saving the state happens in between. */
  function Stage(s: Step): int {
    match s
    case Attempt(_) => 1
    case Fetch(_, _) => 2
    case Launch(_, _) => 3
    case Remove(_) => 4
    case _ => 0
  }

  /** Each step other than a save happens at most once, and before those of a later stage. */
  ghost predicate Staged(steps: seq<Step>) {
    forall i, j :: 0 <= i < j < |steps| && !steps[i].Saved? && !steps[j].Saved? ==> Stage(steps[i]) < Stage(steps[j])
  }

  /**
    A run fetches iff it is tried and has a repository; it starts its benchmark iff it is
    tried and has a path; it removes its repository iff it fails, or succeeds in a campaign
    that is no dry run and cleans up.
  */
  ghost predicate Does(c: Config, w: World, spec: RunSpec, steps: seq<Step>) {
    && (forall a, found :: Fetch(a, found) in steps <==>
          Tried(c, w, spec) && Needs(spec, Some(a)) && (found <==> exists path :: HasPath(w, spec, path)))
    && (forall key, needs :: Launch(key, needs) in steps <==>
          Tried(c, w, spec) && key == spec.Key() && Needs(spec, needs) && exists path :: HasPath(w, spec, path))
    && (forall repo :: Remove(repo) in steps <==> CleansUp(c, w, spec) && repo != "" && spec.repoId == Some(repo))
    && (forall key :: Attempt(key) in steps <==> key == spec.Key())
  }

  lemma SkippedIs(c: Config, w: World, spec: RunSpec)
    ensures SkipReason(c, w, spec).Some? <==> IsSkipped(c, w, spec)
  {
    hide TooLarge, NoRoom, Closed, SkipReason;
    SkipsExactly(c, w, spec);
  }

  lemma FoundIs(w: World, spec: RunSpec)
    ensures Found(DownloadResult(w, spec)) <==> exists path :: HasPath(w, spec, path)
  {
    var r := DownloadResult(w, spec);
    if Found(r) {
      assert HasPath(w, spec, r.value.value);
    }
  }

  lemma OutcomeIs(c: Config, w: World, spec: RunSpec)
    requires !IsSkipped(c, w, spec)
    ensures Outcome(c, w, spec).Ok? <==> Succeeds(c, w, spec)
    ensures Outcome(c, w, spec).Raised? <==> Fails(c, w, spec)
  {
    hide IsSkipped, HasPath, DownloadResult;
    if !c.dryRun {
      FoundIs(w, spec);
      var r := DownloadResult(w, spec);
      if Found(r) {
        PathIs(w, spec);
      }
    }
  }

  lemma PathIs(w: World, spec: RunSpec)
    requires Found(DownloadResult(w, spec))
    ensures forall path :: HasPath(w, spec, path) <==> path == DownloadResult(w, spec).value.value
  {
  }

  lemma NeedsIs(spec: RunSpec, needs: Option<Artifact>)
    ensures Needs(spec, needs) <==> needs == if Downloads(spec) then Some(ArtifactOf(spec)) else None
  {
    assert Downloads(spec) ==> HasRepo(spec, spec.repoId.value);
  }

  /** The steps of stage n: none, or one. */
  ghost predicate Part(steps: seq<Step>, n: int) {
    |steps| <= 1 && forall s :: s in steps ==> !s.Saved? && Stage(s) == n
  }

  lemma TriedInOrder(attempt: Step, running: Step, fetch: seq<Step>, launch: seq<Step>, early: seq<Step>, last: Step,
                     late: seq<Step>)
    requires attempt.Attempt? && running.Saved? && last.Saved? && Part(fetch, 2) && Part(launch, 3)
    requires Part(early, 4) && Part(late, 4) && (early == [] || late == [])
    ensures Staged([attempt, running] + (fetch + launch + early) + [last] + late)
  {
  }

  lemma RunInOrder(c: Config, w: World, spec: RunSpec, completed: bool, runs: seq<RunState>)
    ensures Staged(RunSteps(c, w, spec, completed, runs))
  {
    hide SkipReason, Outcome, UpdateFirst, FinalUpdate, JoinKey, DownloadResult, Downloads, ArtifactOf, Staged;
    var key, steps := spec.Key(), RunSteps(c, w, spec, completed, runs);
    if SkipReason(c, w, spec).Some? {
      TwoInOrder(steps);
    } else {
      var running := UpdateFirst(runs, key, RUNNING_UPDATE);
      var last := UpdateFirst(running, key, FinalUpdate(c, w, spec));
      var fetch, launch, early := FetchPart(c, w, spec), LaunchPart(c, w, spec), EarlyPart(c, w, spec);
      TriedInOrder(Attempt(key), Saved(Snapshot(completed, running)), fetch, launch, early,
                   Saved(Snapshot(completed, last)), LatePart(c, w, spec));
      assert WorkSteps(c, w, spec) == fetch + launch + early;
    }
  }

  lemma TwoInOrder(steps: seq<Step>)
    requires |steps| == 2 && steps[1].Saved?
    ensures Staged(steps)
  {
  }

  function FetchPart(c: Config, w: World, spec: RunSpec): seq<Step> {
    if c.dryRun then [] else DownloadSteps(w, spec)
  }

  function LaunchPart(c: Config, w: World, spec: RunSpec): seq<Step> {
    if c.dryRun || !Found(DownloadResult(w, spec)) then []
    else [Launch(spec.Key(), if Downloads(spec) then Some(ArtifactOf(spec)) else None)]
  }

  function EarlyPart(c: Config, w: World, spec: RunSpec): seq<Step> {
    if !c.dryRun && Outcome(c, w, spec).Ok? && c.cleanupAfterRun then RemoveSteps(spec) else []
  }

  function LatePart(c: Config, w: World, spec: RunSpec): seq<Step> {
    if Outcome(c, w, spec).Raised? then RemoveSteps(spec) else []
  }

  lemma StepsOfRun(c: Config, w: World, spec: RunSpec, completed: bool, runs: seq<RunState>, s: Step)
    requires !s.Saved?
    ensures s in RunSteps(c, w, spec, completed, runs) <==>
            s == Attempt(spec.Key())
            || (SkipReason(c, w, spec).None?
                && (s in FetchPart(c, w, spec) || s in LaunchPart(c, w, spec) || s in EarlyPart(c, w, spec)
                    || s in LatePart(c, w, spec)))
  {
    hide SkipReason, Outcome, UpdateFirst, FinalUpdate, JoinKey, DownloadResult, DownloadSteps, Downloads, ArtifactOf;
    hide RemoveSteps;
  }

  lemma FetchesWhat(c: Config, w: World, spec: RunSpec, a: Artifact, found: bool)
    ensures Fetch(a, found) in FetchPart(c, w, spec) <==>
            !c.dryRun && Needs(spec, Some(a)) && (found <==> exists path :: HasPath(w, spec, path))
  {
    hide HasPath;
    FoundIs(w, spec);
    NeedsIs(spec, Some(a));
  }

  lemma LaunchesWhat(c: Config, w: World, spec: RunSpec, key: string, needs: Option<Artifact>)
    ensures Launch(key, needs) in LaunchPart(c, w, spec) <==>
            !c.dryRun && key == spec.Key() && Needs(spec, needs) && exists path :: HasPath(w, spec, path)
  {
    hide HasPath, JoinKey, Needs, DownloadResult, Downloads, ArtifactOf;
    FoundIs(w, spec);
    NeedsIs(spec, needs);
  }

  lemma RemovesWhat(c: Config, w: World, spec: RunSpec, repo: string)
    requires !IsSkipped(c, w, spec)
    ensures Remove(repo) in EarlyPart(c, w, spec) || Remove(repo) in LatePart(c, w, spec) <==>
            CleansUp(c, w, spec) && repo != "" && spec.repoId == Some(repo)
  {
    hide IsSkipped, Outcome, Succeeds, Fails;
    OutcomeIs(c, w, spec);
  }

  lemma PartKinds(c: Config, w: World, spec: RunSpec)
    ensures forall s :: s in FetchPart(c, w, spec) ==> s.Fetch?
    ensures forall s :: s in LaunchPart(c, w, spec) ==> s.Launch?
    ensures forall s :: s in EarlyPart(c, w, spec) || s in LatePart(c, w, spec) ==> s.Remove?
  {
    hide Outcome, DownloadResult, Downloads, ArtifactOf, JoinKey;
  }

  lemma RunDoes(c: Config, w: World, spec: RunSpec, completed: bool, runs: seq<RunState>)
    ensures Does(c, w, spec, RunSteps(c, w, spec, completed, runs))
  {
    hide IsSkipped, CleansUp, HasPath, SkipReason, JoinKey, Needs, RunSteps, FetchPart, LaunchPart, EarlyPart, LatePart;
    var steps := RunSteps(c, w, spec, completed, runs);
    SkippedIs(c, w, spec);
    PartKinds(c, w, spec);
    forall s: Step | !s.Saved?
      ensures s in steps <==>
              s == Attempt(spec.Key())
              || (!IsSkipped(c, w, spec)
                  && (s in FetchPart(c, w, spec) || s in LaunchPart(c, w, spec) || s in EarlyPart(c, w, spec)
                      || s in LatePart(c, w, spec)))
    {
      StepsOfRun(c, w, spec, completed, runs, s);
    }
    forall a, found
      ensures Fetch(a, found) in steps <==>
              Tried(c, w, spec) && Needs(spec, Some(a)) && (found <==> exists path :: HasPath(w, spec, path))
    {
      FetchesWhat(c, w, spec, a, found);
    }
    forall key, needs
      ensures Launch(key, needs) in steps <==>
              Tried(c, w, spec) && key == spec.Key() && Needs(spec, needs) && exists path :: HasPath(w, spec, path)
    {
      LaunchesWhat(c, w, spec, key, needs);
    }
    forall repo
      ensures Remove(repo) in steps <==> CleansUp(c, w, spec) && repo != "" && spec.repoId == Some(repo)
    {
      SkippedKeeps(c, w, spec);
      if !IsSkipped(c, w, spec) {
        RemovesWhat(c, w, spec, repo);
      }
    }
  }

  /** A skipped run removes nothing. */
  lemma SkippedKeeps(c: Config, w: World, spec: RunSpec)
    ensures CleansUp(c, w, spec) ==> !IsSkipped(c, w, spec)
  {
    hide IsSkipped;
  }

  /** A prefetch brings exactly what its run will need, if the model is found. */
  lemma PrefetchBrings(w: World, spec: RunSpec, a: Artifact)
    ensures Brings(w, spec) == Some(a) <==> Needs(spec, Some(a)) && exists path :: HasPath(w, spec, path)
  {
    hide HasPath, Needs;
    FoundIs(w, spec);
    NeedsIs(spec, Some(a));
  }

  // ----- what the state file says while a benchmark runs -----

  /** The first entry with the key is marked as running. */
  ghost predicate MarkedRunning(file: Option<Snapshot>, key: string) {
    file.Some? && forall i :: 0 <= i < |file.value.runs| && IsFirst(file.value.runs, key, i) ==>
                   file.value.runs[i].status == Running
  }

  ghost predicate LaunchesMarked(file: Option<Snapshot>, steps: seq<Step>) {
    forall j :: 0 <= j < |steps| && steps[j].Launch? ==> MarkedRunning(FileAfter(file, steps[..j]), steps[j].key)
  }

  lemma MarkedConcat(file: Option<Snapshot>, a: seq<Step>, b: seq<Step>)
    requires LaunchesMarked(file, a) && LaunchesMarked(FileAfter(file, a), b)
    ensures LaunchesMarked(file, a + b)
  {
    hide MarkedRunning, FileAfter;
    var s := a + b;
    forall j | 0 <= j < |s| && s[j].Launch?
      ensures MarkedRunning(FileAfter(file, s[..j]), s[j].key)
    {
      MarkedInConcat(file, a, b, j);
    }
  }

  lemma MarkedInConcat(file: Option<Snapshot>, a: seq<Step>, b: seq<Step>, j: nat)
    requires LaunchesMarked(file, a) && LaunchesMarked(FileAfter(file, a), b)
    requires j < |a + b| && (a + b)[j].Launch?
    ensures MarkedRunning(FileAfter(file, (a + b)[..j]), (a + b)[j].key)
  {
    hide MarkedRunning, FileAfter, LaunchesMarked;
    if j < |a| {
      assert (a + b)[..j] == a[..j] && (a + b)[j] == a[j];
      MarkedAt(file, a, j);
    } else {
      SecondPart(file, a, b, j - |a|);
      MarkedAt(FileAfter(file, a), b, j - |a|);
    }
  }

  lemma MarkedAt(file: Option<Snapshot>, steps: seq<Step>, j: nat)
    requires LaunchesMarked(file, steps) && j < |steps| && steps[j].Launch?
    ensures MarkedRunning(FileAfter(file, steps[..j]), steps[j].key)
  {
    hide MarkedRunning, FileAfter;
  }

  lemma SecondPart(file: Option<Snapshot>, a: seq<Step>, b: seq<Step>, k: nat)
    requires k < |b|
    ensures FileAfter(file, (a + b)[..|a| + k]) == FileAfter(FileAfter(file, a), b[..k]) && (a + b)[|a| + k] == b[k]
  {
    hide FileAfter;
    assert (a + b)[..|a| + k] == a + b[..k];
    FileAfterConcat(file, a, b[..k]);
  }

  lemma NoLaunches(file: Option<Snapshot>, steps: seq<Step>)
    requires forall j :: 0 <= j < |steps| ==> !steps[j].Launch?
    ensures LaunchesMarked(file, steps)
  {
  }

  /** Download, launch and cleanup save nothing and launch only this run. */
  lemma WorkLaunchesItself(c: Config, w: World, spec: RunSpec)
    ensures var work := WorkSteps(c, w, spec);
      Quiet(work) && forall j :: 0 <= j < |work| && work[j].Launch? ==> work[j].key == spec.Key()
  {
    hide Outcome, JoinKey;
  }

  lemma WorkMarked(c: Config, w: World, spec: RunSpec, file: Option<Snapshot>)
    requires MarkedRunning(file, spec.Key())
    ensures LaunchesMarked(file, WorkSteps(c, w, spec))
  {
    hide WorkSteps, MarkedRunning, FileAfter, JoinKey;
    var work := WorkSteps(c, w, spec);
    WorkLaunchesItself(c, w, spec);
    forall j | 0 <= j < |work| && work[j].Launch?
      ensures MarkedRunning(FileAfter(file, work[..j]), work[j].key)
    {
      QuietSteps(file, work[..j]);
    }
  }

  lemma RunningMarks(completed: bool, runs: seq<RunState>, key: string)
    ensures MarkedRunning(Some(Snapshot(completed, UpdateFirst(runs, key, RUNNING_UPDATE))), key)
  {
    hide UpdateFirst, JoinKey;
    var after := UpdateFirst(runs, key, RUNNING_UPDATE);
    FirstEntryRewritten(runs, key, RUNNING_UPDATE);
    assert forall i :: 0 <= i < |runs| ==> after[i].Key() == runs[i].Key();
    assert forall i :: 0 <= i < |runs| && IsFirst(after, key, i) ==> IsFirst(runs, key, i);
  }

  lemma RunMarked(c: Config, w: World, spec: RunSpec, completed: bool, runs: seq<RunState>)
    ensures LaunchesMarked(Some(Snapshot(completed, runs)), RunSteps(c, w, spec, completed, runs))
  {
    hide WorkSteps, FinalUpdate, SkipReason, Outcome, RemoveSteps, UpdateFirst, LaunchesMarked, FileAfter;
    hide MarkedRunning, JoinKey;
    var file, key := Some(Snapshot(completed, runs)), spec.Key();
    RunSplit(c, w, spec, completed, runs);
    var head, tail := RunHead(c, w, spec, completed, runs), RunTail(c, w, spec, completed, runs);
    TailLaunchesNothing(c, w, spec, completed, runs);
    NoLaunches(FileAfter(file, head), tail);
    if SkipReason(c, w, spec).Some? {
      NoLaunches(file, head);
    } else {
      var mid := Snapshot(completed, UpdateFirst(runs, key, RUNNING_UPDATE));
      var opening := [Attempt(key), Saved(mid)];
      NoLaunches(file, opening);
      OpeningEffect(file, key, mid);
      RunningMarks(completed, runs, key);
      WorkMarked(c, w, spec, Some(mid));
      MarkedConcat(file, opening, WorkSteps(c, w, spec));
    }
    MarkedConcat(file, head, tail);
  }

  lemma TailLaunchesNothing(c: Config, w: World, spec: RunSpec, completed: bool, runs: seq<RunState>)
    ensures var tail := RunTail(c, w, spec, completed, runs); forall j :: 0 <= j < |tail| ==> !tail[j].Launch?
  {
    hide SkipReason, Outcome, RunAfter;
  }

  lemma {:induction false} LoopMarked(c: Config, w: World, rest: seq<RunSpec>, completed: bool, runs: seq<RunState>)
    ensures LaunchesMarked(Some(Snapshot(completed, runs)), LoopSteps(c, w, rest, completed, runs))
    decreases |rest|
  {
    hide RunSteps, RunAfter, LaunchesMarked, FileAfter;
    var file := Some(Snapshot(completed, runs));
    if rest == [] {
      NoLaunches(file, []);
    } else {
      var after := RunAfter(c, w, rest[0], runs);
      RunMarked(c, w, rest[0], completed, runs);
      RunLeaves(c, w, rest[0], completed, runs);
      LoopMarked(c, w, rest[1..], completed, after);
      MarkedConcat(file, RunSteps(c, w, rest[0], completed, runs), LoopSteps(c, w, rest[1..], completed, after));
    }
  }

  lemma RunLeaves(c: Config, w: World, spec: RunSpec, completed: bool, runs: seq<RunState>)
    ensures FileAfter(Some(Snapshot(completed, runs)), RunSteps(c, w, spec, completed, runs))
            == Some(Snapshot(completed, RunAfter(c, w, spec, runs)))
  {
    hide RunSteps, RunAfter, RunHead, RunTail, FileAfter;
    var file := Some(Snapshot(completed, runs));
    RunSplit(c, w, spec, completed, runs);
    TailEffect(c, w, spec, completed, runs, FileAfter(file, RunHead(c, w, spec, completed, runs)));
    FileAfterConcat(file, RunHead(c, w, spec, completed, runs), RunTail(c, w, spec, completed, runs));
  }

  lemma SessionMarked(c: Config, w: World, file: Option<Snapshot>)
    ensures LaunchesMarked(file, SessionSteps(c, w, file))
  {
    hide SessionSteps, LoopSteps, SessionTodo, OpenSteps, AtLoop, FinalRuns, LaunchesMarked, FileAfter, FullPlan;
    var a, b := OpenSteps(c, w, file), SessionLoop(c, w, file);
    var last := [Saved(Snapshot(true, FinalRuns(c, w, file)))];
    SessionSplit(c, w, file);
    OpenEffect(c, w, file);
    OpenLaunchesNothing(c, w, file);
    NoLaunches(file, a);
    LoopMarked(c, w, SessionTodo(c, w, file), AtLoop(c, w, file).completed, AtLoop(c, w, file).runs);
    MarkedConcat(file, a, b);
    NoLaunches(FileAfter(file, a + b), last);
    MarkedConcat(file, a + b, last);
  }

  lemma OpenLaunchesNothing(c: Config, w: World, file: Option<Snapshot>)
    ensures var steps := OpenSteps(c, w, file); forall j :: 0 <= j < |steps| ==> !steps[j].Launch?
  {
    hide FullPlan, Registered;
  }

  /** At every moment of every history at which a benchmark starts, the state file says that its run is running. */
  lemma {:induction false} LaunchedIsMarkedRunning(ss: seq<Session>, file: Option<Snapshot>, j: nat)
    requires j < |History(ss, file)| && History(ss, file)[j].Launch?
    ensures MarkedRunning(FileAfter(file, History(ss, file)[..j]), History(ss, file)[j].key)
  {
    hide MarkedRunning, FileAfter;
    HistoryMarked(ss, file);
  }

  lemma {:induction false} HistoryMarked(ss: seq<Session>, file: Option<Snapshot>)
    ensures LaunchesMarked(file, History(ss, file))
  {
    hide LaunchesMarked, FileAfter, Trace;
    if ss == [] {
      NoLaunches(file, []);
    } else {
      var first := Trace(ss[0], file);
      TraceMarked(ss[0], file);
      HistoryMarked(ss[1..], FileAfter(file, first));
      MarkedConcat(file, first, History(ss[1..], FileAfter(file, first)));
    }
  }

  lemma TraceMarked(s: Session, file: Option<Snapshot>)
    ensures LaunchesMarked(file, Trace(s, file))
  {
    hide SessionSteps, MarkedRunning, FileAfter;
    var steps, t := SessionSteps(s.config, s.world, file), Trace(s, file);
    SessionMarked(s.config, s.world, file);
    forall j | 0 <= j < |t| && t[j].Launch?
      ensures MarkedRunning(FileAfter(file, t[..j]), t[j].key)
    {
      assert t[..j] == steps[..j];
    }
  }
}
