/**
  The parallel campaign runner (src/kitt/campaign/parallel_runner.py): the next
  model is downloaded by a pool while the current benchmark runs.
*/
module ParallelRunner {
  import opened Basics
  import opened CampaignState
  import opened Planning
  import opened CampaignSession
  import opened CampaignRunner
  import opened CrashResume
  import opened CampaignTheorems

  /** What a prefetch leaves in local storage. */
  function Brings(w: World, spec: RunSpec): Option<Artifact> {
    if Downloads(spec) && Found(w.fetch(spec)) then Some(ArtifactOf(spec)) else None
  }

  /** The prefetch of the first of these runs; how many are left tells the futures apart. */
  function SubmitStep(w: World, rest: seq<RunSpec>): Step
    requires rest != []
  {
    Submit(|rest|, rest[0].Key(), Brings(w, rest[0]))
  }

  function AwaitStep(rest: seq<RunSpec>): Step
    requires rest != []
  {
    Await(|rest|, rest[0].Key())
  }

  /** One pass of the pipelined loop: await this run's prefetch, submit the next, execute. */
  function PassSteps(c: Config, w: World, rest: seq<RunSpec>, completed: bool, runs: seq<RunState>): seq<Step>
    requires rest != []
  {
    [AwaitStep(rest)] + (if |rest| > 1 then [SubmitStep(w, rest[1..])] else [])
    + RunSteps(c, w, rest[0], completed, runs)
  }

  /** The pipelined loop; a wait that times out raises and ends it. */
  function PipeLoop(c: Config, w: World, late: RunSpec -> bool, rest: seq<RunSpec>, completed: bool,
                    runs: seq<RunState>): seq<Step> {
    if rest == [] || late(rest[0]) then []
    else PassSteps(c, w, rest, completed, runs)
         + PipeLoop(c, w, late, rest[1..], completed, RunAfter(c, w, rest[0], runs))
  }

  predicate AnyLate(late: RunSpec -> bool, rest: seq<RunSpec>) {
    exists i :: 0 <= i < |rest| && late(rest[i])
  }

  lemma LateInRest(late: RunSpec -> bool, rest: seq<RunSpec>)
    ensures AnyLate(late, rest) <==> rest != [] && (late(rest[0]) || AnyLate(late, rest[1..]))
  {
    if rest != [] && AnyLate(late, rest[1..]) {
      var i :| 0 <= i < |rest[1..]| && late(rest[1..][i]);
      assert late(rest[i + 1]);
    }
    if AnyLate(late, rest) {
      var i :| 0 <= i < |rest| && late(rest[i]);
      assert i > 0 ==> late(rest[1..][i - 1]);
    }
  }

  /** Everything the main thread does in one session. */
  function PipeSteps(c: Config, w: World, late: RunSpec -> bool, file: Option<Snapshot>): seq<Step> {
    var todo, at := SessionTodo(c, w, file), AtLoop(c, w, file);
    OpenSteps(c, w, file)
    + (if todo == [] then [] else [SubmitStep(w, todo)])
    + PipeLoop(c, w, late, todo, at.completed, at.runs)
    + (if AnyLate(late, todo) then [] else [Saved(Snapshot(true, FinalRuns(c, w, file)))])
  }

  // ----- the runner -----

  class ParallelCampaignRunner {
    const runner: CampaignRunner
    const late: RunSpec -> bool                  // which waits for a prefetch time out
    var downloadCache: map<string, string>       // filled and popped, never read

    constructor (runner: CampaignRunner, late: RunSpec -> bool)
      ensures this.runner == runner && this.late == late && downloadCache == map[]
    {
      this.runner, this.late, this.downloadCache := runner, late, map[];
    }

    /** `_safe_download`: a failing download yields no path. */
    function SafeDownload(spec: RunSpec): Option<string> {
      match DownloadResult(runner.world, spec)
      case Ok(path) => path
      case Raised(_) => None
    }

    /** The body of the loop once the prefetch of rest[0] has been awaited in time. */
    method Pass(rest: seq<RunSpec>, state: CampaignState) returns (result: RunResult)
      requires rest != []
      modifies this, runner.manager, state
      ensures state.completed == old(state.completed)
      ensures state.runs == RunAfter(runner.config, runner.world, rest[0], old(state.runs))
      ensures runner.manager.files == old(runner.manager.files)[state.campaignId := state.View()]
      ensures runner.manager.log
              == old(runner.manager.log)
                + PassSteps(runner.config, runner.world, rest, state.completed, old(state.runs))
      ensures result == ResultOf(runner.config, runner.world, rest[0])
      ensures RecordEnds(runner.config, runner.world, rest[0], result)
      ensures StateEnds(runner.config, runner.world, rest[0], old(state.runs), state.runs)
      ensures downloadCache == old(downloadCache) - {rest[0].Key()}
    {
      hide RunSteps, RunAfter, ResultOf, AwaitStep, SubmitStep, JoinKey, DownloadResult, RecordEnds, StateEnds;
      runner.Record(AwaitStep(rest));
      var path := SafeDownload(rest[0]);
      if Truthy(path) {
        downloadCache := downloadCache[rest[0].Key() := path.value];
      }
      if |rest| > 1 {
        runner.Record(SubmitStep(runner.world, rest[1..]));
      }
      result := runner.ExecuteRun(rest[0], state);
      downloadCache := downloadCache - {rest[0].Key()};
    }

    /** The pipelined loop. The result is None when a wait timed out. */
    method ExecutePipelined(todo: seq<RunSpec>, state: CampaignState) returns (results: Option<seq<RunResult>>)
      modifies this, runner.manager, state
      ensures state.completed == old(state.completed)
      ensures results.None? <==> AnyLate(late, todo)
      ensures results.Some? ==> results.value == LoopResults(runner.config, runner.world, todo)
      ensures results.Some? ==> Reports(runner.config, runner.world, todo, results.value)
      ensures results.Some? ==> state.runs == LoopAfter(runner.config, runner.world, todo, old(state.runs))
      ensures runner.manager.log == old(runner.manager.log)
        + (if todo == [] then [] else [SubmitStep(runner.world, todo)])
        + PipeLoop(runner.config, runner.world, late, todo, state.completed, old(state.runs))
      ensures runner.manager.files == old(runner.manager.files)
              || runner.manager.files == old(runner.manager.files)[state.campaignId := state.View()]
    {
      hide RunSteps, RunAfter, ResultOf, PassSteps, Reports, LoopResults, LoopAfter, PipeLoop, RecordEnds, StateEnds;
      var c, w, manager := runner.config, runner.world, runner.manager;
      runner.NothingToDo(old(state.completed), old(state.runs));
      assert todo[0..] == todo && todo[..0] == [];
      ReportsSo(c, w, todo);
      if todo != [] {
        runner.Record(SubmitStep(w, todo));
      }
      ghost var log0 := manager.log;
      var done := [];
      for i := 0 to |todo|
        invariant state.completed == old(state.completed)
        invariant forall j :: 0 <= j < i ==> !late(todo[j])
        invariant done == LoopResults(c, w, todo[..i])
        invariant LoopAfter(c, w, todo[i..], state.runs) == LoopAfter(c, w, todo, old(state.runs))
        invariant manager.files == old(manager.files)
                  || manager.files == old(manager.files)[state.campaignId := state.View()]
        invariant manager.log + PipeLoop(c, w, late, todo[i..], state.completed, state.runs)
                  == log0 + PipeLoop(c, w, late, todo, state.completed, old(state.runs))
      {
        assert todo[i..][0] == todo[i];
        if late(todo[i]) {   // the wait for this prefetch raises
          PipeStops(c, w, late, todo[i..], state.completed, state.runs);
          return None;
        }
        ghost var before, view := manager.log, state.View();
        var r := Pass(todo[i..], state);
        done := done + [r];
        PipeUnfold(c, w, late, todo, i, state.completed, view.runs, before, manager.log);
        runner.ResultStep(todo, i);
        runner.Overwritten(old(manager.files), state.campaignId, view, state.View());
      }
      PipeStops(c, w, late, [], state.completed, state.runs);
      runner.NothingToDo(state.completed, state.runs);
      assert todo[..|todo|] == todo && todo[|todo|..] == [];
      return Some(done);
    }

    /** Unfolds one pass of the pipelined loop in the log. */
    static lemma PipeUnfold(c: Config, w: World, late: RunSpec -> bool, todo: seq<RunSpec>, i: nat, completed: bool,
                            runs: seq<RunState>, before: seq<Step>, after: seq<Step>)
      requires i < |todo| && !late(todo[i])
      requires after == before + PassSteps(c, w, todo[i..], completed, runs)
      ensures after + PipeLoop(c, w, late, todo[i + 1..], completed, RunAfter(c, w, todo[i], runs))
              == before + PipeLoop(c, w, late, todo[i..], completed, runs)
      ensures LoopAfter(c, w, todo[i + 1..], RunAfter(c, w, todo[i], runs)) == LoopAfter(c, w, todo[i..], runs)
    {
      hide PassSteps, RunAfter;
      assert todo[i..][0] == todo[i] && todo[i..][1..] == todo[i + 1..];
    }

    /** The loop does nothing more at its end or at a timeout. */
    static lemma PipeStops(c: Config, w: World, late: RunSpec -> bool, rest: seq<RunSpec>, completed: bool,
                           runs: seq<RunState>)
      requires rest == [] || late(rest[0])
      ensures PipeLoop(c, w, late, rest, completed, runs) == []
    {
    }

    method Run(id: string, resume: bool) returns (result: Option<CampaignResult>)
      modifies this, runner.manager
      ensures var file := FileOf(old(runner.manager.files), runner.manager.readable, id, resume);
        var todo := SessionTodo(runner.config, runner.world, file);
        && runner.manager.log == old(runner.manager.log) + PipeSteps(runner.config, runner.world, late, file)
        && (result.None? <==> AnyLate(late, todo))
        && (result.Some? ==> result.value == CampaignResult(id, LoopResults(runner.config, runner.world, todo)))
        && (result.Some? ==> Reports(runner.config, runner.world, todo, result.value.runs))
        && (result.Some? ==>
              (runner.manager.files
               == old(runner.manager.files)[id := Snapshot(true, FinalRuns(runner.config, runner.world, file))]))
    {
      hide RunSteps, RunAfter, ResultOf, LoopSteps, LoopAfter, LoopResults, Registered, FullPlan, Remaining, PipeLoop;
      hide PipeSteps;
      hide AnyLate, FileOf, Opening, DoneKeys, Reports;
      ghost var log0, files0 := runner.manager.log, runner.manager.files;
      ghost var file := FileOf(files0, runner.manager.readable, id, resume);
      var state, plan := runner.Prepare(id, resume);
      var todo := runner.FilterRemaining(state, plan);
      ghost var atLoop := state.View();
      var results := ExecutePipelined(todo, state);
      PipeLog(runner.config, runner.world, late, file, log0, runner.manager.log);
      if results.None? {
        return None;
      }
      ghost var looped := state.View();
      state.completed := true;
      runner.manager.Save(state);
      runner.Overwritten(files0, id, atLoop, looped);
      runner.Overwritten(files0, id, atLoop, state.View());
      runner.Overwritten(files0, id, looped, state.View());
      return Some(CampaignResult(id, results.value));
    }

    /** The log of a whole session, from the logs of its parts. */
    static lemma PipeLog(c: Config, w: World, late: RunSpec -> bool, file: Option<Snapshot>, before: seq<Step>,
                         after: seq<Step>)
      requires var todo, at := SessionTodo(c, w, file), AtLoop(c, w, file);
        after == before + OpenSteps(c, w, file) + (if todo == [] then [] else [SubmitStep(w, todo)])
                 + PipeLoop(c, w, late, todo, at.completed, at.runs)
      ensures after
              + (if AnyLate(late, SessionTodo(c, w, file)) then [] else [Saved(Snapshot(true, FinalRuns(c, w, file)))])
              == before + PipeSteps(c, w, late, file)
    {
      hide SessionTodo, OpenSteps, PipeLoop, AtLoop, FinalRuns, AnyLate, SubmitStep;
    }
  }

  // ----- refinement of the sequential runner -----

  /** The main thread's steps without the traffic with the pool. */
  function Main(steps: seq<Step>): seq<Step> {
    if steps == [] then []
    else (if steps[0].Submit? || steps[0].Await? then [] else [steps[0]]) + Main(steps[1..])
  }

  lemma {:induction false} MainConcat(a: seq<Step>, b: seq<Step>)
    ensures Main(a + b) == Main(a) + Main(b)
  {
    if a == [] {
      assert a + b == b;
    } else {
      assert (a + b)[1..] == a[1..] + b;
      MainConcat(a[1..], b);
    }
  }

  ghost predicate NoPool(steps: seq<Step>) {
    forall i :: 0 <= i < |steps| ==> !steps[i].Submit? && !steps[i].Await?
  }

  lemma {:induction false} MainOfNoPool(steps: seq<Step>)
    requires NoPool(steps)
    ensures Main(steps) == steps
  {
    if steps != [] {
      MainOfNoPool(steps[1..]);
    }
  }

  lemma RunStepsNoPool(c: Config, w: World, spec: RunSpec, completed: bool, runs: seq<RunState>)
    ensures NoPool(RunSteps(c, w, spec, completed, runs))
  {
    hide SkipReason, Outcome, FinalUpdate, UpdateFirst;
    assert NoPool(WorkSteps(c, w, spec));
  }

  lemma PassMain(c: Config, w: World, rest: seq<RunSpec>, completed: bool, runs: seq<RunState>)
    requires rest != []
    ensures Main(PassSteps(c, w, rest, completed, runs)) == RunSteps(c, w, rest[0], completed, runs)
  {
    hide RunSteps;
    var await, next := [AwaitStep(rest)], if |rest| > 1 then [SubmitStep(w, rest[1..])] else [];
    var run := RunSteps(c, w, rest[0], completed, runs);
    RunStepsNoPool(c, w, rest[0], completed, runs);
    MainOfNoPool(run);
    MainConcat(await, next);
    MainConcat(await + next, run);
  }

  lemma {:induction false} PipeLoopMain(c: Config, w: World, late: RunSpec -> bool, rest: seq<RunSpec>,
                                        completed: bool, runs: seq<RunState>)
    ensures Main(PipeLoop(c, w, late, rest, completed, runs)) <= LoopSteps(c, w, rest, completed, runs)
    ensures !AnyLate(late, rest) ==>
      Main(PipeLoop(c, w, late, rest, completed, runs)) == LoopSteps(c, w, rest, completed, runs)
  {
    hide RunSteps, RunAfter, PassSteps;
    if rest != [] && !late(rest[0]) {
      var after := RunAfter(c, w, rest[0], runs);
      PassMain(c, w, rest, completed, runs);
      PipeLoopMain(c, w, late, rest[1..], completed, after);
      MainConcat(PassSteps(c, w, rest, completed, runs), PipeLoop(c, w, late, rest[1..], completed, after));
      LateInRest(late, rest);
    }
  }

  lemma {:induction false} PipeMain(c: Config, w: World, late: RunSpec -> bool, file: Option<Snapshot>)
    ensures var todo, at := SessionTodo(c, w, file), AtLoop(c, w, file);
      Main(PipeSteps(c, w, late, file))
      == OpenSteps(c, w, file) + Main(PipeLoop(c, w, late, todo, at.completed, at.runs))
         + (if AnyLate(late, todo) then [] else [Saved(Snapshot(true, FinalRuns(c, w, file)))])
  {
    hide PipeLoop, SessionTodo, FullPlan, Registered, LoopAfter, AnyLate, AtLoop;
    var todo, at := SessionTodo(c, w, file), AtLoop(c, w, file);
    var a, first := OpenSteps(c, w, file), if todo == [] then [] else [SubmitStep(w, todo)];
    var b := PipeLoop(c, w, late, todo, at.completed, at.runs);
    var last := if AnyLate(late, todo) then [] else [Saved(Snapshot(true, FinalRuns(c, w, file)))];
    MainOfNoPool(a);
    MainOfNoPool(last);
    assert Main(first) == [];
    MainConcat(a, first);
    MainConcat(a + first, b);
    MainConcat(a + first + b, last);
  }

  /**
    The pipelined session refines the sequential one. Without a timeout the main
    thread performs exactly the sequential session's steps; with one it performs a
    proper prefix of them, so it behaves as a sequential session that crashed there.
  */
  lemma PipelineRefinesSequential(c: Config, w: World, late: RunSpec -> bool, file: Option<Snapshot>)
    ensures var main, steps := Main(PipeSteps(c, w, late, file)), SessionSteps(c, w, file);
      if AnyLate(late, SessionTodo(c, w, file))
      then |main| < |steps| && main == Trace(Session(c, w, |main|), file)
      else main == steps
  {
    hide PipeLoop, PipeSteps, OpenSteps, LoopSteps, SessionTodo, AtLoop, FullPlan, SessionSteps, AnyLate;
    var todo, at := SessionTodo(c, w, file), AtLoop(c, w, file);
    var a, b := OpenSteps(c, w, file), Main(PipeLoop(c, w, late, todo, at.completed, at.runs));
    var last := [Saved(Snapshot(true, FinalRuns(c, w, file)))];
    PipeMain(c, w, late, file);
    SessionSplit(c, w, file);
    PipeLoopMain(c, w, late, todo, at.completed, at.runs);
    var steps := SessionSteps(c, w, file);
    assert steps == a + SessionLoop(c, w, file) + last;
    if AnyLate(late, todo) {
      assert steps[..|a + b|] == a + b;
    }
  }

  // ----- crashes of the parallel runner -----

  /** Traffic with the pool leaves the state file alone. */
  lemma {:induction false} MainKeepsFile(file: Option<Snapshot>, steps: seq<Step>)
    ensures FileAfter(file, Main(steps)) == FileAfter(file, steps)
    decreases |steps|
  {
    if steps != [] {
      var first := if steps[0].Submit? || steps[0].Await? then [] else [steps[0]];
      MainKeepsFile(if steps[0].Saved? then Some(steps[0].snapshot) else file, steps[1..]);
      assert Main(steps) == first + Main(steps[1..]);
      if first == [] {
        assert Main(steps) == Main(steps[1..]);
      } else {
        assert Main(steps)[0] == steps[0] && Main(steps)[1..] == Main(steps[1..]);
      }
    }
  }

  /**
    A pipelined session that crashes after any number of steps, timeouts or not, has
    done what a sequential session that crashed somewhere has done, and leaves its file.
  */
  lemma CrashedPipelineIsCrashedSession(c: Config, w: World, late: RunSpec -> bool, file: Option<Snapshot>, n: nat)
    requires n <= |PipeSteps(c, w, late, file)|
    ensures var done := PipeSteps(c, w, late, file)[..n];
      && |Main(done)| <= |SessionSteps(c, w, file)|
      && Main(done) == Trace(Session(c, w, |Main(done)|), file)
      && FileAfter(file, done) == FileAfter(file, Trace(Session(c, w, |Main(done)|), file))
  {
    hide PipeSteps, SessionSteps, AnyLate, SessionTodo;
    var prog, steps := PipeSteps(c, w, late, file), SessionSteps(c, w, file);
    var done := prog[..n];
    PipelineRefinesSequential(c, w, late, file);
    assert prog == done + prog[n..];
    MainConcat(done, prog[n..]);
    var main := Main(prog);
    assert main == steps[..|main|] && Main(done) == main[..|Main(done)|] == steps[..|Main(done)|];
    MainKeepsFile(file, done);
  }
}
