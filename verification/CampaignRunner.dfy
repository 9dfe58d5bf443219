/** The sequential campaign runner (src/kitt/campaign/runner.py). */
module CampaignRunner {
  import opened Basics
  import opened CampaignState
  import opened Planning
  import opened CampaignSession

  class CampaignRunner {
    const config: Config
    const world: World
    const manager: CampaignStateManager

    constructor (config: Config, world: World, manager: CampaignStateManager)
      ensures this.config == config && this.world == world && this.manager == manager
    {
      this.config, this.world, this.manager := config, world, manager;
    }

    method RegisterRuns(state: CampaignState, plan: seq<RunSpec>)
      modifies state
      ensures state.completed == old(state.completed)
      ensures state.runs == Registered(old(state.runs), plan)
    {
      var known := KeySet(state.runs);   // computed once, before the loop
      for i := 0 to |plan|
        invariant state.completed == old(state.completed)
        invariant state.runs == old(state.runs) + NewEntries(known, plan[..i])
      {
        assert plan[..i + 1][..i] == plan[..i];
        if plan[i].Key() !in known {
          state.runs := state.runs + [PendingEntry(plan[i])];
        }
      }
      assert plan[..|plan|] == plan;
    }

    /** Appends an outside effect to the log. */
    ghost method Record(step: Step)
      modifies manager`log
      ensures manager.log == old(manager.log) + [step]
    {
      manager.log := manager.log + [step];
    }

    method DownloadModel(spec: RunSpec) returns (r: Result<Option<string>>)
      modifies manager`log
      ensures r == DownloadResult(world, spec)
      ensures manager.log == old(manager.log) + DownloadSteps(world, spec)
    {
      if spec.engineName == "ollama" {
        return Ok(spec.repoId);
      }
      if !Truthy(spec.repoId) {
        return Ok(spec.modelPath);
      }
      r := world.fetch(spec);
      Record(Fetch(ArtifactOf(spec), Found(r)));
    }

    method CleanupModel(spec: RunSpec)
      modifies manager`log
      ensures manager.log == old(manager.log) + RemoveSteps(spec)
    {
      if Truthy(spec.repoId) {
        Record(Remove(spec.repoId.value));
      }
    }

    /** The body of the try block: the benchmark's output directory, or the exception. */
    method TryBenchmark(spec: RunSpec) returns (r: Result<string>)
      modifies manager`log
      ensures r == Outcome(config, world, spec)
      ensures manager.log == old(manager.log) + WorkSteps(config, world, spec)
    {
      if config.dryRun {
        return Ok("dry-run");
      }
      var path := DownloadModel(spec);
      if path.Raised? {
        return Raised(path.error);
      }
      if !Truthy(path.value) {
        return Raised(NO_PATH);
      }
      Record(Launch(spec.Key(), if Downloads(spec) then Some(ArtifactOf(spec)) else None));
      r := world.benchmark(spec, path.value.value);
      if r.Ok? && config.cleanupAfterRun {
        CleanupModel(spec);
      }
    }

    method Finish(spec: RunSpec, state: CampaignState, u: Update) returns (result: RunResult)
      modifies manager, state
      ensures state.completed == old(state.completed)
      ensures state.runs == UpdateFirst(old(state.runs), spec.Key(), u)
      ensures manager.files == old(manager.files)[state.campaignId := state.View()]
      ensures manager.log == old(manager.log) + [Saved(state.View())]
      ensures result == RunResult(spec.modelName, spec.engineName, spec.quant, u.status, u.durationS, u.outputDir,
                                  u.error)
    {
      manager.UpdateRun(state, spec.Key(), u);
      result := RunResult(spec.modelName, spec.engineName, spec.quant, u.status, u.durationS, u.outputDir, u.error);
    }

    /** The reason to skip a run, asked for in the source's order. */
    method CheckSkip(spec: RunSpec) returns (reason: Option<string>)
      ensures reason == SkipReason(config, world, spec)
    {
      if SkipForSize(config, spec) {
        return Some(SIZE_REASON);
      }
      if !DiskSpaceOk(config, world, spec) {
        return Some(DISK_REASON);
      }
      if GateApplies(config, spec) {
        var answer := world.gate(spec.repoId.value);   // a failing check is only logged
        if answer.Gated? {
          return Some(GATED_REASON);
        }
      }
      return None;
    }

    /** The part of a run inside and after the try statement. */
    method TryRun(spec: RunSpec, state: CampaignState) returns (result: RunResult)
      requires SkipReason(config, world, spec).None?
      modifies manager, state
      ensures state.completed == old(state.completed)
      ensures state.runs == UpdateFirst(old(state.runs), spec.Key(), FinalUpdate(config, world, spec))
      ensures manager.files == old(manager.files)[state.campaignId := state.View()]
      ensures manager.log == old(manager.log) + WorkSteps(config, world, spec) + [Saved(state.View())]
                             + (if Outcome(config, world, spec).Raised? then RemoveSteps(spec) else [])
      ensures result == ResultOf(config, world, spec)
      ensures RecordEnds(config, world, spec, result)
    {
      hide RecordEnds, RunEnds;
      RunEndsSo(config, world, spec);
      var outcome := TryBenchmark(spec);
      match outcome
      case Ok(dir) =>
        result := Finish(spec, state, Update(Success, Duration(config, world, spec), dir, ""));
      case Raised(e) =>
        result := Finish(spec, state, Update(Failed, Duration(config, world, spec), "", e));
        CleanupModel(spec);
    }

    method ExecuteRun(spec: RunSpec, state: CampaignState) returns (result: RunResult)
      modifies manager, state
      ensures state.completed == old(state.completed)
      ensures state.runs == RunAfter(config, world, spec, old(state.runs))
      ensures manager.files == old(manager.files)[state.campaignId := state.View()]
      ensures manager.log == old(manager.log) + RunSteps(config, world, spec, state.completed, old(state.runs))
      ensures result == ResultOf(config, world, spec)
      ensures RecordEnds(config, world, spec, result)
      ensures StateEnds(config, world, spec, old(state.runs), state.runs)
    {
      hide SkipReason, WorkSteps, Outcome, Duration, RemoveSteps, UpdateFirst, RecordEnds, RunEnds, StateEnds, JoinKey;
      hide FinalUpdate, RunSteps, RunAfter, ResultOf;
      SkippedParts(spec, state.completed, state.runs);
      TriedParts(spec, state.completed, state.runs);
      RunEndsSo(config, world, spec);
      StateEndsSo(config, world, spec, state.runs);
      Record(Attempt(spec.Key()));
      var reason := CheckSkip(spec);
      if reason.Some? {
        result := Finish(spec, state, Update(Skipped, 0.0, "", reason.value));
        return;
      }
      manager.UpdateRun(state, spec.Key(), RUNNING_UPDATE);
      result := TryRun(spec, state);
    }

    /** What a skipped run amounts to. */
    lemma SkippedParts(spec: RunSpec, completed: bool, runs: seq<RunState>)
      ensures SkipReason(config, world, spec).Some? ==>
        var last := Update(Skipped, 0.0, "", SkipReason(config, world, spec).value);
        && RunAfter(config, world, spec, runs) == UpdateFirst(runs, spec.Key(), last)
        && RunSteps(config, world, spec, completed, runs)
           == [Attempt(spec.Key()), Saved(Snapshot(completed, UpdateFirst(runs, spec.Key(), last)))]
        && ResultOf(config, world, spec)
           == RunResult(spec.modelName, spec.engineName, spec.quant, Skipped, 0.0, "", last.error)
    {
      hide SkipReason, UpdateFirst, JoinKey;
    }

    /** What a run that is tried amounts to, once it is marked as running. */
    lemma TriedParts(spec: RunSpec, completed: bool, runs: seq<RunState>)
      ensures SkipReason(config, world, spec).None? ==>
        var running := UpdateFirst(runs, spec.Key(), RUNNING_UPDATE);
        && RunAfter(config, world, spec, runs) == UpdateFirst(running, spec.Key(), FinalUpdate(config, world, spec))
        && RunSteps(config, world, spec, completed, runs)
           == [Attempt(spec.Key()), Saved(Snapshot(completed, running))] + WorkSteps(config, world, spec)
              + [Saved(Snapshot(completed, RunAfter(config, world, spec, runs)))]
              + (if Outcome(config, world, spec).Raised? then RemoveSteps(spec) else [])
    {
      hide SkipReason, UpdateFirst, JoinKey, WorkSteps, Outcome, RemoveSteps, FinalUpdate;
    }

    /** Loads the state file when the session resumes one, and creates it otherwise. */
    method LoadOrCreate(id: string, resume: bool) returns (state: CampaignState)
      modifies manager
      ensures fresh(state) && state.campaignId == id
      ensures var file := FileOf(old(manager.files), manager.readable, id, resume);
        && state.View() == Opening(file)
        && manager.log == old(manager.log) + (if file.None? then [Saved(Opening(file))] else [])
        && manager.files == if file.None? then old(manager.files)[id := Opening(file)] else old(manager.files)
    {
      if resume {
        var loaded := manager.Load(id);
        if loaded != null {
          return loaded;
        }
      }
      state := manager.Create(id);
    }

    /** Opens the state, then plans, expands and registers. */
    method Prepare(id: string, resume: bool) returns (state: CampaignState, plan: seq<RunSpec>)
      modifies manager
      ensures fresh(state) && state.campaignId == id
      ensures plan == FullPlan(config, world)
      ensures var file := FileOf(old(manager.files), manager.readable, id, resume);
        && state.View() == Snapshot(Opening(file).completed, Registered(Opening(file).runs, plan))
        && manager.log == old(manager.log) + (if file.None? then [Saved(Opening(file))] else []) + [Saved(state.View())]
      ensures manager.files == old(manager.files)[id := state.View()]
    {
      hide Opening, FileOf, Registered, Plan, Expand;
      ghost var files := manager.files;
      state := LoadOrCreate(id, resume);
      var planned := PlanRuns(config.models, config.engines);
      plan := ExpandRuns(config.models, config.quantFilter, world.discovery, planned);
      RegisterRuns(state, plan);
      manager.Save(state);
      Overwritten(files, id, Opening(FileOf(files, manager.readable, id, resume)), state.View());
    }

    lemma Overwritten(files: map<string, Snapshot>, id: string, before: Snapshot, after: Snapshot)
      ensures files[id := before][id := after] == files[id := after]
    {
    }

    /** `[r for r in expanded if not is_run_done(state, r.key)]` */
    method FilterRemaining(state: CampaignState, plan: seq<RunSpec>) returns (todo: seq<RunSpec>)
      ensures todo == Remaining(DoneKeys(state.runs), plan)
    {
      todo := [];
      for i := 0 to |plan|
        invariant todo == Remaining(DoneKeys(state.runs), plan[..i])
      {
        assert plan[..i + 1][..i] == plan[..i];
        if !manager.IsRunDone(state, plan[i].Key()) {
          todo := todo + [plan[i]];
        }
      }
      assert plan[..|plan|] == plan;
    }

    /** The run loop over the remaining runs. */
    method ExecuteAll(todo: seq<RunSpec>, state: CampaignState) returns (results: seq<RunResult>)
      modifies manager, state
      ensures state.completed == old(state.completed)
      ensures state.runs == LoopAfter(config, world, todo, old(state.runs))
      ensures manager.log == old(manager.log) + LoopSteps(config, world, todo, state.completed, old(state.runs))
      ensures todo == [] ==> manager.files == old(manager.files)
      ensures todo != [] ==> manager.files == old(manager.files)[state.campaignId := state.View()]
      ensures results == LoopResults(config, world, todo) && Reports(config, world, todo, results)
    {
      hide RunSteps, RunAfter, ResultOf, LoopSteps, LoopAfter, LoopResults, Reports;
      ReportsSo(config, world, todo);
      NothingToDo(old(state.completed), old(state.runs));
      assert todo[0..] == todo && todo[..0] == [];
      results := [];
      for i := 0 to |todo|
        invariant state.completed == old(state.completed)
        invariant i == 0 ==> manager.files == old(manager.files) && manager.log == old(manager.log)
        invariant i > 0 ==> manager.files == old(manager.files)[state.campaignId := state.View()]
        invariant results == LoopResults(config, world, todo[..i])
        invariant LoopAfter(config, world, todo[i..], state.runs) == LoopAfter(config, world, todo, old(state.runs))
        invariant manager.log + LoopSteps(config, world, todo[i..], state.completed, state.runs)
                  == old(manager.log) + LoopSteps(config, world, todo, state.completed, old(state.runs))
      {
        ghost var log0, view0 := manager.log, state.View();
        var r := ExecuteRun(todo[i], state);
        results := results + [r];
        LogStep(log0, manager.log, todo, i, view0.completed, view0.runs);
        ResultStep(todo, i);
        Overwritten(old(manager.files), state.campaignId, view0, state.View());
      }
      NothingToDo(state.completed, state.runs);
      assert todo[..|todo|] == todo && todo[|todo|..] == [];
    }

    lemma NothingToDo(completed: bool, runs: seq<RunState>)
      ensures LoopSteps(config, world, [], completed, runs) == [] && LoopAfter(config, world, [], runs) == runs
      ensures LoopResults(config, world, []) == []
    {
    }

    lemma ResultStep(todo: seq<RunSpec>, i: nat)
      requires i < |todo|
      ensures LoopResults(config, world, todo[..i + 1])
              == LoopResults(config, world, todo[..i]) + [ResultOf(config, world, todo[i])]
    {
      hide ResultOf;
    }

    /** Unfolds one pass of the loop in the log. */
    lemma {:induction false} LogStep(before: seq<Step>, after: seq<Step>, todo: seq<RunSpec>, i: nat, completed: bool,
                                     runs: seq<RunState>)
      requires i < |todo|
      requires after == before + RunSteps(config, world, todo[i], completed, runs)
      ensures LoopAfter(config, world, todo[i + 1..], RunAfter(config, world, todo[i], runs))
              == LoopAfter(config, world, todo[i..], runs)
      ensures after + LoopSteps(config, world, todo[i + 1..], completed, RunAfter(config, world, todo[i], runs))
              == before + LoopSteps(config, world, todo[i..], completed, runs)
    {
      hide RunSteps, RunAfter;
      assert todo[i..][0] == todo[i] && todo[i..][1..] == todo[i + 1..];
    }

    method Run(id: string, resume: bool) returns (result: CampaignResult)
      modifies manager
      ensures var file := FileOf(old(manager.files), manager.readable, id, resume);
        var todo := SessionTodo(config, world, file);
        && manager.log == old(manager.log) + SessionSteps(config, world, file)
        && result == CampaignResult(id, LoopResults(config, world, todo))
        && Reports(config, world, todo, result.runs)
        && manager.files == old(manager.files)[id := Snapshot(true,
             LoopAfter(config, world, todo, Registered(Opening(file).runs, FullPlan(config, world))))]
    {
      hide RunSteps, RunAfter, ResultOf, LoopSteps, LoopAfter, Registered, FullPlan, Remaining, Reports;
      var state, plan := Prepare(id, resume);
      var todo := FilterRemaining(state, plan);
      var results := ExecuteAll(todo, state);
      state.completed := true;
      manager.Save(state);
      result := CampaignResult(id, results);
    }
  }

  /** The state file a session starts from: only a resumed session looks, and an unreadable file is ignored. */
  function FileOf(files: map<string, Snapshot>, readable: string -> bool, id: string, resume: bool): Option<Snapshot> {
    if resume && id in files && readable(id) then Some(files[id]) else None
  }
}
