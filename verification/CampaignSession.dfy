/**
  What one campaign session does, as a function of the configuration, the world
  and the state file it finds: the specification of src/kitt/campaign/runner.py.
*/
module CampaignSession {
  import opened Basics
  import opened CampaignState
  import opened Planning

  datatype Config = Config(models: seq<ModelSpec>, engines: seq<EngineSpec>, quantFilter: QuantFilter,
                           maxModelSizeGb: real, reserveGb: real, cleanupAfterRun: bool, skipGated: bool,
                           dryRun: bool)

  datatype GateAnswer = Open | Gated | CheckFailed

  /** Everything a session asks of the outside; each answer is arbitrary. */
  datatype World = World(
    discovery: Discovery,
    freeGb: RunSpec -> Option<real>,                      // None: the disk could not be read
    gate: string -> GateAnswer,                           // GatedModelChecker
    fetch: RunSpec -> Result<Option<string>>,             // Devon download, then model path lookup
    benchmark: (RunSpec, string) -> Result<string>,       // `kitt run`, giving the output directory
    duration: RunSpec -> real)

  datatype RunResult = RunResult(modelName: string, engineName: string, quant: string, status: Status,
                                 durationS: real, outputDir: string, error: string)

  datatype CampaignResult = CampaignResult(campaignId: string, runs: seq<RunResult>) {
    function Total(): nat { |runs| }
    function Succeeded(): nat { CountResults(runs, Success) }
    function Failures(): nat { CountResults(runs, Failed) }
    function SkippedRuns(): nat { CountResults(runs, Skipped) }
  }

  function CountResults(runs: seq<RunResult>, s: Status): nat {
    if runs == [] then 0 else (if runs[0].status == s then 1 else 0) + CountResults(runs[1..], s)
  }

  // ----- one run -----

  predicate SkipForSize(c: Config, spec: RunSpec) {
    c.maxModelSizeGb > 0.0 && spec.estimatedSizeGb > 0.0 && spec.estimatedSizeGb > c.maxModelSizeGb
  }

  predicate DiskSpaceOk(c: Config, w: World, spec: RunSpec) {
    match w.freeGb(spec)
    case None => true
    case Some(free) => free >= c.reserveGb + spec.estimatedSizeGb
  }

  predicate GateApplies(c: Config, spec: RunSpec) {
    !c.dryRun && c.skipGated && Truthy(spec.repoId) && spec.engineName != "ollama"
  }

  const SIZE_REASON := "Estimated size exceeds limit"
  const DISK_REASON := "Insufficient disk space"
  const GATED_REASON := "Model is gated (requires access approval)"

  /** Why a run is skipped, checked in this order; None means it is tried. */
  function SkipReason(c: Config, w: World, spec: RunSpec): Option<string> {
    if SkipForSize(c, spec) then Some(SIZE_REASON)
    else if !DiskSpaceOk(c, w, spec) then Some(DISK_REASON)
    else if GateApplies(c, spec) && w.gate(spec.repoId.value).Gated? then Some(GATED_REASON)
    else None
  }

  /** Runs whose model the runner itself downloads into local storage. */
  predicate Downloads(spec: RunSpec) {
    spec.engineName != "ollama" && Truthy(spec.repoId)
  }

  function ArtifactOf(spec: RunSpec): Artifact
    requires Downloads(spec)
  {
    Artifact(spec.repoId.value, spec.includePattern)
  }

  function DownloadResult(w: World, spec: RunSpec): Result<Option<string>> {
    if spec.engineName == "ollama" then Ok(spec.repoId)
    else if !Truthy(spec.repoId) then Ok(spec.modelPath)
    else w.fetch(spec)
  }

  predicate Found(r: Result<Option<string>>) { r.Ok? && Truthy(r.value) }

  function DownloadSteps(w: World, spec: RunSpec): seq<Step> {
    if Downloads(spec) then [Fetch(ArtifactOf(spec), Found(w.fetch(spec)))] else []
  }

  const NO_PATH := "Model path not found after download"

  /** How a tried run ends: its output directory, or the error that stopped it. */
  function Outcome(c: Config, w: World, spec: RunSpec): Result<string> {
    if c.dryRun then Ok("dry-run")
    else match DownloadResult(w, spec)
      case Raised(e) => Raised(e)
      case Ok(path) => if Truthy(path) then w.benchmark(spec, path.value) else Raised(NO_PATH)
  }

  function Duration(c: Config, w: World, spec: RunSpec): real {
    if c.dryRun then 0.0 else w.duration(spec)
  }

  /** The terminal update of a run. */
  function FinalUpdate(c: Config, w: World, spec: RunSpec): (u: Update)
    ensures u.status.Terminal()
  {
    match SkipReason(c, w, spec)
    case Some(reason) => Update(Skipped, 0.0, "", reason)
    case None =>
      match Outcome(c, w, spec)
      case Ok(dir) => Update(Success, Duration(c, w, spec), dir, "")
      case Raised(e) => Update(Failed, Duration(c, w, spec), "", e)
  }

  const RUNNING_UPDATE := Update(Running, 0.0, "", "")

  function RemoveSteps(spec: RunSpec): seq<Step> {
    if Truthy(spec.repoId) then [Remove(spec.repoId.value)] else []
  }

  /** Download, benchmark and the cleanup of a successful run. */
  function WorkSteps(c: Config, w: World, spec: RunSpec): seq<Step> {
    if c.dryRun then []
    else
      var needs := if Downloads(spec) then Some(ArtifactOf(spec)) else None;
      DownloadSteps(w, spec)
      + (if Found(DownloadResult(w, spec)) then [Launch(spec.Key(), needs)] else [])
      + (if Outcome(c, w, spec).Ok? && c.cleanupAfterRun then RemoveSteps(spec) else [])
  }

  function RunSteps(c: Config, w: World, spec: RunSpec, completed: bool, runs: seq<RunState>): seq<Step> {
    var key, last := spec.Key(), FinalUpdate(c, w, spec);
    if SkipReason(c, w, spec).Some? then
      [Attempt(key), Saved(Snapshot(completed, UpdateFirst(runs, key, last)))]
    else
      var running := UpdateFirst(runs, key, RUNNING_UPDATE);
      [Attempt(key), Saved(Snapshot(completed, running))]
      + WorkSteps(c, w, spec)
      + [Saved(Snapshot(completed, UpdateFirst(running, key, last)))]
      + (if Outcome(c, w, spec).Raised? then RemoveSteps(spec) else [])
  }

  function RunAfter(c: Config, w: World, spec: RunSpec, runs: seq<RunState>): seq<RunState> {
    var key, last := spec.Key(), FinalUpdate(c, w, spec);
    if SkipReason(c, w, spec).Some? then UpdateFirst(runs, key, last)
    else UpdateFirst(UpdateFirst(runs, key, RUNNING_UPDATE), key, last)
  }

  function ResultOf(c: Config, w: World, spec: RunSpec): RunResult {
    var u := FinalUpdate(c, w, spec);
    RunResult(spec.modelName, spec.engineName, spec.quant, u.status, u.durationS, u.outputDir, u.error)
  }

  // ----- how a run has to end, in terms of the world's answers -----

  ghost predicate TooLarge(c: Config, spec: RunSpec) {
    spec.estimatedSizeGb > c.maxModelSizeGb > 0.0
  }

  ghost predicate NoRoom(c: Config, w: World, spec: RunSpec) {
    w.freeGb(spec).Some? && w.freeGb(spec).value < c.reserveGb + spec.estimatedSizeGb
  }

  /** The repository that the runner fetches from; Ollama pulls by itself. */
  predicate HasRepo(spec: RunSpec, repo: string) {
    spec.engineName != "ollama" && repo != "" && spec.repoId == Some(repo)
  }

  ghost predicate Closed(c: Config, w: World, spec: RunSpec) {
    !c.dryRun && c.skipGated && exists repo :: HasRepo(spec, repo) && w.gate(repo) == Gated
  }

  /** The path that the benchmark of this run is given. */
  ghost predicate HasPath(w: World, spec: RunSpec, path: string) {
    path != "" &&
    if spec.engineName == "ollama" then spec.repoId == Some(path)
    else if spec.repoId == None || spec.repoId == Some("") then spec.modelPath == Some(path)
    else w.fetch(spec) == Ok(Some(path))
  }

  ghost predicate FetchRaises(w: World, spec: RunSpec, error: string) {
    spec.engineName != "ollama" && spec.repoId != None && spec.repoId != Some("") && w.fetch(spec) == Raised(error)
  }

  /** What a run that is not skipped, in a campaign that is not a dry run, leaves. */
  ghost predicate TriedEnds(w: World, spec: RunSpec, u: Update) {
    && (forall path :: HasPath(w, spec, path) ==>
          match w.benchmark(spec, path)
          case Ok(dir) => u == Update(Success, w.duration(spec), dir, "")
          case Raised(e) => u == Update(Failed, w.duration(spec), "", e))
    && (forall e :: FetchRaises(w, spec, e) ==> u == Update(Failed, w.duration(spec), "", e))
    && ((forall path :: !HasPath(w, spec, path)) && (forall e :: !FetchRaises(w, spec, e)) ==>
          u == Update(Failed, w.duration(spec), "", "Model path not found after download"))
  }

  /** What a run leaves, in its entry of the state and in its record. */
  ghost predicate RunEnds(c: Config, w: World, spec: RunSpec, u: Update) {
    if TooLarge(c, spec) then u == Update(Skipped, 0.0, "", "Estimated size exceeds limit")
    else if NoRoom(c, w, spec) then u == Update(Skipped, 0.0, "", "Insufficient disk space")
    else if Closed(c, w, spec) then u == Update(Skipped, 0.0, "", "Model is gated (requires access approval)")
    else if c.dryRun then u == Update(Success, 0.0, "dry-run", "")
    else TriedEnds(w, spec, u)
  }

  /** The record of a run names it and tells how it ended. */
  ghost predicate RecordEnds(c: Config, w: World, spec: RunSpec, r: RunResult) {
    && r.modelName == spec.modelName && r.engineName == spec.engineName && r.quant == spec.quant
    && RunEnds(c, w, spec, Update(r.status, r.durationS, r.outputDir, r.error))
  }

  ghost predicate IsFirst(runs: seq<RunState>, key: string, i: nat)
    requires i < |runs|
  {
    runs[i].Key() == key && forall j :: 0 <= j < i ==> runs[j].Key() != key
  }

  ghost predicate EntryEnds(c: Config, w: World, spec: RunSpec, before: RunState, after: RunState) {
    && after.modelName == before.modelName && after.engineName == before.engineName && after.quant == before.quant
    && RunEnds(c, w, spec, Update(after.status, after.durationS, after.outputDir, after.error))
  }

  /** The first entry under the run's key tells how it ended, and no other entry has changed. */
  ghost predicate StateEnds(c: Config, w: World, spec: RunSpec, before: seq<RunState>, after: seq<RunState>) {
    && |after| == |before|
    && forall i :: 0 <= i < |before| ==>
         if IsFirst(before, spec.Key(), i) then EntryEnds(c, w, spec, before[i], after[i]) else after[i] == before[i]
  }

  lemma SkipsExactly(c: Config, w: World, spec: RunSpec)
    ensures SkipReason(c, w, spec)
            == if TooLarge(c, spec) then Some("Estimated size exceeds limit")
               else if NoRoom(c, w, spec) then Some("Insufficient disk space")
               else if Closed(c, w, spec) then Some("Model is gated (requires access approval)")
               else None
  {
    if spec.repoId.Some? {
      assert HasRepo(spec, spec.repoId.value) <==> spec.engineName != "ollama" && spec.repoId.value != "";
    }
  }

  lemma OutcomeEnds(c: Config, w: World, spec: RunSpec)
    requires !c.dryRun
    ensures TriedEnds(w, spec, match Outcome(c, w, spec)
                               case Ok(dir) => Update(Success, w.duration(spec), dir, "")
                               case Raised(e) => Update(Failed, w.duration(spec), "", e))
  {
    var r := DownloadResult(w, spec);
    if r.Ok? && Truthy(r.value) {
      assert HasPath(w, spec, r.value.value);
    } else if r.Raised? {
      assert FetchRaises(w, spec, r.error);
    }
  }

  /** The terminal update is what the world's answers ask for. */
  lemma RunEndsSo(c: Config, w: World, spec: RunSpec)
    ensures RunEnds(c, w, spec, FinalUpdate(c, w, spec)) && RecordEnds(c, w, spec, ResultOf(c, w, spec))
  {
    hide SkipReason, Outcome, TriedEnds, TooLarge, NoRoom, Closed;
    SkipsExactly(c, w, spec);
    if c.dryRun {
      DryOutcome(c, w, spec);
    } else {
      OutcomeEnds(c, w, spec);
    }
  }

  lemma DryOutcome(c: Config, w: World, spec: RunSpec)
    requires c.dryRun
    ensures Outcome(c, w, spec) == Ok("dry-run")
  {
  }

  /** The result of a session: one record for each run to do, in order, each telling how its run ended. */
  ghost predicate Reports(c: Config, w: World, todo: seq<RunSpec>, results: seq<RunResult>) {
    |results| == |todo| && forall i :: 0 <= i < |todo| ==> RecordEnds(c, w, todo[i], results[i])
  }

  lemma ReportsSo(c: Config, w: World, todo: seq<RunSpec>)
    ensures Reports(c, w, todo, LoopResults(c, w, todo))
  {
    hide RecordEnds, ResultOf;
    forall i | 0 <= i < |todo|
      ensures RecordEnds(c, w, todo[i], LoopResults(c, w, todo)[i])
    {
      RunEndsSo(c, w, todo[i]);
    }
  }

  lemma FirstEntryRewritten(runs: seq<RunState>, key: string, u: Update)
    ensures var after := UpdateFirst(runs, key, u);
      && |after| == |runs|
      && forall i :: 0 <= i < |runs| ==>
           after[i] == if IsFirst(runs, key, i) then Rewrite(runs[i], u) else runs[i]
  {
    hide JoinKey;
    var i := FirstIndex(runs, key);
    assert i < |runs| ==> IsFirst(runs, key, i);
  }

  /** So is the entry in the state, which passes through `running` on its way. */
  lemma StateEndsSo(c: Config, w: World, spec: RunSpec, runs: seq<RunState>)
    ensures StateEnds(c, w, spec, runs, RunAfter(c, w, spec, runs))
  {
    hide SkipReason, FinalUpdate, RunEnds, UpdateFirst, JoinKey;
    var key, last := spec.Key(), FinalUpdate(c, w, spec);
    RunEndsSo(c, w, spec);
    var running := UpdateFirst(runs, key, RUNNING_UPDATE);
    FirstEntryRewritten(runs, key, RUNNING_UPDATE);
    FirstEntryRewritten(runs, key, last);
    FirstEntryRewritten(running, key, last);
    assert forall i :: 0 <= i < |runs| ==> running[i].Key() == runs[i].Key();
    assert forall i :: 0 <= i < |runs| ==> (IsFirst(running, key, i) <==> IsFirst(runs, key, i));
  }

  // ----- registration and filtering -----

  function PendingEntry(spec: RunSpec): RunState {
    RunState(spec.modelName, spec.engineName, spec.quant, Pending, 0.0, "", "")
  }

  /** New entries for the runs whose key was not yet known when registration began. */
  function NewEntries(known: set<string>, plan: seq<RunSpec>): seq<RunState> {
    if plan == [] then []
    else NewEntries(known, plan[..|plan| - 1])
         + (if plan[|plan| - 1].Key() in known then [] else [PendingEntry(plan[|plan| - 1])])
  }

  function KeySet(runs: seq<RunState>): set<string> {
    set r | r in runs :: r.Key()
  }

  function Registered(runs: seq<RunState>, plan: seq<RunSpec>): seq<RunState> {
    runs + NewEntries(KeySet(runs), plan)
  }

  /** The planned runs a session still has to do, in plan order. */
  function Remaining(done: set<string>, plan: seq<RunSpec>): seq<RunSpec> {
    if plan == [] then []
    else Remaining(done, plan[..|plan| - 1])
         + (if plan[|plan| - 1].Key() in done then [] else [plan[|plan| - 1]])
  }

  // ----- the loop and the whole session -----

  function LoopSteps(c: Config, w: World, rest: seq<RunSpec>, completed: bool, runs: seq<RunState>): seq<Step> {
    if rest == [] then []
    else RunSteps(c, w, rest[0], completed, runs)
         + LoopSteps(c, w, rest[1..], completed, RunAfter(c, w, rest[0], runs))
  }

  function LoopAfter(c: Config, w: World, rest: seq<RunSpec>, runs: seq<RunState>): seq<RunState> {
    if rest == [] then runs else LoopAfter(c, w, rest[1..], RunAfter(c, w, rest[0], runs))
  }

  function LoopResults(c: Config, w: World, rest: seq<RunSpec>): seq<RunResult> {
    seq(|rest|, i requires 0 <= i < |rest| => ResultOf(c, w, rest[i]))
  }

  function FullPlan(c: Config, w: World): seq<RunSpec> {
    Expand(c.models, c.quantFilter, w.discovery, Plan(c.models, c.engines))
  }

  /** What a session loads, or creates when there is nothing to load. */
  function Opening(file: Option<Snapshot>): Snapshot {
    file.GetOr(Snapshot(false, []))
  }

  function SessionTodo(c: Config, w: World, file: Option<Snapshot>): seq<RunSpec> {
    Remaining(DoneKeys(Registered(Opening(file).runs, FullPlan(c, w))), FullPlan(c, w))
  }

  /** Everything an uninterrupted session does when the state file holds `file`. */
  function SessionSteps(c: Config, w: World, file: Option<Snapshot>): seq<Step> {
    var start := Opening(file);
    var runs := Registered(start.runs, FullPlan(c, w));
    var todo := SessionTodo(c, w, file);
    (if file.None? then [Saved(start)] else [])
    + [Saved(Snapshot(start.completed, runs))]
    + LoopSteps(c, w, todo, start.completed, runs)
    + [Saved(Snapshot(true, LoopAfter(c, w, todo, runs)))]
  }
}
