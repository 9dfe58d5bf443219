/**
  The main thread of the parallel runner and its download pool, interleaved in
  every possible way. The main thread works through the steps of a pipelined
  session; the pool finishes submitted downloads at any time and in any order.
*/
module PrefetchPool {
  import opened Basics
  import opened CampaignState
  import opened Planning
  import opened CampaignSession
  import opened CrashResume
  import opened CampaignTheorems
  import opened ParallelRunner

  datatype Download = Download(ticket: nat, key: string, brings: Option<Artifact>)

  datatype State = State(pc: nat,                    // main-thread steps done
                         queue: seq<Download>,       // submitted, not finished
                         finished: seq<Download>,    // finished, in order
                         stored: set<Artifact>)      // models in local storage

  function Stored(b: Option<Artifact>): set<Artifact> {
    if b.Some? then {b.value} else {}
  }

  /** Removing a repository removes every file of it. */
  function Without(stored: set<Artifact>, repo: string): set<Artifact> {
    set a | a in stored && a.repo != repo
  }

  function StepStore(stored: set<Artifact>, step: Step): set<Artifact> {
    match step
    case Fetch(a, ok) => if ok then stored + {a} else stored
    case Remove(repo) => Without(stored, repo)
    case _ => stored
  }

  function Submitted(step: Step): Download
    requires step.Submit?
  {
    Download(step.ticket, step.key, step.brings)
  }

  predicate Done(finished: seq<Download>, ticket: nat) {
    exists i :: 0 <= i < |finished| && finished[i].ticket == ticket
  }

  /** The main thread is blocked only by an Await whose prefetch is unfinished. */
  predicate MainEnabled(prog: seq<Step>, s: State) {
    s.pc < |prog| && (prog[s.pc].Await? ==> Done(s.finished, prog[s.pc].ticket))
  }

  function MainStep(prog: seq<Step>, s: State): State
    requires MainEnabled(prog, s)
  {
    var step := prog[s.pc];
    var queue := if step.Submit? then s.queue + [Submitted(step)] else s.queue;
    s.(pc := s.pc + 1, queue := queue, stored := StepStore(s.stored, step))
  }

  function PoolStep(s: State, i: nat): State
    requires i < |s.queue|
  {
    s.(queue := s.queue[..i] + s.queue[i + 1..],
       finished := s.finished + [s.queue[i]],
       stored := s.stored + Stored(s.queue[i].brings))
  }

  ghost predicate Next(prog: seq<Step>, s: State, t: State) {
    (MainEnabled(prog, s) && t == MainStep(prog, s))
    || (exists i :: 0 <= i < |s.queue| && t == PoolStep(s, i))
  }

  /** A finite execution from the start of the program, with any models already stored. */
  ghost predicate Execution(prog: seq<Step>, states: seq<State>) {
    && states != []
    && states[0].pc == 0 && states[0].queue == [] && states[0].finished == []
    && forall i :: 0 <= i < |states| - 1 ==> Next(prog, states[i], states[i + 1])
  }

  // ----- the invariant -----

  function Submits(steps: seq<Step>): seq<Download> {
    if steps == [] then []
    else Submits(steps[..|steps| - 1]) + (if steps[|steps| - 1].Submit? then [Submitted(steps[|steps| - 1])] else [])
  }

  /** What the main thread's own downloads and removals leave in storage. */
  function OwnStore(steps: seq<Step>): set<Artifact> {
    if steps == [] then {}
    else StepStore(OwnStore(steps[..|steps| - 1]), steps[|steps| - 1])
  }

  /** The pool only ever adds to storage. */
  ghost predicate StoreInv(prog: seq<Step>, s: State)
    requires s.pc <= |prog|
  {
    OwnStore(prog[..s.pc]) <= s.stored
  }

  /** Every prefetch submitted is either queued or finished, and each once. */
  ghost predicate PoolInv(prog: seq<Step>, s: State)
    requires s.pc <= |prog|
  {
    multiset(s.queue) + multiset(s.finished) == multiset(Submits(prog[..s.pc]))
  }

  ghost predicate AwaitInv(prog: seq<Step>, s: State)
    requires s.pc <= |prog|
  {
    forall j :: 0 <= j < s.pc && prog[j].Await? ==> Done(s.finished, prog[j].ticket)
  }

  ghost predicate Inv(prog: seq<Step>, s: State) {
    s.pc <= |prog| && StoreInv(prog, s) && PoolInv(prog, s) && AwaitInv(prog, s)
  }

  lemma MainKeepsStore(prog: seq<Step>, s: State)
    requires s.pc <= |prog| && StoreInv(prog, s) && MainEnabled(prog, s)
    ensures StoreInv(prog, MainStep(prog, s))
  {
    var steps := prog[..s.pc + 1];
    assert steps[..s.pc] == prog[..s.pc] && steps[s.pc] == prog[s.pc];
  }

  lemma MainKeepsPool(prog: seq<Step>, s: State)
    requires s.pc <= |prog| && PoolInv(prog, s) && MainEnabled(prog, s)
    ensures PoolInv(prog, MainStep(prog, s))
  {
    var step, steps := prog[s.pc], prog[..s.pc + 1];
    assert steps[..s.pc] == prog[..s.pc] && steps[s.pc] == step;
    assert !step.Submit? ==> Submits(prog[..s.pc]) + [] == Submits(prog[..s.pc]);
  }

  lemma MainKeepsInv(prog: seq<Step>, s: State)
    requires Inv(prog, s) && MainEnabled(prog, s)
    ensures Inv(prog, MainStep(prog, s))
  {
    hide StoreInv, PoolInv;
    MainKeepsStore(prog, s);
    MainKeepsPool(prog, s);
  }

  lemma StillDone(finished: seq<Download>, d: Download)
    ensures forall t :: Done(finished, t) ==> Done(finished + [d], t)
  {
    assert forall i :: 0 <= i < |finished| ==> (finished + [d])[i] == finished[i];
  }

  lemma PoolKeepsInv(prog: seq<Step>, s: State, i: nat)
    requires Inv(prog, s) && i < |s.queue|
    ensures Inv(prog, PoolStep(s, i))
  {
    hide Done, OwnStore, Submits;
    assert s.queue == s.queue[..i] + [s.queue[i]] + s.queue[i + 1..];
    StillDone(s.finished, s.queue[i]);
  }

  lemma {:induction false} ReachableInv(prog: seq<Step>, states: seq<State>, n: nat)
    requires Execution(prog, states) && n < |states|
    ensures Inv(prog, states[n])
  {
    if n == 0 {
      assert prog[..0] == [];
    } else {
      hide Inv;
      ReachableInv(prog, states, n - 1);
      var s, t := states[n - 1], states[n];
      assert Next(prog, s, states[(n - 1) + 1]);
      if MainEnabled(prog, s) && t == MainStep(prog, s) {
        MainKeepsInv(prog, s);
      } else {
        var i :| 0 <= i < |s.queue| && t == PoolStep(s, i);
        PoolKeepsInv(prog, s, i);
      }
    }
  }

  // ----- facts about pipelined programs -----

  /** Every launch that needs a model directly follows the runner's own download of it. */
  ghost predicate LaunchesFed(steps: seq<Step>) {
    forall i :: 0 <= i < |steps| && steps[i].Launch? && steps[i].needs.Some? ==>
      0 < i && steps[i - 1] == Fetch(steps[i].needs.value, true)
  }

  /** Every start of a run follows the await of its prefetch. */
  ghost predicate AttemptsAwaited(steps: seq<Step>) {
    forall i :: 0 <= i < |steps| && steps[i].Attempt? ==>
      exists j :: 0 <= j < i && steps[j].Await? && steps[j].key == steps[i].key
  }

  predicate Asked(ds: seq<Download>, ticket: nat, key: string) {
    exists i :: 0 <= i < |ds| && ds[i].ticket == ticket && ds[i].key == key
  }

  /** Every await follows the submission of that prefetch. */
  ghost predicate AwaitsSubmitted(before: seq<Download>, steps: seq<Step>) {
    forall i :: 0 <= i < |steps| && steps[i].Await? ==>
      Asked(before + Submits(steps[..i]), steps[i].ticket, steps[i].key)
  }

  lemma FedConcat(a: seq<Step>, b: seq<Step>)
    requires LaunchesFed(a) && LaunchesFed(b)
    ensures LaunchesFed(a + b)
  {
    var s := a + b;
    forall i | 0 <= i < |s| && s[i].Launch? && s[i].needs.Some?
      ensures 0 < i && s[i - 1] == Fetch(s[i].needs.value, true)
    {
      if i >= |a| {
        assert b[i - |a|] == s[i];
      }
    }
  }

  lemma AwaitedConcat(a: seq<Step>, b: seq<Step>)
    requires AttemptsAwaited(a) && AttemptsAwaited(b)
    ensures AttemptsAwaited(a + b)
  {
    var s := a + b;
    forall i | 0 <= i < |s| && s[i].Attempt?
      ensures exists j :: 0 <= j < i && s[j].Await? && s[j].key == s[i].key
    {
      if i < |a| {
        var j :| 0 <= j < i && a[j].Await? && a[j].key == a[i].key;
        assert s[j] == a[j];
      } else {
        var j :| 0 <= j < i - |a| && b[j].Await? && b[j].key == b[i - |a|].key;
        assert s[|a| + j] == b[j];
      }
    }
  }

  lemma {:induction false} SubmitConcat(a: seq<Step>, b: seq<Step>)
    ensures Submits(a + b) == Submits(a) + Submits(b)
  {
    if b == [] {
      assert a + b == a;
    } else {
      var n := |b| - 1;
      assert (a + b)[..|a| + n] == a + b[..n];
      SubmitConcat(a, b[..n]);
    }
  }

  lemma {:induction false} SubmittedConcat(before: seq<Download>, a: seq<Step>, b: seq<Step>)
    requires AwaitsSubmitted(before, a) && AwaitsSubmitted(before + Submits(a), b)
    ensures AwaitsSubmitted(before, a + b)
  {
    hide Asked, Submits;
    var s := a + b;
    forall i | 0 <= i < |s| && s[i].Await?
      ensures Asked(before + Submits(s[..i]), s[i].ticket, s[i].key)
    {
      if i < |a| {
        assert s[..i] == a[..i];
      } else {
        assert b[i - |a|] == s[i];
        assert s[..i] == a + b[..i - |a|];
        SubmitConcat(a, b[..i - |a|]);
        assert before + Submits(a) + Submits(b[..i - |a|]) == before + (Submits(a) + Submits(b[..i - |a|]));
      }
    }
  }

  /** Steps that neither use the pool, nor start runs, nor launch benchmarks. */
  ghost predicate Plain(steps: seq<Step>) {
    forall i :: 0 <= i < |steps| ==> steps[i].Saved? || steps[i].Remove? || steps[i].Fetch?
  }

  lemma {:induction false} PlainSteps(steps: seq<Step>)
    requires Plain(steps)
    ensures LaunchesFed(steps) && AttemptsAwaited(steps) && (forall before :: AwaitsSubmitted(before, steps))
            && Submits(steps) == []
  {
    if steps != [] {
      PlainSteps(steps[..|steps| - 1]);
    }
  }

  lemma RunFed(c: Config, w: World, spec: RunSpec, completed: bool, runs: seq<RunState>)
    ensures LaunchesFed(RunSteps(c, w, spec, completed, runs))
  {
    hide SkipReason, Outcome, FinalUpdate, UpdateFirst, RemoveSteps;
    var work := WorkSteps(c, w, spec);
    assert Plain(RemoveSteps(spec)) by { RemoveIsPlain(spec); }
    assert LaunchesFed(work) by {
      if !c.dryRun {
        var launch := DownloadSteps(w, spec)
          + (if Found(DownloadResult(w, spec))
             then [Launch(spec.Key(), if Downloads(spec) then Some(ArtifactOf(spec)) else None)] else []);
        assert LaunchesFed(launch);
        var cleanup := if Outcome(c, w, spec).Ok? && c.cleanupAfterRun then RemoveSteps(spec) else [];
        assert Plain(cleanup);
        PlainSteps(cleanup);
        FedConcat(launch, cleanup);
        assert work == launch + cleanup;
      }
    }
    var last := Saved(Snapshot(completed, RunAfter(c, w, spec, runs)));
    RunSplit(c, w, spec, completed, runs);
    var head, tail := RunHead(c, w, spec, completed, runs), RunTail(c, w, spec, completed, runs);
    assert LaunchesFed(head) by {
      if SkipReason(c, w, spec).None? {
        FedConcat([Attempt(spec.Key()), Saved(Snapshot(completed, UpdateFirst(runs, spec.Key(), RUNNING_UPDATE)))],
                  work);
      }
    }
    assert Plain(tail);
    PlainSteps(tail);
    FedConcat(head, tail);
  }

  lemma RemoveIsPlain(spec: RunSpec)
    ensures Plain(RemoveSteps(spec))
  {
  }

  lemma {:induction false} NoSubmits(before: seq<Download>, steps: seq<Step>)
    requires NoPool(steps)
    ensures Submits(steps) == [] && AwaitsSubmitted(before, steps)
  {
    if steps != [] {
      NoSubmits(before, steps[..|steps| - 1]);
    }
  }

  lemma RunStartsItself(c: Config, w: World, spec: RunSpec, completed: bool, runs: seq<RunState>)
    ensures var steps := RunSteps(c, w, spec, completed, runs);
      steps[0] == Attempt(spec.Key()) && forall i :: 0 < i < |steps| ==> !steps[i].Attempt?
  {
    hide SkipReason, Outcome, FinalUpdate, UpdateFirst;
    assert Quiet(WorkSteps(c, w, spec));
    assert Quiet(RemoveSteps(spec));
  }

  /** The three facts together, for a stretch of program after the given submissions. */
  ghost predicate Ready(before: seq<Download>, steps: seq<Step>) {
    LaunchesFed(steps) && AttemptsAwaited(steps) && AwaitsSubmitted(before, steps)
  }

  lemma ReadyConcat(before: seq<Download>, a: seq<Step>, b: seq<Step>)
    requires Ready(before, a) && Ready(before + Submits(a), b)
    ensures Ready(before, a + b)
    ensures Submits(a + b) == Submits(a) + Submits(b)
  {
    hide LaunchesFed, AttemptsAwaited, AwaitsSubmitted;
    FedConcat(a, b);
    AwaitedConcat(a, b);
    SubmittedConcat(before, a, b);
    SubmitConcat(a, b);
  }

  lemma PlainReady(before: seq<Download>, steps: seq<Step>)
    requires Plain(steps)
    ensures Ready(before, steps) && Submits(steps) == []
  {
    PlainSteps(steps);
  }

  /** What the first of these runs' prefetch is. */
  function DownloadOf(w: World, rest: seq<RunSpec>): Download
    requires rest != []
  {
    Submitted(SubmitStep(w, rest))
  }

  /** The prefetches of all these runs, in order. */
  function DownloadsOf(w: World, rest: seq<RunSpec>): seq<Download> {
    if rest == [] then [] else [DownloadOf(w, rest)] + DownloadsOf(w, rest[1..])
  }

  lemma {:induction false} TicketsFall(w: World, rest: seq<RunSpec>)
    ensures |DownloadsOf(w, rest)| == |rest|
    ensures forall i :: 0 <= i < |rest| ==> DownloadsOf(w, rest)[i] == DownloadOf(w, rest[i..])
  {
    if rest != [] {
      TicketsFall(w, rest[1..]);
      forall i | 0 < i < |rest|
        ensures DownloadsOf(w, rest)[i] == DownloadOf(w, rest[i..])
      {
        assert rest[1..][i - 1..] == rest[i..];
      }
    }
  }

  function NextSubmit(w: World, rest: seq<RunSpec>): seq<Step> {
    if rest == [] then [] else [SubmitStep(w, rest)]
  }

  function NextDownload(w: World, rest: seq<RunSpec>): seq<Download> {
    if rest == [] then [] else [DownloadOf(w, rest)]
  }

  lemma SubmitReady(before: seq<Download>, w: World, rest: seq<RunSpec>)
    ensures Ready(before, NextSubmit(w, rest)) && Submits(NextSubmit(w, rest)) == NextDownload(w, rest)
  {
    var next := NextSubmit(w, rest);
    assert rest != [] ==> next[..0] == [];
  }

  /** An await of what has been asked for, and the next submission. */
  lemma LeadInReady(before: seq<Download>, w: World, rest: seq<RunSpec>)
    requires rest != [] && Asked(before, |rest|, rest[0].Key())
    ensures var lead := [AwaitStep(rest)] + NextSubmit(w, rest[1..]);
      LaunchesFed(lead) && AttemptsAwaited(lead) && AwaitsSubmitted(before, lead)
        && Submits(lead) == NextDownload(w, rest[1..])
  {
    var await := [AwaitStep(rest)];
    assert await[..0] == [] && before + [] == before && Submits([]) == [] && Submits(await) == [];
    assert Ready(before, await);
    SubmitReady(before + Submits(await), w, rest[1..]);
    ReadyConcat(before, await, NextSubmit(w, rest[1..]));
  }

  lemma PassFacts(c: Config, w: World, rest: seq<RunSpec>, completed: bool, runs: seq<RunState>, before: seq<Download>)
    requires rest != [] && Asked(before, |rest|, rest[0].Key())
    ensures Ready(before, PassSteps(c, w, rest, completed, runs))
    ensures Submits(PassSteps(c, w, rest, completed, runs)) == NextDownload(w, rest[1..])
  {
    hide RunSteps, Asked, Submits, NextDownload;
    var lead := [AwaitStep(rest)] + NextSubmit(w, rest[1..]);
    var run := RunSteps(c, w, rest[0], completed, runs);
    var pass := PassSteps(c, w, rest, completed, runs);
    assert pass == lead + run;
    LeadInReady(before, w, rest);
    RunFed(c, w, rest[0], completed, runs);
    FedConcat(lead, run);
    RunStartsItself(c, w, rest[0], completed, runs);
    assert pass[0] == AwaitStep(rest) && pass[0].key == rest[0].Key();
    RunStepsNoPool(c, w, rest[0], completed, runs);
    NoSubmits(before + Submits(lead), run);
    SubmittedConcat(before, lead, run);
    SubmitConcat(lead, run);
  }

  /**
    The loop after the submission of its first run. Its own submissions are those of the
    following runs, in order: all of them, unless a wait times out.
  */
  lemma {:induction false} PipeLoopReady(c: Config, w: World, late: RunSpec -> bool, rest: seq<RunSpec>,
                                         completed: bool, runs: seq<RunState>, before: seq<Download>)
    requires rest != [] ==> Asked(before, |rest|, rest[0].Key())
    ensures Ready(before, PipeLoop(c, w, late, rest, completed, runs))
    ensures Submits(PipeLoop(c, w, late, rest, completed, runs)) <= DownloadsOf(w, Drop(rest, 1))
    ensures !AnyLate(late, rest) ==>
            Submits(PipeLoop(c, w, late, rest, completed, runs)) == DownloadsOf(w, Drop(rest, 1))
    decreases |rest|
  {
    hide PassSteps, RunAfter, Ready, Submits, Asked, DownloadsOf, NextDownload, AnyLate;
    LateInRest(late, rest);
    NextFirst(w, rest);
    if rest == [] || late(rest[0]) {
      PlainReady(before, []);
    } else {
      var pass, after := PassSteps(c, w, rest, completed, runs), RunAfter(c, w, rest[0], runs);
      PassFacts(c, w, rest, completed, runs, before);
      AskedNext(before, w, rest[1..]);
      PipeLoopReady(c, w, late, rest[1..], completed, after, before + Submits(pass));
      ReadyConcat(before, pass, PipeLoop(c, w, late, rest[1..], completed, after));
      NextFirst(w, rest[1..]);
    }
  }

  lemma NextFirst(w: World, rest: seq<RunSpec>)
    ensures NextDownload(w, rest) + DownloadsOf(w, Drop(rest, 1)) == DownloadsOf(w, rest)
    ensures rest == [] ==> DownloadsOf(w, Drop(rest, 1)) == []
  {
  }

  lemma AskedNext(before: seq<Download>, w: World, rest: seq<RunSpec>)
    ensures rest != [] ==> Asked(before + NextDownload(w, rest), |rest|, rest[0].Key())
  {
    if rest != [] {
      assert (before + NextDownload(w, rest))[|before|] == DownloadOf(w, rest);
    }
  }

  /** The steps before the loop: registration and the first submission. */
  function LeadSteps(c: Config, w: World, file: Option<Snapshot>, todo: seq<RunSpec>): seq<Step> {
    OpenSteps(c, w, file) + (if todo == [] then [] else [SubmitStep(w, todo)])
  }

  lemma LeadReady(c: Config, w: World, file: Option<Snapshot>, todo: seq<RunSpec>)
    ensures Ready([], LeadSteps(c, w, file, todo))
    ensures Submits(LeadSteps(c, w, file, todo)) == NextDownload(w, todo)
  {
    hide FullPlan, Registered, Ready, NextDownload;
    var a := OpenSteps(c, w, file);
    PlainReady([], a);
    SubmitReady([] + Submits(a), w, todo);
    ReadyConcat([], a, NextSubmit(w, todo));
    assert LeadSteps(c, w, file, todo) == a + NextSubmit(w, todo);
    assert [] + NextDownload(w, todo) == NextDownload(w, todo);
  }

  /** What every pipelined session's program looks like to the pool. */
  lemma PipeFacts(c: Config, w: World, late: RunSpec -> bool, file: Option<Snapshot>)
    ensures Ready([], PipeSteps(c, w, late, file))
    ensures Submits(PipeSteps(c, w, late, file)) <= DownloadsOf(w, SessionTodo(c, w, file))
    ensures !AnyLate(late, SessionTodo(c, w, file)) ==>
      Submits(PipeSteps(c, w, late, file)) == DownloadsOf(w, SessionTodo(c, w, file))
  {
    hide PipeLoop, SessionTodo, OpenSteps, AnyLate, Ready, AtLoop, Submits, Asked, FinalRuns, NextDownload, DownloadsOf;
    var todo, at := SessionTodo(c, w, file), AtLoop(c, w, file);
    var a, b := LeadSteps(c, w, file, todo), PipeLoop(c, w, late, todo, at.completed, at.runs);
    var last := if AnyLate(late, todo) then [] else [Saved(Snapshot(true, FinalRuns(c, w, file)))];
    LeadReady(c, w, file, todo);
    assert [] + Submits(a) == Submits(a) && [] + NextDownload(w, todo) == NextDownload(w, todo);
    AskedNext([], w, todo);
    PipeLoopReady(c, w, late, todo, at.completed, at.runs, Submits(a));
    ReadyConcat([], a, b);
    PlainReady([] + Submits(a + b), last);
    ReadyConcat([], a + b, last);
    assert PipeSteps(c, w, late, file) == a + b + last;
    NextFirst(w, todo);
    assert Submits(a + b) + [] == Submits(a + b);
  }

  // ----- theorems, for every interleaving -----

  /**
    A benchmark never starts without its model in storage, even though an earlier
    run's cleanup may have removed the repository after it was prefetched.
  */
  lemma {:induction false} NoBenchmarkWithoutModel(c: Config, w: World, late: RunSpec -> bool, file: Option<Snapshot>,
                                states: seq<State>, n: nat)
    requires Execution(PipeSteps(c, w, late, file), states) && n < |states|
    ensures var prog, s := PipeSteps(c, w, late, file), states[n];
      s.pc < |prog| && prog[s.pc].Launch? && prog[s.pc].needs.Some? ==> prog[s.pc].needs.value in s.stored
  {
    hide PipeSteps;
    var prog, s := PipeSteps(c, w, late, file), states[n];
    ReachableInv(prog, states, n);
    PipeFacts(c, w, late, file);
    if s.pc < |prog| && prog[s.pc].Launch? && prog[s.pc].needs.Some? {
      var steps := prog[..s.pc];
      assert steps[|steps| - 1] == Fetch(prog[s.pc].needs.value, true);
    }
  }

  /** What has been submitted belongs to the run whose ticket it bears. */
  lemma OneDownloadPerTicket(w: World, todo: seq<RunSpec>, ds: seq<Download>, i: nat, j: nat)
    requires ds <= DownloadsOf(w, todo) && i < |ds| && j < |ds| && ds[i].ticket == ds[j].ticket
    ensures i == j
  {
    TicketsFall(w, todo);
    assert ds[i] == DownloadOf(w, todo[i..]) && ds[j] == DownloadOf(w, todo[j..]);
  }

  /** A prefetch of this run's key has finished before the run starts. */
  lemma PrefetchAwaited(c: Config, w: World, late: RunSpec -> bool, file: Option<Snapshot>, states: seq<State>, n: nat)
    requires Execution(PipeSteps(c, w, late, file), states) && n < |states|
    ensures var prog, s := PipeSteps(c, w, late, file), states[n];
      s.pc < |prog| && prog[s.pc].Attempt? ==>
        exists j, d :: 0 <= j < s.pc && prog[j].Await? && d in s.finished && d.ticket == prog[j].ticket
                       && d.key == prog[j].key == prog[s.pc].key
  {
    hide PipeSteps, SessionTodo;
    var prog, s := PipeSteps(c, w, late, file), states[n];
    ReachableInv(prog, states, n);
    PipeFacts(c, w, late, file);
    if s.pc < |prog| && prog[s.pc].Attempt? {
      var j :| 0 <= j < s.pc && prog[j].Await? && prog[j].key == prog[s.pc].key;
      var d := AwaitedDownload(w, SessionTodo(c, w, file), prog, s, j);
    }
  }

  /** What an await of the past waited for is finished, and is the prefetch it names. */
  lemma AwaitedDownload(w: World, todo: seq<RunSpec>, prog: seq<Step>, s: State, j: nat) returns (d: Download)
    requires Inv(prog, s) && AwaitsSubmitted([], prog) && Submits(prog) <= DownloadsOf(w, todo)
    requires j < s.pc && prog[j].Await?
    ensures d in s.finished && d.ticket == prog[j].ticket && d.key == prog[j].key
  {
    hide OwnStore, Submits, DownloadsOf, StoreInv;
    var k :| 0 <= k < |s.finished| && s.finished[k].ticket == prog[j].ticket;
    d := s.finished[k];
    assert d in multiset(s.finished) && d in multiset(Submits(prog[..s.pc]));
    var x := PlaceOf(prog, s.pc, d);
    var asked := [] + Submits(prog[..j]);
    var y :| 0 <= y < |asked| && asked[y].ticket == prog[j].ticket && asked[y].key == prog[j].key;
    SubmitsPrefix(prog, j);
    assert asked == Submits(prog[..j]) && Submits(prog)[y] == asked[y];
    OneDownloadPerTicket(w, todo, Submits(prog), x, y);
  }

  lemma PlaceOf(prog: seq<Step>, n: nat, d: Download) returns (x: nat)
    requires n <= |prog| && d in multiset(Submits(prog[..n]))
    ensures x < |Submits(prog)| && Submits(prog)[x] == d
  {
    hide Submits;
    SubmitsPrefix(prog, n);
    var done := Submits(prog[..n]);
    x :| 0 <= x < |done| && done[x] == d;
  }

  lemma SubmitsPrefix(prog: seq<Step>, n: nat)
    requires n <= |prog|
    ensures Submits(prog[..n]) <= Submits(prog)
  {
    assert prog == prog[..n] + prog[n..];
    SubmitConcat(prog[..n], prog[n..]);
  }

  /** The main thread never waits for a prefetch that nobody will finish. */
  lemma PipelineNeverStuck(c: Config, w: World, late: RunSpec -> bool, file: Option<Snapshot>, states: seq<State>,
                           n: nat)
    requires Execution(PipeSteps(c, w, late, file), states) && n < |states|
    requires states[n].pc < |PipeSteps(c, w, late, file)|
    ensures exists t :: Next(PipeSteps(c, w, late, file), states[n], t)
  {
    hide PipeSteps, Submits;
    var prog, s := PipeSteps(c, w, late, file), states[n];
    ReachableInv(prog, states, n);
    PipeFacts(c, w, late, file);
    if MainEnabled(prog, s) {
      assert Next(prog, s, MainStep(prog, s));
    } else {
      var asked := [] + Submits(prog[..s.pc]);
      var y :| 0 <= y < |asked| && asked[y].ticket == prog[s.pc].ticket;
      assert asked[y] in multiset(Submits(prog[..s.pc]));
      assert asked[y] !in s.finished;
      assert asked[y] in multiset(s.queue);
      assert Next(prog, s, PoolStep(s, 0));
    }
  }

  /** Work left: it falls with every step, so every execution ends. */
  function Measure(prog: seq<Step>, s: State): int {
    2 * (|prog| - s.pc) + |s.queue|
  }

  lemma {:induction false} PipelineTerminates(prog: seq<Step>, states: seq<State>, n: nat)
    requires Execution(prog, states) && n < |states|
    ensures Measure(prog, states[n]) + n <= 2 * |prog|
    ensures n <= 2 * |prog|
  {
    ReachableInv(prog, states, n);
    if n > 0 {
      PipelineTerminates(prog, states, n - 1);
      assert Next(prog, states[n - 1], states[(n - 1) + 1]);
    }
  }

  /** When everything is over, each remaining run has been prefetched exactly once. */
  lemma PrefetchedExactlyOnce(c: Config, w: World, late: RunSpec -> bool, file: Option<Snapshot>, states: seq<State>)
    requires Execution(PipeSteps(c, w, late, file), states) && !AnyLate(late, SessionTodo(c, w, file))
    requires var s := states[|states| - 1]; s.pc == |PipeSteps(c, w, late, file)| && s.queue == []
    ensures multiset(states[|states| - 1].finished) == multiset(DownloadsOf(w, SessionTodo(c, w, file)))
  {
    hide PipeSteps, SessionTodo, AnyLate, DownloadsOf, Submits, Ready, Next, Inv;
    var prog, s := PipeSteps(c, w, late, file), states[|states| - 1];
    ReachableInv(prog, states, |states| - 1);
    PipeFacts(c, w, late, file);
    AllFinished(prog, s);
  }

  lemma AllFinished(prog: seq<Step>, s: State)
    requires Inv(prog, s) && s.pc == |prog| && s.queue == []
    ensures multiset(s.finished) == multiset(Submits(prog))
  {
    hide StoreInv, AwaitInv, Submits;
    assert prog[..|prog|] == prog;
  }

  /** A dry run downloads nothing sequentially, yet the parallel runner still prefetches every run. */
  lemma DryRunStillPrefetches(c: Config, w: World, late: RunSpec -> bool, file: Option<Snapshot>)
    requires c.dryRun && !AnyLate(late, SessionTodo(c, w, file))
    ensures forall i :: 0 <= i < |Main(PipeSteps(c, w, late, file))| ==> !Main(PipeSteps(c, w, late, file))[i].Fetch?
    ensures Submits(PipeSteps(c, w, late, file)) == DownloadsOf(w, SessionTodo(c, w, file))
  {
    hide SessionTodo, SessionSteps, AnyLate, PipeSteps, Main, Submits, DownloadsOf, Ready;
    PipeFacts(c, w, late, file);
    PipelineRefinesSequential(c, w, late, file);
    DrySessionFetchesNothing(c, w, file);
  }

  lemma DrySessionFetchesNothing(c: Config, w: World, file: Option<Snapshot>)
    requires c.dryRun
    ensures forall i :: 0 <= i < |SessionSteps(c, w, file)| ==> !SessionSteps(c, w, file)[i].Fetch?
  {
    hide SessionTodo, SessionSteps, LoopSteps, AtLoop, FinalRuns, FullPlan, Registered;
    SessionSplit(c, w, file);
    var at := AtLoop(c, w, file);
    DryLoopFetchesNothing(c, w, SessionTodo(c, w, file), at.completed, at.runs);
    var open, loop := OpenSteps(c, w, file), SessionLoop(c, w, file);
    assert SessionSteps(c, w, file) == open + loop + [Saved(Snapshot(true, FinalRuns(c, w, file)))];
  }

  lemma {:induction false} DryLoopFetchesNothing(c: Config, w: World, rest: seq<RunSpec>, completed: bool,
                                                 runs: seq<RunState>)
    requires c.dryRun
    ensures forall i :: 0 <= i < |LoopSteps(c, w, rest, completed, runs)| ==>
            !LoopSteps(c, w, rest, completed, runs)[i].Fetch?
  {
    hide SkipReason, Outcome, UpdateFirst, FinalUpdate, RunAfter;
    if rest != [] {
      var run := RunSteps(c, w, rest[0], completed, runs);
      assert forall i :: 0 <= i < |run| ==> !run[i].Fetch?;
      DryLoopFetchesNothing(c, w, rest[1..], completed, RunAfter(c, w, rest[0], runs));
    }
  }
}
