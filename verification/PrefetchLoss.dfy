/**
  When a finished prefetch survives until its run starts: a cleanup by the run before
  it removes whole repositories, files of the next run included.
*/
module PrefetchLoss {
  import opened Basics
  import opened CampaignState
  import opened Planning
  import opened CampaignSession
  import opened CrashResume
  import opened CampaignTheorems
  import opened ParallelRunner
  import opened PrefetchPool

  // ----- where the passes lie in the program -----

  /** The first n passes of the pipelined loop. */
  function Passes(c: Config, w: World, rest: seq<RunSpec>, completed: bool, runs: seq<RunState>, n: nat): seq<Step>
    requires n <= |rest|
    decreases n
  {
    if n == 0 then []
    else PassSteps(c, w, rest, completed, runs)
         + Passes(c, w, rest[1..], completed, RunAfter(c, w, rest[0], runs), n - 1)
  }

  /** The campaign's runs when pass n begins. */
  function RunsBefore(c: Config, w: World, rest: seq<RunSpec>, runs: seq<RunState>, n: nat): seq<RunState>
    requires n <= |rest|
    decreases n
  {
    if n == 0 then runs else RunsBefore(c, w, rest[1..], RunAfter(c, w, rest[0], runs), n - 1)
  }

  predicate InTime(late: RunSpec -> bool, rest: seq<RunSpec>, n: nat) {
    n <= |rest| && forall i :: 0 <= i < n ==> !late(rest[i])
  }

  lemma {:induction false} LoopIsPasses(c: Config, w: World, late: RunSpec -> bool, rest: seq<RunSpec>, completed: bool,
                                        runs: seq<RunState>, n: nat)
    requires InTime(late, rest, n)
    ensures PipeLoop(c, w, late, rest, completed, runs)
            == Passes(c, w, rest, completed, runs, n)
               + PipeLoop(c, w, late, rest[n..], completed, RunsBefore(c, w, rest, runs, n))
    decreases n
  {
    hide PassSteps, RunAfter;
    if n == 0 {
      assert rest[0..] == rest;
    } else {
      assert rest[1..][n - 1..] == rest[n..];
      LoopIsPasses(c, w, late, rest[1..], completed, RunAfter(c, w, rest[0], runs), n - 1);
    }
  }

  lemma {:induction false} PassesNext(c: Config, w: World, rest: seq<RunSpec>, completed: bool, runs: seq<RunState>,
                                      n: nat)
    requires n < |rest|
    ensures Passes(c, w, rest, completed, runs, n + 1)
            == Passes(c, w, rest, completed, runs, n)
              + PassSteps(c, w, rest[n..], completed, RunsBefore(c, w, rest, runs, n))
    decreases n
  {
    hide PassSteps, RunAfter;
    if n == 0 {
      assert rest[0..] == rest;
      assert Passes(c, w, rest[1..], completed, RunAfter(c, w, rest[0], runs), 0) == [];
    } else {
      assert rest[1..][n - 1..] == rest[n..];
      PassesNext(c, w, rest[1..], completed, RunAfter(c, w, rest[0], runs), n - 1);
    }
  }

  /** A session from its run loop on: the steps before the loop, the runs to do, and the state then. */
  datatype Line = Line(c: Config, w: World, lead: seq<Step>, todo: seq<RunSpec>, completed: bool, runs: seq<RunState>)

  /** prog begins with the lead and the pipelined loop, and its traffic with the pool is that of these runs. */
  ghost predicate Piped(l: Line, late: RunSpec -> bool, prog: seq<Step>) {
    && l.lead + PipeLoop(l.c, l.w, late, l.todo, l.completed, l.runs) <= prog
    && AwaitsSubmitted([], prog) && Submits(prog) <= DownloadsOf(l.w, l.todo)
  }

  function LineOf(c: Config, w: World, file: Option<Snapshot>): Line {
    var todo, at := SessionTodo(c, w, file), AtLoop(c, w, file);
    Line(c, w, LeadSteps(c, w, file, todo), todo, at.completed, at.runs)
  }

  /** Every pipelined session is such a program. */
  lemma SessionIsPiped(c: Config, w: World, late: RunSpec -> bool, file: Option<Snapshot>)
    ensures Piped(LineOf(c, w, file), late, PipeSteps(c, w, late, file))
  {
    hide SessionTodo, PipeLoop, AtLoop, PipeSteps, OpenSteps, FinalRuns, AnyLate, LeadSteps;
    hide AwaitsSubmitted, Submits, DownloadsOf, LaunchesFed, AttemptsAwaited;
    PipeFacts(c, w, late, file);
    ThreeParts(c, w, late, file);
  }

  /** What comes before the loop, the loop, and what comes after it. */
  lemma ThreeParts(c: Config, w: World, late: RunSpec -> bool, file: Option<Snapshot>)
    ensures var todo, at := SessionTodo(c, w, file), AtLoop(c, w, file);
      PipeSteps(c, w, late, file)
      == LeadSteps(c, w, file, todo) + PipeLoop(c, w, late, todo, at.completed, at.runs)
         + (if AnyLate(late, todo) then [] else [Saved(Snapshot(true, FinalRuns(c, w, file)))])
  {
    hide SessionTodo, OpenSteps, PipeLoop, AtLoop, FinalRuns, AnyLate;
  }

  /** Everything before pass n. */
  function Before(l: Line, n: nat): seq<Step>
    requires n <= |l.todo|
  {
    l.lead + Passes(l.c, l.w, l.todo, l.completed, l.runs, n)
  }

  /** The steps of run n itself, inside its pass. */
  function StepsOf(l: Line, n: nat): seq<Step>
    requires n < |l.todo|
  {
    RunSteps(l.c, l.w, l.todo[n], l.completed, RunsBefore(l.c, l.w, l.todo, l.runs, n))
  }

  /** What pass n does before its run: the await and the next submission. */
  function LeadIn(l: Line, n: nat): seq<Step>
    requires n < |l.todo|
  {
    [AwaitStep(l.todo[n..])] + NextSubmit(l.w, l.todo[n + 1..])
  }

  /** The main thread's position when run n starts. */
  function StartOf(l: Line, n: nat): nat
    requires n < |l.todo|
  {
    |Before(l, n)| + |LeadIn(l, n)|
  }

  lemma BeforeNext(l: Line, n: nat)
    requires n < |l.todo|
    ensures Before(l, n + 1) == Before(l, n) + LeadIn(l, n) + StepsOf(l, n)
  {
    hide Passes, PassSteps, LeadIn, StepsOf, RunsBefore;
    PassesNext(l.c, l.w, l.todo, l.completed, l.runs, n);
    PassIsLeadInAndRun(l, n);
    Regroup(l.lead, Passes(l.c, l.w, l.todo, l.completed, l.runs, n), LeadIn(l, n), StepsOf(l, n));
  }

  lemma PassIsLeadInAndRun(l: Line, n: nat)
    requires n < |l.todo|
    ensures PassSteps(l.c, l.w, l.todo[n..], l.completed, RunsBefore(l.c, l.w, l.todo, l.runs, n))
            == LeadIn(l, n) + StepsOf(l, n)
  {
    hide RunSteps, RunsBefore, SubmitStep, AwaitStep;
    assert l.todo[n..][1..] == l.todo[n + 1..] && l.todo[n..][0] == l.todo[n];
  }

  lemma Regroup(a: seq<Step>, b: seq<Step>, c: seq<Step>, d: seq<Step>)
    ensures a + (b + (c + d)) == a + b + c + d
  {
  }

  /** The program up to the end of run n. */
  lemma ProgramTo(l: Line, late: RunSpec -> bool, prog: seq<Step>, n: nat)
    requires Piped(l, late, prog) && n < |l.todo| && InTime(late, l.todo, n + 1)
    ensures Before(l, n) + LeadIn(l, n) + StepsOf(l, n) <= prog
    ensures StepsOf(l, n) != [] && StepsOf(l, n)[0] == Attempt(l.todo[n].Key())
  {
    hide PipeLoop, Passes, StepsOf, LeadIn, RunsBefore, InTime, AwaitsSubmitted, Submits, DownloadsOf;
    LoopIsPasses(l.c, l.w, late, l.todo, l.completed, l.runs, n + 1);
    BeforeNext(l, n);
    FirstStep(l, n);
    PrefixOfSum(l.lead, Passes(l.c, l.w, l.todo, l.completed, l.runs, n + 1),
                PipeLoop(l.c, l.w, late, l.todo[n + 1..], l.completed, RunsBefore(l.c, l.w, l.todo, l.runs, n + 1)),
                prog);
  }

  lemma PrefixOfSum(a: seq<Step>, b: seq<Step>, c: seq<Step>, whole: seq<Step>)
    requires a + (b + c) <= whole
    ensures a + b <= whole
  {
    assert a + (b + c) == (a + b) + c;
  }

  lemma FirstStep(l: Line, n: nat)
    requires n < |l.todo|
    ensures StepsOf(l, n) != [] && StepsOf(l, n)[0] == Attempt(l.todo[n].Key())
  {
    hide RunSteps;
    RunStartsItself(l.c, l.w, l.todo[n], l.completed, RunsBefore(l.c, l.w, l.todo, l.runs, n));
    RunNotEmpty(l.c, l.w, l.todo[n], l.completed, RunsBefore(l.c, l.w, l.todo, l.runs, n));
  }

  lemma RunNotEmpty(c: Config, w: World, spec: RunSpec, completed: bool, runs: seq<RunState>)
    ensures RunSteps(c, w, spec, completed, runs) != []
  {
    hide SkipReason, WorkSteps, Outcome, UpdateFirst, FinalUpdate;
  }

  /** The prefetch of run n + 1 as it lies in the program. */
  lemma PrefetchPlace(l: Line, late: RunSpec -> bool, prog: seq<Step>, n: nat)
    requires Piped(l, late, prog) && n + 1 < |l.todo| && InTime(late, l.todo, n + 2)
    ensures var first, next, run := StartOf(l, n), StartOf(l, n + 1), StepsOf(l, n);
      && first + |run| < next < |prog| && first > 0
      && prog[first - 1] == SubmitStep(l.w, l.todo[n + 1..])
      && prog[first..first + |run|] == run
      && prog[first + |run|] == AwaitStep(l.todo[n + 1..])
      && prog[next] == Attempt(l.todo[n + 1].Key())
      && forall k :: first + |run| < k < next ==> prog[k].Submit?
  {
    hide Before, StepsOf, LeadIn, Piped, InTime, SubmitStep, AwaitStep;
    var a, b, run, d, more := Before(l, n), LeadIn(l, n), StepsOf(l, n), LeadIn(l, n + 1), StepsOf(l, n + 1);
    ProgramTo(l, late, prog, n + 1);
    BeforeNext(l, n);
    LeadInShape(l, n);
    LeadInShape(l, n + 1);
    Places(prog, a, b, run, d, more);
  }

  /** An await, and a submission unless this is the last run. */
  lemma LeadInShape(l: Line, n: nat)
    requires n < |l.todo|
    ensures LeadIn(l, n) != [] && LeadIn(l, n)[0] == AwaitStep(l.todo[n..])
    ensures forall k :: 0 < k < |LeadIn(l, n)| ==> LeadIn(l, n)[k].Submit?
    ensures n + 1 < |l.todo| ==> |LeadIn(l, n)| == 2 && LeadIn(l, n)[1] == SubmitStep(l.w, l.todo[n + 1..])
  {
  }

  lemma Places(prog: seq<Step>, a: seq<Step>, b: seq<Step>, run: seq<Step>, d: seq<Step>, more: seq<Step>)
    requires a + b + run + d + more <= prog && |b| == 2 && d != [] && more != []
    ensures |a + b + run + d| < |prog|
    ensures prog[|a|] == b[0] && prog[|a| + 1] == b[1]
    ensures prog[|a + b|..|a + b| + |run|] == run
    ensures forall k :: |a + b + run| <= k < |a + b + run + d| ==> prog[k] == d[k - |a + b + run|]
    ensures prog[|a + b + run + d|] == more[0]
  {
    Inside(prog, [], a, b + run + d + more);
    Inside(prog, a, b, run + d + more);
    Inside(prog, a + b, run, d + more);
    Inside(prog, a + b + run, d, more);
    Inside(prog, a + b + run + d, more, []);
  }

  /** A part of a program that starts with a, part and b. */
  lemma Inside(prog: seq<Step>, a: seq<Step>, part: seq<Step>, b: seq<Step>)
    requires a + part + b <= prog
    ensures prog[|a|..|a + part|] == part
    ensures forall k :: |a| <= k < |a + part| ==> prog[k] == part[k - |a|]
  {
    assert forall k :: |a| <= k < |a + part| ==> prog[k] == (a + part + b)[k];
  }

  // ----- what a run removes -----

  /** A run removes its own repository, after a failure or a cleaned-up success, and nothing else. */
  lemma RemovesExactly(c: Config, w: World, spec: RunSpec, completed: bool, runs: seq<RunState>, repo: string)
    ensures Remove(repo) in RunSteps(c, w, spec, completed, runs) <==>
      && spec.repoId == Some(repo) && repo != "" && SkipReason(c, w, spec).None?
      && (Outcome(c, w, spec).Raised? || (!c.dryRun && c.cleanupAfterRun))
  {
    hide SkipReason, Outcome, UpdateFirst, FinalUpdate;
    WorkRemoves(c, w, spec, repo);
    RemoveStepsHold(spec, repo);
  }

  lemma RemoveStepsHold(spec: RunSpec, repo: string)
    ensures Remove(repo) in RemoveSteps(spec) <==> spec.repoId == Some(repo) && repo != ""
  {
  }

  lemma WorkRemoves(c: Config, w: World, spec: RunSpec, repo: string)
    ensures Remove(repo) in WorkSteps(c, w, spec) <==>
      !c.dryRun && Outcome(c, w, spec).Ok? && c.cleanupAfterRun && spec.repoId == Some(repo) && repo != ""
  {
    hide Outcome;
    RemoveStepsHold(spec, repo);
  }

  /** A run fetches nothing after it has removed something. */
  lemma NoFetchAfterRemove(c: Config, w: World, spec: RunSpec, completed: bool, runs: seq<RunState>)
    ensures var run := RunSteps(c, w, spec, completed, runs);
      forall x, y :: 0 <= x < y < |run| && run[x].Remove? ==> !run[y].Fetch?
  {
    hide SkipReason, Outcome, UpdateFirst, FinalUpdate;
    WorkOrder(c, w, spec);
  }

  lemma WorkOrder(c: Config, w: World, spec: RunSpec)
    ensures var work := WorkSteps(c, w, spec); forall x, y :: 0 <= x < y < |work| && work[x].Remove? ==> !work[y].Fetch?
  {
    hide Outcome;
  }

  // ----- a prefetch that is never removed -----

  lemma {:induction false} SubmitsAt(steps: seq<Step>, d: Download)
    requires d in Submits(steps)
    ensures exists k :: 0 <= k < |steps| && steps[k].Submit? && Submitted(steps[k]) == d
  {
    var front := steps[..|steps| - 1];
    if d in Submits(front) {
      SubmitsAt(front, d);
      var k :| 0 <= k < |front| && front[k].Submit? && Submitted(front[k]) == d;
      assert steps[k] == front[k];
    }
  }

  /** d is submitted once, at `sub`, and its repository is not removed between there and `end`. */
  ghost predicate Undisturbed(prog: seq<Step>, d: Download, sub: nat, end: nat) {
    && sub < end <= |prog| && d.brings.Some?
    && (forall k :: 0 <= k < end && prog[k].Submit? && Submitted(prog[k]) == d ==> k == sub)
    && (forall k :: sub < k < end ==> prog[k] != Remove(d.brings.value.repo))
  }

  lemma {:induction false} FinishedIsKept(prog: seq<Step>, states: seq<State>, n: nat, d: Download, sub: nat, end: nat)
    requires Execution(prog, states) && n < |states| && Undisturbed(prog, d, sub, end) && states[n].pc <= end
    ensures d in states[n].finished ==> d.brings.value in states[n].stored
  {
    hide Inv, MainStep, PoolStep, MainEnabled;
    if n > 0 {
      var s, t := states[n - 1], states[n];
      ReachableInv(prog, states, n - 1);
      assert Next(prog, s, states[(n - 1) + 1]);
      PcGrows(prog, s, t);
      FinishedIsKept(prog, states, n - 1, d, sub, end);
      if MainEnabled(prog, s) && t == MainStep(prog, s) {
        MainStepKeeps(prog, s, d, sub, end);
      } else {
        var i :| 0 <= i < |s.queue| && t == PoolStep(s, i);
        PoolStepKeeps(s, i, d);
      }
    }
  }

  lemma PcGrows(prog: seq<Step>, s: State, t: State)
    requires Next(prog, s, t)
    ensures s.pc <= t.pc
  {
  }

  lemma MainStepKeeps(prog: seq<Step>, s: State, d: Download, sub: nat, end: nat)
    requires Inv(prog, s) && MainEnabled(prog, s) && Undisturbed(prog, d, sub, end) && MainStep(prog, s).pc <= end
    requires d in s.finished ==> d.brings.value in s.stored
    ensures d in MainStep(prog, s).finished ==> d.brings.value in MainStep(prog, s).stored
  {
    hide Inv, Done;
    if d in s.finished {
      FinishedWasSubmitted(prog, s, d);
      var k :| 0 <= k < s.pc && prog[k].Submit? && Submitted(prog[k]) == d;
      assert k == sub < s.pc < end;
    }
  }

  lemma PoolStepKeeps(s: State, i: nat, d: Download)
    requires i < |s.queue| && d.brings.Some? && (d in s.finished ==> d.brings.value in s.stored)
    ensures d in PoolStep(s, i).finished ==> d.brings.value in PoolStep(s, i).stored
  {
    assert d in PoolStep(s, i).finished ==> d in s.finished || d == s.queue[i];
  }

  lemma FinishedWasSubmitted(prog: seq<Step>, s: State, d: Download)
    requires Inv(prog, s) && d in s.finished
    ensures exists k :: 0 <= k < s.pc && prog[k].Submit? && Submitted(prog[k]) == d
  {
    hide OwnStore;
    assert d in multiset(s.finished) && d in multiset(Submits(prog[..s.pc]));
    SubmitsAt(prog[..s.pc], d);
    var k :| 0 <= k < s.pc && prog[..s.pc][k].Submit? && Submitted(prog[..s.pc][k]) == d;
    assert prog[k] == prog[..s.pc][k];
  }

  // ----- an execution that loses it -----

  /** The pool finishes each download at once: the main thread gets anywhere. */
  lemma {:induction false} Eager(prog: seq<Step>, k: nat) returns (states: seq<State>)
    requires AwaitsSubmitted([], prog) && k <= |prog|
    ensures Execution(prog, states)
    ensures var s := states[|states| - 1]; s.pc == k && s.queue == [] && s.finished == Submits(prog[..k])
  {
    if k == 0 {
      states := [State(0, [], [], {})];
    } else {
      states := Eager(prog, k - 1);
      var s, step := states[|states| - 1], prog[k - 1];
      assert prog[..k][..k - 1] == prog[..k - 1];
      if step.Await? {
        AwaitEnabled(prog, k - 1);
      }
      var t := MainStep(prog, s);
      states := Extend(prog, states, t);
      if step.Submit? {
        assert t.queue == [Submitted(step)];
        states := Extend(prog, states, PoolStep(t, 0));
      } else {
        assert Submits(prog[..k - 1]) + [] == Submits(prog[..k - 1]);
      }
    }
  }

  lemma AwaitEnabled(prog: seq<Step>, k: nat)
    requires AwaitsSubmitted([], prog) && k < |prog| && prog[k].Await?
    ensures Done(Submits(prog[..k]), prog[k].ticket)
  {
    hide Submits;
    assert [] + Submits(prog[..k]) == Submits(prog[..k]);
  }

  lemma Extend(prog: seq<Step>, states: seq<State>, t: State) returns (more: seq<State>)
    requires Execution(prog, states) && Next(prog, states[|states| - 1], t)
    ensures more == states + [t] && Execution(prog, more)
  {
    hide Next;
    more := states + [t];
  }

  /** The main thread goes on alone, up to `end`, without fetching this artifact. */
  lemma {:induction false} MainOnly(prog: seq<Step>, states: seq<State>, end: nat, a: Artifact)
    returns (more: seq<State>)
    requires Execution(prog, states)
    requires var s := states[|states| - 1];
      && s.pc <= end <= |prog| && a !in s.stored
      && (forall k :: s.pc <= k < end && prog[k].Await? ==> Done(s.finished, prog[k].ticket))
      && (forall k :: s.pc <= k < end ==> !prog[k].Fetch?)
    ensures Execution(prog, more)
    ensures var t := more[|more| - 1]; t.pc == end && a !in t.stored
    decreases end - states[|states| - 1].pc
  {
    hide Done;
    var s := states[|states| - 1];
    if s.pc == end {
      more := states;
    } else {
      var t := MainStep(prog, s);
      assert Next(prog, s, t);
      var next := Extend(prog, states, t);
      assert next[|next| - 1] == t;
      more := MainOnly(prog, next, end, a);
    }
  }

  /** The removal at `gone` undoes what was prefetched before it. */
  lemma LosingExecution(prog: seq<Step>, d: Download, sub: nat, gone: nat, end: nat) returns (states: seq<State>)
    requires AwaitsSubmitted([], prog) && sub < gone < end <= |prog| && d.brings.Some?
    requires prog[sub].Submit? && Submitted(prog[sub]) == d && prog[gone] == Remove(d.brings.value.repo)
    requires forall k :: gone < k < end && prog[k].Await? ==> prog[k].ticket == d.ticket
    requires forall k :: gone < k < end ==> !prog[k].Fetch?
    ensures Execution(prog, states)
    ensures var s := states[|states| - 1]; s.pc == end && d.brings.value !in s.stored
  {
    hide Submits;
    states := Eager(prog, gone);
    var s := states[|states| - 1];
    var t := MainStep(prog, s);
    states := Extend(prog, states, t);
    SubmittedBy(prog, sub, gone);
    var i :| 0 <= i < |s.finished| && s.finished[i] == d;
    assert Done(s.finished, d.ticket);
    assert d.brings.value !in t.stored;
    states := MainOnly(prog, states, end, d.brings.value);
  }

  lemma SubmittedBy(prog: seq<Step>, sub: nat, k: nat)
    requires sub < k <= |prog| && prog[sub].Submit?
    ensures Submitted(prog[sub]) in Submits(prog[..k])
  {
    var step := [prog[sub]];
    assert prog[..k] == prog[..sub] + (step + prog[sub + 1..k]);
    SubmitConcat(prog[..sub], step + prog[sub + 1..k]);
    SubmitConcat(step, prog[sub + 1..k]);
    assert step[..0] == [] && Submits(step) == [Submitted(prog[sub])];
  }

  // ----- the exact condition -----

  /** Some execution reaches the start of run n + 1 without these files. */
  ghost predicate CanBeLost(l: Line, prog: seq<Step>, n: nat, a: Artifact)
    requires n + 1 < |l.todo|
  {
    exists states: seq<State> :: Execution(prog, states)
      && states[|states| - 1].pc == StartOf(l, n + 1) && a !in states[|states| - 1].stored
  }

  /**
    When the download of run n + 1 succeeds, its files are in storage at the start of
    that run in every execution exactly when run n does not remove their repository.
  */
  lemma PrefetchSurvivesExactly(l: Line, late: RunSpec -> bool, prog: seq<Step>, n: nat)
    requires Piped(l, late, prog) && n + 1 < |l.todo| && InTime(late, l.todo, n + 2)
    requires Brings(l.w, l.todo[n + 1]).Some?
    ensures var start, a := StartOf(l, n + 1), Brings(l.w, l.todo[n + 1]).value;
      && start < |prog| && prog[start] == Attempt(l.todo[n + 1].Key())
      && (CanBeLost(l, prog, n, a) <==> Remove(a.repo) in StepsOf(l, n))
  {
    hide StepsOf, StartOf, Piped, InTime;
    var a := Brings(l.w, l.todo[n + 1]).value;
    PrefetchPlace(l, late, prog, n);
    if Remove(a.repo) in StepsOf(l, n) {
      var states := LosesIt(l, late, prog, n);
    } else {
      forall states: seq<State> | Execution(prog, states) && states[|states| - 1].pc == StartOf(l, n + 1)
        ensures a in states[|states| - 1].stored
      {
        KeepsIt(l, late, prog, n, states);
      }
    }
  }

  /**
    In terms of the two runs: the prefetch can be lost exactly when the run before uses
    the same repository, is not skipped, and fails or is cleaned up after success.
  */
  lemma LossCondition(l: Line, late: RunSpec -> bool, prog: seq<Step>, n: nat)
    requires Piped(l, late, prog) && n + 1 < |l.todo| && InTime(late, l.todo, n + 2)
    requires Brings(l.w, l.todo[n + 1]).Some?
    ensures var a, before := Brings(l.w, l.todo[n + 1]).value, l.todo[n];
      CanBeLost(l, prog, n, a) <==>
        && before.repoId == Some(a.repo) && SkipReason(l.c, l.w, before).None?
        && (Outcome(l.c, l.w, before).Raised? || (!l.c.dryRun && l.c.cleanupAfterRun))
  {
    hide SkipReason, Outcome, CanBeLost, RunSteps, Piped, InTime, RunsBefore;
    PrefetchSurvivesExactly(l, late, prog, n);
    RemovesExactly(l.c, l.w, l.todo[n], l.completed, RunsBefore(l.c, l.w, l.todo, l.runs, n),
                   Brings(l.w, l.todo[n + 1]).value.repo);
  }

  lemma LosesIt(l: Line, late: RunSpec -> bool, prog: seq<Step>, n: nat) returns (states: seq<State>)
    requires Piped(l, late, prog) && n + 1 < |l.todo| && InTime(late, l.todo, n + 2)
    requires var b := Brings(l.w, l.todo[n + 1]); b.Some? && Remove(b.value.repo) in StepsOf(l, n)
    ensures Execution(prog, states)
    ensures states[|states| - 1].pc == StartOf(l, n + 1)
            && Brings(l.w, l.todo[n + 1]).value !in states[|states| - 1].stored
  {
    hide StartOf, StepsOf, AwaitsSubmitted, Execution, InTime, Piped;
    var d, first := DownloadOf(l.w, l.todo[n + 1..]), StartOf(l, n);
    PrefetchPlace(l, late, prog, n);
    PoolTraffic(l, late, prog);
    var gone := RemovalPlace(l, late, prog, n, d.brings.value.repo);
    states := LosingExecution(prog, d, first - 1, gone, StartOf(l, n + 1));
  }

  lemma PoolTraffic(l: Line, late: RunSpec -> bool, prog: seq<Step>)
    requires Piped(l, late, prog)
    ensures AwaitsSubmitted([], prog) && Submits(prog) <= DownloadsOf(l.w, l.todo)
  {
    hide AwaitsSubmitted, Submits, DownloadsOf, PipeLoop;
  }

  /** Where run n removes a repository: until run n + 1 starts, nothing is fetched and only its prefetch awaited. */
  lemma RemovalPlace(l: Line, late: RunSpec -> bool, prog: seq<Step>, n: nat, repo: string) returns (gone: nat)
    requires Piped(l, late, prog) && n + 1 < |l.todo| && InTime(late, l.todo, n + 2)
    requires Remove(repo) in StepsOf(l, n)
    ensures StartOf(l, n) <= gone < StartOf(l, n + 1) < |prog| && prog[gone] == Remove(repo)
    ensures forall k :: gone < k < StartOf(l, n + 1) ==> !prog[k].Fetch?
    ensures forall k :: gone < k < StartOf(l, n + 1) && prog[k].Await? ==>
            prog[k].ticket == DownloadOf(l.w, l.todo[n + 1..]).ticket
  {
    hide StartOf, StepsOf, InTime, Piped;
    var run, first := StepsOf(l, n), StartOf(l, n);
    PrefetchPlace(l, late, prog, n);
    QuietAfterRemove(l, n);
    var x :| 0 <= x < |run| && run[x] == Remove(repo);
    gone := first + x;
    forall k | first <= k < first + |run|
      ensures prog[k] == run[k - first]
    {
      assert prog[first..first + |run|][k - first] == prog[k];
    }
  }

  /** After a removal a run neither fetches nor awaits. */
  lemma QuietAfterRemove(l: Line, n: nat)
    requires n < |l.todo|
    ensures forall x, y :: 0 <= x < y < |StepsOf(l, n)| && StepsOf(l, n)[x].Remove? ==>
      !StepsOf(l, n)[y].Fetch? && !StepsOf(l, n)[y].Await?
  {
    hide RunSteps, RunsBefore;
    var runs := RunsBefore(l.c, l.w, l.todo, l.runs, n);
    RunStepsNoPool(l.c, l.w, l.todo[n], l.completed, runs);
    NoFetchAfterRemove(l.c, l.w, l.todo[n], l.completed, runs);
  }

  lemma KeepsIt(l: Line, late: RunSpec -> bool, prog: seq<Step>, n: nat, states: seq<State>)
    requires Piped(l, late, prog) && n + 1 < |l.todo| && InTime(late, l.todo, n + 2)
    requires Execution(prog, states) && Brings(l.w, l.todo[n + 1]).Some?
    ensures var a := Brings(l.w, l.todo[n + 1]).value;
      Remove(a.repo) !in StepsOf(l, n) && states[|states| - 1].pc == StartOf(l, n + 1) ==>
        a in states[|states| - 1].stored
  {
    hide StepsOf, StartOf, DownloadsOf, AwaitsSubmitted, Inv, Submits, InTime, Undisturbed, Next, PipeLoop;
    var d, first := DownloadOf(l.w, l.todo[n + 1..]), StartOf(l, n);
    var await, s := first + |StepsOf(l, n)|, states[|states| - 1];
    PrefetchPlace(l, late, prog, n);
    if Remove(d.brings.value.repo) !in StepsOf(l, n) && s.pc == StartOf(l, n + 1) {
      PlainlyUndisturbed(l, late, prog, n);
      FinishedIsKept(prog, states, |states| - 1, d, first - 1, StartOf(l, n + 1));
      ReachableInv(prog, states, |states| - 1);
      AwaitedIsFinished(l.w, l.todo, prog, s, first - 1, await);
    }
  }

  /** At a position past the await of this submission, it has finished. */
  lemma AwaitedIsFinished(w: World, todo: seq<RunSpec>, prog: seq<Step>, s: State, sub: nat, await: nat)
    requires Inv(prog, s) && AwaitsSubmitted([], prog) && Submits(prog) <= DownloadsOf(w, todo)
    requires sub < await < s.pc && prog[sub].Submit? && prog[await].Await? && prog[sub].ticket == prog[await].ticket
    ensures Submitted(prog[sub]) in s.finished
  {
    hide DownloadsOf, Inv, AwaitsSubmitted, Submits;
    PcInProgram(prog, s);
    var found := AwaitedDownload(w, todo, prog, s, await);
    FinishedWasSubmitted(prog, s, found);
    var k :| 0 <= k < s.pc && prog[k].Submit? && Submitted(prog[k]) == found;
    OneSubmission(w, todo, prog, k, sub);
  }

  lemma PcInProgram(prog: seq<Step>, s: State)
    requires Inv(prog, s)
    ensures s.pc <= |prog|
  {
  }

  lemma PlainlyUndisturbed(l: Line, late: RunSpec -> bool, prog: seq<Step>, n: nat)
    requires Piped(l, late, prog) && n + 1 < |l.todo| && InTime(late, l.todo, n + 2)
    requires Brings(l.w, l.todo[n + 1]).Some?
    ensures StartOf(l, n) > 0
    ensures Remove(Brings(l.w, l.todo[n + 1]).value.repo) !in StepsOf(l, n) ==>
      Undisturbed(prog, DownloadOf(l.w, l.todo[n + 1..]), StartOf(l, n) - 1, StartOf(l, n + 1))
  {
    hide StepsOf, StartOf, DownloadsOf, Submits, InTime, AwaitsSubmitted, PipeLoop;
    var d, run, first := DownloadOf(l.w, l.todo[n + 1..]), StepsOf(l, n), StartOf(l, n);
    PrefetchPlace(l, late, prog, n);
    forall k | 0 <= k < |prog| && prog[k].Submit? && Submitted(prog[k]) == d
      ensures k == first - 1
    {
      OneSubmission(l.w, l.todo, prog, k, first - 1);
    }
    forall k | first <= k < first + |run|
      ensures prog[k] in run
    {
      assert prog[first..first + |run|][k - first] == run[k - first] && run[k - first] in run;
    }
  }

  /** No two submissions of the program bear one ticket. */
  lemma OneSubmission(w: World, todo: seq<RunSpec>, prog: seq<Step>, j: nat, k: nat)
    requires Submits(prog) <= DownloadsOf(w, todo) && j < |prog| && k < |prog|
    requires prog[j].Submit? && prog[k].Submit? && prog[j].ticket == prog[k].ticket
    ensures j == k
  {
    hide DownloadsOf;
    var x := RankOf(prog, j);
    var y := RankOf(prog, k);
    OneDownloadPerTicket(w, todo, Submits(prog), x, y);
  }

  /** How many submissions precede this one: its place among them. */
  lemma RankOf(prog: seq<Step>, k: nat) returns (x: nat)
    requires k < |prog| && prog[k].Submit?
    ensures x == |Submits(prog[..k])| < |Submits(prog)| && Submits(prog)[x] == Submitted(prog[k])
    ensures forall j :: 0 <= j < k && prog[j].Submit? ==> |Submits(prog[..j])| < x
    ensures forall j :: k < j < |prog| && prog[j].Submit? ==> x < |Submits(prog[..j])|
  {
    x := |Submits(prog[..k])|;
    assert prog[..k + 1][..k] == prog[..k];
    assert Submits(prog[..k + 1]) == Submits(prog[..k]) + [Submitted(prog[k])];
    SubmitsPrefix(prog, k + 1);
    forall j | 0 <= j < k && prog[j].Submit?
      ensures |Submits(prog[..j])| < x
    {
      RankGrows(prog, j, k);
    }
    forall j | k < j < |prog| && prog[j].Submit?
      ensures x < |Submits(prog[..j])|
    {
      RankGrows(prog, k, j);
    }
  }

  lemma RankGrows(prog: seq<Step>, j: nat, k: nat)
    requires j < k <= |prog| && prog[j].Submit?
    ensures |Submits(prog[..j])| < |Submits(prog[..k])|
  {
    assert prog[..j + 1][..j] == prog[..j];
    assert Submits(prog[..j + 1]) == Submits(prog[..j]) + [Submitted(prog[j])];
    assert prog[..k][..j + 1] == prog[..j + 1];
    SubmitsPrefix(prog[..k], j + 1);
  }

  // ----- a campaign that loses a prefetch -----

  /** Two models that share one repository, on one engine, with cleanup after each run. */
  function SharedModel(name: string): ModelSpec {
    ModelSpec(name, "", Some("org/model"), None, None, 0.0)
  }

  function SharedConfig(): Config {
    Config([SharedModel("a"), SharedModel("b")], [EngineSpec("vllm", "standard")], QuantFilter([], []), 0.0, 0.0,
           true, false, false)
  }

  /** Downloads and benchmarks all succeed. */
  function KindWorld(): World {
    World(Discovery(_ => [], _ => [], (_, _) => false, _ => 0.0, (_, _) => 0.0),
          _ => None, _ => Open, _ => Ok(Some("/models/org/model")), (_, _) => Ok("/results"), _ => 0.0)
  }

  function NeverLate(): RunSpec -> bool { _ => false }

  function SharedRun(name: string): RunSpec {
    RunSpec(name, "vllm", "bf16", None, Some("org/model"), None, 0.0, "standard")
  }

  lemma SharedPlan()
    ensures FullPlan(SharedConfig(), KindWorld()) == [SharedRun("a"), SharedRun("b")]
  {
    var m1, m2, e, d := SharedModel("a"), SharedModel("b"), EngineSpec("vllm", "standard"), KindWorld().discovery;
    TwoModelPlan(m1, m2, e);
    assert PlanOne(m1, e) == [SharedRun("a")] && PlanOne(m2, e) == [SharedRun("b")];
    assert [SharedRun("a")] + [SharedRun("b")] == [SharedRun("a"), SharedRun("b")];
    TwoRunExpansion([m1, m2], QuantFilter([], []), d, SharedRun("a"), SharedRun("b"));
    assert |"bf16"| != |GGUF_PLACEHOLDER| && |"bf16"| != |OLLAMA_PLACEHOLDER|;
    ExpandsToItself([m1, m2], d, "a");
    ExpandsToItself([m1, m2], d, "b");
  }

  lemma ExpandsToItself(models: seq<ModelSpec>, d: Discovery, name: string)
    requires forall s :: d.parseParams(s) == 0.0
    ensures ExpandOne(models, QuantFilter([], []), d, SharedRun(name)) == [SharedRun(name)]
  {
    hide ParamsOf;
    assert |"bf16"| != |GGUF_PLACEHOLDER| && |"bf16"| != |OLLAMA_PLACEHOLDER|;
  }

  lemma SharedTodo()
    ensures SessionTodo(SharedConfig(), KindWorld(), None) == [SharedRun("a"), SharedRun("b")]
  {
    hide FullPlan, SharedConfig, KindWorld, SharedRun;
    var plan := FullPlan(SharedConfig(), KindWorld());
    SharedPlan();
    RegisteredDone([], plan);
    assert DoneKeys([]) == {};
    assert plan[..1] == [SharedRun("a")] && plan[..1][..0] == [];
    assert Remaining({}, [SharedRun("a")]) == [SharedRun("a")];
    assert Remaining({}, plan) == [SharedRun("a")] + [SharedRun("b")];
  }

  lemma SharedFacts()
    ensures var c, w, a, b := SharedConfig(), KindWorld(), SharedRun("a"), SharedRun("b");
      && Brings(w, b) == Some(Artifact("org/model", None)) && a.repoId == Some("org/model")
      && SkipReason(c, w, a).None? && !c.dryRun && c.cleanupAfterRun
      && InTime(NeverLate(), [a, b], 2)
  {
    assert "org/model"[0] == 'o' && "/models/org/model"[0] == '/';
    assert |"vllm"| != |"ollama"|;
  }

  /** In this campaign the prefetch for model b can be lost to the cleanup after model a. */
  lemma SharedRepositoryLosesPrefetch() returns (states: seq<State>)
    ensures Execution(PipeSteps(SharedConfig(), KindWorld(), NeverLate(), None), states)
    ensures var prog, s := PipeSteps(SharedConfig(), KindWorld(), NeverLate(), None), states[|states| - 1];
      && s.pc < |prog| && prog[s.pc] == Attempt(SharedRun("b").Key())
      && Artifact("org/model", None) !in s.stored
  {
    hide SharedConfig, KindWorld, NeverLate, SharedRun, SessionTodo, PipeSteps, Piped, Execution, Brings, SkipReason;
    hide InTime;
    hide AtLoop, LeadSteps;
    var c, w, late := SharedConfig(), KindWorld(), NeverLate();
    SharedTodo();
    SharedFacts();
    SessionIsPiped(c, w, late, None);
    states := LostAfter(LineOf(c, w, None), late, PipeSteps(c, w, late, None), SharedRun("a"), SharedRun("b"),
                        Artifact("org/model", None));
  }

  lemma LostAfter(l: Line, late: RunSpec -> bool, prog: seq<Step>, x: RunSpec, y: RunSpec, a: Artifact)
    returns (states: seq<State>)
    requires Piped(l, late, prog) && l.todo == [x, y] && InTime(late, [x, y], 2) && Brings(l.w, y) == Some(a)
    requires x.repoId == Some(a.repo) && SkipReason(l.c, l.w, x).None? && !l.c.dryRun && l.c.cleanupAfterRun
    ensures Execution(prog, states)
    ensures var s := states[|states| - 1]; s.pc < |prog| && prog[s.pc] == Attempt(y.Key()) && a !in s.stored
  {
    hide Piped, StartOf, Next, Brings, SkipReason, Outcome, StepsOf, InTime;
    LossCondition(l, late, prog, 0);
    PrefetchSurvivesExactly(l, late, prog, 0);
    states :| Execution(prog, states) && states[|states| - 1].pc == StartOf(l, 1) && a !in states[|states| - 1].stored;
  }
}
