/**
  Crash and resume. A session that crashes has performed some prefix of its
  steps; the state file then holds the last snapshot in that prefix, and the next
  session resumes from it. Configuration and world may differ from one session
  to the next.
*/
module CrashResume {
  import opened Basics
  import opened CampaignState
  import opened Planning
  import opened CampaignSession

  /** One process lifetime: it stops after `cut` steps, or at its end if that comes first. */
  datatype Session = Session(config: Config, world: World, cut: nat)

  /** The state file after some steps: the last snapshot saved. */
  function FileAfter(file: Option<Snapshot>, steps: seq<Step>): Option<Snapshot>
    decreases |steps|
  {
    if steps == [] then file
    else FileAfter(if steps[0].Saved? then Some(steps[0].snapshot) else file, steps[1..])
  }

  function Finished(file: Option<Snapshot>): set<string> {
    DoneKeys(Opening(file).runs)
  }

  function Trace(s: Session, file: Option<Snapshot>): seq<Step> {
    Take(SessionSteps(s.config, s.world, file), s.cut)
  }

  /** All steps of successive sessions over one state file. */
  function History(ss: seq<Session>, file: Option<Snapshot>): seq<Step> {
    if ss == [] then []
    else Trace(ss[0], file) + History(ss[1..], FileAfter(file, Trace(ss[0], file)))
  }

  predicate Crashed(s: Session, file: Option<Snapshot>) {
    s.cut < |SessionSteps(s.config, s.world, file)|
  }

  function Crashes(ss: seq<Session>, file: Option<Snapshot>): nat {
    if ss == [] then 0
    else (if Crashed(ss[0], file) then 1 else 0) + Crashes(ss[1..], FileAfter(file, Trace(ss[0], file)))
  }

  /** The keys whose execution starts, in order. */
  function AttemptKeys(steps: seq<Step>): seq<string> {
    if steps == [] then []
    else (if steps[0].Attempt? then [steps[0].key] else []) + AttemptKeys(steps[1..])
  }

  ghost predicate PlansDistinct(ss: seq<Session>) {
    forall s :: s in ss ==> Distinct(SpecKeys(FullPlan(s.config, s.world)))
  }

  // ----- the step invariant -----

  /** No finished run starts; no save forgets a finished run or a registered one, or duplicates a key. */
  ghost predicate StepSafe(file: Option<Snapshot>, step: Step) {
    match step
    case Attempt(k) => k !in Finished(file)
    case Saved(s) =>
      && Finished(file) <= DoneKeys(s.runs)
      && KeysOf(Opening(file).runs) <= KeysOf(s.runs)
      && (Distinct(KeysOf(Opening(file).runs)) ==> Distinct(KeysOf(s.runs)))
    case _ => true
  }

  ghost predicate Safe(file: Option<Snapshot>, steps: seq<Step>)
    decreases |steps|
  {
    steps == [] || (StepSafe(file, steps[0]) && Safe(FileAfter(file, steps[..1]), steps[1..]))
  }

  lemma SaveIsSafe(file: Option<Snapshot>, s: Snapshot)
    requires Finished(file) <= DoneKeys(s.runs)
    requires KeysOf(Opening(file).runs) <= KeysOf(s.runs)
    requires Distinct(KeysOf(Opening(file).runs)) ==> Distinct(KeysOf(s.runs))
    ensures StepSafe(file, Saved(s))
  {
  }

  lemma {:induction false} FileAfterConcat(file: Option<Snapshot>, a: seq<Step>, b: seq<Step>)
    ensures FileAfter(file, a + b) == FileAfter(FileAfter(file, a), b)
    decreases |a|
  {
    if a == [] {
      assert a + b == b;
    } else {
      assert (a + b)[1..] == a[1..] + b;
      FileAfterConcat(if a[0].Saved? then Some(a[0].snapshot) else file, a[1..], b);
    }
  }

  lemma {:induction false} SafeConcat(file: Option<Snapshot>, a: seq<Step>, b: seq<Step>)
    requires Safe(file, a) && Safe(FileAfter(file, a), b)
    ensures Safe(file, a + b)
    decreases |a|
  {
    hide StepSafe;
    if a == [] {
      assert a + b == b;
    } else {
      assert (a + b)[1..] == a[1..] + b && (a + b)[..1] == a[..1];
      FileAfterConcat(file, a[..1], a[1..]);
      assert a == a[..1] + a[1..];
      SafeConcat(FileAfter(file, a[..1]), a[1..], b);
    }
  }

  lemma {:induction false} SafePrefix(file: Option<Snapshot>, steps: seq<Step>, n: nat)
    requires Safe(file, steps) && n <= |steps|
    ensures Safe(file, steps[..n])
    decreases |steps|
  {
    hide StepSafe;
    if n > 0 {
      SafePrefix(FileAfter(file, steps[..1]), steps[1..], n - 1);
      assert steps[..n][..1] == steps[..1] && steps[..n][1..] == steps[1..][..n - 1];
    }
  }

  /** What holds between any two moments of a safe trace. */
  lemma {:induction false} SafeMeaning(file: Option<Snapshot>, steps: seq<Step>, j: nat)
    requires Safe(file, steps) && j <= |steps|
    ensures Finished(file) <= Finished(FileAfter(file, steps[..j]))
    ensures KeysOf(Opening(file).runs) <= KeysOf(Opening(FileAfter(file, steps[..j])).runs)
    ensures Distinct(KeysOf(Opening(file).runs)) ==> Distinct(KeysOf(Opening(FileAfter(file, steps[..j])).runs))
    ensures j < |steps| && steps[j].Attempt? ==> steps[j].key !in Finished(FileAfter(file, steps[..j]))
    decreases |steps|
  {
    hide Finished, Opening, KeysOf, Distinct, FileAfter, StepSafe;
    if j == 0 {
      assert steps[..0] == [];
      NoStep(file);
      if steps != [] {
        StepMeaning(file, steps[0]);
      }
    } else {
      var next := FileAfter(file, steps[..1]);
      assert steps[..1] == [steps[0]];
      StepMeaning(file, steps[0]);
      SafeMeaning(next, steps[1..], j - 1);
      assert steps[..j] == steps[..1] + steps[1..][..j - 1];
      FileAfterConcat(file, steps[..1], steps[1..][..j - 1]);
    }
  }

  lemma NoStep(file: Option<Snapshot>)
    ensures FileAfter(file, []) == file
  {
  }

  lemma StepMeaning(file: Option<Snapshot>, step: Step)
    requires StepSafe(file, step)
    ensures var after := FileAfter(file, [step]);
      && Finished(file) <= Finished(after)
      && KeysOf(Opening(file).runs) <= KeysOf(Opening(after).runs)
      && (Distinct(KeysOf(Opening(file).runs)) ==> Distinct(KeysOf(Opening(after).runs)))
    ensures step.Attempt? ==> step.key !in Finished(file)
  {
    hide DoneKeys, KeysOf, Distinct;
    assert [step][1..] == [];
    NoStep(file);
    if step.Saved? {
      NoStep(Some(step.snapshot));
    }
  }

  /** Steps that neither save nor start a run. */
  ghost predicate Quiet(steps: seq<Step>) {
    forall i :: 0 <= i < |steps| ==> !steps[i].Saved? && !steps[i].Attempt?
  }

  lemma {:induction false} QuietSteps(file: Option<Snapshot>, steps: seq<Step>)
    requires Quiet(steps)
    ensures Safe(file, steps) && FileAfter(file, steps) == file && AttemptKeys(steps) == []
    decreases |steps|
  {
    if steps != [] {
      QuietSteps(file, steps[1..]);
      assert steps[..1][1..] == [];
    }
  }

  lemma {:induction false} AttemptsConcat(a: seq<Step>, b: seq<Step>)
    ensures AttemptKeys(a + b) == AttemptKeys(a) + AttemptKeys(b)
  {
    if a == [] {
      assert a + b == b;
    } else {
      var first := if a[0].Attempt? then [a[0].key] else [];
      assert (a + b)[1..] == a[1..] + b;
      AttemptsConcat(a[1..], b);
      assert AttemptKeys(a + b) == first + AttemptKeys(a[1..] + b) && AttemptKeys(a) == first + AttemptKeys(a[1..]);
    }
  }

  lemma OneSave(file: Option<Snapshot>, s: Snapshot)
    ensures FileAfter(file, [Saved(s)]) == Some(s) && AttemptKeys([Saved(s)]) == []
    ensures StepSafe(file, Saved(s)) ==> Safe(file, [Saved(s)])
  {
  }

  // ----- one run -----

  /** A run's steps, grouped: before the outcome is saved, and from that save on. */
  function RunHead(c: Config, w: World, spec: RunSpec, completed: bool, runs: seq<RunState>): seq<Step> {
    if SkipReason(c, w, spec).Some? then [Attempt(spec.Key())]
    else [Attempt(spec.Key()), Saved(Snapshot(completed, UpdateFirst(runs, spec.Key(), RUNNING_UPDATE)))]
         + WorkSteps(c, w, spec)
  }

  function RunTail(c: Config, w: World, spec: RunSpec, completed: bool, runs: seq<RunState>): seq<Step> {
    [Saved(Snapshot(completed, RunAfter(c, w, spec, runs)))]
    + (if SkipReason(c, w, spec).None? && Outcome(c, w, spec).Raised? then RemoveSteps(spec) else [])
  }

  lemma RunSplit(c: Config, w: World, spec: RunSpec, completed: bool, runs: seq<RunState>)
    ensures RunSteps(c, w, spec, completed, runs)
            == RunHead(c, w, spec, completed, runs) + RunTail(c, w, spec, completed, runs)
  {
    hide WorkSteps, FinalUpdate, SkipReason, Outcome, RemoveSteps, UpdateFirst;
  }

  lemma HeadEffect(c: Config, w: World, spec: RunSpec, completed: bool, runs: seq<RunState>)
    ensures var file := Some(Snapshot(completed, runs));
      var head := RunHead(c, w, spec, completed, runs);
      && AttemptKeys(head) == [spec.Key()] && head[0] == Attempt(spec.Key())
      && (spec.Key() !in DoneKeys(runs) ==> Safe(file, head))
      && FileAfter(file, head) == Some(Snapshot(completed,
           if SkipReason(c, w, spec).Some? then runs else UpdateFirst(runs, spec.Key(), RUNNING_UPDATE)))
  {
    hide SkipReason, WorkSteps, UpdateFirst, DoneKeys, FileAfter, AttemptKeys, Safe, StepSafe, JoinKey;
    var key := spec.Key();
    var file := Some(Snapshot(completed, runs));
    OneAttempt(file, key);
    if SkipReason(c, w, spec).None? {
      var mid := Snapshot(completed, UpdateFirst(runs, key, RUNNING_UPDATE));
      var work := WorkSteps(c, w, spec);
      WorkIsQuiet(c, w, spec);
      QuietSteps(Some(mid), work);
      OpeningEffect(file, key, mid);
      var opening := [Attempt(key), Saved(mid)];
      FileAfterConcat(file, opening, work);
      AttemptsConcat(opening, work);
      if key !in DoneKeys(runs) {
        RunningIsSafe(completed, runs, key);
        SafeConcat(file, opening, work);
      }
    }
  }

  lemma OneAttempt(file: Option<Snapshot>, key: string)
    ensures FileAfter(file, [Attempt(key)]) == file && AttemptKeys([Attempt(key)]) == [key]
    ensures key !in Finished(file) ==> StepSafe(file, Attempt(key)) && Safe(file, [Attempt(key)])
    ensures file.Some? ==> Finished(file) == DoneKeys(file.value.runs)
  {
    hide DoneKeys;
    var step := [Attempt(key)];
    assert step[1..] == [];
  }

  /** A start and the save that marks the run as running. */
  lemma OpeningEffect(file: Option<Snapshot>, key: string, mid: Snapshot)
    ensures var opening := [Attempt(key), Saved(mid)];
      && AttemptKeys(opening) == [key] && FileAfter(file, opening) == Some(mid)
      && (key !in Finished(file) && StepSafe(file, Saved(mid)) ==> Safe(file, opening))
  {
    hide Finished, StepSafe, Safe, FileAfter, AttemptKeys;
    OneAttempt(file, key);
    OneSave(file, mid);
    assert [Attempt(key), Saved(mid)] == [Attempt(key)] + [Saved(mid)];
    FileAfterConcat(file, [Attempt(key)], [Saved(mid)]);
    AttemptsConcat([Attempt(key)], [Saved(mid)]);
    if key !in Finished(file) && StepSafe(file, Saved(mid)) {
      SafeConcat(file, [Attempt(key)], [Saved(mid)]);
    }
  }

  lemma WorkIsQuiet(c: Config, w: World, spec: RunSpec)
    ensures Quiet(WorkSteps(c, w, spec))
  {
    hide Outcome, JoinKey;
  }

  lemma RunningIsSafe(completed: bool, runs: seq<RunState>, key: string)
    requires key !in DoneKeys(runs)
    ensures StepSafe(Some(Snapshot(completed, runs)),
                     Saved(Snapshot(completed, UpdateFirst(runs, key, RUNNING_UPDATE))))
  {
    hide UpdateFirst, DoneKeys, KeysOf;
    UpdateKeepsKeys(runs, key, RUNNING_UPDATE);
    UpdateKeepsDone(runs, key, RUNNING_UPDATE);
  }

  lemma TailEffect(c: Config, w: World, spec: RunSpec, completed: bool, runs: seq<RunState>, file: Option<Snapshot>)
    ensures var tail := RunTail(c, w, spec, completed, runs);
      var after := Snapshot(completed, RunAfter(c, w, spec, runs));
      && AttemptKeys(tail) == []
      && tail[0] == Saved(after)
      && Quiet(tail[1..])
      && FileAfter(file, tail) == Some(after)
      && (StepSafe(file, Saved(after)) ==> Safe(file, tail))
  {
    hide SkipReason, Outcome, RunAfter, StepSafe;
    var after := Snapshot(completed, RunAfter(c, w, spec, runs));
    var tail := RunTail(c, w, spec, completed, runs);
    var cleanup := if SkipReason(c, w, spec).None? && Outcome(c, w, spec).Raised? then RemoveSteps(spec) else [];
    assert tail == [Saved(after)] + cleanup && Quiet(cleanup);
    QuietSteps(Some(after), cleanup);
    OneSave(file, after);
    FileAfterConcat(file, [Saved(after)], cleanup);
    AttemptsConcat([Saved(after)], cleanup);
    if StepSafe(file, Saved(after)) {
      SafeConcat(file, [Saved(after)], cleanup);
    }
  }

  /** A run changes its own entry and no key; a registered key ends up finished. */
  lemma RunAfterEffect(c: Config, w: World, spec: RunSpec, runs: seq<RunState>)
    ensures KeysOf(RunAfter(c, w, spec, runs)) == KeysOf(runs)
    ensures spec.Key() in KeysOf(runs) ==> DoneKeys(RunAfter(c, w, spec, runs)) == DoneKeys(runs) + {spec.Key()}
    ensures spec.Key() !in DoneKeys(runs) ==>
      DoneKeys(runs) <= DoneKeys(RunAfter(c, w, spec, runs)) <= DoneKeys(runs) + {spec.Key()}
  {
    hide SkipReason, Outcome;
    var key, last := spec.Key(), FinalUpdate(c, w, spec);
    var mid := UpdateFirst(runs, key, RUNNING_UPDATE);
    UpdateKeepsKeys(runs, key, RUNNING_UPDATE);
    UpdateKeepsKeys(mid, key, last);
    UpdateKeepsKeys(runs, key, last);
    if key in KeysOf(runs) {
      TerminalUpdateFinishes(runs, key, last);
      TerminalUpdateFinishes(mid, key, last);
      RewriteTwice(runs, key, RUNNING_UPDATE, last);
    }
    if key !in DoneKeys(runs) {
      UpdateKeepsDone(runs, key, RUNNING_UPDATE);
      UpdateKeepsDone(runs, key, last);
      UpdateKeepsDone(mid, key, last);
    }
  }

  /** The second update of a key overwrites the first. */
  lemma RewriteTwice(runs: seq<RunState>, key: string, u: Update, v: Update)
    ensures UpdateFirst(UpdateFirst(runs, key, u), key, v) == UpdateFirst(runs, key, v)
  {
    var i := FirstIndex(runs, key);
    var mid := UpdateFirst(runs, key, u);
    UpdateKeepsKeys(runs, key, u);
    assert forall j :: 0 <= j < |runs| ==> mid[j].Key() == KeysOf(mid)[j] == KeysOf(runs)[j] == runs[j].Key();
    assert FirstIndex(mid, key) == i;
  }

  lemma RunEffect(c: Config, w: World, spec: RunSpec, completed: bool, runs: seq<RunState>)
    ensures var file := Some(Snapshot(completed, runs));
      var steps := RunSteps(c, w, spec, completed, runs);
      && FileAfter(file, steps) == Some(Snapshot(completed, RunAfter(c, w, spec, runs)))
      && AttemptKeys(steps) == [spec.Key()]
      && (spec.Key() !in DoneKeys(runs) ==> Safe(file, steps))
  {
    hide RunSteps, RunHead, RunTail, RunAfter, SkipReason, Safe;
    var file := Some(Snapshot(completed, runs));
    var head, tail := RunHead(c, w, spec, completed, runs), RunTail(c, w, spec, completed, runs);
    RunSplit(c, w, spec, completed, runs);
    HeadEffect(c, w, spec, completed, runs);
    var mid := FileAfter(file, head);
    TailEffect(c, w, spec, completed, runs, mid);
    FileAfterConcat(file, head, tail);
    AttemptsConcat(head, tail);
    if spec.Key() !in DoneKeys(runs) {
      RunAfterEffect(c, w, spec, runs);
      UpdateKeepsKeys(runs, spec.Key(), RUNNING_UPDATE);
      UpdateKeepsDone(runs, spec.Key(), RUNNING_UPDATE);
      SafeConcat(file, head, tail);
    }
  }

  // ----- the loop -----

  ghost predicate Unfinished(rest: seq<RunSpec>, runs: seq<RunState>) {
    forall i :: 0 <= i < |rest| ==> rest[i].Key() !in DoneKeys(runs)
  }

  lemma UnfinishedNext(c: Config, w: World, rest: seq<RunSpec>, runs: seq<RunState>)
    requires rest != [] && Distinct(SpecKeys(rest)) && Unfinished(rest, runs)
    ensures Distinct(SpecKeys(rest[1..])) && Unfinished(rest[1..], RunAfter(c, w, rest[0], runs))
  {
    hide RunAfter, DoneKeys;
    RunAfterEffect(c, w, rest[0], runs);
    assert SpecKeys(rest[1..]) == SpecKeys(rest)[1..];
    forall i | 0 <= i < |rest[1..]|
      ensures rest[1..][i].Key() !in DoneKeys(RunAfter(c, w, rest[0], runs))
    {
      assert SpecKeys(rest)[i + 1] != SpecKeys(rest)[0];
    }
  }

  lemma {:induction false} LoopEffect(c: Config, w: World, rest: seq<RunSpec>, completed: bool, runs: seq<RunState>)
    ensures FileAfter(Some(Snapshot(completed, runs)), LoopSteps(c, w, rest, completed, runs))
            == Some(Snapshot(completed, LoopAfter(c, w, rest, runs)))
    ensures AttemptKeys(LoopSteps(c, w, rest, completed, runs)) == SpecKeys(rest)
    ensures Distinct(SpecKeys(rest)) && Unfinished(rest, runs) ==>
      Safe(Some(Snapshot(completed, runs)), LoopSteps(c, w, rest, completed, runs))
  {
    hide RunSteps, RunAfter, DoneKeys, StepSafe;
    if rest != [] {
      var file := Some(Snapshot(completed, runs));
      var after := RunAfter(c, w, rest[0], runs);
      var first := RunSteps(c, w, rest[0], completed, runs);
      var more := LoopSteps(c, w, rest[1..], completed, after);
      RunEffect(c, w, rest[0], completed, runs);
      LoopEffect(c, w, rest[1..], completed, after);
      FileAfterConcat(file, first, more);
      AttemptsConcat(first, more);
      assert SpecKeys(rest) == [rest[0].Key()] + SpecKeys(rest[1..]);
      if Distinct(SpecKeys(rest)) && Unfinished(rest, runs) {
        UnfinishedNext(c, w, rest, runs);
        SafeConcat(file, first, more);
      }
    }
  }

  function KeySetOf(rest: seq<RunSpec>): set<string> {
    set k | k in SpecKeys(rest)
  }

  /** After the loop the finished keys are those of before and those it was given. */
  lemma {:induction false} LoopFinishes(c: Config, w: World, rest: seq<RunSpec>, runs: seq<RunState>)
    requires forall k :: k in SpecKeys(rest) ==> k in KeysOf(runs)
    ensures KeysOf(LoopAfter(c, w, rest, runs)) == KeysOf(runs)
    ensures DoneKeys(LoopAfter(c, w, rest, runs)) == DoneKeys(runs) + KeySetOf(rest)
  {
    hide RunAfter, DoneKeys, KeysOf;
    if rest != [] {
      assert SpecKeys(rest) == [rest[0].Key()] + SpecKeys(rest[1..]);
      RunAfterEffect(c, w, rest[0], runs);
      LoopFinishes(c, w, rest[1..], RunAfter(c, w, rest[0], runs));
      assert KeySetOf(rest) == {rest[0].Key()} + KeySetOf(rest[1..]);
    }
  }

  // ----- registration and filtering -----

  lemma {:induction false} NewEntriesMembers(known: set<string>, plan: seq<RunSpec>)
    ensures forall r :: r in NewEntries(known, plan) ==>
            r.status == Pending && r.Key() !in known && r.Key() in SpecKeys(plan)
    ensures forall k :: k in SpecKeys(plan) && k !in known ==> k in KeysOf(NewEntries(known, plan))
  {
    if plan != [] {
      var front, last := plan[..|plan| - 1], plan[|plan| - 1];
      NewEntriesMembers(known, front);
      assert SpecKeys(plan) == SpecKeys(front) + [last.Key()];
      var added := if last.Key() in known then [] else [PendingEntry(last)];
      assert NewEntries(known, plan) == NewEntries(known, front) + added;
      assert KeysOf(NewEntries(known, plan)) == KeysOf(NewEntries(known, front)) + KeysOf(added);
      assert last.Key() !in known ==> KeysOf(added)[0] == last.Key();
    }
  }

  lemma {:induction false} NewEntriesDistinct(known: set<string>, plan: seq<RunSpec>)
    requires Distinct(SpecKeys(plan))
    ensures Distinct(KeysOf(NewEntries(known, plan)))
  {
    hide Distinct, JoinKey;
    FewAreDistinct("");
    if plan == [] {
      assert KeysOf(NewEntries(known, plan)) == [];
    } else {
      var front, last := plan[..|plan| - 1], plan[|plan| - 1];
      var before := NewEntries(known, front);
      assert SpecKeys(plan) == SpecKeys(front) + [last.Key()];
      DistinctConcat(SpecKeys(front), [last.Key()]);
      NewEntriesDistinct(known, front);
      NewEntryKeys(known, front);
      if last.Key() in known {
        assert before + [] == before;
      } else {
        assert KeysOf(before + [PendingEntry(last)]) == KeysOf(before) + [last.Key()];
        FewAreDistinct(last.Key());
        DistinctConcat(KeysOf(before), [last.Key()]);
      }
    }
  }

  lemma FewAreDistinct(key: string)
    ensures Distinct<string>([]) && Distinct([key])
  {
  }

  lemma NewEntryKeys(known: set<string>, plan: seq<RunSpec>)
    ensures forall k :: k in KeysOf(NewEntries(known, plan)) ==> k in SpecKeys(plan) && k !in known
  {
    hide JoinKey, NewEntries, SpecKeys;
    var added := NewEntries(known, plan);
    NewEntriesMembers(known, plan);
    forall k | k in KeysOf(added)
      ensures k in SpecKeys(plan) && k !in known
    {
      var i :| 0 <= i < |added| && KeysOf(added)[i] == k;
      assert added[i] in added;
    }
  }

  lemma KeySetIsKeys(runs: seq<RunState>)
    ensures forall k :: k in KeySet(runs) <==> k in KeysOf(runs)
  {
    assert forall i :: 0 <= i < |runs| ==> KeysOf(runs)[i] == runs[i].Key() && runs[i] in runs;
  }

  lemma RegisteredKeys(runs: seq<RunState>, plan: seq<RunSpec>)
    ensures KeysOf(Registered(runs, plan)) == KeysOf(runs) + KeysOf(NewEntries(KeySet(runs), plan))
    ensures forall k :: k in SpecKeys(plan) ==> k in KeysOf(Registered(runs, plan))
  {
    NewEntriesMembers(KeySet(runs), plan);
    KeySetIsKeys(runs);
  }

  lemma RegisteredDistinct(runs: seq<RunState>, plan: seq<RunSpec>)
    requires Distinct(KeysOf(runs)) && Distinct(SpecKeys(plan))
    ensures Distinct(KeysOf(Registered(runs, plan)))
  {
    hide KeysOf, SpecKeys, NewEntries, Registered, KeySet, Distinct;
    RegisteredKeys(runs, plan);
    NewEntryKeys(KeySet(runs), plan);
    NewEntriesDistinct(KeySet(runs), plan);
    KeySetIsKeys(runs);
    DistinctConcat(KeysOf(runs), KeysOf(NewEntries(KeySet(runs), plan)));
  }

  lemma RegisteredDone(runs: seq<RunState>, plan: seq<RunSpec>)
    ensures DoneKeys(Registered(runs, plan)) == DoneKeys(runs)
  {
    NewEntriesMembers(KeySet(runs), plan);
    var added := NewEntries(KeySet(runs), plan);
    assert forall r :: r in Registered(runs, plan) <==> r in runs || r in added;
  }

  /** Every key that occurs twice in the plan is already finished. */
  ghost predicate RepeatsFinished(done: set<string>, plan: seq<RunSpec>) {
    forall i, j :: 0 <= i < j < |plan| && SpecKeys(plan)[i] == SpecKeys(plan)[j] ==> SpecKeys(plan)[i] in done
  }

  lemma {:induction false} RemainingMembers(done: set<string>, plan: seq<RunSpec>)
    ensures forall k :: k in SpecKeys(Remaining(done, plan)) <==> k in SpecKeys(plan) && k !in done
    ensures forall r :: r in Remaining(done, plan) ==> r in plan
  {
    if plan != [] {
      var front, last := plan[..|plan| - 1], plan[|plan| - 1];
      RemainingMembers(done, front);
      assert plan == front + [last] && SpecKeys(plan) == SpecKeys(front) + [last.Key()];
      var added := if last.Key() in done then [] else [last];
      assert Remaining(done, plan) == Remaining(done, front) + added;
      assert SpecKeys(Remaining(done, plan)) == SpecKeys(Remaining(done, front)) + SpecKeys(added);
      assert last.Key() !in done ==> SpecKeys(added) == [last.Key()];
    }
  }

  lemma {:induction false} RemainingDistinct(done: set<string>, plan: seq<RunSpec>)
    ensures Distinct(SpecKeys(Remaining(done, plan))) <==> RepeatsFinished(done, plan)
  {
    if plan == [] {
      assert SpecKeys(Remaining(done, plan)) == [];
    } else {
      var n := |plan| - 1;
      var front, last := plan[..n], plan[n].Key();
      RemainingDistinct(done, front);
      RemainingMembers(done, front);
      var todo := SpecKeys(Remaining(done, front));
      RepeatsSnoc(done, front, plan[n]);
      assert plan == front + [plan[n]];
      if last in done {
        assert SpecKeys(Remaining(done, plan)) == todo;
      } else {
        assert SpecKeys(Remaining(done, plan)) == todo + [last];
        DistinctConcat(todo, [last]);
      }
    }
  }

  lemma RepeatsSnoc(done: set<string>, front: seq<RunSpec>, last: RunSpec)
    ensures RepeatsFinished(done, front + [last]) <==>
            RepeatsFinished(done, front) && (last.Key() in SpecKeys(front) ==> last.Key() in done)
  {
    var keys, before, k := SpecKeys(front + [last]), SpecKeys(front), last.Key();
    var n := |before|;
    assert keys == before + [k];
    assert keys[n] == k && forall i :: 0 <= i < n ==> keys[i] == before[i];
    if RepeatsFinished(done, front + [last]) {
      assert forall i, j :: 0 <= i < j < n && before[i] == before[j] ==> keys[i] == keys[j];
      if k in before {
        var i :| 0 <= i < n && before[i] == k;
        assert keys[i] == keys[n];
      }
    }
    if RepeatsFinished(done, front) && (k in before ==> k in done) {
      forall i, j | 0 <= i < j < |front + [last]| && keys[i] == keys[j]
        ensures keys[i] in done
      {
        if j < n {
          assert before[i] == before[j];
        } else {
          assert before[i] == k;
        }
      }
    }
  }
}
