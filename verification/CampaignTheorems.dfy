/** What campaigns guarantee over any number of crashed and resumed sessions. */
module CampaignTheorems {
  import opened Basics
  import opened CampaignState
  import opened Planning
  import opened CampaignSession
  import opened CrashResume

  // ----- one whole session -----

  function OpenSteps(c: Config, w: World, file: Option<Snapshot>): seq<Step> {
    (if file.None? then [Saved(Opening(file))] else [])
    + [Saved(Snapshot(Opening(file).completed, Registered(Opening(file).runs, FullPlan(c, w))))]
  }

  /** The state file when the run loop begins. */
  function AtLoop(c: Config, w: World, file: Option<Snapshot>): Snapshot {
    Snapshot(Opening(file).completed, Registered(Opening(file).runs, FullPlan(c, w)))
  }

  function SessionLoop(c: Config, w: World, file: Option<Snapshot>): seq<Step> {
    LoopSteps(c, w, SessionTodo(c, w, file), AtLoop(c, w, file).completed, AtLoop(c, w, file).runs)
  }

  function FinalRuns(c: Config, w: World, file: Option<Snapshot>): seq<RunState> {
    LoopAfter(c, w, SessionTodo(c, w, file), AtLoop(c, w, file).runs)
  }

  lemma SessionSplit(c: Config, w: World, file: Option<Snapshot>)
    ensures SessionSteps(c, w, file)
            == OpenSteps(c, w, file) + SessionLoop(c, w, file) + [Saved(Snapshot(true, FinalRuns(c, w, file)))]
  {
    hide LoopSteps, LoopAfter, SessionTodo, FullPlan, Registered;
  }

  lemma OpenEffect(c: Config, w: World, file: Option<Snapshot>)
    ensures FileAfter(file, OpenSteps(c, w, file)) == Some(AtLoop(c, w, file))
    ensures AttemptKeys(OpenSteps(c, w, file)) == []
    ensures Finished(file) == DoneKeys(AtLoop(c, w, file).runs)
    ensures Distinct(SpecKeys(FullPlan(c, w))) ==> Safe(file, OpenSteps(c, w, file))
  {
    hide FullPlan, Registered, StepSafe, DoneKeys, KeysOf;
    var start, reg := Opening(file), AtLoop(c, w, file);
    var created := if file.None? then [Saved(start)] else [];
    RegisteredDone(start.runs, FullPlan(c, w));
    RegisteredKeys(start.runs, FullPlan(c, w));
    assert Quiet([]);
    QuietSteps(file, []);
    OneSave(file, start);
    var mid := FileAfter(file, created);
    assert Opening(mid) == start;
    OneSave(mid, reg);
    FileAfterConcat(file, created, [Saved(reg)]);
    AttemptsConcat(created, [Saved(reg)]);
    if Distinct(SpecKeys(FullPlan(c, w))) {
      if Distinct(KeysOf(start.runs)) {
        RegisteredDistinct(start.runs, FullPlan(c, w));
      }
      SaveIsSafe(mid, reg);
      SaveIsSafe(file, start);
      SafeConcat(file, created, [Saved(reg)]);
    }
  }

  lemma TodoEffect(c: Config, w: World, file: Option<Snapshot>)
    ensures var todo, runs := SessionTodo(c, w, file), AtLoop(c, w, file).runs;
      && Unfinished(todo, runs)
      && (forall k :: k in SpecKeys(todo) ==> k in KeysOf(runs))
      && (forall k :: k in SpecKeys(FullPlan(c, w)) ==> k in DoneKeys(runs) || k in SpecKeys(todo))
      && (Distinct(SpecKeys(todo)) <==> RepeatsFinished(Finished(file), FullPlan(c, w)))
      && (Distinct(SpecKeys(FullPlan(c, w))) ==> Distinct(SpecKeys(todo)))
  {
    hide FullPlan, Registered, DoneKeys, KeysOf;
    var plan, start := FullPlan(c, w), Opening(file);
    RegisteredDone(start.runs, plan);
    RegisteredKeys(start.runs, plan);
    RemainingMembers(DoneKeys(AtLoop(c, w, file).runs), plan);
    RemainingDistinct(DoneKeys(AtLoop(c, w, file).runs), plan);
    var todo := SessionTodo(c, w, file);
    assert forall i :: 0 <= i < |todo| ==> SpecKeys(todo)[i] == todo[i].Key() && SpecKeys(todo)[i] in SpecKeys(todo);
  }

  lemma SessionEffect(c: Config, w: World, file: Option<Snapshot>)
    ensures FileAfter(file, SessionSteps(c, w, file)) == Some(Snapshot(true, FinalRuns(c, w, file)))
    ensures AttemptKeys(SessionSteps(c, w, file)) == SpecKeys(SessionTodo(c, w, file))
    ensures Distinct(SpecKeys(FullPlan(c, w))) ==> Safe(file, SessionSteps(c, w, file))
  {
    hide FullPlan, Registered, SessionTodo, SessionSteps, OpenSteps, DoneKeys, KeysOf, LoopSteps, LoopAfter, Safe;
    var todo, at := SessionTodo(c, w, file), AtLoop(c, w, file);
    var a, b, last := OpenSteps(c, w, file), SessionLoop(c, w, file), Snapshot(true, FinalRuns(c, w, file));
    SessionSplit(c, w, file);
    OpenEffect(c, w, file);
    TodoEffect(c, w, file);
    LoopEffect(c, w, todo, at.completed, at.runs);
    FileAfterConcat(file, a, b);
    FileAfterConcat(file, a + b, [Saved(last)]);
    AttemptsConcat(a, b);
    AttemptsConcat(a + b, [Saved(last)]);
    OneSave(FileAfter(file, a + b), last);
    if Distinct(SpecKeys(FullPlan(c, w))) {
      SafeConcat(file, a, b);
      SaveIsSafe(FileAfter(file, a + b), last);
      SafeConcat(file, a + b, [Saved(last)]);
    }
  }

  /**
    A session starts each unfinished run at most once exactly when no unfinished
    key occurs twice in its plan.
  */
  lemma {:induction false} AttemptedOncePerSession(c: Config, w: World, file: Option<Snapshot>)
    ensures Distinct(AttemptKeys(SessionSteps(c, w, file))) <==> RepeatsFinished(Finished(file), FullPlan(c, w))
  {
    SessionEffect(c, w, file);
    TodoEffect(c, w, file);
  }

  /** A session that reaches its end leaves every planned run finished, repeated keys or not. */
  lemma SessionFinishesPlan(c: Config, w: World, file: Option<Snapshot>)
    ensures FileAfter(file, SessionSteps(c, w, file)).Some?
    ensures var final := FileAfter(file, SessionSteps(c, w, file)).value;
      && final.completed
      && DoneKeys(final.runs) == Finished(file) + KeySetOf(SessionTodo(c, w, file))
      && (forall k :: k in SpecKeys(FullPlan(c, w)) ==> k in DoneKeys(final.runs))
  {
    hide FullPlan, Registered, SessionTodo, SessionSteps, DoneKeys, KeysOf, LoopSteps, LoopAfter;
    SessionEffect(c, w, file);
    TodoEffect(c, w, file);
    OpenEffect(c, w, file);
    LoopFinishes(c, w, SessionTodo(c, w, file), AtLoop(c, w, file).runs);
  }

  // ----- histories -----

  lemma {:induction false} HistorySafe(ss: seq<Session>, file: Option<Snapshot>)
    requires PlansDistinct(ss)
    ensures Safe(file, History(ss, file))
  {
    hide SessionSteps, Safe, FullPlan;
    if ss == [] {
      QuietSteps(file, []);
    } else {
      var s := ss[0];
      assert s in ss;
      var steps := SessionSteps(s.config, s.world, file);
      SessionEffect(s.config, s.world, file);
      if s.cut <= |steps| {
        SafePrefix(file, steps, s.cut);
      }
      HistorySafe(ss[1..], FileAfter(file, Trace(s, file)));
      SafeConcat(file, Trace(s, file), History(ss[1..], FileAfter(file, Trace(s, file))));
    }
  }

  /**
    Once a run's terminal status is in the state file (after step i), it is never
    started again (step j), whatever crashes and resumptions lie between.
  */
  lemma {:induction false} FinishedNeverRestarted(ss: seq<Session>, file: Option<Snapshot>, i: nat, j: nat)
    requires PlansDistinct(ss)
    requires i <= j < |History(ss, file)| && History(ss, file)[j].Attempt?
    ensures History(ss, file)[j].key !in Finished(FileAfter(file, History(ss, file)[..i]))
  {
    var h := History(ss, file);
    HistorySafe(ss, file);
    SafeMeaning(file, h, j);
    FinishedGrows(ss, file, i, j);
  }

  /** The finished keys, and the registered ones, only grow. */
  lemma {:induction false} FinishedGrows(ss: seq<Session>, file: Option<Snapshot>, i: nat, j: nat)
    requires PlansDistinct(ss)
    requires i <= j <= |History(ss, file)|
    ensures var before, after := FileAfter(file, History(ss, file)[..i]), FileAfter(file, History(ss, file)[..j]);
      && Finished(before) <= Finished(after)
      && KeysOf(Opening(before).runs) <= KeysOf(Opening(after).runs)
  {
    hide History, PlansDistinct, Finished;
    var h := History(ss, file);
    HistorySafe(ss, file);
    SafePrefix(file, h, j);
    SafeSplit(file, h[..j], i);
    assert h[..j][..i] == h[..i];
    var mid := FileAfter(file, h[..i]);
    SafeMeaning(mid, h[..j][i..], j - i);
    assert h[..j][i..][..j - i] == h[..j][i..];
    assert h[..j] == h[..i] + h[..j][i..];
    FileAfterConcat(file, h[..i], h[..j][i..]);
  }

  lemma {:induction false} SafeSplit(file: Option<Snapshot>, steps: seq<Step>, i: nat)
    requires Safe(file, steps) && i <= |steps|
    ensures Safe(FileAfter(file, steps[..i]), steps[i..])
    decreases |steps|
  {
    hide StepSafe;
    if i == 0 {
      assert steps[0..] == steps && steps[..0] == [];
    } else {
      SafeSplit(FileAfter(file, steps[..1]), steps[1..], i - 1);
      assert steps[..i] == steps[..1] + steps[1..][..i - 1] && steps[i..] == steps[1..][i - 1..];
      FileAfterConcat(file, steps[..1], steps[1..][..i - 1]);
    }
  }

  /** At every moment of every history of a fresh campaign, saved keys are pairwise distinct. */
  lemma {:induction false} KeysStayUnique(ss: seq<Session>, i: nat)
    requires PlansDistinct(ss) && i <= |History(ss, None)|
    ensures Distinct(KeysOf(Opening(FileAfter(None, History(ss, None)[..i])).runs))
  {
    HistorySafe(ss, None);
    SafeMeaning(None, History(ss, None), i);
  }

  /** Clean names and discovery, session by session, give what the theorems above need. */
  lemma CleanSessionsHaveDistinctPlans(ss: seq<Session>)
    requires forall s :: s in ss ==>
      NamesClean(s.config.models, s.config.engines) && DiscoveryDistinct(s.world.discovery)
    ensures PlansDistinct(ss)
  {
    forall s | s in ss
      ensures Distinct(SpecKeys(FullPlan(s.config, s.world)))
    {
      PlannedKeysDistinct(s.config.models, s.config.engines, s.config.quantFilter, s.world.discovery);
    }
  }

  /** A run that needs no discovery expands to itself, up to its size estimate. */
  lemma OneRunStaysOne(c: Config, w: World, m: ModelSpec, e: EngineSpec)
    requires e.name == "vllm" && Truthy(m.safetensorsRepo)
    ensures |PlanOne(m, e)| == 1 && |ExpandOne(c.models, c.quantFilter, w.discovery, PlanOne(m, e)[0])| == 1
  {
    assert |"bf16"| != |GGUF_PLACEHOLDER| && |"bf16"| != |OLLAMA_PLACEHOLDER|;
  }

  lemma DuplicatePlan(m: ModelSpec, e: EngineSpec, c: Config, w: World)
    requires e.name == "vllm" && Truthy(m.safetensorsRepo)
    requires c.models == [m, m] && c.engines == [e]
    ensures |FullPlan(c, w)| == 2 && FullPlan(c, w)[0] == FullPlan(c, w)[1]
  {
    hide PlanOne, ExpandOne, Plan, Expand;
    OneRunStaysOne(c, w, m, e);
    var p := PlanOne(m, e)[0];
    TwoModelPlan(m, m, e);
    TwoRunExpansion(c.models, c.quantFilter, w.discovery, p, p);
    assert PlanOne(m, e) + PlanOne(m, e) == [p, p];
  }

  /** Two models of one name: in every world a fresh session starts the same run twice. */
  lemma DuplicateModelRunsTwice(m: ModelSpec, e: EngineSpec, c: Config, w: World)
    requires e.name == "vllm" && Truthy(m.safetensorsRepo)
    requires c.models == [m, m] && c.engines == [e]
    ensures !Distinct(AttemptKeys(SessionSteps(c, w, None)))
  {
    hide FullPlan, SessionSteps, Finished;
    var plan := FullPlan(c, w);
    DuplicatePlan(m, e, c, w);
    assert SpecKeys(plan)[0] == SpecKeys(plan)[1];
    NothingFinished();
    assert !RepeatsFinished(Finished(None), plan);
    AttemptedOncePerSession(c, w, None);
  }

  lemma NothingFinished()
    ensures Finished(None) == {}
  {
    assert Opening(None).runs == [];
  }

  // ----- the price of crashes -----

  lemma FewerAttemptsInPrefix(steps: seq<Step>, n: nat)
    requires n <= |steps|
    ensures |AttemptKeys(steps[..n])| <= |AttemptKeys(steps)|
  {
    assert steps == steps[..n] + steps[n..];
    AttemptsConcat(steps[..n], steps[n..]);
  }

  lemma SubsetSize<T>(a: set<T>, b: set<T>)
    requires a <= b
    ensures |a| <= |b|
  {
    assert |b| == |a| + |b - a| by {
      assert b == a + (b - a);
    }
  }

  /** What a stretch of steps has cost: starts not yet paid for by a finished run. */
  ghost predicate Paid(file: Option<Snapshot>, steps: seq<Step>, slack: nat) {
    |AttemptKeys(steps)| + |Finished(file)| <= |Finished(FileAfter(file, steps))| + slack
  }

  lemma PaidConcat(file: Option<Snapshot>, a: seq<Step>, b: seq<Step>, m: nat, n: nat)
    requires Paid(file, a, m) && Paid(FileAfter(file, a), b, n)
    ensures Paid(file, a + b, m + n)
  {
    FileAfterConcat(file, a, b);
    AttemptsConcat(a, b);
  }

  lemma PaidWhenSafe(file: Option<Snapshot>, steps: seq<Step>, n: nat)
    requires Safe(file, steps) && n <= |steps|
    ensures Paid(file, steps[..n], |AttemptKeys(steps)|)
  {
    FewerAttemptsInPrefix(steps, n);
    SafeMeaning(file, steps, n);
    SubsetSize(Finished(file), Finished(FileAfter(file, steps[..n])));
  }

  lemma {:induction false} LoopPaid(c: Config, w: World, rest: seq<RunSpec>, completed: bool, runs: seq<RunState>,
                                    n: nat)
    requires Distinct(SpecKeys(rest)) && Unfinished(rest, runs)
    requires forall k :: k in SpecKeys(rest) ==> k in KeysOf(runs)
    requires n <= |LoopSteps(c, w, rest, completed, runs)|
    ensures var steps := LoopSteps(c, w, rest, completed, runs);
      Paid(Some(Snapshot(completed, runs)), steps[..n], if n < |steps| then 1 else 0)
    decreases |rest|
  {
    hide RunSteps, RunAfter, DoneKeys, KeysOf;
    var file, steps := Some(Snapshot(completed, runs)), LoopSteps(c, w, rest, completed, runs);
    if rest != [] {
      var after := RunAfter(c, w, rest[0], runs);
      var first, more := RunSteps(c, w, rest[0], completed, runs), LoopSteps(c, w, rest[1..], completed, after);
      assert SpecKeys(rest) == [rest[0].Key()] + SpecKeys(rest[1..]);
      RunEffect(c, w, rest[0], completed, runs);
      RunAfterEffect(c, w, rest[0], runs);
      if n < |first| {
        PaidWhenSafe(file, first, n);
        assert steps[..n] == first[..n];
      } else {
        UnfinishedNext(c, w, rest, runs);
        LoopPaid(c, w, rest[1..], completed, after, n - |first|);
        assert Paid(file, first, 0);
        PaidConcat(file, first, more[..n - |first|], 0, if n < |steps| then 1 else 0);
        assert steps[..n] == first + more[..n - |first|];
      }
    }
  }

  lemma SessionPaid(s: Session, file: Option<Snapshot>)
    requires Distinct(SpecKeys(FullPlan(s.config, s.world)))
    ensures Paid(file, Trace(s, file), if Crashed(s, file) then 1 else 0)
  {
    hide FullPlan, SessionTodo, SessionSteps, OpenSteps, DoneKeys, KeysOf, LoopSteps, LoopAfter, Safe, AtLoop;
    var c, w := s.config, s.world;
    var at, last := AtLoop(c, w, file), Snapshot(true, FinalRuns(c, w, file));
    var a, b, steps := OpenSteps(c, w, file), SessionLoop(c, w, file), SessionSteps(c, w, file);
    SessionSplit(c, w, file);
    OpenEffect(c, w, file);
    TodoEffect(c, w, file);
    LoopEffect(c, w, SessionTodo(c, w, file), at.completed, at.runs);
    if s.cut < |a| {
      PaidWhenSafe(file, a, s.cut);
      assert steps[..s.cut] == a[..s.cut];
    } else {
      var n := Min(s.cut - |a|, |b|);
      LoopPaid(c, w, SessionTodo(c, w, file), at.completed, at.runs, n);
      PaidConcat(file, a, b[..n], 0, if n < |b| then 1 else 0);
      if s.cut <= |a| + |b| {
        assert steps[..s.cut] == a + b[..n];
      } else {
        assert b[..n] == b && Take(steps, s.cut) == steps == (a + b) + [Saved(last)];
        FileAfterConcat(file, a, b);
        OneSave(FileAfter(file, a + b), last);
        PaidConcat(file, a + b, [Saved(last)], 0, 0);
      }
    }
  }

  /**
    Over any history, each crash costs at most one run started for nothing: the
    number of starts is at most the number of runs finished plus the crashes.
  */
  lemma {:induction false} StartsBoundedByCrashes(ss: seq<Session>, file: Option<Snapshot>)
    requires PlansDistinct(ss)
    ensures |AttemptKeys(History(ss, file))| + |Finished(file)|
            <= |Finished(FileAfter(file, History(ss, file)))| + Crashes(ss, file)
  {
    hide SessionSteps, FullPlan, Finished;
    if ss != [] {
      assert ss[0] in ss;
      var t := Trace(ss[0], file);
      var mid := FileAfter(file, t);
      SessionPaid(ss[0], file);
      StartsBoundedByCrashes(ss[1..], mid);
      PaidConcat(file, t, History(ss[1..], mid), if Crashed(ss[0], file) then 1 else 0, Crashes(ss[1..], mid));
    }
  }

  // ----- counters -----

  lemma {:induction false} CountConcat(a: seq<RunState>, b: seq<RunState>, s: Status)
    ensures CountStatus(a + b, s) == CountStatus(a, s) + CountStatus(b, s)
  {
    if a == [] {
      assert a + b == b;
    } else {
      assert (a + b)[1..] == a[1..] + b;
      CountConcat(a[1..], b, s);
    }
  }

  lemma {:induction false} NoneWithStatus(runs: seq<RunState>, s: Status)
    requires forall r :: r in runs ==> r.status != s
    ensures CountStatus(runs, s) == 0
  {
    if runs != [] {
      NoneWithStatus(runs[1..], s);
    }
  }

  lemma RunCounts(c: Config, w: World, spec: RunSpec, runs: seq<RunState>, s: Status)
    requires s.Terminal() && spec.Key() in KeysOf(runs) && spec.Key() !in DoneKeys(runs)
    ensures CountStatus(RunAfter(c, w, spec, runs), s)
            == CountStatus(runs, s) + (if FinalUpdate(c, w, spec).status == s then 1 else 0)
  {
    hide FinalUpdate, SkipReason;
    var key, last := spec.Key(), FinalUpdate(c, w, spec);
    RewriteTwice(runs, key, RUNNING_UPDATE, last);
    CountAfterUpdate(runs, key, last, s);
    var r := runs[FirstIndex(runs, key)];
    assert r in runs && r.Key() == key;
  }

  lemma {:induction false} LoopCounts(c: Config, w: World, rest: seq<RunSpec>, runs: seq<RunState>, s: Status)
    requires s.Terminal() && Distinct(SpecKeys(rest)) && Unfinished(rest, runs)
    requires forall k :: k in SpecKeys(rest) ==> k in KeysOf(runs)
    ensures CountStatus(LoopAfter(c, w, rest, runs), s)
            == CountStatus(runs, s) + CountResults(LoopResults(c, w, rest), s)
  {
    hide RunAfter, DoneKeys, KeysOf, FinalUpdate;
    if rest != [] {
      assert SpecKeys(rest) == [rest[0].Key()] + SpecKeys(rest[1..]);
      assert rest[0].Key() in SpecKeys(rest);
      RunCounts(c, w, rest[0], runs, s);
      RunAfterEffect(c, w, rest[0], runs);
      UnfinishedNext(c, w, rest, runs);
      LoopCounts(c, w, rest[1..], RunAfter(c, w, rest[0], runs), s);
      assert LoopResults(c, w, rest) == [ResultOf(c, w, rest[0])] + LoopResults(c, w, rest[1..]);
    }
  }

  /** Every run of a result succeeded, failed or was skipped. */
  lemma {:induction false} ResultsConserved(c: Config, w: World, rest: seq<RunSpec>, id: string)
    ensures var r := CampaignResult(id, LoopResults(c, w, rest));
      r.Total() == r.Succeeded() + r.Failures() + r.SkippedRuns() == |rest|
  {
    hide FinalUpdate;
    if rest != [] {
      ResultsConserved(c, w, rest[1..], id);
      assert LoopResults(c, w, rest) == [ResultOf(c, w, rest[0])] + LoopResults(c, w, rest[1..]);
      assert ResultOf(c, w, rest[0]).status.Terminal();
    }
  }

  /**
    At the end of a session each terminal counter of the state has grown by exactly
    the matching counter of the returned result, provided no unfinished key is
    repeated in the plan.
  */
  lemma CountersAgree(c: Config, w: World, file: Option<Snapshot>, s: Status)
    requires s.Terminal() && RepeatsFinished(Finished(file), FullPlan(c, w))
    ensures CountStatus(FinalRuns(c, w, file), s)
            == CountStatus(Opening(file).runs, s) + CountResults(LoopResults(c, w, SessionTodo(c, w, file)), s)
  {
    hide FullPlan, SessionTodo, DoneKeys, KeysOf, LoopAfter;
    var plan, start := FullPlan(c, w), Opening(file).runs;
    TodoEffect(c, w, file);
    LoopCounts(c, w, SessionTodo(c, w, file), AtLoop(c, w, file).runs, s);
    NewEntriesMembers(KeySet(start), plan);
    NoneWithStatus(NewEntries(KeySet(start), plan), s);
    CountConcat(start, NewEntries(KeySet(start), plan), s);
  }
}
