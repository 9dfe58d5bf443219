/**
  Crash recovery of the benchmark loop. A crashed session has performed a prefix
  of its effects; the next one starts from whatever checkpoint file that left.
*/
module CheckpointRecovery {
  import opened Basics
  import opened Checkpoint
  import opened Picking

  /** One process lifetime over one task: its file system, and how many effects it gets through. */
  datatype Session = Session(io: Io, cut: nat)

  function Trace(t: Task, s: Session, file: CheckpointFile): seq<Effect> {
    Take(SessionEffects(t, s.io, file), s.cut)
  }

  function FileAfterSessions(t: Task, ss: seq<Session>, file: CheckpointFile): CheckpointFile {
    if ss == [] then file else FileAfterSessions(t, ss[1..], FileAfter(file, Trace(t, ss[0], file)))
  }

  // ----- outputs -----

  /** A readable checkpoint at index k holds exactly the successful outputs of items 0..k. */
  ghost predicate FileOk(t: Task, file: CheckpointFile) {
    file.Valid? && file.configHash == t.configHash ==>
      file.lastIndex < t.N() && file.outputs == t.Good(0, file.lastIndex + 1)
  }

  ghost predicate EffectOk(t: Task, e: Effect) {
    e.Write? ==> FileOk(t, e.file)
  }

  ghost predicate EffectsOk(t: Task, es: seq<Effect>) {
    forall i :: 0 <= i < |es| ==> EffectOk(t, es[i])
  }

  lemma {:induction false} OkEffectsKeepFileOk(t: Task, file: CheckpointFile, es: seq<Effect>)
    requires FileOk(t, file) && EffectsOk(t, es)
    ensures FileOk(t, FileAfter(file, es))
    decreases |es|
  {
    if es != [] {
      assert EffectOk(t, es[0]);
      OkEffectsKeepFileOk(t, Apply(file, es[0]), es[1..]);
    }
  }

  lemma {:induction false} LoopIsOk(t: Task, io: Io, i: nat)
    requires i <= t.N()
    ensures EffectsOk(t, LoopEffects(t, io, i, t.Good(0, i)))
    ensures LoopOutputs(t, i, t.Good(0, i)) == t.AllOutputs()
    decreases t.N() - i
  {
    hide ItemEffects, AfterItem, LoopEffects, LoopOutputs, FileOk;
    var outputs := t.Good(0, i);
    if i < t.N() {
      LoopNext(t, io, i, outputs);
      ItemIsOk(t, io, i);
      LoopIsOk(t, io, i + 1);
    } else {
      LoopEnd(t, io, i, outputs);
    }
  }

  lemma ItemIsOk(t: Task, io: Io, i: nat)
    requires i < t.N()
    ensures AfterItem(t, i, t.Good(0, i)) == t.Good(0, i + 1)
    ensures EffectsOk(t, ItemEffects(t, io, i, t.Good(0, i)))
  {
    assert t.Good(0, i) + [] == t.Good(0, i);
  }

  lemma SessionIsOk(t: Task, io: Io, file: CheckpointFile)
    requires FileOk(t, file)
    ensures EffectsOk(t, SessionEffects(t, io, file))
    ensures SessionResult(t, file).outputs == t.AllOutputs()
  {
    var start := ResumeIndex(t, file);
    assert ResumeOutputs(t, file) == t.Good(0, start);
    LoopIsOk(t, io, start);
  }

  lemma {:induction false} SessionsKeepFileOk(t: Task, ss: seq<Session>, file: CheckpointFile)
    requires FileOk(t, file)
    ensures FileOk(t, FileAfterSessions(t, ss, file))
  {
    if ss != [] {
      SessionIsOk(t, ss[0].io, file);
      OkEffectsKeepFileOk(t, file, Trace(t, ss[0], file));
      SessionsKeepFileOk(t, ss[1..], FileAfter(file, Trace(t, ss[0], file)));
    }
  }

  /** No checkpoint, one that cannot be read, or one of another configuration. */
  ghost predicate Foreign(t: Task, file: CheckpointFile) {
    file.Valid? ==> file.configHash != t.configHash
  }

  /**
    After any sessions, crashed anywhere (between effects or in the middle of a
    write) or finished, with saves failing in any way, a session that finishes
    returns exactly the outputs of an uninterrupted run.
  */
  lemma OutputsSurviveCrashes(t: Task, ss: seq<Session>, file: CheckpointFile)
    requires Foreign(t, file)
    ensures SessionResult(t, FileAfterSessions(t, ss, file)).outputs
            == SessionResult(t, Absent).outputs == t.AllOutputs()
  {
    SessionsKeepFileOk(t, ss, file);
    SessionIsOk(t, Io(_ => Saved, false), FileAfterSessions(t, ss, file));
    SessionIsOk(t, Io(_ => Saved, false), Absent);
  }

  /** AllOutputs really is the successful items in order. */
  lemma {:induction false} GoodIsSuccesses(t: Task, n: nat)
    requires n <= t.N()
    ensures |t.Good(0, n)| + |FailingBelow(t, n)| == n
    ensures forall o :: o in t.Good(0, n) <==> exists i :: 0 <= i < n && !t.Fails(i) && o == t.OutputOf(i)
  {
    if n > 0 {
      GoodIsSuccesses(t, n - 1);
      var last := if t.Fails(n - 1) then [] else [t.OutputOf(n - 1)];
      assert t.Good(0, n) == t.Good(0, n - 1) + last;
      forall o | o in t.Good(0, n)
        ensures exists i :: 0 <= i < n && !t.Fails(i) && o == t.OutputOf(i)
      {
        if o in t.Good(0, n - 1) {
          var i :| 0 <= i < n - 1 && !t.Fails(i) && o == t.OutputOf(i);
        } else {
          assert o == t.OutputOf(n - 1);
        }
      }
    }
  }

  /** What the engine's answer to a prompt becomes; a prompt that raises leaves nothing. */
  function Answered(t: Task): string -> Option<Output> {
    prompt =>
      match t.engine(prompt)
      case Ok(answer) => Some(Output(prompt, answer))
      case Raised(_) => None
  }

  lemma {:induction false} GoodIsAnswered(t: Task, n: nat)
    requires n <= t.N()
    ensures Picked(t.prompts[..n], Answered(t), t.Good(0, n))
  {
    hide Picked;
    if n == 0 {
      PickedNone(Answered(t));
      assert t.prompts[..0] == [];
    } else {
      GoodIsAnswered(t, n - 1);
      PickedSnoc(t.prompts[..n - 1], Answered(t), t.Good(0, n - 1), t.prompts[n - 1]);
      assert t.prompts[..n] == t.prompts[..n - 1] + [t.prompts[n - 1]];
      assert t.Good(0, n - 1) + [] == t.Good(0, n - 1);
    }
  }

  /**
    What a finishing session returns, after any crashes: for exactly the prompts that the
    engine answers, in order, each prompt with its own answer.
  */
  lemma OutputsAreAnswers(t: Task, ss: seq<Session>, file: CheckpointFile) returns (p: seq<int>)
    requires Foreign(t, file)
    ensures var outputs := SessionResult(t, FileAfterSessions(t, ss, file)).outputs;
      && |p| == |outputs| && Increasing(p, |t.prompts|)
      && (forall i :: 0 <= i < |t.prompts| ==> (Occurs(i, p) <==> t.engine(t.prompts[i]).Ok?))
      && forall k :: 0 <= k < |p| ==>
           && t.engine(t.prompts[p[k]]).Ok?
           && outputs[k].prompt == t.prompts[p[k]] && outputs[k].result == t.engine(t.prompts[p[k]]).value
  {
    hide FileAfterSessions, Picked;
    OutputsSurviveCrashes(t, ss, file);
    GoodIsAnswered(t, t.N());
    assert t.prompts[..t.N()] == t.prompts;
    p := PositionsOf(t.prompts, Answered(t), t.AllOutputs());
  }

  /** The reported errors are exactly the items from the resume point on that raise, in order. */
  lemma {:induction false} ErrorsAreFailures(t: Task, i: nat)
    requires i <= t.N()
    ensures forall k :: 0 <= k < |Failing(t, i)| ==> i <= Failing(t, i)[k] < |t.prompts|
    ensures forall k, n :: 0 <= k < n < |Failing(t, i)| ==> Failing(t, i)[k] < Failing(t, i)[n]
    ensures forall j :: i <= j < |t.prompts| ==> (j in Failing(t, i) <==> t.engine(t.prompts[j]).Raised?)
    decreases t.N() - i
  {
    if i < t.N() {
      ErrorsAreFailures(t, i + 1);
      var first, rest := if t.Fails(i) then [i] else [], Failing(t, i + 1);
      assert Failing(t, i) == first + rest;
      assert forall j :: j in Failing(t, i) <==> j in first || j in rest;
      assert i !in rest;
    }
  }

  function FailingBelow(t: Task, n: nat): seq<nat>
    requires n <= t.N()
  {
    if n == 0 then [] else FailingBelow(t, n - 1) + (if t.Fails(n - 1) then [n - 1] else [])
  }

  // ----- errors and passed are not crash-equivalent -----

  lemma {:induction false} FailingSplit(t: Task, i: nat, j: nat)
    requires i <= j <= t.N()
    ensures Failing(t, i) == [] <==> Failing(t, j) == [] && forall k :: i <= k < j ==> !t.Fails(k)
    decreases j - i
  {
    if i < j {
      FailingSplit(t, i + 1, j);
    }
  }

  /**
    `passed` only covers the items since the resume point: it agrees with an
    uninterrupted run exactly when no item before that point failed, or one after
    it does.
  */
  lemma PassedCoversTheRestOnly(t: Task, file: CheckpointFile)
    requires FileOk(t, file)
    ensures SessionResult(t, file).passed == SessionResult(t, Absent).passed <==>
            (forall i :: 0 <= i < ResumeIndex(t, file) ==> !t.Fails(i))
            || (exists i :: ResumeIndex(t, file) <= i < t.N() && t.Fails(i))
  {
    var start := ResumeIndex(t, file);
    FailingSplit(t, 0, start);
    FailingSplit(t, start, t.N());
  }

  lemma {:induction false} FailingFromStart(t: Task, j: nat)
    requires j <= t.N()
    ensures Failing(t, 0) == FailingBelow(t, j) + Failing(t, j)
    ensures FailingBelow(t, j) == [] <==> forall k :: 0 <= k < j ==> !t.Fails(k)
  {
    if j > 0 {
      FailingFromStart(t, j - 1);
      var here := if t.Fails(j - 1) then [j - 1] else [];
      assert Failing(t, j - 1) == here + Failing(t, j) && FailingBelow(t, j) == FailingBelow(t, j - 1) + here;
    }
  }

  /**
    `errors` lists only the failures since the resume point. What it leaves out are the
    failures before that point, so it agrees with an uninterrupted run exactly when no
    item before the resume point fails.
  */
  lemma ErrorsCoverTheRestOnly(t: Task, file: CheckpointFile)
    requires FileOk(t, file)
    ensures ResumeIndex(t, file) <= t.N()
    ensures SessionResult(t, Absent).errors == FailingBelow(t, ResumeIndex(t, file)) + SessionResult(t, file).errors
    ensures SessionResult(t, file).errors == SessionResult(t, Absent).errors <==>
            forall i :: 0 <= i < ResumeIndex(t, file) ==> !t.Fails(i)
  {
    hide Failing, FailingBelow, LoopOutputs;
    var start := ResumeIndex(t, file);
    FailingFromStart(t, start);
    assert |SessionResult(t, Absent).errors| == |FailingBelow(t, start)| + |Failing(t, start)|;
    assert [] + Failing(t, start) == Failing(t, start);
  }

  /**
    When only the first item fails and the session crashes once that error is saved,
    the resumed session reports that everything passed.
  */
  lemma ForgottenFailure(t: Task, io: Io)
    requires Reliable(io) && t.N() > 0 && t.Fails(0) && forall i :: 0 < i < t.N() ==> !t.Fails(i)
    ensures var file := FileAfterSessions(t, [Session(io, 3)], Absent);
      && file == Valid(t.configHash, 0, [])
      && SessionResult(t, file).passed && !SessionResult(t, Absent).passed
  {
    hide AfterItem;
    var f := Valid(t.configHash, 0, []);
    var item := ItemEffects(t, io, 0, []);
    assert AfterItem(t, 0, []) == [] by { FirstItemAddsNothing(t); }
    assert item == [Generate(0), Truncate, Write(f)];
    assert SessionLoop(t, io, Absent) == item + LoopEffects(t, io, 1, []);
    assert Trace(t, Session(io, 3), Absent) == item;
    assert item[1..] == [Truncate, Write(f)] && item[1..][1..] == [Write(f)] && [Write(f)][1..] == [];
    assert FileAfter(f, []) == f;
    assert FileAfter(Torn, [Write(f)]) == f;
    assert FileAfter(Absent, [Truncate, Write(f)]) == f;
    assert FileAfter(Absent, item) == f;
    assert [Session(io, 3)][1..] == [];
    FailingSplit(t, 1, t.N());
  }

  lemma FirstItemAddsNothing(t: Task)
    requires t.N() > 0 && t.Fails(0)
    ensures AfterItem(t, 0, []) == []
  {
  }

  // ----- what a finished session leaves -----

  /** The file is a checkpoint of this configuration that covers item i. */
  ghost predicate CoversItem(t: Task, file: CheckpointFile, i: int) {
    file.Valid? && file.configHash == t.configHash && i <= file.lastIndex
  }

  lemma ItemLeaves(t: Task, io: Io, i: nat, outputs: seq<Output>, file: CheckpointFile)
    requires Reliable(io) && i < t.N()
    ensures var after := FileAfter(file, ItemEffects(t, io, i, outputs));
      (after == file && !t.Fails(i)) || CoversItem(t, after, i)
  {
    hide AfterItem;
    var item, f := ItemEffects(t, io, i, outputs), Valid(t.configHash, i, AfterItem(t, i, outputs));
    if t.Fails(i) || (i + 1) % 100 == 0 {
      assert item == [Generate(i), Truncate, Write(f)];
      assert item[1..] == [Truncate, Write(f)] && item[1..][1..] == [Write(f)] && [Write(f)][1..] == [];
      assert FileAfter(Torn, [Write(f)]) == f;
    } else {
      assert item == [Generate(i)] && item[1..] == [];
    }
  }

  lemma {:induction false} LoopLeaves(t: Task, io: Io, i: nat, outputs: seq<Output>, file: CheckpointFile)
    requires Reliable(io) && i <= t.N()
    ensures var after := FileAfter(file, LoopEffects(t, io, i, outputs));
      && (after == file || CoversItem(t, after, i))
      && forall k :: i <= k < t.N() && t.Fails(k) ==> CoversItem(t, after, k)
    decreases t.N() - i
  {
    hide AfterItem, ItemEffects, LoopEffects, FileAfter;
    if i < t.N() {
      var item, next := ItemEffects(t, io, i, outputs), AfterItem(t, i, outputs);
      LoopNext(t, io, i, outputs);
      ItemLeaves(t, io, i, outputs, file);
      LoopLeaves(t, io, i + 1, next, FileAfter(file, item));
      FileAfterConcat(file, item, LoopEffects(t, io, i + 1, next));
    } else {
      LoopEnd(t, io, i, outputs);
      NoEffects(file);
    }
  }

  /**
    A session that finishes without errors removes the checkpoint. One with errors leaves
    a checkpoint that covers every failed item, so that none of them is tried again.
  */
  lemma FinishedLeaves(t: Task, io: Io, file: CheckpointFile)
    requires Reliable(io) && FileOk(t, file)
    ensures var after, start := FileAfter(file, SessionEffects(t, io, file)), ResumeIndex(t, file);
      && start <= t.N()
      && ((forall k :: start <= k < t.N() ==> t.engine(t.prompts[k]).Ok?) && !io.clearFails ==> after == Absent)
      && (forall k :: start <= k < t.N() && t.engine(t.prompts[k]).Raised? ==>
            after.Valid? && after.configHash == t.configHash && k <= after.lastIndex < t.N())
  {
    hide LoopEffects, FileAfter, LoopOutputs, Failing, CoversItem, FileOk;
    var start, loop := ResumeIndex(t, file), SessionLoop(t, io, file);
    StartInRange(t, file);
    ErrorsAreFailures(t, start);
    if Failing(t, start) == [] {
      assert forall k :: start <= k < t.N() && t.engine(t.prompts[k]).Raised? ==> k in Failing(t, start);
      assert loop + [] == loop;
      FileAfterConcat(file, loop, [Unlink]);
      Unlinked(FileAfter(file, loop));
    } else {
      var k := Failing(t, start)[0];
      assert t.Fails(k);
      FailedLeaves(t, io, file);
    }
  }

  lemma StartInRange(t: Task, file: CheckpointFile)
    requires FileOk(t, file)
    ensures ResumeIndex(t, file) <= t.N()
  {
  }

  lemma FailedLeaves(t: Task, io: Io, file: CheckpointFile)
    requires Reliable(io) && FileOk(t, file) && Failing(t, ResumeIndex(t, file)) != []
    ensures var after := FileAfter(file, SessionEffects(t, io, file));
      forall k :: ResumeIndex(t, file) <= k < t.N() && t.engine(t.prompts[k]).Raised? ==>
        after.Valid? && after.configHash == t.configHash && k <= after.lastIndex < t.N()
  {
    hide LoopEffects, FileAfter, LoopOutputs, Failing;
    var start, loop := ResumeIndex(t, file), SessionLoop(t, io, file);
    LoopLeaves(t, io, start, ResumeOutputs(t, file), file);
    SessionIsOk(t, io, file);
    OkEffectsKeepFileOk(t, file, SessionEffects(t, io, file));
    assert loop + [] == loop;
    forall k | start <= k < t.N() && t.engine(t.prompts[k]).Raised?
      ensures CoversItem(t, FileAfter(file, SessionEffects(t, io, file)), k)
    {
      assert t.Fails(k);
    }
  }

  lemma Unlinked(file: CheckpointFile)
    ensures FileAfter(file, [Unlink]) == Absent
  {
    assert [Unlink][1..] == [];
  }

  // ----- the cost of crashes -----

  /** Generate calls in a trace. */
  function Calls(es: seq<Effect>): nat {
    if es == [] then 0 else (if es[0].Generate? then 1 else 0) + Calls(es[1..])
  }

  lemma {:induction false} CallsConcat(a: seq<Effect>, b: seq<Effect>)
    ensures Calls(a + b) == Calls(a) + Calls(b)
  {
    if a == [] {
      assert a + b == b;
    } else {
      assert (a + b)[1..] == a[1..] + b;
      CallsConcat(a[1..], b);
    }
  }

  /** A crash in the middle of a write: the file had just been truncated. */
  predicate MidWrite(es: seq<Effect>) {
    es != [] && es[|es| - 1].Truncate?
  }

  ghost predicate Reliable(io: Io) {
    forall i :: io.save(i).Saved?
  }

  lemma {:induction false} LoopCalls(t: Task, io: Io, i: nat, outputs: seq<Output>, m: nat)
    requires i <= t.N() && m <= |LoopEffects(t, io, i, outputs)|
    ensures Calls(LoopEffects(t, io, i, outputs)[..m]) <= t.N() - i
    ensures m == |LoopEffects(t, io, i, outputs)| ==> Calls(LoopEffects(t, io, i, outputs)[..m]) == t.N() - i
    decreases t.N() - i
  {
    hide AfterItem;
    var loop := LoopEffects(t, io, i, outputs);
    if i < t.N() {
      var item, rest := ItemEffects(t, io, i, outputs), LoopEffects(t, io, i + 1, AfterItem(t, i, outputs));
      ItemCalls(t, io, i, outputs, Min(m, |item|));
      if m <= |item| {
        assert loop[..m] == item[..m];
        LoopCalls(t, io, i + 1, AfterItem(t, i, outputs), 0);
        if m == |loop| {
          assert rest == [];
          LoopCalls(t, io, i + 1, AfterItem(t, i, outputs), |rest|);
        }
      } else {
        assert loop[..m] == item + rest[..m - |item|];
        assert item[..|item|] == item;
        CallsConcat(item, rest[..m - |item|]);
        LoopCalls(t, io, i + 1, AfterItem(t, i, outputs), m - |item|);
      }
    }
  }

  lemma ItemCalls(t: Task, io: Io, i: nat, outputs: seq<Output>, m: nat)
    requires i < t.N() && m <= |ItemEffects(t, io, i, outputs)|
    ensures Calls(ItemEffects(t, io, i, outputs)[..m]) == if m == 0 then 0 else 1
  {
    hide AfterItem;
    var item := ItemEffects(t, io, i, outputs);
    if m > 0 {
      NoCalls(item[..m][1..]);
    }
  }

  lemma {:induction false} NoCalls(es: seq<Effect>)
    requires forall i :: 0 <= i < |es| ==> !es[i].Generate?
    ensures Calls(es) == 0
  {
    if es != [] {
      NoCalls(es[1..]);
    }
  }

  /** One item's reliable effects, cut anywhere but mid-write, save nothing or save the item. */
  lemma ItemCut(t: Task, io: Io, i: nat, outputs: seq<Output>, file: CheckpointFile, m: nat)
    requires Reliable(io) && i < t.N()
    requires var item := ItemEffects(t, io, i, outputs); m <= |item| && !MidWrite(item[..m])
    ensures var item := ItemEffects(t, io, i, outputs);
      && Calls(item[..m]) <= 1
      && (ResumeIndex(t, FileAfter(file, item[..m])) == ResumeIndex(t, file)
          || ResumeIndex(t, FileAfter(file, item[..m])) == i + 1)
      && (m == |item| && (t.Fails(i) || (i + 1) % 100 == 0) ==> ResumeIndex(t, FileAfter(file, item[..m])) == i + 1)
  {
    hide AfterItem;
    var item := ItemEffects(t, io, i, outputs);
    var f := Valid(t.configHash, i, AfterItem(t, i, outputs));
    ItemCalls(t, io, i, outputs, m);
    if m == 0 {
      assert item[..0] == [];
    } else if m == 1 {
      assert item[..1] == [Generate(i)] && [Generate(i)][1..] == [];
      assert |item| > 1 || !(t.Fails(i) || (i + 1) % 100 == 0);
    } else {
      assert item == [Generate(i), Truncate, Write(f)];
      assert m == 3 && item[..m] == item by {
        assert item[..2][1] == Truncate;
      }
      assert item[1..] == [Truncate, Write(f)] && item[1..][1..] == [Write(f)];
      assert FileAfter(Torn, [Write(f)]) == f;
      assert FileAfter(file, item) == f;
    }
  }

  /**
    Items done but not yet covered by the checkpoint number at most i % 100 at the
    start of item i, so a cut anywhere but mid-write loses at most 100 calls.
  */
  lemma {:induction false} LoopLag(t: Task, io: Io, i: nat, outputs: seq<Output>, file: CheckpointFile, m: nat)
    requires Reliable(io) && i <= t.N() && m <= |LoopEffects(t, io, i, outputs)|
    requires i <= ResumeIndex(t, file) + i % 100
    requires !MidWrite(LoopEffects(t, io, i, outputs)[..m])
    ensures var cut := LoopEffects(t, io, i, outputs)[..m];
      i + Calls(cut) <= ResumeIndex(t, FileAfter(file, cut)) + 100
    decreases t.N() - i
  {
    hide AfterItem, ItemEffects;
    var loop := LoopEffects(t, io, i, outputs);
    if i == t.N() {
      assert loop[..m] == [];
    } else {
      var item, rest := ItemEffects(t, io, i, outputs), LoopEffects(t, io, i + 1, AfterItem(t, i, outputs));
      if m <= |item| {
        assert loop[..m] == item[..m];
        ItemCut(t, io, i, outputs, file, m);
      } else {
        var k := m - |item|;
        assert loop[..m] == item + rest[..k];
        assert rest[..k] != [] && loop[..m][m - 1] == rest[..k][k - 1];
        assert item[..|item|] == item;
        NotMidWrite(t, io, i, outputs);
        ItemCut(t, io, i, outputs, file, |item|);
        ItemCalls(t, io, i, outputs, |item|);
        var mid := FileAfter(file, item);
        FileAfterConcat(file, item, rest[..k]);
        CallsConcat(item, rest[..k]);
        LoopLag(t, io, i + 1, AfterItem(t, i, outputs), mid, k);
      }
    }
  }

  lemma NotMidWrite(t: Task, io: Io, i: nat, outputs: seq<Output>)
    requires Reliable(io) && i < t.N()
    ensures !MidWrite(ItemEffects(t, io, i, outputs)) && |ItemEffects(t, io, i, outputs)| > 0
  {
  }

  /** What one crashed session costs beyond the progress that survives it. */
  lemma SessionCost(t: Task, s: Session, file: CheckpointFile)
    requires FileOk(t, file) && Reliable(s.io)
    ensures var es := Trace(t, s, file);
      && ResumeIndex(t, file) + Calls(es) <= t.N()
      && (s.cut < |SessionEffects(t, s.io, file)| && !MidWrite(es) ==>
            ResumeIndex(t, file) + Calls(es) <= ResumeIndex(t, FileAfter(file, es)) + 100)
  {
    var start := ResumeIndex(t, file);
    var loop, all := SessionLoop(t, s.io, file), SessionEffects(t, s.io, file);
    var es, m := Trace(t, s, file), Min(s.cut, |loop|);
    LoopCalls(t, s.io, start, ResumeOutputs(t, file), m);
    if s.cut <= |loop| {
      assert es == loop[..m];
    } else {
      assert loop[..m] == loop;
      assert |all| <= |loop| + 1 && es == all;
      assert es == loop || es == loop + [Unlink];
      CallsConcat(loop, [Unlink]);
      assert Calls([Unlink]) == 0;
    }
    if s.cut < |all| && !MidWrite(es) {
      LoopLag(t, s.io, start, ResumeOutputs(t, file), file, m);
    }
  }

  function TotalCalls(t: Task, ss: seq<Session>, file: CheckpointFile): nat {
    if ss == [] then 0
    else Calls(Trace(t, ss[0], file)) + TotalCalls(t, ss[1..], FileAfter(file, Trace(t, ss[0], file)))
  }

  /** Sessions that crashed in the middle of a write. */
  function TornCrashes(t: Task, ss: seq<Session>, file: CheckpointFile): nat {
    if ss == [] then 0
    else (if MidWrite(Trace(t, ss[0], file)) then 1 else 0)
         + TornCrashes(t, ss[1..], FileAfter(file, Trace(t, ss[0], file)))
  }

  ghost predicate AllCrash(t: Task, ss: seq<Session>, file: CheckpointFile) {
    ss != [] ==>
      && Reliable(ss[0].io) && ss[0].cut < |SessionEffects(t, ss[0].io, file)|
      && AllCrash(t, ss[1..], FileAfter(file, Trace(t, ss[0], file)))
  }

  lemma TimesNext(n: nat, k: nat)
    ensures n * (k + 1) == n * k + n
  {
  }

  lemma {:induction false} CrashCost(t: Task, ss: seq<Session>, file: CheckpointFile)
    requires FileOk(t, file) && AllCrash(t, ss, file)
    ensures var torn := TornCrashes(t, ss, file);
      && torn <= |ss|
      && ResumeIndex(t, file) + TotalCalls(t, ss, file)
         <= ResumeIndex(t, FileAfterSessions(t, ss, file)) + 100 * (|ss| - torn) + t.N() * torn
  {
    hide FileOk, FileAfter, MidWrite, SessionEffects;
    if ss == [] {
      assert t.N() * 0 == 0;
    } else {
      var es := Trace(t, ss[0], file);
      var mid := FileAfter(file, es);
      SessionCost(t, ss[0], file);
      SessionIsOk(t, ss[0].io, file);
      OkEffectsKeepFileOk(t, file, es);
      CrashCost(t, ss[1..], mid);
      TimesNext(t.N(), TornCrashes(t, ss[1..], mid));
    }
  }

  /**
    Any crashes, then the first session that finishes, over n prompts: at most n
    generate calls plus 100 for each crash, plus n for each crash that tore the
    checkpoint file in the middle of a write.
  */
  lemma {:induction false} CallsBoundedByCrashes(t: Task, ss: seq<Session>, last: Io)
    requires AllCrash(t, ss, Absent) && Reliable(last)
    ensures var torn, file := TornCrashes(t, ss, Absent), FileAfterSessions(t, ss, Absent);
      TotalCalls(t, ss, Absent) + Calls(SessionEffects(t, last, file))
      <= t.N() + 100 * (|ss| - torn) + t.N() * torn
  {
    var file := FileAfterSessions(t, ss, Absent);
    CrashCost(t, ss, Absent);
    SessionsKeepFileOk(t, ss, Absent);
    var whole := Session(last, |SessionEffects(t, last, file)|);
    assert Trace(t, whole, file) == SessionEffects(t, last, file);
    SessionCost(t, whole, file);
  }

  // ----- the bound is attained -----

  /** A prompt that succeeds before the hundredth saves nothing. */
  lemma QuietItem(t: Task, io: Io, i: nat, outputs: seq<Output>)
    requires i < t.N() && i < 100 && !t.Fails(i) && Reliable(io)
    ensures var item := ItemEffects(t, io, i, outputs); item[0] == Generate(i) && |item| == if i == 99 then 3 else 1
  {
    assert i == 99 || (i + 1) % 100 != 0;
  }

  lemma GenerateFirst(file: CheckpointFile, i: nat, es: seq<Effect>)
    ensures Calls([Generate(i)] + es) == 1 + Calls(es) && FileAfter(file, [Generate(i)] + es) == FileAfter(file, es)
  {
    assert ([Generate(i)] + es)[1..] == es;
  }

  lemma NoEffects(file: CheckpointFile)
    ensures Calls([]) == 0 && FileAfter(file, []) == file
  {
  }

  lemma {:induction false} FirstHundred(t: Task, io: Io, i: nat, outputs: seq<Output>, file: CheckpointFile)
    requires Reliable(io) && i < 100 <= t.N() && forall k :: 0 <= k < 100 ==> !t.Fails(k)
    ensures var loop := LoopEffects(t, io, i, outputs);
      && |loop| > 100 - i
      && Calls(loop[..100 - i]) == 100 - i
      && FileAfter(file, loop[..100 - i]) == file
      && loop[100 - i - 1].Generate?
    decreases 100 - i
  {
    hide AfterItem, ItemEffects, LoopEffects, FileAfter, Calls;
    var loop, item := LoopEffects(t, io, i, outputs), ItemEffects(t, io, i, outputs);
    var rest := LoopEffects(t, io, i + 1, AfterItem(t, i, outputs));
    LoopNext(t, io, i, outputs);
    QuietItem(t, io, i, outputs);
    if i == 99 {
      assert loop[..1] == [Generate(99)] + [];
      GenerateFirst(file, i, []);
      NoEffects(file);
    } else {
      FirstHundred(t, io, i + 1, AfterItem(t, i, outputs), file);
      assert loop[..100 - i] == [Generate(i)] + rest[..99 - i];
      GenerateFirst(file, i, rest[..99 - i]);
    }
  }

  /** A fresh session that crashes right after its 100th generate call has saved nothing. */
  lemma HundredCalls(t: Task, io: Io)
    requires Reliable(io) && 100 <= t.N() && forall k :: 0 <= k < 100 ==> !t.Fails(k)
    ensures var es := Trace(t, Session(io, 100), Absent);
      Calls(es) == 100 && !MidWrite(es) && FileAfter(Absent, es) == Absent && 100 < |SessionEffects(t, io, Absent)|
  {
    hide LoopEffects, Calls, FileAfter;
    var loop := SessionLoop(t, io, Absent);
    FirstHundred(t, io, 0, [], Absent);
    assert Trace(t, Session(io, 100), Absent) == loop[..100] && loop[..100][99] == loop[99];
  }

  /** An uninterrupted session calls once for each prompt. */
  lemma WholeSessionCalls(t: Task, io: Io)
    ensures Calls(SessionEffects(t, io, Absent)) == t.N()
  {
    hide LoopEffects;
    var loop := SessionLoop(t, io, Absent);
    LoopCalls(t, io, 0, [], |loop|);
    assert loop[..|loop|] == loop && loop + [] == loop;
    CallsConcat(loop, [Unlink]);
    assert Calls([Unlink]) == 0;
  }

  /** A crash right after the 100th generate call repeats all 100, as often as it happens. */
  lemma {:induction false} BoundIsAttained(t: Task, c: nat, io: Io)
    requires Reliable(io) && 100 <= t.N() && forall k :: 0 <= k < 100 ==> !t.Fails(k)
    ensures var ss := seq(c, _ => Session(io, 100));
      && AllCrash(t, ss, Absent) && TornCrashes(t, ss, Absent) == 0
      && FileAfterSessions(t, ss, Absent) == Absent
      && TotalCalls(t, ss, Absent) == 100 * c
      && Calls(SessionEffects(t, io, Absent)) == t.N()
  {
    hide Trace, SessionEffects, MidWrite, Calls, FileAfter, Reliable;
    var ss := seq(c, _ => Session(io, 100));
    WholeSessionCalls(t, io);
    if c > 0 {
      BoundIsAttained(t, c - 1, io);
      HundredCalls(t, io);
      assert ss[1..] == seq(c - 1, _ => Session(io, 100));
    }
  }
}
