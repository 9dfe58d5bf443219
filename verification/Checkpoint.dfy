/**
  The checkpointed benchmark loop (src/kitt/benchmarks/loader.py) and its
  checkpoint file (src/kitt/runners/checkpoint.py).
*/
module Checkpoint {
  import opened Basics

  datatype Generated = Generated(output: string, ttftMs: real, tps: real, totalLatencyMs: real, gpuMemoryPeakGb: real)

  datatype Output = Output(prompt: string, result: Generated)

  /** The file is overwritten in place, so a crash can leave it torn; torn JSON does not parse. */
  datatype CheckpointFile = Absent | Torn | Valid(configHash: string, lastIndex: nat, outputs: seq<Output>)

  /** Effects on the engine and on the checkpoint file, in the order they happen. */
  datatype Effect = Generate(index: nat) | Truncate | Write(file: CheckpointFile) | Unlink

  /** How one attempt to save ends. */
  datatype SaveOutcome = Saved | OpenFails | DumpFails

  /** One benchmark: its prompts, its deterministic engine, and its configuration's hash. */
  datatype Task = Task(prompts: seq<string>, engine: string -> Result<Generated>, configHash: string) {
    function N(): nat { |prompts| }

    predicate Fails(i: nat) requires i < N() { engine(prompts[i]).Raised? }

    function OutputOf(i: nat): Output
      requires i < N() && !Fails(i)
    {
      Output(prompts[i], engine(prompts[i]).value)
    }

    /** The successful outputs of the items i..hi, in order. */
    function Good(i: nat, hi: nat): seq<Output>
      requires i <= hi <= N()
    {
      if i == hi then [] else Good(i, hi - 1) + (if Fails(hi - 1) then [] else [OutputOf(hi - 1)])
    }

    /** What an uninterrupted run from scratch returns. */
    function AllOutputs(): seq<Output> { Good(0, N()) }
  }

  /** What the file system does to the saves of one session (by item) and to its clear. */
  datatype Io = Io(save: nat -> SaveOutcome, clearFails: bool)

  datatype BenchmarkResult = BenchmarkResult(passed: bool, outputs: seq<Output>, errors: seq<nat>)

  // ----- specification -----

  function Apply(file: CheckpointFile, e: Effect): CheckpointFile {
    match e
    case Generate(_) => file
    case Truncate => Torn
    case Write(f) => f
    case Unlink => Absent
  }

  function FileAfter(file: CheckpointFile, es: seq<Effect>): CheckpointFile
    decreases |es|
  {
    if es == [] then file else FileAfter(Apply(file, es[0]), es[1..])
  }

  /** `get_last_completed_index`: the index to resume at. */
  function ResumeIndex(t: Task, file: CheckpointFile): nat {
    if file.Valid? && file.configHash == t.configHash then file.lastIndex + 1 else 0
  }

  function ResumeOutputs(t: Task, file: CheckpointFile): seq<Output> {
    if ResumeIndex(t, file) > 0 then file.outputs else []
  }

  function SaveEffects(t: Task, io: Io, i: nat, outputs: seq<Output>): seq<Effect> {
    match io.save(i)
    case Saved => [Truncate, Write(Valid(t.configHash, i, outputs))]
    case OpenFails => []
    case DumpFails => [Truncate]
  }

  function AfterItem(t: Task, i: nat, outputs: seq<Output>): seq<Output>
    requires i < t.N()
  {
    if t.Fails(i) then outputs else outputs + [t.OutputOf(i)]
  }

  function ItemEffects(t: Task, io: Io, i: nat, outputs: seq<Output>): seq<Effect>
    requires i < t.N()
  {
    [Generate(i)]
    + (if t.Fails(i) || (i + 1) % 100 == 0 then SaveEffects(t, io, i, AfterItem(t, i, outputs)) else [])
  }

  /** The loop from item i on. */
  function LoopEffects(t: Task, io: Io, i: nat, outputs: seq<Output>): seq<Effect>
    decreases t.N() - i
  {
    if i >= t.N() then []
    else ItemEffects(t, io, i, outputs) + LoopEffects(t, io, i + 1, AfterItem(t, i, outputs))
  }

  function LoopOutputs(t: Task, i: nat, outputs: seq<Output>): seq<Output>
    decreases t.N() - i
  {
    if i >= t.N() then outputs else LoopOutputs(t, i + 1, AfterItem(t, i, outputs))
  }

  /** The failing items from i on, in order. */
  function Failing(t: Task, i: nat): seq<nat>
    decreases t.N() - i
  {
    if i >= t.N() then [] else (if t.Fails(i) then [i] else []) + Failing(t, i + 1)
  }

  function SessionLoop(t: Task, io: Io, file: CheckpointFile): seq<Effect> {
    LoopEffects(t, io, ResumeIndex(t, file), ResumeOutputs(t, file))
  }

  /** Everything one uninterrupted session does. */
  function SessionEffects(t: Task, io: Io, file: CheckpointFile): seq<Effect> {
    var loop := SessionLoop(t, io, file);
    loop + (if Failing(t, ResumeIndex(t, file)) == [] && !FileAfter(file, loop).Absent? && !io.clearFails
            then [Unlink] else [])
  }

  function SessionResult(t: Task, file: CheckpointFile): BenchmarkResult {
    var failing := Failing(t, ResumeIndex(t, file));
    BenchmarkResult(failing == [], LoopOutputs(t, ResumeIndex(t, file), ResumeOutputs(t, file)), failing)
  }

  lemma {:induction false} FileAfterConcat(file: CheckpointFile, a: seq<Effect>, b: seq<Effect>)
    ensures FileAfter(file, a + b) == FileAfter(FileAfter(file, a), b)
    decreases |a|
  {
    if a == [] {
      assert a + b == b;
    } else {
      assert (a + b)[1..] == a[1..] + b;
      FileAfterConcat(Apply(file, a[0]), a[1..], b);
    }
  }

  /** One item, then the rest of the loop. */
  lemma LoopNext(t: Task, io: Io, i: nat, outputs: seq<Output>)
    requires i < t.N()
    ensures LoopEffects(t, io, i, outputs)
            == ItemEffects(t, io, i, outputs) + LoopEffects(t, io, i + 1, AfterItem(t, i, outputs))
    ensures LoopOutputs(t, i, outputs) == LoopOutputs(t, i + 1, AfterItem(t, i, outputs))
    ensures Failing(t, i) == (if t.Fails(i) then [i] else []) + Failing(t, i + 1)
  {
    hide ItemEffects, AfterItem;
  }

  lemma LoopEnd(t: Task, io: Io, i: nat, outputs: seq<Output>)
    requires i >= t.N()
    ensures LoopEffects(t, io, i, outputs) == [] && LoopOutputs(t, i, outputs) == outputs && Failing(t, i) == []
  {
  }

  // ----- the objects -----

  class CheckpointManager {
    const task: Task
    const io: Io
    var file: CheckpointFile        // survives the process
    ghost var log: seq<Effect>      // specification only

    constructor (task: Task, io: Io, file: CheckpointFile)
      ensures this.task == task && this.io == io && this.file == file && log == []
    {
      this.task, this.io, this.file, this.log := task, io, file, [];
    }

    method SaveCheckpoint(lastIndex: nat, outputs: seq<Output>)
      modifies this
      ensures log == old(log) + SaveEffects(task, io, lastIndex, outputs)
      ensures file == FileAfter(old(file), SaveEffects(task, io, lastIndex, outputs))
      ensures match io.save(lastIndex)
              case Saved => file == Valid(task.configHash, lastIndex, outputs)
              case OpenFails => file == old(file)
              case DumpFails => file == Torn
    {
      match io.save(lastIndex)
      case Saved =>
        file := Torn;     // open(..., "w") truncates
        log := log + [Truncate];
        file := Valid(task.configHash, lastIndex, outputs);
        log := log + [Write(file)];
        assert [Truncate, Write(file)][1..] == [Write(file)] && [Write(file)][1..] == [];
        assert FileAfter(Torn, [Write(file)]) == file;
      case OpenFails =>   // logged and swallowed
      case DumpFails =>
        file := Torn;
        log := log + [Truncate];
    }

    method GetLastCompletedIndex() returns (start: nat)
      ensures start == ResumeIndex(task, file)
      ensures start > 0 <==> file.Valid? && file.configHash == task.configHash
      ensures start > 0 ==> start == file.lastIndex + 1
    {
      match file
      case Absent => start := 0;
      case Torn => start := 0;
      case Valid(hash, last, _) =>
        if hash != task.configHash { start := 0; } else { start := last + 1; }
    }

    method LoadPartialOutputs() returns (outputs: seq<Output>)
      ensures outputs == if file.Valid? then file.outputs else []
    {
      match file
      case Absent => outputs := [];
      case Torn => outputs := [];
      case Valid(_, _, saved) => outputs := saved;
    }

    method ClearCheckpoint()
      modifies this
      ensures var es := if !old(file).Absent? && !io.clearFails then [Unlink] else [];
        log == old(log) + es && file == FileAfter(old(file), es)
      ensures file == if io.clearFails then old(file) else Absent
    {
      if !file.Absent? && !io.clearFails {
        file := Absent;
        log := log + [Unlink];
      }
    }

    ghost method RecordGenerate(i: nat)
      modifies this`log
      ensures log == old(log) + [Generate(i)]
    {
      log := log + [Generate(i)];
    }
  }

  class YAMLBenchmark {
    const checkpoint: CheckpointManager

    constructor (checkpoint: CheckpointManager)
      ensures this.checkpoint == checkpoint
    {
      this.checkpoint := checkpoint;
    }

    /** One pass of the loop body: generate, then perhaps save. */
    method RunItem(i: nat, before: seq<Output>) returns (outputs: seq<Output>, failed: bool)
      requires i < checkpoint.task.N()
      modifies checkpoint
      ensures failed == checkpoint.task.Fails(i)
      ensures outputs == AfterItem(checkpoint.task, i, before)
      ensures var prompt := checkpoint.task.prompts[i];
        match checkpoint.task.engine(prompt)
        case Ok(answer) => !failed && outputs == before + [Output(prompt, answer)]
        case Raised(_) => failed && outputs == before
      ensures checkpoint.log == old(checkpoint.log) + ItemEffects(checkpoint.task, checkpoint.io, i, before)
      ensures checkpoint.file == FileAfter(old(checkpoint.file), ItemEffects(checkpoint.task, checkpoint.io, i, before))
    {
      var t := checkpoint.task;
      ghost var file0 := checkpoint.file;
      checkpoint.RecordGenerate(i);
      var r := t.engine(t.prompts[i]);
      match r
      case Ok(result) =>
        outputs, failed := before + [Output(t.prompts[i], result)], false;
        if (i + 1) % 100 == 0 {
          checkpoint.SaveCheckpoint(i, outputs);
          FileAfterConcat(file0, [Generate(i)], SaveEffects(t, checkpoint.io, i, outputs));
        }
      case Raised(_) =>
        outputs, failed := before, true;
        checkpoint.SaveCheckpoint(i, outputs);
        FileAfterConcat(file0, [Generate(i)], SaveEffects(t, checkpoint.io, i, outputs));
    }

    /** The loop over the prompts from `start` on. */
    method ProcessPrompts(start: nat, resumed: seq<Output>) returns (outputs: seq<Output>, errors: seq<nat>)
      modifies checkpoint
      ensures var t, loop := checkpoint.task, LoopEffects(checkpoint.task, checkpoint.io, start, resumed);
        && outputs == LoopOutputs(t, start, resumed)
        && errors == Failing(t, start)
        && checkpoint.log == old(checkpoint.log) + loop
        && checkpoint.file == FileAfter(old(checkpoint.file), loop)
    {
      hide ItemEffects, AfterItem, LoopEffects, LoopOutputs, Failing, FileAfter;
      var t, io := checkpoint.task, checkpoint.io;
      outputs, errors := resumed, [];
      var i := start;
      ghost var done: seq<Effect> := [];
      NothingDone(checkpoint.file);
      while i < t.N()
        invariant start <= i
        invariant LoopOutputs(t, i, outputs) == LoopOutputs(t, start, resumed)
        invariant errors + Failing(t, i) == Failing(t, start)
        invariant done + LoopEffects(t, io, i, outputs) == LoopEffects(t, io, start, resumed)
        invariant checkpoint.log == old(checkpoint.log) + done
        invariant checkpoint.file == FileAfter(old(checkpoint.file), done)
        decreases t.N() - i
      {
        LoopNext(t, io, i, outputs);
        ghost var step := ItemEffects(t, io, i, outputs);
        var failed: bool;
        outputs, failed := RunItem(i, outputs);
        if failed {
          errors := errors + [i];
        }
        FileAfterConcat(old(checkpoint.file), done, step);
        Regrouped(done, step, LoopEffects(t, io, i + 1, outputs));
        done := done + step;
        i := i + 1;
      }
      LoopEnd(t, io, i, outputs);
      assert done + [] == done && errors + [] == errors;
    }

    static lemma Regrouped<T>(a: seq<T>, b: seq<T>, c: seq<T>)
      ensures (a + b) + c == a + (b + c)
    {
    }

    static lemma NothingDone(file: CheckpointFile)
      ensures FileAfter(file, []) == file
    {
    }

    method Execute() returns (result: BenchmarkResult)
      modifies checkpoint
      ensures result == SessionResult(checkpoint.task, old(checkpoint.file))
      ensures result.passed <==> result.errors == []
      ensures checkpoint.log == old(checkpoint.log)
              + SessionEffects(checkpoint.task, checkpoint.io, old(checkpoint.file))
      ensures checkpoint.file
              == FileAfter(old(checkpoint.file), SessionEffects(checkpoint.task, checkpoint.io, old(checkpoint.file)))
    {
      var start := checkpoint.GetLastCompletedIndex();
      var outputs: seq<Output> := [];
      if start > 0 {
        outputs := checkpoint.LoadPartialOutputs();
      }
      var errors: seq<nat>;
      outputs, errors := ProcessPrompts(start, outputs);
      ghost var loop := SessionLoop(checkpoint.task, checkpoint.io, old(checkpoint.file));
      if errors == [] {
        checkpoint.ClearCheckpoint();
        FileAfterConcat(old(checkpoint.file), loop, [Unlink]);
      }
      assert loop + [] == loop;
      result := BenchmarkResult(errors == [], outputs, errors);
    }
  }
}
