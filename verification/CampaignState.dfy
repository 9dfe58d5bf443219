/**
  Campaign state and its persistence (src/kitt/campaign/state_manager.py).
  One campaign's state file always holds the last snapshot that was saved: a
  save writes a temporary file and renames it over the old one.
*/
module CampaignState {
  import opened Basics

  datatype Status = Pending | Running | Success | Failed | Skipped {
    predicate Terminal() { Success? || Failed? || Skipped? }
  }

  function JoinKey(model: string, engine: string, quant: string): string {
    model + "|" + engine + "|" + quant
  }

  datatype RunState = RunState(modelName: string, engineName: string, quant: string, status: Status,
                               durationS: real, outputDir: string, error: string)
  {
    function Key(): string { JoinKey(modelName, engineName, quant) }
  }

  /** What one state file holds. */
  datatype Snapshot = Snapshot(completed: bool, runs: seq<RunState>)

  /** The effects of a campaign session on the outside world, in the order they happen. */
  datatype Step =
    | Saved(snapshot: Snapshot)             // the state file now holds this snapshot
    | Attempt(key: string)                  // a run's execution starts
    | Fetch(artifact: Artifact, ok: bool)   // a model download returned
    | Launch(key: string, needs: Option<Artifact>)  // a benchmark process starts
    | Remove(repo: string)                  // a model repository is removed from local storage
    | Submit(ticket: nat, key: string, brings: Option<Artifact>)  // a prefetch, and what it brings, goes to the pool
    | Await(ticket: nat, key: string)       // the main thread obtained the result of that very prefetch

  /** Files of a repository, selected by an optional include pattern. */
  datatype Artifact = Artifact(repo: string, pattern: Option<string>)

  function KeysOf(runs: seq<RunState>): seq<string> {
    seq(|runs|, i requires 0 <= i < |runs| => runs[i].Key())
  }

  /** The keys that a resumed session treats as finished. */
  function DoneKeys(runs: seq<RunState>): set<string> {
    set r | r in runs && r.status.Terminal() :: r.Key()
  }

  function CountStatus(runs: seq<RunState>, s: Status): nat {
    if runs == [] then 0 else (if runs[0].status == s then 1 else 0) + CountStatus(runs[1..], s)
  }

  /** The position of the first entry with this key, or |runs| if there is none. */
  function FirstIndex(runs: seq<RunState>, key: string): (i: nat)
    ensures i <= |runs|
    ensures i < |runs| ==> runs[i].Key() == key
    ensures forall j :: 0 <= j < i ==> runs[j].Key() != key
  {
    if runs == [] || runs[0].Key() == key then 0 else 1 + FirstIndex(runs[1..], key)
  }

  /** What an update writes into an entry. */
  datatype Update = Update(status: Status, durationS: real, outputDir: string, error: string)

  function Rewrite(r: RunState, u: Update): RunState {
    r.(status := u.status, durationS := u.durationS, outputDir := u.outputDir, error := u.error)
  }

  /** Only the first entry with the key changes. */
  function UpdateFirst(runs: seq<RunState>, key: string, u: Update): seq<RunState> {
    var i := FirstIndex(runs, key);
    if i < |runs| then runs[i := Rewrite(runs[i], u)] else runs
  }

  // ----- the objects -----

  class CampaignState {
    const campaignId: string
    var completed: bool
    var runs: seq<RunState>

    constructor (id: string, completed: bool, runs: seq<RunState>)
      ensures this.campaignId == id && this.completed == completed && this.runs == runs
    {
      this.campaignId, this.completed, this.runs := id, completed, runs;
    }

    function View(): Snapshot reads this { Snapshot(completed, runs) }

    function Total(): nat reads this { |runs| }
    function Succeeded(): nat reads this { CountStatus(runs, Success) }
    function FailedCount(): nat reads this { CountStatus(runs, Failed) }
    function SkippedCount(): nat reads this { CountStatus(runs, Skipped) }
    function PendingCount(): nat reads this { CountStatus(runs, Pending) }
  }

  class CampaignStateManager {
    var files: map<string, Snapshot>   // the campaigns directory: one state file per campaign id
    const readable: string -> bool     // whether a campaign's state file can be read and parsed
    ghost var log: seq<Step>           // every outside effect so far; specification only

    constructor (readable: string -> bool)
      ensures files == map[] && log == [] && this.readable == readable
    {
      this.readable := readable;
      files, log := map[], [];
    }

    method Save(state: CampaignState)
      modifies this
      ensures files == old(files)[state.campaignId := state.View()]
      ensures log == old(log) + [Saved(state.View())]
    {
      files := files[state.campaignId := state.View()];
      log := log + [Saved(state.View())];
    }

    method Create(id: string) returns (state: CampaignState)
      modifies this
      ensures fresh(state) && state.campaignId == id && state.View() == Snapshot(false, [])
      ensures files == old(files)[id := Snapshot(false, [])]
      ensures log == old(log) + [Saved(Snapshot(false, []))]
    {
      state := new CampaignState(id, false, []);
      Save(state);
    }

    method Load(id: string) returns (state: CampaignState?)
      ensures state == null <==> id !in files || !readable(id)
      ensures state != null ==> fresh(state) && state.campaignId == id && state.View() == files[id]
    {
      if id !in files {
        return null;
      }
      if !readable(id) {   // the error is only logged
        return null;
      }
      state := new CampaignState(id, files[id].completed, files[id].runs);
    }

    method UpdateRun(state: CampaignState, key: string, u: Update)
      modifies this, state
      ensures state.completed == old(state.completed)
      ensures state.runs == UpdateFirst(old(state.runs), key, u)
      ensures files == old(files)[state.campaignId := state.View()]
      ensures log == old(log) + [Saved(state.View())]
    {
      var i := 0;
      while i < |state.runs|
        invariant 0 <= i <= |state.runs|
        invariant state.runs == old(state.runs) && state.completed == old(state.completed)
        invariant files == old(files) && log == old(log)
        invariant forall j :: 0 <= j < i ==> state.runs[j].Key() != key
      {
        if state.runs[i].Key() == key {
          state.runs := state.runs[i := Rewrite(state.runs[i], u)];
          break;
        }
        i := i + 1;
      }
      Save(state);
    }

    function IsRunDone(state: CampaignState, key: string): bool
      reads state
    {
      key in DoneKeys(state.runs)
    }
  }

  // ----- properties of the state -----

  /** Every entry is in exactly one of the five states. */
  lemma {:induction false} Conservation(runs: seq<RunState>)
    ensures |runs| == CountStatus(runs, Pending) + CountStatus(runs, Running) + CountStatus(runs, Success)
                      + CountStatus(runs, Failed) + CountStatus(runs, Skipped)
  {
    if runs != [] {
      Conservation(runs[1..]);
    }
  }

  /** The state object's own counters add up. */
  lemma CountersAddUp(state: CampaignState)
    ensures state.Total() == state.PendingCount() + CountStatus(state.runs, Running) + state.Succeeded()
                             + state.FailedCount() + state.SkippedCount()
  {
    Conservation(state.runs);
  }

  lemma UpdateKeepsKeys(runs: seq<RunState>, key: string, u: Update)
    ensures KeysOf(UpdateFirst(runs, key, u)) == KeysOf(runs)
  {
  }

  /** Updating a key that is not finished loses no finished key. */
  lemma UpdateKeepsDone(runs: seq<RunState>, key: string, u: Update)
    requires key !in DoneKeys(runs)
    ensures DoneKeys(runs) <= DoneKeys(UpdateFirst(runs, key, u)) <= DoneKeys(runs) + {key}
    ensures !u.status.Terminal() ==> DoneKeys(UpdateFirst(runs, key, u)) == DoneKeys(runs)
  {
    var i := FirstIndex(runs, key);
    var after := UpdateFirst(runs, key, u);
    forall k | k in DoneKeys(runs)
      ensures k in DoneKeys(after)
    {
      var r :| r in runs && r.status.Terminal() && r.Key() == k;
      var j :| 0 <= j < |runs| && runs[j] == r;
      assert j != i && after[j] == r;
    }
    forall k | k in DoneKeys(after) && (k != key || !u.status.Terminal())
      ensures k in DoneKeys(runs)
    {
      var r :| r in after && r.status.Terminal() && r.Key() == k;
      var j :| 0 <= j < |after| && after[j] == r;
      assert runs[j] == r;
    }
  }

  lemma KeyIsFound(runs: seq<RunState>, key: string)
    requires key in KeysOf(runs)
    ensures FirstIndex(runs, key) < |runs|
  {
    hide JoinKey;
    var j :| 0 <= j < |runs| && KeysOf(runs)[j] == key;
    assert runs[j].Key() == key;
  }

  /** A terminal update of a registered key finishes it, and loses no other finished key. */
  lemma TerminalUpdateFinishes(runs: seq<RunState>, key: string, u: Update)
    requires key in KeysOf(runs) && u.status.Terminal()
    ensures DoneKeys(UpdateFirst(runs, key, u)) == DoneKeys(runs) + {key}
  {
    var i := FirstIndex(runs, key);
    var after := UpdateFirst(runs, key, u);
    KeyIsFound(runs, key);
    assert after[i] in after && after[i].Key() == key;
    forall k | k in DoneKeys(runs) && k != key
      ensures k in DoneKeys(after)
    {
      var r :| r in runs && r.status.Terminal() && r.Key() == k;
      var j :| 0 <= j < |runs| && runs[j] == r;
      assert after[j] == r;
    }
    forall k | k in DoneKeys(after)
      ensures k in DoneKeys(runs) + {key}
    {
      var r :| r in after && r.status.Terminal() && r.Key() == k;
      var j :| 0 <= j < |after| && after[j] == r;
      assert j != i ==> runs[j] == r;
    }
  }

  /** An update moves exactly one entry's count. */
  lemma {:induction false} CountAfterUpdate(runs: seq<RunState>, key: string, u: Update, s: Status)
    requires key in KeysOf(runs)
    ensures FirstIndex(runs, key) < |runs|
    ensures CountStatus(UpdateFirst(runs, key, u), s)
            == CountStatus(runs, s) - (if runs[FirstIndex(runs, key)].status == s then 1 else 0)
               + (if u.status == s then 1 else 0)
  {
    hide JoinKey;
    KeyIsFound(runs, key);
    var i := FirstIndex(runs, key);
    CountRewritten(runs, i, Rewrite(runs[i], u), s);
  }

  lemma {:induction false} CountRewritten(runs: seq<RunState>, i: nat, r: RunState, s: Status)
    requires i < |runs|
    ensures CountStatus(runs[i := r], s)
            == CountStatus(runs, s) - (if runs[i].status == s then 1 else 0) + (if r.status == s then 1 else 0)
  {
    if i == 0 {
      assert runs[i := r][1..] == runs[1..];
    } else {
      CountRewritten(runs[1..], i - 1, r, s);
      assert runs[i := r][1..] == runs[1..][i - 1 := r];
    }
  }
}
