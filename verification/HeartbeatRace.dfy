/**
  A settings sync on the heartbeat thread racing with a status change on the command
  thread (agent-package/src/kitt_agent/heartbeat.py). Nothing locks the shared fields,
  so the two interleave at each single read and write.
*/
module HeartbeatRace {
  import opened Heartbeat

  // ----- the operations without interruption -----

  datatype Block = SyncSettings(interval: int) | SetStatus(status: string) | SetInterval(seconds: int)

  function AfterBlock(s: Shared, block: Block): Shared {
    match block
    case SyncSettings(n) => AfterSync(s, n)
    case SetStatus(to) => AfterStatus(s, to)
    case SetInterval(n) => AfterInterval(s, n)
  }

  function AfterBlocks(s: Shared, blocks: seq<Block>): Shared
    decreases |blocks|
  {
    if blocks == [] then s else AfterBlocks(AfterBlock(s, blocks[0]), blocks[1..])
  }

  /** Any sequence of uninterrupted operations keeps the interval invariant. */
  lemma {:induction false} AtomicBlocksKeepIntervals(s: Shared, blocks: seq<Block>)
    requires s.Ok()
    ensures AfterBlocks(s, blocks).Ok()
    decreases |blocks|
  {
    if blocks != [] {
      AtomicBlocksKeepIntervals(AfterBlock(s, blocks[0]), blocks[1..]);
    }
  }

  // ----- every interleaving of one sync and one status change -----

  datatype Thread = Sync | Setter

  /** The shared fields, each thread's next instruction, and what each has read. */
  datatype Race = Race(shared: Shared, synced: nat, sawRunning: bool, changed: nat, seenBase: int)

  /** The sync writes the base interval, tests the status, and writes the active interval. */
  function SyncStep(r: Race, interval: int): Race {
    var next := r.(synced := r.synced + 1);
    if r.synced == 0 then next.(shared := r.shared.(base := interval))
    else if r.synced == 1 then next.(sawRunning := Runs(r.shared.status))
    else next.(shared := r.shared.(active := Throttled(r.sawRunning, interval)))
  }

  /** The status change writes the status, reads the base interval, and writes the active interval. */
  function SetterStep(r: Race, status: string): Race {
    var next := r.(changed := r.changed + 1);
    if r.changed == 0 then next.(shared := r.shared.(status := status))
    else if r.changed == 1 then next.(seenBase := r.shared.base)
    else next.(shared := r.shared.(active := Throttled(Runs(status), r.seenBase)))
  }

  function RaceStep(r: Race, who: Thread, interval: int, status: string): Race {
    match who
    case Sync => SyncStep(r, interval)
    case Setter => SetterStep(r, status)
  }

  function Interleave(r: Race, order: seq<Thread>, interval: int, status: string): Race {
    if order == [] then r
    else RaceStep(Interleave(r, order[..|order| - 1], interval, status), order[|order| - 1], interval, status)
  }

  function Steps(order: seq<Thread>, who: Thread): nat {
    if order == [] then 0 else Steps(order[..|order| - 1], who) + (if order[|order| - 1] == who then 1 else 0)
  }

  /** A schedule in which both threads finish their three instructions. */
  predicate Complete(order: seq<Thread>) {
    |order| == 6 && Steps(order, Sync) == 3 && Steps(order, Setter) == 3
  }

  function Start(s: Shared): Race { Race(s, 0, false, 0, 0) }

  function Outcome(s: Shared, order: seq<Thread>, interval: int, status: string): Shared {
    Interleave(Start(s), order, interval, status).shared
  }

  /** The thread's first two instructions come before any of the other's. */
  predicate Leads(order: seq<Thread>, who: Thread) {
    |order| >= 2 && order[0] == who && order[1] == who
  }

  /** The sync tests a status that then changes, and writes the active interval last. */
  predicate StaleTest(order: seq<Thread>) {
    Leads(order, Sync) && order[|order| - 1] == Sync
  }

  /** The status change reads a base interval that then changes, and writes the active interval last. */
  predicate StaleBase(order: seq<Thread>) {
    Leads(order, Setter) && order[|order| - 1] == Setter
  }

  /** What each thread has done and read after part of a schedule. */
  ghost predicate Reached(r: Race, s: Shared, order: seq<Thread>, interval: int, status: string) {
    && r.synced == Steps(order, Sync) && r.changed == Steps(order, Setter) && r.synced + r.changed == |order|
    && (Leads(order, Sync) ==> r.synced >= 2) && (Leads(order, Setter) ==> r.changed >= 2)
    && (|order| == 1 ==> (order[0] == Sync <==> r.synced == 1))
    && r.shared.status == (if r.changed == 0 then s.status else status)
    && r.shared.base == (if r.synced == 0 then s.base else interval)
    && (r.synced >= 2 ==> r.sawRunning == Runs(if Leads(order, Sync) then s.status else status))
    && (r.changed >= 2 ==> r.seenBase == if Leads(order, Setter) then s.base else interval)
  }

  lemma {:induction false} ReachedAfter(s: Shared, order: seq<Thread>, interval: int, status: string)
    ensures Reached(Interleave(Start(s), order, interval, status), s, order, interval, status)
  {
    hide Runs, Reached, RaceStep;
    if order == [] {
      ReachedAtStart(s, order, interval, status);
    } else {
      var front, last := order[..|order| - 1], order[|order| - 1];
      ReachedAfter(s, front, interval, status);
      ReachedNext(Interleave(Start(s), front, interval, status), s, front, last, interval, status);
      assert order == front + [last];
    }
  }

  lemma ReachedAtStart(s: Shared, order: seq<Thread>, interval: int, status: string)
    requires order == []
    ensures Reached(Start(s), s, order, interval, status)
  {
  }

  lemma ReachedNext(r: Race, s: Shared, front: seq<Thread>, who: Thread, interval: int, status: string)
    requires Reached(r, s, front, interval, status)
    ensures Reached(RaceStep(r, who, interval, status), s, front + [who], interval, status)
  {
    hide Runs, Throttled, Steps;
    StepsNext(front, who);
    var order := front + [who];
    assert forall i :: 0 <= i < |front| ==> order[i] == front[i];
  }

  lemma StepsNext(front: seq<Thread>, who: Thread)
    ensures Steps(front + [who], Sync) == Steps(front, Sync) + (if who == Sync then 1 else 0)
    ensures Steps(front + [who], Setter) == Steps(front, Setter) + (if who == Setter then 1 else 0)
  {
    assert (front + [who])[..|front|] == front;
  }

  /**
    The outcome of every interleaving. The invariant survives exactly when the last
    write of the active interval is not based on a stale read that matters: a status
    test before a change between running and not running matters for an interval
    below a minute, and an old base interval matters unless the agent is running.
  */
  lemma InterleavedSync(s: Shared, order: seq<Thread>, interval: int, status: string)
    requires s.Ok() && IntervalOk(interval) && Complete(order)
    ensures var t := Outcome(s, order, interval, status);
      && t.status == status && t.base == interval
      && (t.Ok() <==>
            && (StaleTest(order) ==> interval >= 60 || (Runs(s.status) <==> Runs(status)))
            && (StaleBase(order) ==> Runs(status) || interval == s.base))
  {
    hide Runs;
    ReachedAfter(s, order[..5], interval, status);
    ReachedAfter(s, order, interval, status);
  }

  /**
    A sync and a status change are safe however they interleave exactly when the new
    interval is at least a minute or running does not change, and the agent ends up
    running or the interval is the old one.
  */
  lemma SafeInEveryOrder(s: Shared, interval: int, status: string)
    requires s.Ok() && IntervalOk(interval)
    ensures (forall order :: Complete(order) ==> Outcome(s, order, interval, status).Ok()) <==>
      && (interval >= 60 || (Runs(s.status) <==> Runs(status)))
      && (Runs(status) || interval == s.base)
  {
    hide Outcome, Runs, Complete, StaleTest, StaleBase;
    forall order | Complete(order)
      ensures Outcome(s, order, interval, status).Ok() <==>
        && (StaleTest(order) ==> interval >= 60 || (Runs(s.status) <==> Runs(status)))
        && (StaleBase(order) ==> Runs(status) || interval == s.base)
    {
      InterleavedSync(s, order, interval, status);
    }
    var late, early := BothAreStale();
  }

  lemma BothAreStale() returns (late: seq<Thread>, early: seq<Thread>)
    ensures Complete(late) && StaleTest(late) && !StaleBase(late)
    ensures Complete(early) && StaleBase(early) && !StaleTest(early)
  {
    late, early := [Sync, Sync, Setter, Setter, Setter, Sync], [Setter, Setter, Sync, Sync, Sync, Setter];
    Split(Sync, Setter, late);
    Split(Setter, Sync, early);
  }

  lemma Split(a: Thread, b: Thread, order: seq<Thread>)
    requires a != b && order == [a, a, b, b, b, a]
    ensures Steps(order, a) == 3 && Steps(order, b) == 3
  {
    assert order == [a, a] + ([b, b, b] + [a]);
    forall who
      ensures Steps(order, who)
              == (if who == a then 2 else 0) + (if who == b then 3 else 0) + (if who == a then 1 else 0)
    {
      StepsConcat([a, a], [b, b, b] + [a], who);
      StepsConcat([b, b, b], [a], who);
      SameSteps([a, a], a, who);
      SameSteps([b, b, b], b, who);
      SameSteps([a], a, who);
    }
  }

  lemma {:induction false} SameSteps(order: seq<Thread>, a: Thread, who: Thread)
    requires forall i :: 0 <= i < |order| ==> order[i] == a
    ensures Steps(order, who) == if who == a then |order| else 0
  {
    if order != [] {
      SameSteps(order[..|order| - 1], a, who);
    }
  }

  lemma {:induction false} StepsConcat(a: seq<Thread>, b: seq<Thread>, who: Thread)
    ensures Steps(a + b, who) == Steps(a, who) + Steps(b, who)
  {
    if b == [] {
      assert a + b == a;
    } else {
      assert (a + b)[..|a + b| - 1] == a + b[..|b| - 1];
      StepsConcat(a, b[..|b| - 1], who);
    }
  }
}
