/** Log fan-out with bounded subscriber queues (agent-package/src/kitt_agent/log_streamer.py). */
module LogStreamer {
  import opened Basics
  import opened Picking

  /** One `event: log` frame. */
  datatype Event = Event(commandId: string, line: string)

  const QUEUE_SIZE := 200

  /** `b[-k:]` for any integer k. */
  function TailSlice(b: seq<string>, k: int): seq<string> {
    if k > 0 then (if k <= |b| then b[|b| - k..] else b) else Drop(b, -k)
  }

  function Buffered(buffer: seq<string>, line: string, maxBuffer: int): seq<string> {
    var b := buffer + [line];
    if |b| > maxBuffer then TailSlice(b, maxBuffer) else b
  }

  /** `put_nowait`, with queue.Full suppressed. */
  function Put(queue: seq<Event>, e: Event): seq<Event> {
    if |queue| < QUEUE_SIZE then queue + [e] else queue
  }

  function Frames(id: string, lines: seq<string>): seq<Event> {
    seq(|lines|, i requires 0 <= i < |lines| => Event(id, lines[i]))
  }

  /** A new subscriber's queue: the oldest buffered lines, until the queue is full. */
  function Replay(id: string, buffer: seq<string>): seq<Event> {
    Take(Frames(id, buffer), QUEUE_SIZE)
  }

  /** The queues once the event has been put into all but these. */
  function Offered<K>(queues: map<K, seq<Event>>, rest: set<K>, e: Event): (after: map<K, seq<Event>>)
    ensures after.Keys == queues.Keys
  {
    map id | id in queues :: if id in rest then queues[id] else Put(queues[id], e)
  }

  lemma NothingOffered<K>(queues: map<K, seq<Event>>, e: Event)
    ensures Offered(queues, queues.Keys, e) == queues
  {
  }

  lemma AllOffered<K>(queues: map<K, seq<Event>>, e: Event)
    ensures Offered(queues, {}, e) == map id | id in queues :: Put(queues[id], e)
  {
  }

  lemma OfferNext<K>(queues: map<K, seq<Event>>, rest: set<K>, id: K, e: Event)
    requires id in rest && rest <= queues.Keys
    ensures var now := Offered(queues, rest, e);
      Offered(queues, rest - {id}, e) == if |now[id]| < QUEUE_SIZE then now[id := now[id] + [e]] else now
  {
    var now, next := Offered(queues, rest, e), Offered(queues, rest - {id}, e);
    assert forall x :: x in queues && x != id ==> next[x] == now[x];
    assert next[id] == Put(now[id], e);
  }

  class LogStreamer {
    const commandId: string
    const maxBuffer: int
    var buffer: seq<string>
    var subscribers: map<string, seq<Event>>   // each subscriber's queue

    constructor (commandId: string, maxBuffer: int)
      ensures this.commandId == commandId && this.maxBuffer == maxBuffer && buffer == [] && subscribers == map[]
    {
      this.commandId, this.maxBuffer, buffer, subscribers := commandId, maxBuffer, [], map[];
    }

    method Emit(line: string)
      modifies this
      ensures buffer == Buffered(old(buffer), line, maxBuffer)
      ensures subscribers == map id | id in old(subscribers) :: Put(old(subscribers)[id], Event(commandId, line))
      ensures subscribers.Keys == old(subscribers).Keys
      ensures forall id :: id in subscribers ==>
        subscribers[id] == if |old(subscribers)[id]| < 200 then old(subscribers)[id] + [Event(commandId, line)]
                           else old(subscribers)[id]
    {
      buffer := buffer + [line];
      if |buffer| > maxBuffer {
        buffer := TailSlice(buffer, maxBuffer);
      }
      hide Buffered, Offered;
      NothingOffered(subscribers, Event(commandId, line));
      var rest := subscribers.Keys;
      while rest != {}
        invariant buffer == Buffered(old(buffer), line, maxBuffer)
        invariant rest <= subscribers.Keys == old(subscribers).Keys
        invariant subscribers == Offered(old(subscribers), rest, Event(commandId, line))
        decreases |rest|
      {
        var id :| id in rest;
        OfferNext(old(subscribers), rest, id, Event(commandId, line));
        if |subscribers[id]| < QUEUE_SIZE {
          subscribers := subscribers[id := subscribers[id] + [Event(commandId, line)]];
        }
        rest := rest - {id};
      }
      AllOffered(old(subscribers), Event(commandId, line));
    }

    method Subscribe(id: string)
      modifies this
      ensures buffer == old(buffer)
      ensures subscribers == old(subscribers)[id := Replay(commandId, buffer)]
      ensures |subscribers[id]| == Min(|buffer|, 200)
      ensures forall i :: 0 <= i < |subscribers[id]| ==> subscribers[id][i] == Event(commandId, buffer[i])
    {
      var queue: seq<Event> := [];
      var i := 0;
      while i < |buffer|
        invariant 0 <= i <= |buffer| && i <= QUEUE_SIZE && queue == Frames(commandId, buffer)[..i]
      {
        if |queue| >= QUEUE_SIZE {
          break;
        }
        queue := queue + [Event(commandId, buffer[i])];
        i := i + 1;
      }
      ghost var frames := Frames(commandId, buffer);
      assert frames[..|frames|] == frames && |queue| == i;
      assert queue == Take(frames, QUEUE_SIZE);
      subscribers := subscribers[id := queue];
    }

    /** The next frame, or None for a keepalive when the queue stays empty. */
    method Get(id: string) returns (e: Option<Event>)
      requires id in subscribers
      modifies this
      ensures buffer == old(buffer)
      ensures e == if old(subscribers)[id] == [] then None else Some(old(subscribers)[id][0])
      ensures subscribers == old(subscribers)[id := Drop(old(subscribers)[id], 1)]
    {
      var queue := subscribers[id];
      if queue == [] {
        return None;
      }
      subscribers := subscribers[id := queue[1..]];
      return Some(queue[0]);
    }

    method Unsubscribe(id: string)
      modifies this
      ensures buffer == old(buffer) && subscribers == old(subscribers) - {id}
    {
      subscribers := subscribers - {id};
    }
  }

  // ----- the buffer -----

  /** The last n lines. */
  function Last(lines: seq<string>, n: int): seq<string> {
    if n <= 0 then [] else if n <= |lines| then lines[|lines| - n..] else lines
  }

  /** The buffer after emitting these lines. */
  function BufferAfter(history: seq<string>, maxBuffer: int): seq<string> {
    if history == [] then []
    else Buffered(BufferAfter(history[..|history| - 1], maxBuffer), history[|history| - 1], maxBuffer)
  }

  /**
    The buffer is the last max_buffer lines, except when max_buffer is 0: then
    `buffer[-0:]` keeps everything and the buffer grows without bound.
  */
  lemma {:induction false} BufferIsLast(history: seq<string>, maxBuffer: int)
    ensures BufferAfter(history, maxBuffer) == if maxBuffer == 0 then history else Last(history, maxBuffer)
  {
    if history != [] {
      var front, line := history[..|history| - 1], history[|history| - 1];
      BufferIsLast(front, maxBuffer);
      assert history == front + [line];
      LastStep(front, line, maxBuffer);
    }
  }

  lemma LastStep(front: seq<string>, line: string, maxBuffer: int)
    ensures Buffered(if maxBuffer == 0 then front else Last(front, maxBuffer), line, maxBuffer)
            == if maxBuffer == 0 then front + [line] else Last(front + [line], maxBuffer)
  {
    if maxBuffer < 0 {
      assert Last(front, maxBuffer) == [] && [] + [line] == [line];
    } else if maxBuffer > 0 && |front| >= maxBuffer {
      var kept := front[|front| - maxBuffer..];
      assert (kept + [line])[1..] == (front + [line])[|front| + 1 - maxBuffer..];
    }
  }

  lemma BufferBoundedExactly(maxBuffer: int)
    ensures (forall history :: |BufferAfter(history, maxBuffer)| <= Max(maxBuffer, 0)) <==> maxBuffer != 0
  {
    forall history
      ensures maxBuffer != 0 ==> |BufferAfter(history, maxBuffer)| <= Max(maxBuffer, 0)
    {
      BufferIsLast(history, maxBuffer);
    }
    if maxBuffer == 0 {
      BufferIsLast(["x"], 0);
      assert |BufferAfter(["x"], 0)| == 1;
    }
  }

  // ----- subsequences -----

  /** a can be read off b in order, using each position at most once. */
  predicate Subsequence<T(==)>(a: seq<T>, b: seq<T>) {
    a == []
    || (b != [] && ((a[|a| - 1] == b[|b| - 1] && Subsequence(a[..|a| - 1], b[..|b| - 1]))
       || Subsequence(a, b[..|b| - 1])))
  }

  lemma SubsequenceSnoc<T>(a: seq<T>, b: seq<T>, x: T)
    requires Subsequence(a, b)
    ensures Subsequence(a + [x], b + [x]) && Subsequence(a, b + [x])
  {
    assert (a + [x])[..|a|] == a && (b + [x])[..|b|] == b;
  }

  lemma {:induction false} PrefixIsSubsequence<T>(b: seq<T>, k: nat)
    requires k <= |b|
    ensures Subsequence(b[..k], b)
  {
    if k == |b| {
      if b != [] {
        PrefixIsSubsequence(b[..|b| - 1], k - 1);
        assert b[..k] == b && b[..|b| - 1][..k - 1] == b[..|b| - 1];
      }
    } else {
      PrefixIsSubsequence(b[..|b| - 1], k);
      assert b[..|b| - 1][..k] == b[..k];
    }
  }

  /** A subsequence is exactly a selection of strictly increasing positions. */
  lemma {:induction false} SubsequencePositions<T>(a: seq<T>, b: seq<T>) returns (p: seq<int>)
    requires Subsequence(a, b)
    ensures |p| == |a| && Increasing(p, |b|) && forall i :: 0 <= i < |a| ==> a[i] == b[p[i]]
  {
    if a == [] {
      p := [];
    } else if a[|a| - 1] == b[|b| - 1] && Subsequence(a[..|a| - 1], b[..|b| - 1]) {
      p := SubsequencePositions(a[..|a| - 1], b[..|b| - 1]);
      p := p + [|b| - 1];
    } else {
      p := SubsequencePositions(a, b[..|b| - 1]);
    }
  }

  // ----- every interleaving of the operations -----

  datatype Op = EmitLine(line: string) | Join(id: string) | Fetch(id: string) | Leave(id: string)

  /**
    A subscriber and what it has been through: its queue, what it has received, the
    history position where its stream begins, and how many lines were refused because
    its queue was full. `until` is where its stream ended, if it has left.
  */
  datatype Sub = Sub(queue: seq<Event>, received: seq<Event>, start: nat, refused: nat, until: Option<nat>)

  datatype Run = Run(history: seq<string>, buffer: seq<string>, subs: map<string, Sub>)

  predicate Active(s: Sub) { s.until.None? }

  /** The queues of the subscribers that have not left: what the streamer object holds. */
  function Queues(r: Run): map<string, seq<Event>> {
    map id | id in r.subs && Active(r.subs[id]) :: r.subs[id].queue
  }

  function Offer(s: Sub, e: Event): Sub {
    if !Active(s) then s
    else s.(queue := Put(s.queue, e), refused := s.refused + (if |s.queue| < QUEUE_SIZE then 0 else 1))
  }

  function NewSub(id: string, r: Run): Sub {
    Sub(Replay(id, r.buffer), [], Max(|r.history| - |r.buffer|, 0), |r.buffer| - |Replay(id, r.buffer)|, None)
  }

  /** Subscriber ids are not used twice; only present subscribers fetch and leave. */
  predicate Enabled(r: Run, op: Op) {
    match op
    case EmitLine(_) => true
    case Join(id) => id !in r.subs
    case Fetch(id) => id in r.subs && Active(r.subs[id])
    case Leave(id) => id in r.subs && Active(r.subs[id])
  }

  function Step(commandId: string, maxBuffer: int, r: Run, op: Op): Run
    requires Enabled(r, op)
  {
    match op
    case EmitLine(line) =>
      Run(r.history + [line], Buffered(r.buffer, line, maxBuffer),
          map id | id in r.subs :: Offer(r.subs[id], Event(commandId, line)))
    case Join(id) => r.(subs := r.subs[id := NewSub(commandId, r)])
    case Fetch(id) =>
      var s := r.subs[id];
      r.(subs := r.subs[id := s.(queue := Drop(s.queue, 1), received := s.received + Take(s.queue, 1))])
    case Leave(id) => r.(subs := r.subs[id := r.subs[id].(until := Some(|r.history|))])
  }

  /** A step changes the queues and the buffer just as the streamer's methods do. */
  lemma StepIsMethod(commandId: string, maxBuffer: int, r: Run, op: Op)
    requires Enabled(r, op)
    ensures var t := Step(commandId, maxBuffer, r, op);
      match op
      case EmitLine(line) =>
        t.buffer == Buffered(r.buffer, line, maxBuffer)
        && Queues(t) == map id | id in Queues(r) :: Put(Queues(r)[id], Event(commandId, line))
      case Join(id) => t.buffer == r.buffer && Queues(t) == Queues(r)[id := Replay(commandId, r.buffer)]
      case Fetch(id) => t.buffer == r.buffer && Queues(t) == Queues(r)[id := Drop(Queues(r)[id], 1)]
      case Leave(id) => t.buffer == r.buffer && Queues(t) == Queues(r) - {id}
  {
  }

  /** The stretch of history that a subscriber's stream covers so far. */
  function Covered(commandId: string, r: Run, s: Sub): seq<Event>
    requires s.start <= s.until.GetOr(|r.history|) <= |r.history|
  {
    Frames(commandId, r.history[s.start..s.until.GetOr(|r.history|)])
  }

  ghost predicate SubOk(commandId: string, r: Run, s: Sub) {
    && s.start <= s.until.GetOr(|r.history|) <= |r.history|
    && |s.queue| <= QUEUE_SIZE
    && Subsequence(s.received + s.queue, Covered(commandId, r, s))
    && |s.received + s.queue| + s.refused == |Covered(commandId, r, s)|
    && (s.refused == 0 ==> s.received + s.queue == Covered(commandId, r, s))
    && (|s.received + s.queue| < QUEUE_SIZE ==> s.refused == 0)
    && Take(s.received + s.queue, QUEUE_SIZE) == Take(Covered(commandId, r, s), QUEUE_SIZE)
  }

  ghost predicate Inv(commandId: string, maxBuffer: int, r: Run) {
    && r.buffer == BufferAfter(r.history, maxBuffer)
    && forall id :: id in r.subs ==> SubOk(commandId, r, r.subs[id])
  }

  lemma OfferKeepsOk(commandId: string, r: Run, s: Sub, line: string, t: Run)
    requires SubOk(commandId, r, s) && t.history == r.history + [line]
    ensures SubOk(commandId, t, Offer(s, Event(commandId, line)))
  {
    hide Subsequence;
    if Active(s) {
      OfferGrows(commandId, r, s, line, t);
    } else {
      assert t.history[s.start..s.until.value] == r.history[s.start..s.until.value];
    }
  }

  lemma OfferGrows(commandId: string, r: Run, s: Sub, line: string, t: Run)
    requires SubOk(commandId, r, s) && t.history == r.history + [line] && Active(s)
    ensures SubOk(commandId, t, Offer(s, Event(commandId, line)))
  {
    hide Subsequence, Frames, Take;
    var before, e := Covered(commandId, r, s), Event(commandId, line);
    FramesSnoc(commandId, r.history[s.start..], line);
    assert t.history[s.start..|t.history|] == r.history[s.start..] + [line];
    assert r.history[s.start..|r.history|] == r.history[s.start..];
    assert Covered(commandId, t, s) == before + [e];
    SubsequenceSnoc(s.received + s.queue, before, e);
    assert s.received + (s.queue + [e]) == (s.received + s.queue) + [e];
    TakeSnoc(s.received + s.queue, e, QUEUE_SIZE);
    TakeSnoc(before, e, QUEUE_SIZE);
  }

  lemma TakeSnoc(s: seq<Event>, e: Event, n: nat)
    ensures Take(s + [e], n) == if |s| < n then s + [e] else Take(s, n)
    ensures |s| <= n ==> Take(s, n) == s
  {
  }

  lemma FramesSnoc(id: string, lines: seq<string>, line: string)
    ensures Frames(id, lines + [line]) == Frames(id, lines) + [Event(id, line)]
  {
  }

  lemma NewSubIsOk(commandId: string, maxBuffer: int, r: Run)
    requires r.buffer == BufferAfter(r.history, maxBuffer)
    ensures |r.buffer| <= |r.history| && SubOk(commandId, r, NewSub(commandId, r))
  {
    hide Subsequence, BufferAfter, Frames;
    BufferIsLast(r.history, maxBuffer);
    assert r.history[|r.history| - |r.buffer|..|r.history|] == r.buffer;
    FramesLength(commandId, r.buffer);
    ReplayIsPrefix(Frames(commandId, r.buffer));
  }

  lemma FramesLength(id: string, lines: seq<string>)
    ensures |Frames(id, lines)| == |lines|
  {
  }

  lemma ReplayIsPrefix(frames: seq<Event>)
    ensures var queue := Take(frames, QUEUE_SIZE);
      |queue| <= QUEUE_SIZE && Subsequence([] + queue, frames) && (|frames| == |queue| ==> [] + queue == frames)
  {
    PrefixIsSubsequence(frames, Min(|frames|, QUEUE_SIZE));
    assert frames[..|frames|] == frames && [] + Take(frames, QUEUE_SIZE) == Take(frames, QUEUE_SIZE);
  }

  lemma {:induction false} StepKeepsInv(commandId: string, maxBuffer: int, r: Run, op: Op)
    requires Inv(commandId, maxBuffer, r) && Enabled(r, op)
    ensures Inv(commandId, maxBuffer, Step(commandId, maxBuffer, r, op))
  {
    hide SubOk, Buffered;
    var t := Step(commandId, maxBuffer, r, op);
    match op
    case EmitLine(line) =>
      assert t.history[..|r.history|] == r.history;
      forall id | id in t.subs
        ensures SubOk(commandId, t, t.subs[id])
      {
        OfferKeepsOk(commandId, r, r.subs[id], line, t);
      }
    case Join(id) =>
      NewSubIsOk(commandId, maxBuffer, r);
      SameHistory(commandId, r, t);
    case Fetch(id) =>
      FetchKeepsOk(commandId, r, r.subs[id]);
      SameHistory(commandId, r, t);
    case Leave(id) =>
      LeaveKeepsOk(commandId, r, r.subs[id]);
      SameHistory(commandId, r, t);
  }

  lemma SameHistory(commandId: string, r: Run, t: Run)
    requires r.history == t.history
    ensures forall s :: SubOk(commandId, r, s) ==> SubOk(commandId, t, s)
  {
  }

  lemma FetchKeepsOk(commandId: string, r: Run, s: Sub)
    requires SubOk(commandId, r, s)
    ensures SubOk(commandId, r, s.(queue := Drop(s.queue, 1), received := s.received + Take(s.queue, 1)))
  {
    assert s.received + Take(s.queue, 1) + Drop(s.queue, 1) == s.received + s.queue;
  }

  lemma LeaveKeepsOk(commandId: string, r: Run, s: Sub)
    requires SubOk(commandId, r, s) && Active(s)
    ensures SubOk(commandId, r, s.(until := Some(|r.history|)))
  {
  }

  ghost predicate AllEnabled(commandId: string, maxBuffer: int, r: Run, ops: seq<Op>)
    decreases |ops|
  {
    ops != [] ==>
      Enabled(r, ops[0]) && AllEnabled(commandId, maxBuffer, Step(commandId, maxBuffer, r, ops[0]), ops[1..])
  }

  function After(commandId: string, maxBuffer: int, r: Run, ops: seq<Op>): Run
    requires AllEnabled(commandId, maxBuffer, r, ops)
    decreases |ops|
  {
    if ops == [] then r else After(commandId, maxBuffer, Step(commandId, maxBuffer, r, ops[0]), ops[1..])
  }

  lemma {:induction false} RunKeepsInv(commandId: string, maxBuffer: int, r: Run, ops: seq<Op>)
    requires Inv(commandId, maxBuffer, r) && AllEnabled(commandId, maxBuffer, r, ops)
    ensures Inv(commandId, maxBuffer, After(commandId, maxBuffer, r, ops))
    decreases |ops|
  {
    hide Inv, Step, Enabled;
    if ops != [] {
      StepKeepsInv(commandId, maxBuffer, r, ops[0]);
      RunKeepsInv(commandId, maxBuffer, Step(commandId, maxBuffer, r, ops[0]), ops[1..]);
    }
  }

  /**
    For every interleaving and every subscriber: its queue holds at most 200 frames,
    and what it has received plus what is queued is an in-order selection, without
    repetition, of the lines since the oldest one buffered when it subscribed. It is
    all of them exactly when no put ever met a full queue.
  */
  lemma StreamsAreFaithful(commandId: string, maxBuffer: int, ops: seq<Op>, id: string)
    requires AllEnabled(commandId, maxBuffer, Run([], [], map[]), ops)
    requires id in After(commandId, maxBuffer, Run([], [], map[]), ops).subs
    ensures var r := After(commandId, maxBuffer, Run([], [], map[]), ops);
      var s := r.subs[id];
      && s.start <= s.until.GetOr(|r.history|) <= |r.history|
      && r.buffer == (if maxBuffer == 0 then r.history else Last(r.history, maxBuffer))
      && |s.queue| <= QUEUE_SIZE
      && Subsequence(s.received + s.queue, Covered(commandId, r, s))
      && (s.received + s.queue == Covered(commandId, r, s) <==> s.refused == 0)
  {
    RunKeepsInv(commandId, maxBuffer, Run([], [], map[]), ops);
    var r := After(commandId, maxBuffer, Run([], [], map[]), ops);
    BufferIsLast(r.history, maxBuffer);
    assert SubOk(commandId, r, r.subs[id]);
  }

  /**
    What subscriber s has received, and then what is queued for it: the lines at positions
    p of the history, in order, none twice, under the stream's command id. They lie in the
    stretch from where its stream began; the first 200 of that stretch are always among
    them, and so are all unless a put met a full queue.
  */
  ghost predicate Streams(commandId: string, history: seq<string>, s: Sub, p: seq<int>) {
    var frames, end := s.received + s.queue, s.until.GetOr(|history|);
    && s.start <= end <= |history| && |p| == |frames| <= end - s.start
    && (forall i, j :: 0 <= i < j < |p| ==> p[i] < p[j])
    && (forall k :: 0 <= k < |p| ==> s.start <= p[k] < end && frames[k] == Event(commandId, history[p[k]]))
    && (forall k :: 0 <= k < |p| && k < 200 ==> p[k] == s.start + k)
    && (|p| < 200 || s.refused == 0 ==> |p| == end - s.start)
  }

  lemma StreamPositions(commandId: string, maxBuffer: int, ops: seq<Op>, id: string) returns (p: seq<int>)
    requires AllEnabled(commandId, maxBuffer, Run([], [], map[]), ops)
    requires id in After(commandId, maxBuffer, Run([], [], map[]), ops).subs
    ensures var r := After(commandId, maxBuffer, Run([], [], map[]), ops);
      Streams(commandId, r.history, r.subs[id], p) && |r.subs[id].queue| <= 200
  {
    hide After, AllEnabled;
    RunKeepsInv(commandId, maxBuffer, Run([], [], map[]), ops);
    var r := After(commandId, maxBuffer, Run([], [], map[]), ops);
    p := PositionsInStream(commandId, r, r.subs[id]);
  }

  lemma PositionsInStream(commandId: string, r: Run, s: Sub) returns (p: seq<int>)
    requires SubOk(commandId, r, s)
    ensures Streams(commandId, r.history, s, p)
  {
    hide Subsequence, Frames, Streams;
    var q := EarlyPositions(s.received + s.queue, Covered(commandId, r, s));
    FramesAt(commandId, r.history, s.start, s.until.GetOr(|r.history|));
    p := seq(|q|, k requires 0 <= k < |q| => s.start + q[k]);
    Placed(commandId, r.history, s, q, p);
  }

  lemma Placed(commandId: string, history: seq<string>, s: Sub, q: seq<int>, p: seq<int>)
    requires var frames, end := s.received + s.queue, s.until.GetOr(|history|);
      && s.start <= end <= |history| && |p| == |q| == |frames| <= end - s.start
      && (|frames| < 200 || s.refused == 0 ==> |frames| == end - s.start)
      && (forall k :: 0 <= k < |q| ==>
            0 <= q[k] < end - s.start && frames[k] == Event(commandId, history[s.start + q[k]]))
      && (forall i, j :: 0 <= i < j < |q| ==> q[i] < q[j])
      && (forall k :: 0 <= k < |q| && k < 200 ==> q[k] == k)
    requires forall k :: 0 <= k < |q| ==> p[k] == s.start + q[k]
    ensures Streams(commandId, history, s, p)
  {
  }

  lemma EarlyPositions<T>(a: seq<T>, b: seq<T>) returns (p: seq<int>)
    requires Subsequence(a, b) && Take(a, QUEUE_SIZE) == Take(b, QUEUE_SIZE)
    ensures |p| == |a| && forall k :: 0 <= k < |p| ==> 0 <= p[k] < |b| && a[k] == b[p[k]]
    ensures forall i, j :: 0 <= i < j < |p| ==> p[i] < p[j]
    ensures forall k :: 0 <= k < |p| && k < 200 ==> p[k] == k
  {
    hide Subsequence;
    var q := SubsequencePositions(a, b);
    IncreasingReach(q, |b|);
    p := seq(|q|, k requires 0 <= k < |q| => if k < 200 then k else q[k]);
    forall k | 0 <= k < |a| && k < 200
      ensures k < |b| && a[k] == b[k]
    {
      assert Take(a, QUEUE_SIZE)[k] == Take(b, QUEUE_SIZE)[k];
    }
  }

  lemma FramesAt(id: string, history: seq<string>, i: nat, j: nat)
    requires i <= j <= |history|
    ensures var frames := Frames(id, history[i..j]);
      |frames| == j - i && forall k :: 0 <= k < j - i ==> frames[k] == Event(id, history[i + k])
  {
  }

  lemma {:induction false} IncreasingReach(q: seq<int>, n: nat)
    requires Increasing(q, n)
    ensures forall k :: 0 <= k < |q| ==> k <= q[k]
  {
    if |q| > 1 {
      IncreasingReach(q[..|q| - 1], n);
      assert q[..|q| - 1][|q| - 2] == q[|q| - 2] < q[|q| - 1];
    }
  }

  /** A new stream begins at the oldest buffered line. */
  lemma StreamBegins(commandId: string, maxBuffer: int, ops: seq<Op>, id: string)
    requires AllEnabled(commandId, maxBuffer, Run([], [], map[]), ops)
    requires id !in After(commandId, maxBuffer, Run([], [], map[]), ops).subs
    ensures var r := After(commandId, maxBuffer, Run([], [], map[]), ops);
      var s := Step(commandId, maxBuffer, r, Join(id)).subs[id];
      s.received == [] && s.until == None && s.start <= |r.history| && r.history[s.start..] == r.buffer
  {
    hide After, AllEnabled, SubOk;
    RunKeepsInv(commandId, maxBuffer, Run([], [], map[]), ops);
    BufferIsLast(After(commandId, maxBuffer, Run([], [], map[]), ops).history, maxBuffer);
  }
}
