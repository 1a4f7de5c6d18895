/** Iterating over the sharded map: IterBuffered and Iter start one goroutine per shard that sends
    the shard's entries over a channel under the shard's read lock, and one goroutine that closes
    the channel when all are done; Items collects. Writers go on in between. A capacity of 0 is
    the unbuffered channel of Iter. */
module ShardIteration {
  import opened Fnv
  import opened Sums
  import opened ShardedMap

  type Entry<V> = (Key, V)

  /** A goroutine sending shard contents `snap`, with the keys it has still to send. */
  datatype Worker<V> =
    | Waiting
    | Sending(snap: map<Key, V>, rest: set<Key>)
    | Unlocked(snap: map<Key, V>)
    | Finished(snap: map<Key, V>)

  datatype State<V> = State(
    parts: seq<map<Key, V>>,
    workers: seq<Worker<V>>,
    pending: int,             // the wait group
    capacity: nat,
    buffer: seq<Entry<V>>,    // the channel
    closes: nat,              // how often it was closed
    received: seq<Entry<V>>,
    ended: bool               // the collector's range loop is over
  )

  function Initial<V>(parts: seq<map<Key, V>>, capacity: nat): State<V> {
    State(parts, seq(SHARD_COUNT, _ => Waiting), SHARD_COUNT, capacity, [], 0, [], false)
  }

  datatype Action<!V> =
    | Write(op: Op<V>)         // a caller's critical section
    | Lock(i: nat)             // RLock
    | Send(i: nat, k: Key)     // into the buffer
    | Handoff(i: nat, k: Key)  // straight to the waiting collector
    | Unlock(i: nat)           // RUnlock
    | SignOff(i: nat)          // wg.Done
    | Close                    // wg.Wait returned
    | Receive
    | End                      // the channel is closed and drained

  /** Operations that hold a shard's lock for writing; a sender's read lock keeps them out. */
  predicate IsWriter<V>(op: Op<V>) {
    !op.Get? && !op.Has?
  }

  predicate CanSend<V>(s: State<V>, i: nat, k: Key) {
    i < |s.workers| && s.workers[i].Sending? && k in s.workers[i].rest && k in s.workers[i].snap
  }

  predicate Enabled<V>(s: State<V>, a: Action<V>)
    requires |s.parts| == |s.workers| == SHARD_COUNT
  {
    match a
    case Write(op) => IsWriter(op) ==> !s.workers[ShardOf(op.key)].Sending?
    case Lock(i) => i < SHARD_COUNT && s.workers[i].Waiting?
    case Send(i, k) => CanSend(s, i, k) && |s.buffer| < s.capacity
    case Handoff(i, k) => CanSend(s, i, k) && s.buffer == [] && !s.ended
    case Unlock(i) => i < SHARD_COUNT && s.workers[i].Sending? && s.workers[i].rest == {}
    case SignOff(i) => i < SHARD_COUNT && s.workers[i].Unlocked?
    case Close => s.pending == 0 && s.closes == 0
    case Receive => s.buffer != []
    case End => s.buffer == [] && s.closes > 0 && !s.ended
  }

  function Put<V>(s: State<V>, i: nat, w: Worker<V>): State<V>
    requires i < |s.workers|
  {
    s.(workers := s.workers[i := w])
  }

  function Sent<V>(w: Worker<V>): map<Key, V> {
    match w
    case Waiting => map[]
    case Sending(snap, rest) => snap - rest
    case Unlocked(snap) => snap
    case Finished(snap) => snap
  }

  function AfterSend<V>(w: Worker<V>, k: Key): Worker<V>
    requires w.Sending?
  {
    w.(rest := w.rest - {k})
  }

  function Next<V>(s: State<V>, a: Action<V>): State<V>
    requires |s.parts| == |s.workers| == SHARD_COUNT && Enabled(s, a)
  {
    match a
    case Write(op) => s.(parts := Sharded(s.parts, op).0)
    case Lock(i) => Put(s, i, Sending(s.parts[i], s.parts[i].Keys))
    case Send(i, k) =>
      Put(s, i, AfterSend(s.workers[i], k)).(buffer := s.buffer + [(k, s.workers[i].snap[k])])
    case Handoff(i, k) =>
      Put(s, i, AfterSend(s.workers[i], k)).(received := s.received + [(k, s.workers[i].snap[k])])
    case Unlock(i) => Put(s, i, Unlocked(s.workers[i].snap))
    case SignOff(i) => Put(s, i, Finished(s.workers[i].snap)).(pending := s.pending - 1)
    case Close => s.(closes := s.closes + 1)
    case Receive => s.(received := s.received + [s.buffer[0]], buffer := s.buffer[1..])
    case End => s.(ended := true)
  }

  /** The map that Items builds from what it receives. */
  function Collect<V>(entries: seq<Entry<V>>): map<Key, V> {
    if entries == [] then map[] else
    var (k, v) := entries[|entries| - 1];
    Collect(entries[..|entries| - 1])[k := v]
  }

  ghost function SentParts<V>(ws: seq<Worker<V>>): (parts: seq<map<Key, V>>)
    ensures |parts| == |ws| && forall i :: 0 <= i < |ws| ==> parts[i] == Sent(ws[i])
  {
    seq(|ws|, i requires 0 <= i < |ws| => Sent(ws[i]))
  }

  /** Shard contents as each goroutine saw them when it took its read lock. */
  ghost function Snapshots<V>(ws: seq<Worker<V>>): (parts: seq<map<Key, V>>)
    ensures |parts| == |ws|
    ensures forall i :: 0 <= i < |ws| ==> parts[i] == if ws[i].Waiting? then map[] else ws[i].snap
  {
    seq(|ws|, i requires 0 <= i < |ws| => if ws[i].Waiting? then map[] else ws[i].snap)
  }

  ghost function Unfinished<V>(w: Worker<V>): int {
    if w.Finished? then 0 else 1
  }

  ghost predicate Shaped<V>(s: State<V>) {
    |s.parts| == |s.workers| == SHARD_COUNT
  }

  /** What has been received or is in the channel is exactly what has been sent, each entry once. */
  ghost predicate Stream<V>(s: State<V>) {
    var sent := SentParts(s.workers);
    Placed(sent) && Collect(s.received + s.buffer) == Union(sent) && |s.received + s.buffer| == |Union(sent)|
  }

  /** A sending goroutine's shard stays as it was. */
  ghost predicate Reading<V>(parts: seq<map<Key, V>>, ws: seq<Worker<V>>)
    requires |parts| == |ws|
  {
    forall i :: 0 <= i < |ws| && ws[i].Sending? ==> ws[i].snap == parts[i] && ws[i].rest <= ws[i].snap.Keys
  }

  ghost predicate Inv<V>(s: State<V>) {
    && Shaped(s) && Placed(s.parts) && Placed(Snapshots(s.workers))
    && Reading(s.parts, s.workers)
    && Stream(s)
    && s.pending == Sum(s.workers, Unfinished)
    && s.closes <= 1 && (s.closes > 0 ==> s.pending == 0)
    && (s.ended ==> s.buffer == [] && s.closes > 0)
  }

  lemma InitialInv<V>(parts: seq<map<Key, V>>, capacity: nat)
    requires |parts| == SHARD_COUNT && Placed(parts)
    ensures Inv(Initial(parts, capacity))
  {
    var s := Initial(parts, capacity);
    forall k ensures k !in Union(SentParts(s.workers)) {
      UnionLookup(SentParts(s.workers), k);
    }
    AllUnfinished<V>(SHARD_COUNT);
  }

  lemma {:induction false} AllUnfinished<V>(n: nat)
    ensures Sum(seq<Worker<V>>(n, _ => Waiting), Unfinished) == n
  {
    if n > 0 {
      AllUnfinished<V>(n - 1);
      assert seq<Worker<V>>(n, _ => Waiting)[..n - 1] == seq<Worker<V>>(n - 1, _ => Waiting);
    }
  }

  lemma SentAfterSend<V>(ws: seq<Worker<V>>, i: nat, k: Key)
    requires i < |ws| && ws[i].Sending? && k in ws[i].rest && k in ws[i].snap
    ensures SentParts(ws[i := AfterSend(ws[i], k)]) == SentParts(ws)[i := Sent(ws[i])[k := ws[i].snap[k]]]
  {
    assert Sent(AfterSend(ws[i], k)) == Sent(ws[i])[k := ws[i].snap[k]];
  }

  lemma CollectOneMore<V>(entries: seq<Entry<V>>, k: Key, v: V)
    ensures Collect(entries + [(k, v)]) == Collect(entries)[k := v]
  {
  }

  /** Sending one entry extends both sides of the stream equation by that entry. */
  lemma SendExtends<V>(sent: seq<map<Key, V>>, entries: seq<Entry<V>>, k: Key, v: V)
    requires |sent| == SHARD_COUNT && Placed(sent) && k !in sent[ShardOf(k)]
    requires Collect(entries) == Union(sent) && |entries| == |Union(sent)|
    ensures var i, more := ShardOf(k), entries + [(k, v)];
            var now := sent[i := sent[i][k := v]];
            Placed(now) && Collect(more) == Union(now) && |more| == |Union(now)|
  {
    UnionSet(sent, k, v);
    CollectOneMore(entries, k, v);
    UnionLookup(sent, k);
    assert (Union(sent)[k := v]).Keys == Union(sent).Keys + {k};
  }

  /** A worker that moves on without sending leaves the stream equation alone. */
  lemma SameSent<V>(ws: seq<Worker<V>>, i: nat, w: Worker<V>)
    requires i < |ws| && Sent(ws[i]) == Sent(w)
    ensures SentParts(ws[i := w]) == SentParts(ws)
  {
  }

  lemma SendKeepsWorkers<V>(s: State<V>, i: nat, k: Key)
    requires Inv(s) && CanSend(s, i, k)
    ensures var ws := s.workers[i := AfterSend(s.workers[i], k)];
            && s.closes == 0 && s.pending == Sum(ws, Unfinished) && Snapshots(ws) == Snapshots(s.workers)
            && Reading(s.parts, ws)
  {
    SumUpdate(s.workers, i, AfterSend(s.workers[i], k), Unfinished);
    SumAtLeast(s.workers, Unfinished, i);
  }

  lemma SendKeepsStream<V>(s: State<V>, r: State<V>, i: nat, k: Key)
    requires Inv(s) && CanSend(s, i, k) && r.workers == s.workers[i := AfterSend(s.workers[i], k)]
    requires r.received + r.buffer == (s.received + s.buffer) + [(k, s.workers[i].snap[k])]
    ensures Stream(r)
  {
    var ws := s.workers;
    assert k in Snapshots(ws)[i] && k !in Sent(ws[i]);
    SentAfterSend(ws, i, k);
    SendExtends(SentParts(ws), s.received + s.buffer, k, ws[i].snap[k]);
  }

  /** Whether it goes into the buffer or straight to the receiver, an entry is the next in line. */
  lemma NextInLine<T>(received: seq<T>, buffer: seq<T>, t: T)
    ensures received + (buffer + [t]) == (received + buffer) + [t]
    ensures buffer == [] ==> (received + [t]) + buffer == (received + buffer) + [t]
  {
  }

  lemma EntryKeepsInv<V>(s: State<V>, r: State<V>, i: nat, k: Key)
    requires Inv(s) && CanSend(s, i, k)
    requires r == s.(workers := s.workers[i := AfterSend(s.workers[i], k)], buffer := r.buffer, received := r.received)
    requires r.received + r.buffer == (s.received + s.buffer) + [(k, s.workers[i].snap[k])]
    ensures Inv(r)
  {
    SendKeepsWorkers(s, i, k);
    SendKeepsStream(s, r, i, k);
  }

  lemma SendKeepsInv<V>(s: State<V>, a: Action<V>)
    requires Inv(s) && Enabled(s, a) && (a.Send? || a.Handoff?)
    ensures Inv(Next(s, a))
  {
    NextInLine(s.received, s.buffer, (a.k, s.workers[a.i].snap[a.k]));
    EntryKeepsInv(s, Next(s, a), a.i, a.k);
  }

  lemma WorkerKeepsStream<V>(s: State<V>, a: Action<V>)
    requires Inv(s) && Enabled(s, a) && (a.Lock? || a.Unlock? || a.SignOff?)
    ensures Stream(Next(s, a))
  {
    var w := Next(s, a).workers[a.i];
    assert s.workers[a.i].Sending? && s.workers[a.i].rest == {} ==> Sent(s.workers[a.i]) == s.workers[a.i].snap;
    assert a.Lock? ==> Sent(w) == map[];
    SameSent(s.workers, a.i, w);
  }

  lemma WorkerKeepsSnapshots<V>(s: State<V>, a: Action<V>)
    requires Inv(s) && Enabled(s, a) && (a.Lock? || a.Unlock? || a.SignOff?)
    ensures Placed(Snapshots(Next(s, a).workers))
  {
    var w := Next(s, a).workers[a.i];
    SnapshotsUpdate(s.workers, a.i, w);
    PlacedUpdate(Snapshots(s.workers), a.i, w.snap);
  }

  lemma SnapshotsUpdate<V>(ws: seq<Worker<V>>, i: nat, w: Worker<V>)
    requires i < |ws| && !w.Waiting?
    ensures Snapshots(ws[i := w]) == Snapshots(ws)[i := w.snap]
  {
  }

  lemma PlacedUpdate<V>(parts: seq<map<Key, V>>, i: nat, part: map<Key, V>)
    requires Placed(parts) && i < |parts| && forall k <- part :: ShardOf(k) == i
    ensures Placed(parts[i := part])
  {
  }

  lemma WorkerKeepsCount<V>(s: State<V>, a: Action<V>)
    requires Inv(s) && Enabled(s, a) && (a.Lock? || a.Unlock? || a.SignOff?)
    ensures var t := Next(s, a); t.pending == Sum(t.workers, Unfinished) && s.pending > 0
  {
    SumUpdate(s.workers, a.i, Next(s, a).workers[a.i], Unfinished);
    SumAtLeast(s.workers, Unfinished, a.i);
  }

  lemma WorkerKeepsInv<V>(s: State<V>, a: Action<V>)
    requires Inv(s) && Enabled(s, a) && (a.Lock? || a.Unlock? || a.SignOff?)
    ensures Inv(Next(s, a))
  {
    WorkerKeepsStream(s, a);
    WorkerKeepsSnapshots(s, a);
    WorkerKeepsCount(s, a);
  }

  lemma ChannelKeepsInv<V>(s: State<V>, a: Action<V>)
    requires Inv(s) && Enabled(s, a) && (a.Write? || a.Close? || a.Receive? || a.End?)
    ensures Inv(Next(s, a))
  {
    if a.Write? {
      Refines(s.parts, a.op);
    } else if a.Receive? {
      assert s.received + s.buffer == (s.received + [s.buffer[0]]) + s.buffer[1..];
    }
  }

  lemma StepKeepsInv<V>(s: State<V>, a: Action<V>)
    requires Inv(s) && Enabled(s, a)
    ensures Inv(Next(s, a))
  {
    match a
    case Send(_, _) | Handoff(_, _) => SendKeepsInv(s, a);
    case Lock(_) | Unlock(_) | SignOff(_) => WorkerKeepsInv(s, a);
    case _ => ChannelKeepsInv(s, a);
  }

  /** A run of the iteration, interleaved with writers. */
  ghost predicate Run<V>(s: State<V>, acts: seq<Action<V>>)
    decreases |acts|
  {
    acts == [] || (Shaped(s) && Enabled(s, acts[0]) && Run(Next(s, acts[0]), acts[1..]))
  }

  ghost function Exec<V>(s: State<V>, acts: seq<Action<V>>): State<V>
    requires Run(s, acts)
    decreases |acts|
  {
    if acts == [] then s else Exec(Next(s, acts[0]), acts[1..])
  }

  lemma {:induction false} RunKeepsInv<V>(s: State<V>, acts: seq<Action<V>>)
    requires Inv(s) && Run(s, acts)
    ensures Inv(Exec(s, acts))
    decreases |acts|
  {
    if acts != [] {
      StepKeepsInv(s, acts[0]);
      RunKeepsInv(Next(s, acts[0]), acts[1..]);
    }
  }

  lemma AllFinished<V>(s: State<V>)
    requires Inv(s) && s.pending == 0
    ensures forall i :: 0 <= i < SHARD_COUNT ==> s.workers[i].Finished?
  {
    forall i | 0 <= i < SHARD_COUNT ensures s.workers[i].Finished? {
      SumAtLeast(s.workers, Unfinished, i);
    }
  }

  /** Once the channel is closed, everything has been sent. */
  lemma ClosedState<V>(s: State<V>)
    requires Inv(s) && s.closes > 0
    ensures forall i :: 0 <= i < SHARD_COUNT ==> s.workers[i].Finished?
    ensures SentParts(s.workers) == Snapshots(s.workers)
  {
    AllFinished(s);
  }

  /** Whatever the writers do in between: when the range loop ends, the channel has been closed once,
      by then every goroutine is finished and none can send, and Items holds exactly the entries
      every shard had when its read lock was taken, each delivered once. */
  lemma ItemsAreTheSnapshots<V>(parts: seq<map<Key, V>>, capacity: nat, acts: seq<Action<V>>)
    requires |parts| == SHARD_COUNT && Placed(parts)
    requires Run(Initial(parts, capacity), acts)
    ensures var s := Exec(Initial(parts, capacity), acts);
            && s.closes <= 1 && |s.workers| == SHARD_COUNT
            && (s.closes > 0 ==> forall i :: 0 <= i < SHARD_COUNT ==> s.workers[i].Finished?)
            && (s.ended ==> && s.closes == 1
                            && Collect(s.received) == Union(Snapshots(s.workers))
                            && |s.received| == |Union(Snapshots(s.workers))|)
  {
    InitialInv(parts, capacity);
    RunKeepsInv(Initial(parts, capacity), acts);
    var s := Exec(Initial(parts, capacity), acts);
    if s.closes > 0 {
      ClosedState(s);
      assert s.ended ==> s.received + s.buffer == s.received;
    }
  }

  ghost predicate Iterating<V>(s: State<V>, a: Action<V>) {
    Shaped(s) && !a.Write? && Enabled(s, a)
  }

  /** Until the loop has ended, the iteration itself can always go on: nothing waits forever,
      whatever the capacity. */
  lemma AlwaysProgress<V>(s: State<V>)
    requires Inv(s) && !s.ended
    ensures exists a :: Iterating(s, a)
  {
    if s.buffer != [] {
      assert Iterating(s, Action<V>.Receive);
    } else if s.closes > 0 {
      assert Iterating(s, Action<V>.End);
    } else if s.pending == 0 {
      assert Iterating(s, Action<V>.Close);
    } else {
      if forall i :: 0 <= i < SHARD_COUNT ==> s.workers[i].Finished? {
        SumOfZeros(s.workers, Unfinished);
      }
      var i :| 0 <= i < SHARD_COUNT && !s.workers[i].Finished?;
      if s.workers[i].Waiting? {
        assert Iterating(s, Action<V>.Lock(i));
      } else if s.workers[i].Unlocked? {
        assert Iterating(s, Action<V>.SignOff(i));
      } else if s.workers[i].rest == {} {
        assert Iterating(s, Action<V>.Unlock(i));
      } else {
        var k :| k in s.workers[i].rest;
        assert Iterating(s, Action<V>.Handoff(i, k));
      }
    }
  }

  // ---------- how long it takes ----------

  ghost function Stage<V>(w: Worker<V>): int {
    match w
    case Waiting => 0
    case Sending(_, _) => 1
    case Unlocked(_) => 2
    case Finished(_) => 3
  }

  ghost function Progress<V>(s: State<V>): int {
    Sum(s.workers, Stage) + |s.received + s.buffer| + |s.received| + s.closes + if s.ended then 1 else 0
  }

  ghost function IterationSteps<V>(acts: seq<Action<V>>): nat {
    if acts == [] then 0 else (if acts[0].Write? then 0 else 1) + IterationSteps(acts[1..])
  }

  lemma WorkerProgresses<V>(s: State<V>, a: Action<V>)
    requires Shaped(s) && Enabled(s, a) && (a.Lock? || a.Unlock? || a.SignOff?)
    ensures Progress(Next(s, a)) == Progress(s) + 1
  {
    SumUpdate(s.workers, a.i, Next(s, a).workers[a.i], Stage);
  }

  lemma SendProgresses<V>(s: State<V>, a: Action<V>)
    requires Shaped(s) && Enabled(s, a) && (a.Send? || a.Handoff?)
    ensures Progress(Next(s, a)) >= Progress(s) + 1
  {
    SumUpdate(s.workers, a.i, AfterSend(s.workers[a.i], a.k), Stage);
  }

  lemma StepProgresses<V>(s: State<V>, a: Action<V>)
    requires Shaped(s) && Enabled(s, a)
    ensures Progress(Next(s, a)) >= Progress(s) + if a.Write? then 0 else 1
  {
    match a
    case Lock(_) | Unlock(_) | SignOff(_) => WorkerProgresses(s, a);
    case Send(_, _) | Handoff(_, _) => SendProgresses(s, a);
    case Write(_) | Close | Receive | End =>
  }

  lemma {:induction false} RunProgresses<V>(s: State<V>, acts: seq<Action<V>>)
    requires Inv(s) && Run(s, acts)
    ensures Progress(s) + IterationSteps(acts) <= Progress(Exec(s, acts))
    decreases |acts|
  {
    if acts != [] {
      StepProgresses(s, acts[0]);
      StepKeepsInv(s, acts[0]);
      RunProgresses(Next(s, acts[0]), acts[1..]);
    }
  }

  lemma SubmapSize<V>(m: map<Key, V>, n: map<Key, V>)
    requires forall k :: k in m ==> k in n
    ensures |m| <= |n|
  {
    assert m.Keys <= n.Keys;
    assert n.Keys == m.Keys + (n.Keys - m.Keys);
  }

  lemma SentWithinSnapshots<V>(ws: seq<Worker<V>>)
    requires Placed(Snapshots(ws))
    ensures forall k :: k in Union(SentParts(ws)) ==> k in Union(Snapshots(ws))
    ensures |Union(SentParts(ws))| <= |Union(Snapshots(ws))|
  {
    assert forall i, k :: 0 <= i < |ws| && k in SentParts(ws)[i] ==> k in Snapshots(ws)[i];
    forall k | k in Union(SentParts(ws)) ensures k in Union(Snapshots(ws)) {
      UnionLookup(SentParts(ws), k);
      UnionLookup(Snapshots(ws), k);
    }
    SubmapSize(Union(SentParts(ws)), Union(Snapshots(ws)));
  }

  lemma {:induction false} StagesBounded<V>(ws: seq<Worker<V>>)
    ensures Sum(ws, Stage) <= 3 * |ws|
  {
    if ws != [] {
      StagesBounded(ws[..|ws| - 1]);
    }
  }

  /** However many writes happen in between, the iteration itself takes a bounded number of steps:
      three per shard, two per entry seen, one to close and one to notice. */
  lemma IterationIsBounded<V>(parts: seq<map<Key, V>>, capacity: nat, acts: seq<Action<V>>)
    requires |parts| == SHARD_COUNT && Placed(parts)
    requires Run(Initial(parts, capacity), acts)
    ensures IterationSteps(acts)
            <= 3 * SHARD_COUNT + 2 * |Union(Snapshots(Exec(Initial(parts, capacity), acts).workers))| + 2
  {
    var s := Initial(parts, capacity);
    InitialInv(parts, capacity);
    SumOfZeros(s.workers, Stage);
    RunKeepsInv(s, acts);
    RunProgresses(s, acts);
    StagesBounded(Exec(s, acts).workers);
    SentWithinSnapshots(Exec(s, acts).workers);
  }
}
