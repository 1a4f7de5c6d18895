/** When the iteration of shared/patterns/concurrent.go reads each shard: what Items returns under a key is
    what the map held under it at the moment that key's shard was locked. */
module ShardSnapshots {
  import opened Fnv
  import opened ShardedMap
  import opened ShardIteration

  /** The callers' critical sections among the actions, in order. */
  ghost function WritesOf<V>(acts: seq<Action<V>>): seq<Op<V>> {
    if acts == [] then [] else (if acts[0].Write? then [acts[0].op] else []) + WritesOf(acts[1..])
  }

  lemma RunOne<V>(parts: seq<map<Key, V>>, op: Op<V>, ops: seq<Op<V>>)
    requires |parts| == SHARD_COUNT
    ensures RunSharded(parts, [op] + ops).0 == RunSharded(Sharded(parts, op).0, ops).0
  {
    assert ([op] + ops)[1..] == ops;
  }

  /** One action and the writes after it. */
  lemma PartsStep<V>(s: State<V>, a: Action<V>, ops: seq<Op<V>>)
    requires Shaped(s) && Enabled(s, a)
    ensures |Next(s, a).parts| == SHARD_COUNT
    ensures RunSharded(s.parts, (if a.Write? then [a.op] else []) + ops).0 == RunSharded(Next(s, a).parts, ops).0
  {
    if a.Write? {
      RunOne(s.parts, a.op, ops);
    } else {
      assert [] + ops == ops;
    }
  }

  /** The shards are what the callers' critical sections make of them; the iteration changes nothing. */
  lemma {:induction false} PartsFollowWrites<V>(s: State<V>, acts: seq<Action<V>>)
    requires Shaped(s) && Run(s, acts)
    ensures Shaped(Exec(s, acts)) && Exec(s, acts).parts == RunSharded(s.parts, WritesOf(acts)).0
    decreases |acts|
  {
    if acts != [] {
      PartsStep(s, acts[0], WritesOf(acts[1..]));
      PartsFollowWrites(Next(s, acts[0]), acts[1..]);
    }
  }

  lemma StepKeepsSnapshot<V>(s: State<V>, a: Action<V>, i: nat)
    requires Shaped(s) && Enabled(s, a) && i < SHARD_COUNT
    ensures Shaped(Next(s, a))
    ensures var w, x := s.workers[i], Next(s, a).workers[i];
            && (!w.Waiting? ==> !x.Waiting? && x.snap == w.snap && a != Lock(i))
            && (w.Waiting? && a != Lock(i) ==> x.Waiting?)
            && (a == Lock(i) ==> !x.Waiting? && x.snap == s.parts[i])
  {
  }

  /** Once a shard has been locked for reading, it is not locked again, and what was read stays. */
  lemma {:induction false} SnapshotStays<V>(s: State<V>, acts: seq<Action<V>>, i: nat)
    requires Shaped(s) && Run(s, acts) && i < SHARD_COUNT && !s.workers[i].Waiting?
    ensures Shaped(Exec(s, acts)) && Lock(i) !in acts
    ensures !Exec(s, acts).workers[i].Waiting? && Exec(s, acts).workers[i].snap == s.workers[i].snap
    decreases |acts|
  {
    if acts != [] {
      StepKeepsSnapshot(s, acts[0], i);
      SnapshotStays(Next(s, acts[0]), acts[1..], i);
      assert forall a :: a in acts <==> a == acts[0] || a in acts[1..];
    }
  }

  /** Action `m` is the one read lock that the iteration takes of shard `i`. */
  ghost predicate IsTheLock<V>(acts: seq<Action<V>>, i: nat, m: nat) {
    m < |acts| && acts[m] == Lock(i) && forall n :: 0 <= n < |acts| && acts[n] == Lock(i) ==> n == m
  }

  lemma LaterLock<V>(acts: seq<Action<V>>, i: nat, m: nat)
    requires acts != [] && acts[0] != Lock(i) && IsTheLock(acts[1..], i, m)
    ensures IsTheLock(acts, i, m + 1)
    ensures WritesOf(acts[..m + 1]) == (if acts[0].Write? then [acts[0].op] else []) + WritesOf(acts[1..][..m])
  {
    assert forall n :: 0 < n < |acts| ==> acts[n] == acts[1..][n - 1];
    assert acts[..m + 1][1..] == acts[1..][..m];
  }

  lemma FirstLock<V>(acts: seq<Action<V>>, i: nat)
    requires acts != [] && acts[0] == Lock(i) && Lock(i) !in acts[1..]
    ensures IsTheLock(acts, i, 0) && WritesOf(acts[..0]) == []
  {
    assert forall n :: 0 < n < |acts| ==> acts[n] == acts[1..][n - 1] && acts[n] in acts[1..];
  }

  /** What a goroutine sends is what its shard held when it took the read lock. */
  lemma {:induction false} SnapshotIsOfLock<V>(s: State<V>, acts: seq<Action<V>>, i: nat) returns (m: nat)
    requires Shaped(s) && Run(s, acts) && i < SHARD_COUNT && s.workers[i].Waiting?
    requires i < |Exec(s, acts).workers| && !Exec(s, acts).workers[i].Waiting?
    ensures IsTheLock(acts, i, m)
    ensures |RunSharded(s.parts, WritesOf(acts[..m])).0| == SHARD_COUNT
    ensures Exec(s, acts).workers[i].snap == RunSharded(s.parts, WritesOf(acts[..m])).0[i]
    decreases |acts|
  {
    var a, t := acts[0], Next(s, acts[0]);
    StepKeepsSnapshot(s, a, i);
    if a == Lock(i) {
      m := 0;
      SnapshotStays(t, acts[1..], i);
      FirstLock(acts, i);
    } else {
      var n := SnapshotIsOfLock(t, acts[1..], i);
      m := n + 1;
      LaterLock(acts, i, n);
      PartsStep(s, a, WritesOf(acts[1..][..n]));
    }
  }

  lemma {:induction false} RunKeepsShape<V>(parts: seq<map<Key, V>>, ops: seq<Op<V>>)
    requires |parts| == SHARD_COUNT
    ensures |RunSharded(parts, ops).0| == SHARD_COUNT
    decreases |ops|
  {
    if ops != [] {
      RunKeepsShape(Sharded(parts, ops[0]).0, ops[1..]);
    }
  }

  // ---------- main results ----------

  /** The iteration writes nothing: at every moment the map is what the callers' critical sections so far
      make of it, as one plain map. */
  lemma MapFollowsWrites<V>(parts: seq<map<Key, V>>, capacity: nat, acts: seq<Action<V>>)
    requires |parts| == SHARD_COUNT && Placed(parts) && Run(Initial(parts, capacity), acts)
    ensures Union(Exec(Initial(parts, capacity), acts).parts) == RunPlain(Union(parts), WritesOf(acts)).0
  {
    PartsFollowWrites(Initial(parts, capacity), acts);
    EveryRunRefines(parts, WritesOf(acts));
  }

  /** Whatever the writers do: Items locks the shard of every key once, and returns under the key exactly
      what the map held under it at that moment. */
  lemma ItemsReadAtTheLock<V>(parts: seq<map<Key, V>>, capacity: nat, acts: seq<Action<V>>, k: Key) returns (m: nat)
    requires |parts| == SHARD_COUNT && Placed(parts)
    requires Run(Initial(parts, capacity), acts) && Exec(Initial(parts, capacity), acts).ended
    ensures IsTheLock(acts, ShardOf(k), m)
    ensures Lookup(Collect(Exec(Initial(parts, capacity), acts).received), k)
         == Lookup(RunPlain(Union(parts), WritesOf(acts[..m])).0, k)
  {
    ItemsAreTheSnapshots(parts, capacity, acts);
    m := SnapshotIsOfLock(Initial(parts, capacity), acts, ShardOf(k));
    SnapshotLookup(parts, capacity, acts, k);
    var ops := WritesOf(acts[..m]);
    EveryRunRefines(parts, ops);
    UnionLookupOption(RunSharded(parts, ops).0, k);
  }

  lemma SnapshotLookup<V>(parts: seq<map<Key, V>>, capacity: nat, acts: seq<Action<V>>, k: Key)
    requires |parts| == SHARD_COUNT && Placed(parts)
    requires Run(Initial(parts, capacity), acts) && Exec(Initial(parts, capacity), acts).ended
    ensures var t := Exec(Initial(parts, capacity), acts);
            && |t.workers| == SHARD_COUNT && t.workers[ShardOf(k)].Finished?
            && Lookup(Collect(t.received), k) == Lookup(t.workers[ShardOf(k)].snap, k)
  {
    ItemsAreTheSnapshots(parts, capacity, acts);
    InitialInv(parts, capacity);
    RunKeepsInv(Initial(parts, capacity), acts);
    UnionLookupOption(Snapshots(Exec(Initial(parts, capacity), acts).workers), k);
  }

  // ---------- when a writer waits ----------

  lemma StepOfLock<V>(s: State<V>, a: Action<V>, i: nat)
    requires Shaped(s) && Enabled(s, a) && i < SHARD_COUNT
    ensures Shaped(Next(s, a))
    ensures var w, x := s.workers[i], Next(s, a).workers[i];
            && (x.Waiting? <==> w.Waiting? && a != Lock(i))
            && (x.Sending? <==> a == Lock(i) || (w.Sending? && a != Unlock(i)))
            && (a == Lock(i) ==> w.Waiting?) && (a == Unlock(i) ==> w.Sending?)
  {
  }

  /** A goroutine holds its shard's read lock from its Lock to its Unlock. */
  lemma {:induction false} HoldsFromLockToUnlock<V>(s: State<V>, acts: seq<Action<V>>, i: nat)
    requires Shaped(s) && Run(s, acts) && i < SHARD_COUNT
    ensures Shaped(Exec(s, acts))
    ensures Exec(s, acts).workers[i].Sending?
       <==> (s.workers[i].Sending? || (s.workers[i].Waiting? && Lock(i) in acts)) && Unlock(i) !in acts
    ensures s.workers[i].Waiting? && Unlock(i) in acts ==> Lock(i) in acts
    ensures !s.workers[i].Waiting? && !s.workers[i].Sending? ==> Unlock(i) !in acts
    decreases |acts|
  {
    if acts != [] {
      StepOfLock(s, acts[0], i);
      HoldsFromLockToUnlock(Next(s, acts[0]), acts[1..], i);
      assert forall a :: a in acts <==> a == acts[0] || a in acts[1..];
    }
  }

  /** At any moment of an iteration: Get and Has never wait, and any other operation waits exactly while the
      iteration holds the read lock of its key's shard. */
  lemma WriterWaitsForTheLock<V>(parts: seq<map<Key, V>>, capacity: nat, acts: seq<Action<V>>, op: Op<V>)
    requires |parts| == SHARD_COUNT && Run(Initial(parts, capacity), acts)
    ensures Shaped(Exec(Initial(parts, capacity), acts))
    ensures Enabled(Exec(Initial(parts, capacity), acts), Write(op))
       <==> op.Get? || op.Has? || !(Lock(ShardOf(op.key)) in acts && Unlock(ShardOf(op.key)) !in acts)
  {
    HoldsFromLockToUnlock(Initial(parts, capacity), acts, ShardOf(op.key));
  }
}
