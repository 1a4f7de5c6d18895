/** Keys as an iteration: the counting only fixes the channel's room, so what its goroutines read is what the
    map held when they locked its shards. */
module KeysSnapshots {
  import opened Fnv
  import opened ShardedMap
  import opened ShardIteration
  import opened KeysCollection
  import opened KeysResults
  import opened ShardSnapshots

  /** The goroutines' and the callers' actions among the moves, in order. */
  ghost function ActionsOf<V>(ms: seq<Move<V>>): seq<Action<V>> {
    if ms == [] then [] else (if ms[0].Go? then [ms[0].a] else []) + ActionsOf(ms[1..])
  }

  ghost predicate Counts<V>(s: Collection<V>, t: Collection<V>) {
    s.it.capacity == s.count && s.counted <= SHARD_COUNT && (s.counted == SHARD_COUNT ==> t.count == s.count)
  }

  ghost predicate IsIteration<V>(s: State<V>, acts: seq<Action<V>>, t: State<V>) {
    Run(s, acts) && Exec(s, acts) == t
  }

  lemma {:induction false} CountIsFixed<V>(s: Collection<V>, ms: seq<Move<V>>)
    requires Course(s, ms) && s.it.capacity == s.count && s.counted <= SHARD_COUNT
    ensures Counts(s, After(s, ms))
    decreases |ms|
  {
    if ms != [] {
      CountIsFixed(Moved(s, ms[0]), ms[1..]);
    }
  }

  lemma GoIsAStep<V>(s: Collection<V>, a: Action<V>, capacity: nat)
    requires Shaped(s.it) && CanMove(s, Go(a)) && s.it.capacity == s.count && s.counted <= SHARD_COUNT
    requires s.counted == SHARD_COUNT ==> capacity == s.count
    ensures Enabled(s.it.(capacity := capacity), a)
    ensures Next(s.it.(capacity := capacity), a) == Moved(s, Go(a)).it.(capacity := capacity)
  {
  }

  /** Every course of Keys is a run of the iteration with the final count as the channel's room. */
  lemma {:induction false} CourseIsIteration<V>(s: Collection<V>, ms: seq<Move<V>>, capacity: nat)
    requires Course(s, ms) && Counts(s, After(s, ms)) && capacity == After(s, ms).count
    ensures IsIteration(s.it.(capacity := capacity), ActionsOf(ms), After(s, ms).it.(capacity := capacity))
    decreases |ms|
  {
    if ms != [] {
      var m, t := ms[0], Moved(s, ms[0]);
      CountIsFixed(t, ms[1..]);
      CourseIsIteration(t, ms[1..], capacity);
      if m.Go? {
        GoIsAStep(s, m.a, capacity);
        OneMore(s.it.(capacity := capacity), m.a, ActionsOf(ms[1..]), After(s, ms).it.(capacity := capacity));
      } else {
        assert [] + ActionsOf(ms[1..]) == ActionsOf(ms[1..]);
      }
    }
  }

  lemma OneMore<V>(s: State<V>, a: Action<V>, acts: seq<Action<V>>, t: State<V>)
    requires Shaped(s) && Enabled(s, a) && IsIteration(Next(s, a), acts, t)
    ensures IsIteration(s, [a] + acts, t)
  {
    assert ([a] + acts)[1..] == acts;
  }

  lemma AsIteration<V>(parts: seq<map<Key, V>>, ms: seq<Move<V>>)
    requires |parts| == SHARD_COUNT && Course(Start(parts), ms)
    ensures var s := After(Start(parts), ms);
            && Run(Initial(parts, s.count), ActionsOf(ms))
            && Exec(Initial(parts, s.count), ActionsOf(ms)).workers == s.it.workers
            && Exec(Initial(parts, s.count), ActionsOf(ms)).parts == s.it.parts
  {
    var count := After(Start(parts), ms).count;
    CountIsFixed(Start(parts), ms);
    CourseIsIteration(Start(parts), ms, count);
    assert Start(parts).it.(capacity := count) == Initial(parts, count);
  }

  // ---------- main results ----------

  /** At every moment the map is what the callers' critical sections so far make of it. */
  lemma KeysWritesNothing<V>(parts: seq<map<Key, V>>, ms: seq<Move<V>>)
    requires |parts| == SHARD_COUNT && Placed(parts) && Course(Start(parts), ms)
    ensures Union(After(Start(parts), ms).it.parts) == RunPlain(Union(parts), WritesOf(ActionsOf(ms))).0
  {
    AsIteration(parts, ms);
    MapFollowsWrites(parts, After(Start(parts), ms).count, ActionsOf(ms));
  }

  /** The map held `k` when action `m` locked its shard for reading. */
  ghost predicate HeldAtLock<V>(parts: seq<map<Key, V>>, acts: seq<Action<V>>, k: Key, m: nat) {
    IsTheLock(acts, ShardOf(k), m) && k in RunPlain(Union(parts), WritesOf(acts[..m])).0
  }

  /** A key is among those that Keys has seen exactly if its shard has been locked for reading, and the map
      held the key at that moment. */
  lemma KeysSeenAtTheLock<V>(parts: seq<map<Key, V>>, ms: seq<Move<V>>, k: Key)
    requires |parts| == SHARD_COUNT && Placed(parts) && Course(Start(parts), ms)
    ensures k in Seen(After(Start(parts), ms)) <==> exists m :: HeldAtLock(parts, ActionsOf(ms), k, m)
  {
    var s := After(Start(parts), ms);
    AsIteration(parts, ms);
    SeenInSnapshot(parts, ms, k);
    SnapshotAtLock(parts, s.count, ActionsOf(ms), k);
  }

  lemma SnapshotAtLock<V>(parts: seq<map<Key, V>>, capacity: nat, acts: seq<Action<V>>, k: Key)
    requires |parts| == SHARD_COUNT && Placed(parts) && Run(Initial(parts, capacity), acts)
    requires |Exec(Initial(parts, capacity), acts).workers| == SHARD_COUNT
    ensures var w := Exec(Initial(parts, capacity), acts).workers[ShardOf(k)];
            !w.Waiting? && k in w.snap <==> exists m :: HeldAtLock(parts, acts, k, m)
  {
    if Exec(Initial(parts, capacity), acts).workers[ShardOf(k)].Waiting? {
      NotLocked(Initial(parts, capacity), acts, ShardOf(k));
    } else {
      var m := SnapshotIsOfLock(Initial(parts, capacity), acts, ShardOf(k));
      HeldInShard(parts, acts, k, m);
    }
  }

  lemma SeenInSnapshot<V>(parts: seq<map<Key, V>>, ms: seq<Move<V>>, k: Key)
    requires |parts| == SHARD_COUNT && Placed(parts) && Course(Start(parts), ms)
    ensures var s := After(Start(parts), ms);
            && |s.it.workers| == SHARD_COUNT
            && (k in Seen(s) <==> !s.it.workers[ShardOf(k)].Waiting? && k in s.it.workers[ShardOf(k)].snap)
  {
    StartInv(parts);
    CourseKeepsInv(Start(parts), ms);
    UnionLookup(Snapshots(After(Start(parts), ms).it.workers), k);
  }

  lemma HeldInShard<V>(parts: seq<map<Key, V>>, acts: seq<Action<V>>, k: Key, m: nat)
    requires |parts| == SHARD_COUNT && Placed(parts) && IsTheLock(acts, ShardOf(k), m)
    ensures |RunSharded(parts, WritesOf(acts[..m])).0| == SHARD_COUNT
    ensures k in RunSharded(parts, WritesOf(acts[..m])).0[ShardOf(k)] <==> exists n :: HeldAtLock(parts, acts, k, n)
  {
    var ops := WritesOf(acts[..m]);
    RunKeepsShape(parts, ops);
    EveryRunRefines(parts, ops);
    UnionLookup(RunSharded(parts, ops).0, k);
    if k in RunPlain(Union(parts), ops).0 {
      assert HeldAtLock(parts, acts, k, m);
    }
  }

  lemma {:induction false} NotLocked<V>(s: State<V>, acts: seq<Action<V>>, i: nat)
    requires Shaped(s) && Run(s, acts) && i < SHARD_COUNT
    requires i < |Exec(s, acts).workers| && Exec(s, acts).workers[i].Waiting?
    ensures Lock(i) !in acts && s.workers[i].Waiting?
    decreases |acts|
  {
    if acts != [] {
      StepKeepsSnapshot(s, acts[0], i);
      NotLocked(Next(s, acts[0]), acts[1..], i);
    }
  }
}
