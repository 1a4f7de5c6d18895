/** A goroutine of Keys that hangs on its send: it does so for good, and some run leads there. Yet Keys and
    its goroutines never make more than a bounded number of moves. */
module KeysHang {
  import opened Fnv
  import opened Sums
  import opened ShardedMap
  import opened ShardIteration
  import opened KeysCollection
  import opened KeysResults

  lemma WriteKeepsStuck<V(!new)>(s: Collection<V>, op: Op<V>)
    requires CInv(s) && Stuck(s) && CanMove(s, Go(Write(op)))
    ensures Stuck(Moved(s, Go(Write(op))))
  {
    var t := Moved(s, Go(Write(op)));
    forall m: Move<V> | CanMove(t, m) ensures m.Go? && m.a.Write? {
      if !(m.Go? && m.a.Write?) {
        assert CanMove(s, m);
      }
    }
  }

  /** A goroutine of Keys that hangs does so whatever follows, and holds its shard's read lock: no Set,
      SetIfAbsent, Upsert, Remove or Pop of a key of that shard ever gets the lock again. */
  lemma {:induction false} HangsForever<V(!new)>(s: Collection<V>, ms: seq<Move<V>>, i: nat, op: Op<V>)
    requires CInv(s) && Stuck(s) && i < SHARD_COUNT && !s.it.workers[i].Finished? && Course(s, ms)
    requires IsWriter(op) && ShardOf(op.key) == i
    ensures Shaped(After(s, ms).it) && After(s, ms).it.workers[i] == s.it.workers[i]
    ensures !CanMove(After(s, ms), Go(Write(op)))
    decreases |ms|
  {
    StuckWorkers(s, i);
    if ms != [] {
      assert CanMove(s, ms[0]);
      WriteKeepsStuck(s, ms[0].a.op);
      MoveKeepsInv(s, ms[0]);
      HangsForever(Moved(s, ms[0]), ms[1..], i, op);
    }
  }

  // ---------- a run that gets there ----------

  ghost predicate Leads<V>(s: Collection<V>, ms: seq<Move<V>>, t: Collection<V>) {
    Course(s, ms) && After(s, ms) == t
  }

  ghost predicate Reaches<V(!new)>(s: Collection<V>, t: Collection<V>) {
    exists ms: seq<Move<V>> :: Leads(s, ms, t)
  }

  lemma Here<V(!new)>(s: Collection<V>)
    ensures Reaches(s, s)
  {
    assert Leads(s, [], s);
  }

  lemma OneMove<V(!new)>(s: Collection<V>, m: Move<V>, t: Collection<V>)
    requires Shaped(s.it) && CanMove(s, m) && Reaches(Moved(s, m), t)
    ensures Reaches(s, t)
  {
    var ms :| Leads(Moved(s, m), ms, t);
    assert ([m] + ms)[1..] == ms;
    assert Leads(s, [m] + ms, t);
  }

  ghost function EmptyParts<V>(): (parts: seq<map<Key, V>>)
    ensures |parts| == SHARD_COUNT && forall i :: 0 <= i < SHARD_COUNT ==> parts[i] == map[]
  {
    seq(SHARD_COUNT, _ => map[])
  }

  /** Counting an empty map. */
  ghost function Counting<V>(n: nat): Collection<V> {
    Start(EmptyParts<V>()).(counted := n)
  }

  lemma {:induction false} CountEmpty<V(!new)>(n: nat, t: Collection<V>)
    requires n <= SHARD_COUNT && Reaches(Counting<V>(SHARD_COUNT), t)
    ensures Reaches(Counting<V>(n), t)
    decreases SHARD_COUNT - n
  {
    if n < SHARD_COUNT {
      CountEmpty(n + 1, t);
      assert Moved(Counting<V>(n), CountShard) == Counting<V>(n + 1);
      OneMove(Counting<V>(n), CountShard, t);
    }
  }

  /** A key was set after the map had been counted empty. The goroutine of its shard waits to send; of the
      others, those below `n` are done and the rest have not begun. */
  ghost function Hung<V>(k: Key, v: V, n: nat): Collection<V> {
    var j := ShardOf(k);
    var pending := SHARD_COUNT - if n <= j then n else n - 1;
    Collection(State(EmptyParts<V>()[j := map[k := v]], HungWorkers(k, v, n), pending, 0, [], 0, [], false),
               SHARD_COUNT, 0, 0)
  }

  ghost function HungWorkers<V>(k: Key, v: V, n: nat): (ws: seq<Worker<V>>)
    ensures |ws| == SHARD_COUNT
    ensures forall i :: 0 <= i < SHARD_COUNT ==> ws[i] == WorkerAt(k, v, n, i)
  {
    seq(SHARD_COUNT, i requires 0 <= i < SHARD_COUNT => WorkerAt(k, v, n, i))
  }

  ghost function WorkerAt<V>(k: Key, v: V, n: nat, i: nat): Worker<V> {
    if i == ShardOf(k) then Sending(map[k := v], {k}) else if i < n then Finished(map[]) else Waiting
  }

  lemma HungIsStuck<V(!new)>(k: Key, v: V)
    ensures Stuck(Hung(k, v, SHARD_COUNT))
  {
  }

  /** The goroutine of an empty shard runs through. */
  lemma RunsThrough<V(!new)>(k: Key, v: V, n: nat, t: Collection<V>)
    requires n < SHARD_COUNT && n != ShardOf(k) && Reaches(Hung(k, v, n + 1), t)
    ensures Reaches(Hung(k, v, n), t)
  {
    var s := Hung(k, v, n);
    var s1 := Moved(s, Go(Lock(n)));
    var s2 := Moved(s1, Go(Unlock(n)));
    var s3 := Moved(s2, Go(SignOff(n)));
    assert s3.it.workers == Hung(k, v, n + 1).it.workers;
    OneMove(s2, Go(SignOff(n)), t);
    OneMove(s1, Go(Unlock(n)), t);
    OneMove(s, Go(Lock(n)), t);
  }

  lemma {:induction false} OthersFinish<V(!new)>(k: Key, v: V, n: nat)
    requires n <= SHARD_COUNT
    ensures Reaches(Hung(k, v, n), Hung(k, v, SHARD_COUNT))
    decreases SHARD_COUNT - n
  {
    if n == SHARD_COUNT {
      Here(Hung(k, v, n));
    } else {
      OthersFinish(k, v, n + 1);
      if n == ShardOf(k) {
        assert HungWorkers(k, v, n) == HungWorkers(k, v, n + 1);
      } else {
        RunsThrough(k, v, n, Hung(k, v, SHARD_COUNT));
      }
    }
  }

  /** The map is counted empty, one key is set, and the goroutine of its shard takes its read lock. */
  lemma OneKeyTooMany<V(!new)>(k: Key, v: V, t: Collection<V>)
    requires Reaches(Hung(k, v, 0), t)
    ensures Reaches(Counting<V>(SHARD_COUNT), t)
  {
    var j, s := ShardOf(k), Counting<V>(SHARD_COUNT);
    var s1 := Moved(s, Go(Write(Op.Set(k, v))));
    assert s1.it.parts == EmptyParts<V>()[j := map[k := v]];
    var s2 := Moved(s1, Go(Lock(j)));
    assert s1.it.parts[j].Keys == {k};
    assert s2.it.workers == HungWorkers(k, v, 0);
    OneMove(s1, Go(Lock(j)), t);
    OneMove(s, Go(Write(Op.Set(k, v))), t);
  }

  lemma ReachedInv<V(!new)>(s: Collection<V>, t: Collection<V>)
    requires CInv(s) && Reaches(s, t)
    ensures CInv(t)
  {
    var ms :| Leads(s, ms, t);
    CourseKeepsInv(s, ms);
  }

  /** For every key there is a run on an empty map in which Keys returns no name at all and, because that
      key was set after the counting, a goroutine is left hanging with its shard locked. */
  lemma SomeRunHangs<V(!new)>(k: Key, v: V)
    ensures exists t :: && Reaches(Start(EmptyParts<V>()), t) && CInv(t) && Stuck(t)
                        && ReturnedKeys(t) == [] && t.it.workers[ShardOf(k)].Sending?
  {
    var t := Hung(k, v, SHARD_COUNT);
    OthersFinish(k, v, 0);
    OneKeyTooMany(k, v, t);
    CountEmpty(0, t);
    assert Counting<V>(0) == Start(EmptyParts<V>());
    StartInv(EmptyParts<V>());
    ReachedInv(Start(EmptyParts<V>()), t);
    HungIsStuck(k, v);
  }

  // ---------- how long it takes ----------

  ghost function OwnMoves<V>(ms: seq<Move<V>>): nat {
    if ms == [] then 0 else (if ms[0].Go? && ms[0].a.Write? then 0 else 1) + OwnMoves(ms[1..])
  }

  lemma {:induction false} CourseProgresses<V>(s: Collection<V>, ms: seq<Move<V>>)
    requires CInv(s) && Course(s, ms)
    ensures var t := After(s, ms);
            s.counted + Progress(s.it) + s.fillers + OwnMoves(ms) <= t.counted + Progress(t.it) + t.fillers
    decreases |ms|
  {
    if ms != [] {
      if ms[0].Go? {
        StepProgresses(s.it, ms[0].a);
      }
      MoveKeepsInv(s, ms[0]);
      CourseProgresses(Moved(s, ms[0]), ms[1..]);
    }
  }

  /** However much is written meanwhile, Keys and its goroutines make a bounded number of moves. */
  lemma KeysIsBounded<V>(parts: seq<map<Key, V>>, ms: seq<Move<V>>)
    requires |parts| == SHARD_COUNT && Placed(parts) && Course(Start(parts), ms)
    ensures var s := After(Start(parts), ms); OwnMoves(ms) <= 4 * SHARD_COUNT + |Seen(s)| + s.count + 1
  {
    StartInv(parts);
    CourseKeepsInv(Start(parts), ms);
    CourseProgresses(Start(parts), ms);
    SumOfZeros(Start(parts).it.workers, Stage);
    var s := After(Start(parts), ms);
    StagesBounded(s.it.workers);
    ReceivedNames(s);
  }
}
