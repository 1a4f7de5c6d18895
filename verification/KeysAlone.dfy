/** Keys while nobody writes: then it returns exactly the map's keys. */
module KeysAlone {
  import opened Fnv
  import opened ShardedMap
  import opened ShardIteration
  import opened KeysCollection
  import opened KeysResults

  ghost predicate Undisturbed<V>(ms: seq<Move<V>>) {
    forall m <- ms :: m.Go? ==> !m.a.Write?
  }

  /** Nothing was written: the count and the snapshots are those of `parts`. */
  ghost predicate Steady<V>(s: Collection<V>, parts: seq<map<Key, V>>)
    requires |parts| == SHARD_COUNT
  {
    && s.it.parts == parts && Shaped(s.it) && s.counted <= SHARD_COUNT && s.count == Total(parts[..s.counted])
    && forall i :: 0 <= i < SHARD_COUNT && !s.it.workers[i].Waiting? ==> s.it.workers[i].snap == parts[i]
  }

  lemma MoveKeepsSteady<V>(s: Collection<V>, m: Move<V>, parts: seq<map<Key, V>>)
    requires |parts| == SHARD_COUNT && Steady(s, parts) && CanMove(s, m) && (m.Go? ==> !m.a.Write?)
    ensures Steady(Moved(s, m), parts)
  {
    if m.CountShard? {
      assert parts[..s.counted + 1][..s.counted] == parts[..s.counted];
    }
  }

  lemma {:induction false} StaysSteady<V>(s: Collection<V>, ms: seq<Move<V>>, parts: seq<map<Key, V>>)
    requires |parts| == SHARD_COUNT && Course(s, ms) && Undisturbed(ms) && Steady(s, parts)
    ensures Steady(After(s, ms), parts)
    decreases |ms|
  {
    if ms != [] {
      assert ms[0] in ms && forall m <- ms[1..] :: m in ms;
      MoveKeepsSteady(s, ms[0], parts);
      StaysSteady(Moved(s, ms[0]), ms[1..], parts);
    }
  }

  lemma SteadySeen<V>(s: Collection<V>, parts: seq<map<Key, V>>)
    requires |parts| == SHARD_COUNT && Placed(parts) && CInv(s) && Steady(s, parts)
    ensures forall k <- Seen(s) :: k in Union(parts)
    ensures |Seen(s)| <= |Union(parts)|
  {
    var snaps := Snapshots(s.it.workers);
    assert forall i, k :: 0 <= i < |snaps| && k in snaps[i] ==> k in parts[i];
    SubUnion(snaps, parts);
  }

  lemma SteadyCount<V>(s: Collection<V>, parts: seq<map<Key, V>>)
    requires |parts| == SHARD_COUNT && Placed(parts) && Steady(s, parts) && s.counted == SHARD_COUNT
    ensures s.count == |Union(parts)|
  {
    UnionSize(parts);
    assert parts[..SHARD_COUNT] == parts;
  }

  lemma SteadyClosed<V>(s: Collection<V>, parts: seq<map<Key, V>>)
    requires |parts| == SHARD_COUNT && CInv(s) && Steady(s, parts) && s.it.closes > 0
    ensures Seen(s) == Union(parts).Keys
  {
    AllFinished(s.it);
    assert Snapshots(s.it.workers) == parts;
  }

  lemma SubUnion<V>(a: seq<map<Key, V>>, b: seq<map<Key, V>>)
    requires Placed(a) && Placed(b) && |a| == |b| && forall i, k :: 0 <= i < |a| && k in a[i] ==> k in b[i]
    ensures forall k <- Union(a) :: k in Union(b)
    ensures |Union(a)| <= |Union(b)|
  {
    forall k | k in Union(a) ensures k in Union(b) {
      UnionLookup(a, k);
      UnionLookup(b, k);
    }
    SubmapSize(Union(a), Union(b));
  }

  /** Without writers, Keys always returns, all its goroutines end, and the result is a permutation of the
      map's keys. */
  lemma KeysIsExact<V(!new)>(parts: seq<map<Key, V>>, ms: seq<Move<V>>)
    requires |parts| == SHARD_COUNT && Placed(parts) && Course(Start(parts), ms) && Undisturbed(ms)
    ensures var s := After(Start(parts), ms);
            && Shaped(s.it)
            && (Returned(s) ==> Distinct(ReturnedKeys(s)) && forall k :: k in ReturnedKeys(s) <==> k in Union(parts))
            && (Stuck(s) ==> Returned(s) && forall i :: 0 <= i < SHARD_COUNT ==> s.it.workers[i].Finished?)
  {
    StartInv(parts);
    CourseKeepsInv(Start(parts), ms);
    assert parts[..0] == [];
    StaysSteady(Start(parts), ms, parts);
    var s := After(Start(parts), ms);
    SteadySeen(s, parts);
    WhereItStops(parts, ms);
    if Returned(s) {
      SteadyCount(s, parts);
      ReceivedNames(s);
      if s.fillers > 0 {
        SteadyClosed(s, parts);
        FillerSpoils(s);
      }
      ReturnedExactly(s);
      EqualSets(Seen(s), Union(parts).Keys);
    }
  }
}
