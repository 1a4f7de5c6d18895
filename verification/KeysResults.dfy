/** What Keys returns while others write, and whether its goroutines end. */
module KeysResults {
  import opened Fnv
  import opened Sums
  import opened ShardedMap
  import opened ShardIteration
  import opened KeysCollection

  // ---------- what is received ----------

  ghost predicate Distinct(names: seq<Key>) {
    forall i, j :: 0 <= i < j < |names| ==> names[i] != names[j]
  }

  lemma {:induction false} DistinctSize(names: seq<Key>)
    requires Distinct(names)
    ensures |set k | k in names| == |names|
  {
    if names != [] {
      var n := |names| - 1;
      DistinctSize(names[..n]);
      assert (set k | k in names) == (set k | k in names[..n]) + {names[n]};
    }
  }

  lemma {:induction false} CollectedNames<V>(entries: seq<Entry<V>>)
    ensures forall k :: k in Collect(entries) <==> k in Names(entries)
    ensures |Collect(entries)| <= |entries|
    ensures |Collect(entries)| == |entries| ==> Distinct(Names(entries))
  {
    if entries != [] {
      var n := |entries| - 1;
      CollectedNames(entries[..n]);
      OneMoreName(entries[..n], entries[n].0, entries[n].1);
      assert entries == entries[..n] + [entries[n]];
    }
  }

  lemma OneMoreName<V>(entries: seq<Entry<V>>, k: Key, v: V)
    ensures Names(entries + [(k, v)]) == Names(entries) + [k]
    ensures Collect(entries + [(k, v)]).Keys == Collect(entries).Keys + {k}
  {
    CollectOneMore(entries, k, v);
  }

  lemma PrefixNames<V>(a: seq<Entry<V>>, b: seq<Entry<V>>)
    requires |Collect(a + b)| == |a + b|
    ensures Distinct(Names(a)) && forall k <- Names(a) :: k in Collect(a + b)
  {
    CollectedNames(a + b);
    assert Names(a + b) == Names(a) + Names(b);
    assert forall i :: 0 <= i < |a| ==> Names(a)[i] == Names(a + b)[i];
  }

  /** All keys that some shard held when its goroutine took its read lock. */
  ghost function Seen<V>(s: Collection<V>): set<Key> {
    Union(Snapshots(s.it.workers)).Keys
  }

  /** The received names are distinct keys of the snapshots. */
  lemma ReceivedNames<V>(s: Collection<V>)
    requires CInv(s)
    ensures Distinct(Names(s.it.received)) && forall k <- Names(s.it.received) :: k in Seen(s)
    ensures |s.it.received| + |s.it.buffer| <= |Seen(s)|
  {
    PrefixNames(s.it.received, s.it.buffer);
    SentWithinSnapshots(s.it.workers);
  }

  /** When the channel is closed and drained, exactly the keys of the snapshots have been received. */
  lemma DrainedNames<V>(s: Collection<V>)
    requires CInv(s) && s.it.closes > 0 && s.it.buffer == []
    ensures |s.it.received| == |Seen(s)| && forall k <- Seen(s) :: k in Names(s.it.received)
  {
    ClosedState(s.it);
    assert s.it.received + s.it.buffer == s.it.received;
    CollectedNames(s.it.received);
  }

  lemma EqualSets(a: set<Key>, b: set<Key>)
    requires a <= b && |a| == |b|
    ensures a == b
  {
    assert b == a + (b - a);
  }

  // ---------- main results ----------

  /** In every run with writers, when Keys has returned: the result holds no zero-value filler, and consists
      of distinct keys of the map, if and only if the snapshots hold at least as many keys as were counted;
      it is exactly the keys of the snapshots if and only if they hold as many as were counted. */
  lemma KeysExactlyWhen<V>(parts: seq<map<Key, V>>, ms: seq<Move<V>>)
    requires |parts| == SHARD_COUNT && Placed(parts)
    requires Course(Start(parts), ms) && Returned(After(Start(parts), ms))
    ensures var s := After(Start(parts), ms);
            && (s.fillers == 0 <==> |Seen(s)| >= s.count)
            && (Distinct(ReturnedKeys(s)) && (forall k <- ReturnedKeys(s) :: k in Seen(s)) <==> |Seen(s)| >= s.count)
            && (Distinct(ReturnedKeys(s)) && (forall k :: k in ReturnedKeys(s) <==> k in Seen(s))
                <==> |Seen(s)| == s.count)
  {
    StartInv(parts);
    CourseKeepsInv(Start(parts), ms);
    ReturnedExactly(After(Start(parts), ms));
  }

  lemma ReturnedExactly<V>(s: Collection<V>)
    requires CInv(s) && Returned(s)
    ensures s.fillers == 0 <==> |Seen(s)| >= s.count
    ensures Distinct(ReturnedKeys(s)) && (forall k <- ReturnedKeys(s) :: k in Seen(s)) <==> |Seen(s)| >= s.count
    ensures Distinct(ReturnedKeys(s)) && (forall k :: k in ReturnedKeys(s) <==> k in Seen(s)) <==> |Seen(s)| == s.count
  {
    ReceivedNames(s);
    if s.fillers == 0 {
      assert ReturnedKeys(s) == Names(s.it.received);
      var names := set k | k in ReturnedKeys(s);
      DistinctSize(ReturnedKeys(s));
      if |Seen(s)| == s.count {
        EqualSets(names, Seen(s));
      }
      if forall k :: k in ReturnedKeys(s) <==> k in Seen(s) {
        assert names == Seen(s);
      }
    } else {
      FillerSpoils(s);
    }
  }

  lemma FillerSpoils<V>(s: Collection<V>)
    requires CInv(s) && s.fillers > 0
    ensures |Seen(s)| < s.count && !(Distinct(ReturnedKeys(s)) && forall k <- ReturnedKeys(s) :: k in Seen(s))
  {
    DrainedNames(s);
    var n, r := |s.it.received|, ReturnedKeys(s);
    assert r[n] == [] && r[n] in r;
    if [] in Seen(s) {
      var i :| 0 <= i < n && Names(s.it.received)[i] == [];
      assert r[i] == r[n];
    }
  }

  /** Nothing but operations of others can happen any more. */
  ghost predicate Stuck<V(!new)>(s: Collection<V>)
    requires Shaped(s.it)
  {
    forall m: Move<V> :: CanMove(s, m) ==> m.Go? && m.a.Write?
  }

  lemma StuckWorkers<V(!new)>(s: Collection<V>, i: nat)
    requires CInv(s) && Stuck(s) && i < SHARD_COUNT
    ensures s.counted == SHARD_COUNT
    ensures s.it.workers[i].Finished? || (s.it.workers[i].Sending? && s.it.workers[i].rest != {})
  {
    assert !CanMove(s, Move<V>.CountShard);
    assert !CanMove(s, Go(Action<V>.Lock(i)));
    assert !CanMove(s, Go(Action<V>.Unlock(i)));
    assert !CanMove(s, Go(Action<V>.SignOff(i)));
  }

  lemma UnfinishedWorker<V>(s: Collection<V>)
    requires CInv(s) && s.it.pending != 0
    ensures exists i :: 0 <= i < SHARD_COUNT && !s.it.workers[i].Finished?
  {
    if forall i :: 0 <= i < SHARD_COUNT ==> s.it.workers[i].Finished? {
      SumOfZeros(s.it.workers, Unfinished);
    }
  }

  /** Keys itself always returns: where nothing can move, it has received its count. */
  lemma StuckHasReturned<V(!new)>(s: Collection<V>)
    requires CInv(s) && Stuck(s)
    ensures Returned(s)
  {
    StuckWorkers(s, 0);
    if Receiving(s) {
      assert !CanMove(s, Go(Action<V>.Receive));
      assert !CanMove(s, Move<V>.Fill);
      assert !CanMove(s, Go(Action<V>.Close));
      UnfinishedWorker(s);
      var i :| 0 <= i < SHARD_COUNT && !s.it.workers[i].Finished?;
      StuckWorkers(s, i);
      var k :| k in s.it.workers[i].rest;
      assert CanMove(s, Go(Action<V>.Handoff(i, k)));
    }
  }

  /** A goroutine that hangs on its send has found the channel full, with entries still to send. */
  lemma HungWorker<V(!new)>(s: Collection<V>, i: nat)
    requires CInv(s) && Stuck(s) && i < SHARD_COUNT && !s.it.workers[i].Finished?
    ensures |Seen(s)| > 2 * s.count
  {
    StuckHasReturned(s);
    StuckWorkers(s, i);
    var k :| k in s.it.workers[i].rest;
    assert !CanMove(s, Go(Action<V>.Send(i, k)));
    if s.it.closes > 0 {
      AllFinished(s.it);
    }
    NotAllSent(s.it, i, k);
  }

  lemma NotAllSent<V>(s: State<V>, i: nat, k: Key)
    requires Inv(s) && CanSend(s, i, k)
    ensures |s.received| + |s.buffer| < |Union(Snapshots(s.workers)).Keys|
  {
    var sent, seen := Union(SentParts(s.workers)), Union(Snapshots(s.workers)).Keys;
    SentWithinSnapshots(s.workers);
    assert k in Snapshots(s.workers)[i] && k !in SentParts(s.workers)[i];
    UnionLookup(Snapshots(s.workers), k);
    UnionLookup(SentParts(s.workers), k);
    assert |s.received + s.buffer| == |sent.Keys|;
    ProperSubset(sent.Keys, seen, k);
  }

  lemma ProperSubset(a: set<Key>, b: set<Key>, k: Key)
    requires a <= b && k in b && k !in a
    ensures |a| < |b|
  {
    assert b == a + (b - a);
  }

  /** In every run with writers: where nothing of Keys can move any more, Keys has returned, and all its
      goroutines have ended if and only if the snapshots hold at most twice as many keys as were counted. */
  lemma WhereItStops<V(!new)>(parts: seq<map<Key, V>>, ms: seq<Move<V>>)
    requires |parts| == SHARD_COUNT && Placed(parts) && Course(Start(parts), ms)
    ensures Shaped(After(Start(parts), ms).it)
    ensures Stuck(After(Start(parts), ms)) ==>
              var s := After(Start(parts), ms);
              && Returned(s)
              && ((forall i :: 0 <= i < SHARD_COUNT ==> s.it.workers[i].Finished?) <==> |Seen(s)| <= 2 * s.count)
  {
    StartInv(parts);
    CourseKeepsInv(Start(parts), ms);
    var s := After(Start(parts), ms);
    if Stuck(s) {
      StuckHasReturned(s);
      if i :| 0 <= i < SHARD_COUNT && !s.it.workers[i].Finished? {
        HungWorker(s, i);
      } else {
        assert forall i :: 0 <= i < |s.it.workers| ==> Sent(s.it.workers[i]) == s.it.workers[i].snap;
        assert SentParts(s.it.workers) == Snapshots(s.it.workers);
        assert |Seen(s)| == |s.it.received + s.it.buffer|;
      }
    }
  }
}
