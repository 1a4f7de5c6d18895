/** Concurrent calls on the price cache of pricefeed/price_cache.go. AddFeed is one critical section.
    UpdatePrice is one that writes and, if the cache has become too large, gives up the lock, prunes in a
    section of its own, and takes the lock again to return. PruneCache is a prune section. Any number of
    calls may be under way, and their sections may follow each other in any order. */
module PriceCacheRuns {
  import opened PriceCacheModel
  import opened PriceCache

  datatype Call = Write(op: Op) | PruneCache

  /** Where a call is: before its first section, unlocked and about to prune, about to lock again, done. */
  datatype Pc = Called | Unlocked | Relocking | Done

  datatype Thread = Thread(call: Call, pc: Pc)

  datatype State = State(
    cache: Cache,
    threads: seq<Thread>,
    writes: seq<Op>  // the writing sections, in the order in which they took place
  )

  /** A call, or the next section of call `i`; `pruned` is what prune leaves if that section is a prune. */
  datatype Action = Begin(call: Call) | Go(i: nat, pruned: Cache)

  const START := State(EMPTY, [], [])

  predicate IsPruneSection(t: Thread) {
    (t.pc == Called && t.call.PruneCache?) || t.pc == Unlocked
  }

  ghost predicate Enabled(est: Estimator, s: State, a: Action) {
    match a
    case Begin(_) => true
    case Go(i, pruned) =>
      && i < |s.threads| && s.threads[i].pc != Done
      && (IsPruneSection(s.threads[i]) ==> Prunes(est, s.cache, pruned))
  }

  function Put(s: State, i: nat, pc: Pc): State
    requires i < |s.threads|
  {
    s.(threads := s.threads[i := s.threads[i].(pc := pc)])
  }

  ghost function Next(est: Estimator, s: State, a: Action): State
    requires Enabled(est, s, a)
  {
    match a
    case Begin(call) => s.(threads := s.threads + [Thread(call, Called)])
    case Go(i, pruned) =>
      match s.threads[i].pc
      case Called =>
        (match s.threads[i].call
         case PruneCache => Put(s, i, Done).(cache := pruned)
         case Write(op) =>
           var c := After(s.cache, op);
           var over := op.Update? && Estimate(est, c) > MAX_CACHE_SIZE_BYTES;
           Put(s, i, if over then Unlocked else Done).(cache := c, writes := s.writes + [op]))
      case Unlocked => Put(s, i, Relocking).(cache := pruned)
      case Relocking => Put(s, i, Done)
  }

  ghost predicate Run(est: Estimator, s: State, acts: seq<Action>)
    decreases |acts|
  {
    acts == [] || (Enabled(est, s, acts[0]) && Run(est, Next(est, s, acts[0]), acts[1..]))
  }

  ghost function Exec(est: Estimator, s: State, acts: seq<Action>): State
    requires Run(est, s, acts)
    decreases |acts|
  {
    if acts == [] then s else Exec(est, Next(est, s, acts[0]), acts[1..])
  }

  ghost function WrittenBy(t: Thread): multiset<Op> {
    if t.call.Write? && t.pc != Called then multiset{t.call.op} else multiset{}
  }

  /** The writes of the calls that are past their first section. */
  ghost function Begun(ts: seq<Thread>): multiset<Op> {
    if ts == [] then multiset{} else Begun(ts[..|ts| - 1]) + WrittenBy(ts[|ts| - 1])
  }

  lemma {:induction false} BegunUpdate(ts: seq<Thread>, i: nat, t: Thread, more: multiset<Op>)
    requires i < |ts| && WrittenBy(t) == WrittenBy(ts[i]) + more
    ensures Begun(ts[i := t]) == Begun(ts) + more
  {
    var n := |ts| - 1;
    if i < n {
      assert ts[i := t][..n] == ts[..n][i := t];
      BegunUpdate(ts[..n], i, t, more);
    } else {
      assert ts[i := t][..n] == ts[..n];
    }
  }

  /** The contents are what the writes so far make of an empty cache; each begun call has written once. */
  ghost predicate Inv(s: State) {
    s.cache == AfterAll(s.writes) && multiset(s.writes) == Begun(s.threads)
  }

  lemma WriteKeepsInv(est: Estimator, s: State, i: nat, pruned: Cache)
    requires Inv(s) && Enabled(est, s, Go(i, pruned)) && s.threads[i].pc == Called && s.threads[i].call.Write?
    ensures Inv(Next(est, s, Go(i, pruned)))
  {
    var t, op := Next(est, s, Go(i, pruned)), s.threads[i].call.op;
    BegunUpdate(s.threads, i, t.threads[i], multiset{op});
    assert t.writes[..|s.writes|] == s.writes;
    assert multiset(t.writes) == multiset(s.writes) + multiset{op};
  }

  lemma StepKeepsInv(est: Estimator, s: State, a: Action)
    requires Inv(s) && Enabled(est, s, a)
    ensures Inv(Next(est, s, a)) && s.writes <= Next(est, s, a).writes
  {
    match a
    case Begin(call) =>
      assert (s.threads + [Thread(call, Called)])[..|s.threads|] == s.threads;
    case Go(i, pruned) =>
      if s.threads[i].pc == Called && s.threads[i].call.Write? {
        WriteKeepsInv(est, s, i, pruned);
      } else {
        BegunUpdate(s.threads, i, Next(est, s, a).threads[i], multiset{});
        if IsPruneSection(s.threads[i]) {
          PruneChangesNothing(est, s.cache, pruned);
        }
      }
  }

  lemma {:induction false} RunKeepsInv(est: Estimator, s: State, acts: seq<Action>)
    requires Inv(s) && Run(est, s, acts)
    ensures Inv(Exec(est, s, acts)) && s.writes <= Exec(est, s, acts).writes
    decreases |acts|
  {
    if acts != [] {
      StepKeepsInv(est, s, acts[0]);
      RunKeepsInv(est, Next(est, s, acts[0]), acts[1..]);
    }
  }

  lemma {:induction false} RunConcat(est: Estimator, s: State, a: seq<Action>, b: seq<Action>)
    requires Run(est, s, a + b)
    ensures Run(est, s, a) && Run(est, Exec(est, s, a), b) && Exec(est, s, a + b) == Exec(est, Exec(est, s, a), b)
    decreases |a|
  {
    if a == [] {
      assert a + b == b;
    } else {
      assert (a + b)[1..] == a[1..] + b;
      RunConcat(est, Next(est, s, a[0]), a[1..], b);
    }
  }

  /** The first section of UpdatePrice gives up the lock to prune exactly when the size estimated after the
      write is over ten mebibytes; AddFeed never does. */
  lemma UpdateUnlocksIff(est: Estimator, s: State, i: nat, op: Op, pruned: Cache)
    requires i < |s.threads| && s.threads[i] == Thread(Write(op), Called)
    ensures Enabled(est, s, Go(i, pruned))
    ensures var t := Next(est, s, Go(i, pruned));
            && |t.threads| == |s.threads|
            && (t.threads[i].pc == Unlocked <==> op.Update? && Estimate(est, t.cache) > 10_485_760)
            && (t.threads[i].pc == Done <==> op.AddFeed? || Estimate(est, t.cache) <= 10_485_760)
  {
  }

  // ---------- main results ----------

  /** In every interleaving of AddFeed, UpdatePrice and PruneCache calls, whatever the sizes and wherever
      prune comes in: at every moment the cache is what the writes make of an empty one, in the order of
      their first sections, and every call past that section has written exactly once. */
  lemma EveryInterleaving(est: Estimator, acts: seq<Action>)
    requires Run(est, START, acts)
    ensures var s := Exec(est, START, acts);
            s.cache == AfterAll(s.writes) && multiset(s.writes) == Begun(s.threads)
  {
    RunKeepsInv(est, START, acts);
  }

  /** At every moment data and feeds agree, and every feed list begins with what it was before. */
  lemma EveryInterleavingAgrees(est: Estimator, earlier: seq<Action>, later: seq<Action>)
    requires Run(est, START, earlier + later)
    ensures Run(est, START, earlier)
    ensures var s, t := Exec(est, START, earlier), Exec(est, START, earlier + later);
            && Agrees(t.cache)
            && forall n :: FeedsOf(s.cache, n) <= FeedsOf(t.cache, n)
  {
    RunConcat(est, START, earlier, later);
    RunKeepsInv(est, START, earlier);
    var s := Exec(est, START, earlier);
    RunKeepsInv(est, s, later);
    var t := Exec(est, s, later);
    assert t.writes[..|s.writes|] == s.writes;
    PriceCacheModel.EveryRunAgrees(t.writes, |s.writes|);
  }

  /** A lookup at any moment, also while some call is between its sections, gives the last update of
      exactly that network, source and identifier whose writing section has taken place. */
  lemma EveryInterleavingIsAMap(est: Estimator, acts: seq<Action>, n: nat, source: string, identifier: string)
    requires Run(est, START, acts) && ColonFreeRun(Exec(est, START, acts).writes) && ColonFree(source)
    ensures var s := Exec(est, START, acts);
            Lookup(s.cache, n, Prefixed(source, identifier)) == LastUpdate(s.writes, n, source, identifier)
  {
    EveryInterleaving(est, acts);
    CacheIsAMap(Exec(est, START, acts).writes, n, source, identifier);
  }
}
