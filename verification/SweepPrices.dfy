/** Which prices a sweep of the Chainlink monitor leaves in the cache (pricefeed/chainlink_monitor.go),
    read off what happened in the run. */
module SweepPrices {
  import opened Wrappers
  import opened PriceCacheModel
  import opened Sweep

  /** The price of job `i` is stored under this key of this network. */
  predicate StoresUnder(jobs: seq<Job>, i: nat, n: nat, key: string) {
    i < |jobs| && jobs[i].n == n && WrittenKey(jobs[i].prefixed) == key
  }

  predicate WritesTo(jobs: seq<Job>, a: Action, n: nat, key: string) {
    a.Write? && StoresUnder(jobs, a.i, n, key)
  }

  ghost predicate NoWriteTo(jobs: seq<Job>, acts: seq<Action>, n: nat, key: string) {
    forall a <- acts :: !WritesTo(jobs, a, n, key)
  }

  /** Action `k` is the last write under the key. */
  ghost predicate LastWriteTo(jobs: seq<Job>, acts: seq<Action>, k: nat, n: nat, key: string) {
    k < |acts| && WritesTo(jobs, acts[k], n, key) && NoWriteTo(jobs, acts[k + 1..], n, key)
  }

  // ---------- one step ----------

  lemma StepOfCache(s: State, a: Action, n: nat, key: string)
    requires |s.tasks| == |s.jobs| && Enabled(s, a)
    ensures Lookup(Next(s, a).cache, n, key)
         == if WritesTo(s.jobs, a, n, key) then Some(s.tasks[a.i].p) else Lookup(s.cache, n, key)
  {
  }

  lemma StepOfTask(s: State, a: Action, i: nat)
    requires |s.tasks| == |s.jobs| && Enabled(s, a) && i < |s.tasks|
    requires s.spawned < |s.tasks| ==> s.tasks[s.spawned].Unborn?
    ensures var t := Next(s, a);
            && |t.tasks| == |s.tasks| && t.jobs == s.jobs
            && (forall p :: t.tasks[i] == Writing(p) ==> s.tasks[i] == Writing(p) || a == Fetch(i, Some(p)))
            && (s.tasks[i].Writing? && a != Write(i) ==> t.tasks[i] == s.tasks[i])
            && (forall p :: a == Fetch(i, Some(p)) ==> t.tasks[i] == Writing(p))
  {
  }

  lemma StepOfAttempt(s: State, a: Action, i: nat)
    requires |s.tasks| == |s.jobs| && Enabled(s, a) && i < |s.tasks|
    requires s.spawned < |s.tasks| ==> s.tasks[s.spawned].Unborn?
    ensures Attempted(s.tasks[i]) ==> Attempted(Next(s, a).tasks[i]) && !(a.Fetch? && a.i == i)
    ensures a.Fetch? && a.i == i ==> Attempted(Next(s, a).tasks[i])
  {
  }

  // ---------- whole runs ----------

  /** What the cache holds at the end of the run under the key was fetched by goroutine `i`. */
  ghost predicate WasFetched(s: State, acts: seq<Action>, i: nat, n: nat, key: string)
    requires |s.tasks| == |s.jobs| && Run(s, acts)
  {
    exists p :: (Fetch(i, Some(p)) in acts || (i < |s.tasks| && s.tasks[i] == Writing(p)))
                && Lookup(Exec(s, acts).cache, n, key) == Some(p)
  }

  lemma StepKeepsJobs(s: State, a: Action)
    requires |s.tasks| == |s.jobs| && Enabled(s, a)
    ensures Next(s, a).jobs == s.jobs && |Next(s, a).tasks| == |s.tasks|
  {
  }

  lemma NoWriteAfter(jobs: seq<Job>, acts: seq<Action>, n: nat, key: string)
    requires acts != []
    ensures NoWriteTo(jobs, acts, n, key) <==> !WritesTo(jobs, acts[0], n, key) && NoWriteTo(jobs, acts[1..], n, key)
  {
    assert forall a :: a in acts <==> a == acts[0] || a in acts[1..];
  }

  lemma LaterWrite(jobs: seq<Job>, acts: seq<Action>, k: nat, n: nat, key: string)
    requires k > 0 && LastWriteTo(jobs, acts, k, n, key)
    ensures LastWriteTo(jobs, acts[1..], k - 1, n, key) && acts[1..][k - 1] == acts[k]
  {
    assert acts[1..][k..] == acts[k + 1..];
  }

  lemma FetchedBefore(s: State, acts: seq<Action>, i: nat, n: nat, key: string)
    requires Counts(s) && Run(s, acts) && acts != [] && |Next(s, acts[0]).tasks| == |Next(s, acts[0]).jobs|
    requires i < |s.tasks| && WasFetched(Next(s, acts[0]), acts[1..], i, n, key)
    ensures WasFetched(s, acts, i, n, key)
  {
    var t := Next(s, acts[0]);
    var p :| (Fetch(i, Some(p)) in acts[1..] || (i < |t.tasks| && t.tasks[i] == Writing(p)))
             && Lookup(Exec(t, acts[1..]).cache, n, key) == Some(p);
    StepOfTask(s, acts[0], i);
    assert Fetch(i, Some(p)) in acts || s.tasks[i] == Writing(p);
  }

  lemma {:induction false} NoWriteKeepsPrice(s: State, acts: seq<Action>, n: nat, key: string)
    requires |s.tasks| == |s.jobs| && Run(s, acts) && NoWriteTo(s.jobs, acts, n, key)
    ensures Lookup(Exec(s, acts).cache, n, key) == Lookup(s.cache, n, key)
    decreases |acts|
  {
    if acts != [] {
      StepOfCache(s, acts[0], n, key);
      StepKeepsJobs(s, acts[0]);
      NoWriteAfter(s.jobs, acts, n, key);
      NoWriteKeepsPrice(Next(s, acts[0]), acts[1..], n, key);
    }
  }

  /** Nothing is stored but what the goroutine that stores it has fetched; the last write counts. */
  lemma {:induction false} LastWriteCounts(s: State, acts: seq<Action>, k: nat, n: nat, key: string)
    requires Counts(s) && Run(s, acts) && LastWriteTo(s.jobs, acts, k, n, key)
    ensures WasFetched(s, acts, acts[k].i, n, key)
    decreases |acts|
  {
    var a, t := acts[0], Next(s, acts[0]);
    StepKeepsCounts(s, a);
    if k == 0 {
      StepOfCache(s, a, n, key);
      NoWriteKeepsPrice(t, acts[1..], n, key);
      assert s.tasks[a.i] == Writing(s.tasks[a.i].p);
    } else {
      LaterWrite(s.jobs, acts, k, n, key);
      LastWriteCounts(t, acts[1..], k - 1, n, key);
      FetchedBefore(s, acts, acts[k].i, n, key);
    }
  }

  /** A goroutine fetches once. */
  lemma {:induction false} FetchesOnce(s: State, acts: seq<Action>, i: nat, r: Option<PriceInfo>, q: Option<PriceInfo>)
    requires Counts(s) && Run(s, acts) && i < |s.tasks| && Fetch(i, r) in acts && Fetch(i, q) in acts
    ensures r == q && !Attempted(s.tasks[i])
    decreases |acts|
  {
    var a := acts[0];
    StepKeepsCounts(s, a);
    StepOfAttempt(s, a, i);
    StepKeepsJobs(s, a);
    assert forall b :: b in acts <==> b == a || b in acts[1..];
    if Fetch(i, r) in acts[1..] {
      FetchesOnce(Next(s, a), acts[1..], i, r, r);
    }
    if Fetch(i, q) in acts[1..] {
      FetchesOnce(Next(s, a), acts[1..], i, q, q);
      if Fetch(i, r) in acts[1..] {
        FetchesOnce(Next(s, a), acts[1..], i, r, q);
      }
    }
  }

  /** A price that has been fetched is stored before the goroutine goes on. */
  lemma {:induction false} FetchedIsWritten(s: State, acts: seq<Action>, i: nat, p: PriceInfo)
    requires Counts(s) && Run(s, acts) && i < |s.tasks|
    requires Fetch(i, Some(p)) in acts || s.tasks[i].Writing?
    requires i < |Exec(s, acts).tasks| && !Exec(s, acts).tasks[i].Writing?
    ensures Write(i) in acts
    decreases |acts|
  {
    var a := acts[0];
    if a != Write(i) {
      StepOfTask(s, a, i);
      StepKeepsCounts(s, a);
      assert forall b :: b in acts <==> b == a || b in acts[1..];
      FetchedIsWritten(Next(s, a), acts[1..], i, p);
    }
  }

  lemma {:induction false} SomeWriteIsLast(jobs: seq<Job>, acts: seq<Action>, n: nat, key: string) returns (k: nat)
    requires !NoWriteTo(jobs, acts, n, key)
    ensures LastWriteTo(jobs, acts, k, n, key)
    decreases |acts|
  {
    NoWriteAfter(jobs, acts, n, key);
    if NoWriteTo(jobs, acts[1..], n, key) {
      k := 0;
    } else {
      var m := SomeWriteIsLast(jobs, acts[1..], n, key);
      k := m + 1;
      assert acts[1..][m + 1..] == acts[k + 1..];
    }
  }

  // ---------- main results ----------

  /** A goroutine of the sweep fetched `p` for this key. */
  ghost predicate FetchedFor(jobs: seq<Job>, acts: seq<Action>, i: nat, n: nat, key: string, p: PriceInfo) {
    StoresUnder(jobs, i, n, key) && Fetch(i, Some(p)) in acts
  }

  /** At any moment of any interleaving: what the cache holds under a key is what it held before the sweep
      if nothing was written under the key, and otherwise what the goroutine of the last write fetched. */
  lemma PriceAtAnyMoment(jobs: seq<Job>, cache: Cache, acts: seq<Action>, n: nat, key: string)
    requires Run(Initial(jobs, cache), acts)
    ensures var c := Exec(Initial(jobs, cache), acts).cache;
            && (NoWriteTo(jobs, acts, n, key) ==> Lookup(c, n, key) == Lookup(cache, n, key))
            && (forall k: nat :: LastWriteTo(jobs, acts, k, n, key) ==>
                  exists p :: FetchedFor(jobs, acts, acts[k].i, n, key, p) && Lookup(c, n, key) == Some(p))
  {
    var s := Initial(jobs, cache);
    InitialCounts(jobs, cache);
    if NoWriteTo(jobs, acts, n, key) {
      NoWriteKeepsPrice(s, acts, n, key);
    }
    forall k: nat | LastWriteTo(jobs, acts, k, n, key)
      ensures exists p :: FetchedFor(jobs, acts, acts[k].i, n, key, p) && Lookup(Exec(s, acts).cache, n, key) == Some(p)
    {
      var i := acts[k].i;
      LastWriteCounts(s, acts, k, n, key);
      var p :| (Fetch(i, Some(p)) in acts || (i < |s.tasks| && s.tasks[i] == Writing(p)))
               && Lookup(Exec(s, acts).cache, n, key) == Some(p);
      assert FetchedFor(jobs, acts, i, n, key, p);
    }
  }

  /** When the sweep has returned: under every key for which some fetch succeeded there is a price that was
      fetched for it, and under every other key what there was before. */
  lemma SweepStoresWhatItFetched(jobs: seq<Job>, cache: Cache, acts: seq<Action>, n: nat, key: string)
    requires Run(Initial(jobs, cache), acts) && Exec(Initial(jobs, cache), acts).returned
    ensures var c := Exec(Initial(jobs, cache), acts).cache;
            if exists i, p :: FetchedFor(jobs, acts, i, n, key, p)
            then exists i, p :: FetchedFor(jobs, acts, i, n, key, p) && Lookup(c, n, key) == Some(p)
            else Lookup(c, n, key) == Lookup(cache, n, key)
  {
    var s, t := Initial(jobs, cache), Exec(Initial(jobs, cache), acts);
    PriceAtAnyMoment(jobs, cache, acts, n, key);
    InitialCounts(jobs, cache);
    if i, p :| FetchedFor(jobs, acts, i, n, key, p) {
      IsGone(jobs, cache, acts, i);
      FetchedIsWritten(s, acts, i, p);
      assert WritesTo(jobs, Write(i), n, key);
    }
    if !NoWriteTo(jobs, acts, n, key) {
      var k := SomeWriteIsLast(jobs, acts, n, key);
    }
  }

  lemma IsGone(jobs: seq<Job>, cache: Cache, acts: seq<Action>, i: nat)
    requires Run(Initial(jobs, cache), acts) && Exec(Initial(jobs, cache), acts).returned && i < |jobs|
    ensures i < |Exec(Initial(jobs, cache), acts).tasks| && Exec(Initial(jobs, cache), acts).tasks[i].Gone?
  {
    EverySweep(jobs, cache, acts);
    InitialCounts(jobs, cache);
    RunKeepsCounts(Initial(jobs, cache), acts);
    var ts := Exec(Initial(jobs, cache), acts).tasks;
    assert ts[i] in ts;
  }

  /** Where no two jobs share a key, as with Chainlink feeds only: every job whose fetch succeeded leaves
      exactly the price that it fetched. */
  lemma EveryFetchIsStored(jobs: seq<Job>, cache: Cache, acts: seq<Action>, i: nat, n: nat, key: string, p: PriceInfo)
    requires Run(Initial(jobs, cache), acts) && Exec(Initial(jobs, cache), acts).returned
    requires FetchedFor(jobs, acts, i, n, key, p) && forall j :: StoresUnder(jobs, j, n, key) ==> j == i
    ensures Lookup(Exec(Initial(jobs, cache), acts).cache, n, key) == Some(p)
  {
    SweepStoresWhatItFetched(jobs, cache, acts, n, key);
    var j, q :| FetchedFor(jobs, acts, j, n, key, q)
                && Lookup(Exec(Initial(jobs, cache), acts).cache, n, key) == Some(q);
    InitialCounts(jobs, cache);
    FetchesOnce(Initial(jobs, cache), acts, i, Some(p), Some(q));
  }

  /** No two Chainlink feeds of a plan share a key. */
  lemma ChainlinkKeysDiffer(jobs: seq<Job>, c: Cache, clients: set<nat>, i: nat, j: nat)
    requires IsPlan(jobs, c, clients) && i < |jobs|
    requires forall j <- jobs :: HasPrefix(j.prefixed, SOURCE_CHAINLINK + ":")
    requires StoresUnder(jobs, j, jobs[i].n, jobs[i].prefixed)
    ensures j == i
  {
    assert jobs[i] in jobs && jobs[j] in jobs;
    WrittenKeyIff(jobs[j].prefixed);
    assert jobs[i] == jobs[j];
  }

  /** With Chainlink feeds only, a sweep that has returned has fetched every feed once, and left under the
      feed's own key the fetched price, or the price from before if the fetch failed. */
  lemma ChainlinkSweepIsExact(jobs: seq<Job>, cache: Cache, clients: set<nat>, acts: seq<Action>, i: nat)
    returns (result: Option<PriceInfo>)
    requires IsPlan(jobs, cache, clients) && forall j <- jobs :: HasPrefix(j.prefixed, SOURCE_CHAINLINK + ":")
    requires Run(Initial(jobs, cache), acts) && Exec(Initial(jobs, cache), acts).returned && i < |jobs|
    ensures forall r :: Fetch(i, r) in acts <==> r == result
    ensures Lookup(Exec(Initial(jobs, cache), acts).cache, jobs[i].n, jobs[i].prefixed)
         == if result.Some? then result else Lookup(cache, jobs[i].n, jobs[i].prefixed)
  {
    var s, n, key := Initial(jobs, cache), jobs[i].n, jobs[i].prefixed;
    InitialCounts(jobs, cache);
    IsGone(jobs, cache, acts, i);
    result := AttemptIsFetch(s, acts, i);
    forall r | Fetch(i, r) in acts ensures r == result {
      FetchesOnce(s, acts, i, r, result);
    }
    forall j | StoresUnder(jobs, j, n, key) ensures j == i {
      ChainlinkKeysDiffer(jobs, cache, clients, i, j);
    }
    if result.Some? {
      assert jobs[i] in jobs;
      WrittenKeyIff(key);
      EveryFetchIsStored(jobs, cache, acts, i, n, key, result.value);
    } else {
      SweepStoresWhatItFetched(jobs, cache, acts, n, key);
    }
  }

  lemma {:induction false} AttemptIsFetch(s: State, acts: seq<Action>, i: nat) returns (result: Option<PriceInfo>)
    requires Counts(s) && Run(s, acts) && i < |s.tasks| && !Attempted(s.tasks[i])
    requires i < |Exec(s, acts).tasks| && Attempted(Exec(s, acts).tasks[i])
    ensures Fetch(i, result) in acts
    decreases |acts|
  {
    var a := acts[0];
    StepKeepsCounts(s, a);
    if a.Fetch? && a.i == i {
      result := a.result;
    } else {
      StepKeepsUnattempted(s, a, i);
      result := AttemptIsFetch(Next(s, a), acts[1..], i);
    }
  }

  lemma StepKeepsUnattempted(s: State, a: Action, i: nat)
    requires |s.tasks| == |s.jobs| && Enabled(s, a) && i < |s.tasks| && !Attempted(s.tasks[i])
    requires !(a.Fetch? && a.i == i)
    ensures i < |Next(s, a).tasks| && !Attempted(Next(s, a).tasks[i])
  {
  }
}
