/** One sweep of the Chainlink monitor (pricefeed/chainlink_monitor.go): a goroutine per registered
    feed, at most ten of them fetching at a time, and a wait for all. */
module Sweep {
  import opened Wrappers
  import opened Sums
  import opened PriceCacheModel

  const LIMIT := 10
  const SOURCE_CHAINLINK := "chainlink"

  datatype Job = Job(n: nat, prefixed: string)

  /** The address that is fetched for a registered feed. */
  function FeedAddress(prefixed: string): string {
    TrimPrefix(prefixed, SOURCE_CHAINLINK + ":")
  }

  /** The key under which its price is stored. */
  function WrittenKey(prefixed: string): string {
    Prefixed(SOURCE_CHAINLINK, FeedAddress(prefixed))
  }

  /** A feed is stored under its own key exactly if it is a Chainlink feed. */
  lemma WrittenKeyIff(prefixed: string)
    ensures WrittenKey(prefixed) == prefixed <==> HasPrefix(prefixed, SOURCE_CHAINLINK + ":")
  {
  }

  // ---------- the jobs ----------

  ghost predicate DistinctJobs(jobs: seq<Job>) {
    forall i, j :: 0 <= i < j < |jobs| ==> jobs[i] != jobs[j]
  }

  /** Every registered feed of every network with a client, once. */
  ghost predicate IsPlan(jobs: seq<Job>, c: Cache, clients: set<nat>) {
    DistinctJobs(jobs) && forall n, f :: Job(n, f) in jobs <==> n in clients && f in FeedsOf(c, n)
  }

  method Plan(feeds: map<nat, seq<string>>, clients: set<nat>, ghost c: Cache) returns (jobs: seq<Job>)
    requires feeds == c.feeds && Agrees(c)
    ensures IsPlan(jobs, c, clients)
  {
    jobs := [];
    var todo := feeds.Keys;
    while todo != {}
      invariant todo <= feeds.Keys && DistinctJobs(jobs)
      invariant forall n, f :: Job(n, f) in jobs <==> n !in todo && n in clients && f in FeedsOf(c, n)
    {
      var n :| n in todo;
      todo := todo - {n};
      if n !in clients {
        continue;
      }
      var list := feeds[n];
      assert list == FeedsOf(c, n) && Distinct(list);
      for i := 0 to |list|
        invariant DistinctJobs(jobs)
        invariant forall m, f :: Job(m, f) in jobs <==>
                    if m == n then f in list[..i] else m !in todo && m in clients && f in FeedsOf(c, m)
      {
        jobs := jobs + [Job(n, list[i])];
      }
      assert list[..|list|] == list;
    }
  }

  // ---------- the goroutines ----------

  datatype Task = Unborn | Waiting | Fetching | Writing(p: PriceInfo) | Releasing | Signing | Gone

  datatype State = State(
    jobs: seq<Job>,
    tasks: seq<Task>,
    spawned: nat,          // how far the spawning loop is
    semaphore: int,        // tokens in the channel
    pending: int,          // the wait group
    attempts: seq<Job>,    // the fetches made
    cache: Cache,
    returned: bool         // wg.Wait has returned
  )

  datatype Action =
    | Spawn
    | Acquire(i: nat)
    | Fetch(i: nat, result: Option<PriceInfo>)
    | Write(i: nat)
    | Release(i: nat)
    | SignOff(i: nat)
    | Return

  function Initial(jobs: seq<Job>, cache: Cache): State {
    State(jobs, seq(|jobs|, _ => Unborn), 0, 0, 0, [], cache, false)
  }

  predicate Enabled(s: State, a: Action)
    requires |s.tasks| == |s.jobs|
  {
    match a
    case Spawn => s.spawned < |s.jobs|
    case Acquire(i) => i < |s.tasks| && s.tasks[i].Waiting? && s.semaphore < LIMIT
    case Fetch(i, _) => i < |s.tasks| && s.tasks[i].Fetching?
    case Write(i) => i < |s.tasks| && s.tasks[i].Writing?
    case Release(i) => i < |s.tasks| && s.tasks[i].Releasing?
    case SignOff(i) => i < |s.tasks| && s.tasks[i].Signing?
    case Return => s.spawned == |s.jobs| && s.pending == 0 && !s.returned
  }

  function Put(s: State, i: nat, t: Task): State
    requires i < |s.tasks|
  {
    s.(tasks := s.tasks[i := t])
  }

  function Next(s: State, a: Action): State
    requires |s.tasks| == |s.jobs| && Enabled(s, a)
  {
    match a
    case Spawn => Put(s, s.spawned, Waiting).(spawned := s.spawned + 1, pending := s.pending + 1)
    case Acquire(i) => Put(s, i, Fetching).(semaphore := s.semaphore + 1)
    case Fetch(i, result) =>
      Put(s, i, if result.Some? then Writing(result.value) else Releasing).(attempts := s.attempts + [s.jobs[i]])
    case Write(i) =>
      Put(s, i, Releasing).(cache := AfterUpdate(s.cache, s.jobs[i].n, WrittenKey(s.jobs[i].prefixed), s.tasks[i].p))
    case Release(i) => Put(s, i, Signing).(semaphore := s.semaphore - 1)
    case SignOff(i) => Put(s, i, Gone).(pending := s.pending - 1)
    case Return => s.(returned := true)
  }

  // ---------- invariant ----------

  ghost function InFlight(t: Task): int {
    if t.Fetching? || t.Writing? || t.Releasing? then 1 else 0
  }

  ghost function Alive(t: Task): int {
    if t.Unborn? || t.Gone? then 0 else 1
  }

  predicate Attempted(t: Task) {
    t.Writing? || t.Releasing? || t.Signing? || t.Gone?
  }

  /** The jobs of the goroutines that have fetched. */
  ghost function Done(jobs: seq<Job>, ts: seq<Task>): multiset<Job>
    requires |jobs| == |ts|
  {
    if ts == [] then multiset{} else
    var n := |ts| - 1;
    Done(jobs[..n], ts[..n]) + if Attempted(ts[n]) then multiset{jobs[n]} else multiset{}
  }

  lemma {:induction false} DoneUpdate(jobs: seq<Job>, ts: seq<Task>, i: nat, t: Task)
    requires |jobs| == |ts| && i < |ts| && (Attempted(ts[i]) ==> Attempted(t))
    ensures Done(jobs, ts[i := t]) == Done(jobs, ts)
                                      + if Attempted(t) && !Attempted(ts[i]) then multiset{jobs[i]} else multiset{}
    decreases |ts|
  {
    var n := |ts| - 1;
    if i < n {
      assert ts[i := t][..n] == ts[..n][i := t];
      DoneUpdate(jobs[..n], ts[..n], i, t);
    } else {
      assert ts[i := t][..n] == ts[..n];
    }
  }

  /** The goroutines below `n` have been spawned, the others not. */
  ghost predicate AreSpawned(ts: seq<Task>, n: nat) {
    n <= |ts| && forall i :: 0 <= i < |ts| ==> (ts[i].Unborn? <==> n <= i)
  }

  ghost predicate Counts(s: State) {
    && |s.tasks| == |s.jobs|
    && s.semaphore == Sum(s.tasks, InFlight) && s.semaphore <= LIMIT
    && s.pending == Sum(s.tasks, Alive)
    && multiset(s.attempts) == Done(s.jobs, s.tasks)
    && AreSpawned(s.tasks, s.spawned)
    && (s.returned ==> s.spawned == |s.jobs| && s.pending == 0)
  }

  lemma MoveKeepsAttempts(s: State, r: State, i: nat, t: Task)
    requires Counts(s) && i < |s.tasks| && r.jobs == s.jobs && r.tasks == s.tasks[i := t]
    requires Attempted(s.tasks[i]) ==> Attempted(t)
    requires multiset(r.attempts) == multiset(s.attempts)
               + if Attempted(t) && !Attempted(s.tasks[i]) then multiset{s.jobs[i]} else multiset{}
    ensures multiset(r.attempts) == Done(r.jobs, r.tasks)
  {
    DoneUpdate(s.jobs, s.tasks, i, t);
  }

  lemma MoveKeepsSpawned(s: State, r: State, i: nat, t: Task)
    requires |s.tasks| == |s.jobs| && AreSpawned(s.tasks, s.spawned) && i < |s.tasks| && t != Unborn
    requires r.tasks == s.tasks[i := t] && (s.tasks[i].Unborn? ==> i == s.spawned)
    requires r.spawned == if s.tasks[i].Unborn? then s.spawned + 1 else s.spawned
    ensures AreSpawned(r.tasks, r.spawned)
  {
  }

  /** Moving one goroutine on, with the counters changed to match, keeps the counts. */
  lemma MoveKeepsCounts(s: State, r: State, i: nat, t: Task)
    requires Counts(s) && i < |s.tasks| && s.tasks[i] != Gone && t != Unborn
    requires r.jobs == s.jobs && r.tasks == s.tasks[i := t] && r.returned == s.returned
    requires s.tasks[i].Unborn? ==> i == s.spawned
    requires r.spawned == if s.tasks[i].Unborn? then s.spawned + 1 else s.spawned
    requires r.semaphore == s.semaphore - InFlight(s.tasks[i]) + InFlight(t) <= LIMIT
    requires r.pending == s.pending - Alive(s.tasks[i]) + Alive(t)
    requires Attempted(s.tasks[i]) ==> Attempted(t)
    requires multiset(r.attempts) == multiset(s.attempts)
               + if Attempted(t) && !Attempted(s.tasks[i]) then multiset{s.jobs[i]} else multiset{}
    ensures Counts(r)
  {
    SumUpdate(s.tasks, i, t, InFlight);
    SumUpdate(s.tasks, i, t, Alive);
    MoveKeepsAttempts(s, r, i, t);
    MoveKeepsSpawned(s, r, i, t);
    SumAtLeast(s.tasks, Alive, i);
  }

  lemma FetchKeepsCounts(s: State, i: nat, result: Option<PriceInfo>)
    requires Counts(s) && Enabled(s, Fetch(i, result))
    ensures Counts(Next(s, Fetch(i, result)))
  {
    var r := Next(s, Fetch(i, result));
    assert multiset(r.attempts) == multiset(s.attempts) + multiset{s.jobs[i]};
    MoveKeepsCounts(s, r, i, r.tasks[i]);
  }

  /** Every step keeps the counts. */
  lemma StepKeepsCounts(s: State, a: Action)
    requires Counts(s) && Enabled(s, a)
    ensures Counts(Next(s, a)) && Next(s, a).jobs == s.jobs
  {
    if a.Fetch? {
      FetchKeepsCounts(s, a.i, a.result);
    } else if !a.Return? {
      var i := if a.Spawn? then s.spawned else a.i;
      MoveKeepsCounts(s, Next(s, a), i, Next(s, a).tasks[i]);
    }
  }

  ghost predicate Run(s: State, acts: seq<Action>)
    decreases |acts|
  {
    acts == [] || (|s.tasks| == |s.jobs| && Enabled(s, acts[0]) && Run(Next(s, acts[0]), acts[1..]))
  }

  ghost function Exec(s: State, acts: seq<Action>): State
    requires Run(s, acts)
    decreases |acts|
  {
    if acts == [] then s else Exec(Next(s, acts[0]), acts[1..])
  }

  ghost function Stage(t: Task): int {
    match t
    case Unborn => 0
    case Waiting => 1
    case Fetching => 2
    case Writing(_) => 3
    case Releasing => 4
    case Signing => 5
    case Gone => 6
  }

  ghost function Progress(s: State): int {
    Sum(s.tasks, Stage) + if s.returned then 1 else 0
  }

  lemma StepProgresses(s: State, a: Action)
    requires Counts(s) && Enabled(s, a)
    ensures Progress(Next(s, a)) >= Progress(s) + 1
  {
    if !a.Return? {
      var i := if a.Spawn? then s.spawned else a.i;
      SumUpdate(s.tasks, i, Next(s, a).tasks[i], Stage);
    }
  }

  lemma {:induction false} RunKeepsCounts(s: State, acts: seq<Action>)
    requires Counts(s) && Run(s, acts)
    ensures var t := Exec(s, acts); Counts(t) && t.jobs == s.jobs && Progress(t) >= Progress(s) + |acts|
    decreases |acts|
  {
    if acts != [] {
      StepKeepsCounts(s, acts[0]);
      StepProgresses(s, acts[0]);
      RunKeepsCounts(Next(s, acts[0]), acts[1..]);
    }
  }

  lemma {:induction false} NoneDone(jobs: seq<Job>)
    ensures Done(jobs, seq(|jobs|, _ => Unborn)) == multiset{}
  {
    if jobs != [] {
      var n := |jobs| - 1;
      NoneDone(jobs[..n]);
      assert seq(|jobs|, _ => Unborn)[..n] == seq(n, _ => Unborn);
    }
  }

  lemma InitialCounts(jobs: seq<Job>, cache: Cache)
    ensures Counts(Initial(jobs, cache)) && Progress(Initial(jobs, cache)) == 0
  {
    var ts := Initial(jobs, cache).tasks;
    SumOfZeros(ts, InFlight);
    SumOfZeros(ts, Alive);
    SumOfZeros(ts, Stage);
    NoneDone(jobs);
  }

  lemma {:induction false} AllDone(jobs: seq<Job>, ts: seq<Task>)
    requires |jobs| == |ts| && forall i :: 0 <= i < |ts| ==> ts[i].Gone?
    ensures Done(jobs, ts) == multiset(jobs)
    decreases |ts|
  {
    if ts != [] {
      var n := |ts| - 1;
      AllDone(jobs[..n], ts[..n]);
      assert jobs == jobs[..n] + [jobs[n]];
    } else {
      assert jobs == [];
    }
  }

  lemma {:induction false} StagesBounded(ts: seq<Task>)
    ensures Sum(ts, Stage) <= 6 * |ts|
  {
    if ts != [] {
      StagesBounded(ts[..|ts| - 1]);
    }
  }

  lemma AlwaysProgress(s: State)
    requires Counts(s) && !s.returned
    ensures exists a :: Enabled(s, a)
  {
    if s.spawned < |s.jobs| {
      assert Enabled(s, Spawn);
    } else if s.pending == 0 {
      assert Enabled(s, Return);
    } else {
      if forall i :: 0 <= i < |s.tasks| ==> s.tasks[i].Gone? {
        SumOfZeros(s.tasks, Alive);
      }
      var i :| 0 <= i < |s.tasks| && !s.tasks[i].Gone?;
      if s.tasks[i].Waiting? && s.semaphore == LIMIT {
        HolderMoves(s);
      } else {
        TaskMoves(s, i);
      }
    }
  }

  lemma TaskMoves(s: State, i: nat)
    requires Counts(s) && i < |s.tasks| && !s.tasks[i].Unborn? && !s.tasks[i].Gone?
    requires s.tasks[i].Waiting? ==> s.semaphore < LIMIT
    ensures exists a :: Enabled(s, a)
  {
    match s.tasks[i]
    case Waiting => assert Enabled(s, Acquire(i));
    case Fetching => assert Enabled(s, Fetch(i, None));
    case Writing(_) => assert Enabled(s, Write(i));
    case Releasing => assert Enabled(s, Release(i));
    case Signing => assert Enabled(s, SignOff(i));
  }

  /** When the semaphore is full, a goroutine holding a token can move. */
  lemma HolderMoves(s: State)
    requires Counts(s) && s.semaphore == LIMIT
    ensures exists a :: Enabled(s, a)
  {
    if forall i :: 0 <= i < |s.tasks| ==> InFlight(s.tasks[i]) == 0 {
      SumOfZeros(s.tasks, InFlight);
    }
    var i :| 0 <= i < |s.tasks| && InFlight(s.tasks[i]) != 0;
    TaskMoves(s, i);
  }

  // ---------- main results ----------

  /** In every interleaving: at most ten fetches are in flight; the sweep always gets on and is over
      after a bounded number of steps; and when Wait returns every planned feed has been attempted
      exactly once, nothing runs, and the semaphore is empty. */
  lemma EverySweep(jobs: seq<Job>, cache: Cache, acts: seq<Action>)
    requires Run(Initial(jobs, cache), acts)
    ensures var s := Exec(Initial(jobs, cache), acts);
            && |s.tasks| == |s.jobs|
            && Sum(s.tasks, InFlight) == s.semaphore <= 10
            && |acts| <= 6 * |jobs| + 1
            && (!s.returned ==> exists a :: Enabled(s, a))
            && (s.returned ==> multiset(s.attempts) == multiset(jobs) && s.semaphore == 0
                               && forall t <- s.tasks :: t.Gone?)
  {
    InitialCounts(jobs, cache);
    RunKeepsCounts(Initial(jobs, cache), acts);
    var s := Exec(Initial(jobs, cache), acts);
    StagesBounded(s.tasks);
    if s.returned {
      forall i | 0 <= i < |s.tasks| ensures s.tasks[i].Gone? {
        SumAtLeast(s.tasks, Alive, i);
      }
      AllDone(jobs, s.tasks);
      SumOfZeros(s.tasks, InFlight);
    } else {
      AlwaysProgress(s);
    }
  }

  /** A write leaves the feed lists alone exactly if its key is registered. */
  lemma WriteKeepsFeedsIff(c: Cache, n: nat, key: string, p: PriceInfo)
    ensures AfterUpdate(c, n, key, p).feeds == c.feeds <==> key in FeedsOf(c, n)
  {
  }

  /** The sweep of a cache whose feeds are all written under registered keys. */
  ghost predicate Contained(c: Cache, jobs: seq<Job>) {
    forall j <- jobs :: WrittenKey(j.prefixed) in FeedsOf(c, j.n)
  }

  /** What such a sweep leaves alone. */
  ghost predicate Untouched(c: Cache, d: Cache) {
    d.feeds == c.feeds && forall n, k :: k !in FeedsOf(c, n) ==> Lookup(d, n, k) == Lookup(c, n, k)
  }

  lemma {:induction false} ContainedSweep(c: Cache, s: State, acts: seq<Action>)
    requires Contained(c, s.jobs) && Untouched(c, s.cache) && Run(s, acts)
    ensures Untouched(c, Exec(s, acts).cache)
    decreases |acts|
  {
    if acts != [] {
      var a := acts[0];
      if a.Write? {
        var j := s.jobs[a.i];
        assert j in s.jobs && WrittenKey(j.prefixed) in FeedsOf(s.cache, j.n);
        WriteKeepsFeedsIff(s.cache, j.n, WrittenKey(j.prefixed), s.tasks[a.i].p);
      }
      ContainedSweep(c, Next(s, a), acts[1..]);
    }
  }

  /** If all feeds of networks with a client are Chainlink feeds, a sweep leaves the feed lists as they
      are and writes under registered keys only. */
  lemma ChainlinkSweep(c: Cache, clients: set<nat>, jobs: seq<Job>, acts: seq<Action>)
    requires IsPlan(jobs, c, clients) && Run(Initial(jobs, c), acts)
    requires forall j <- jobs :: HasPrefix(j.prefixed, SOURCE_CHAINLINK + ":")
    ensures Untouched(c, Exec(Initial(jobs, c), acts).cache)
  {
    forall j | j in jobs ensures WrittenKey(j.prefixed) in FeedsOf(c, j.n) {
      WrittenKeyIff(j.prefixed);
      assert Job(j.n, j.prefixed) in jobs;
    }
    ContainedSweep(c, Initial(jobs, c), acts);
  }

  // ---------- exactly when the feed lists stay ----------

  ghost predicate SomeSweepChangesFeeds(s: State) {
    exists acts :: Run(s, acts) && Exec(s, acts).cache.feeds != s.cache.feeds
  }

  /** A step that leaves the cache alone. */
  lemma QuietStep(s: State, a: Action)
    requires |s.tasks| == |s.jobs| && Enabled(s, a) && !a.Write? && SomeSweepChangesFeeds(Next(s, a))
    ensures SomeSweepChangesFeeds(s)
  {
    var acts :| Run(Next(s, a), acts) && Exec(Next(s, a), acts).cache.feeds != s.cache.feeds;
    assert ([a] + acts)[1..] == acts;
    assert Run(s, [a] + acts) && Exec(s, [a] + acts) == Exec(Next(s, a), acts);
  }

  lemma OneStepRun(s: State, a: Action)
    requires |s.tasks| == |s.jobs| && Enabled(s, a)
    ensures Run(s, [a]) && Exec(s, [a]) == Next(s, a)
  {
    assert [a][1..] == [];
    assert Run(Next(s, a), []) && Exec(Next(s, a), []) == Next(s, a);
  }

  /** Goroutine `i` goes first, and its fetch succeeds: it registers its key. */
  lemma WaitingRegisters(s: State, i: nat)
    requires |s.tasks| == |s.jobs| && i < |s.tasks| && s.tasks[i].Waiting? && s.semaphore < LIMIT
    requires WrittenKey(s.jobs[i].prefixed) !in FeedsOf(s.cache, s.jobs[i].n)
    ensures SomeSweepChangesFeeds(s)
  {
    var p := PriceInfo(0, 0);
    var t := Next(s, Acquire(i));
    var u := Next(t, Fetch(i, Some(p)));
    WriteKeepsFeedsIff(u.cache, u.jobs[i].n, WrittenKey(u.jobs[i].prefixed), p);
    OneStepRun(u, Write(i));
    QuietStep(t, Fetch(i, Some(p)));
    QuietStep(s, Acquire(i));
  }

  lemma {:induction false} SpawnedRegisters(s: State, i: nat)
    requires |s.tasks| == |s.jobs| && s.spawned <= i < |s.tasks| && s.semaphore < LIMIT
    requires WrittenKey(s.jobs[i].prefixed) !in FeedsOf(s.cache, s.jobs[i].n)
    ensures SomeSweepChangesFeeds(s)
    decreases i - s.spawned
  {
    var t := Next(s, Spawn);
    if s.spawned == i {
      WaitingRegisters(t, i);
    } else {
      SpawnedRegisters(t, i);
    }
    QuietStep(s, Spawn);
  }

  /** Every sweep leaves the feed lists as they are if and only if every planned feed is written under a
      registered key. */
  lemma SweepKeepsFeedsIff(c: Cache, jobs: seq<Job>)
    ensures !SomeSweepChangesFeeds(Initial(jobs, c)) <==> Contained(c, jobs)
  {
    if Contained(c, jobs) {
      forall acts | Run(Initial(jobs, c), acts) ensures Exec(Initial(jobs, c), acts).cache.feeds == c.feeds {
        ContainedSweep(c, Initial(jobs, c), acts);
      }
    } else {
      var j :| j in jobs && WrittenKey(j.prefixed) !in FeedsOf(c, j.n);
      var i :| 0 <= i < |jobs| && jobs[i] == j;
      SpawnedRegisters(Initial(jobs, c), i);
    }
  }

  /** A cache whose only feed is a Pyth feed of a network with a client is not left alone: some sweep
      registers a Chainlink feed under the Pyth feed's whole name. */
  lemma PythFeedIsTakenForChainlink(c: Cache, n: nat)
    requires FeedsOf(c, n) == ["pyth:x"]
    ensures WrittenKey("pyth:x") == "chainlink:pyth:x" && !Contained(c, [Job(n, "pyth:x")])
    ensures SomeSweepChangesFeeds(Initial([Job(n, "pyth:x")], c))
  {
    assert "pyth:x"[0] != (SOURCE_CHAINLINK + ":")[0];
    assert FeedAddress("pyth:x") == "pyth:x";
    assert "pyth:x"[0] != "chainlink:pyth:x"[0];
    assert WrittenKey("pyth:x") == "chainlink:pyth:x";
    assert Job(n, "pyth:x") in [Job(n, "pyth:x")];
    SpawnedRegisters(Initial([Job(n, "pyth:x")], c), 0);
  }
}
