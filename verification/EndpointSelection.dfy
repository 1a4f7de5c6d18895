/** Choosing the fastest endpoint of a network (rpcscan/rpcswitcher.go): the minimum over probe
    results, and the goroutines that probe all endpoints at once under a timeout. */
module EndpointSelection {
  import opened Wrappers
  import opened Sums

  /** A probe result; latency 0 stands for failure or timeout. */
  datatype Probe = Probe(endpoint: string, latency: int)

  datatype Best = Best(endpoint: string, latency: int)

  /** time.Duration(1<<63 - 1) */
  const MAX_LATENCY := 0x7fff_ffff_ffff_ffff

  const NONE_YET := Best("", MAX_LATENCY)

  function Better(b: Best, p: Probe): Best {
    if 0 < p.latency < b.latency then Best(p.endpoint, p.latency) else b
  }

  /** The loop over results, in the order they arrive. */
  function Fold(ps: seq<Probe>): Best {
    if ps == [] then NONE_YET else Better(Fold(ps[..|ps| - 1]), ps[|ps| - 1])
  }

  predicate Usable(p: Probe) {
    0 < p.latency < MAX_LATENCY
  }

  /** `b` is a usable probe of minimal latency, or there is none. */
  ghost predicate IsBest(b: Best, ps: multiset<Probe>) {
    if exists p :: p in ps && Usable(p) then
      Probe(b.endpoint, b.latency) in ps && 0 < b.latency && forall p <- ps :: Usable(p) ==> b.latency <= p.latency
    else b == NONE_YET
  }

  lemma BetterIsBest(b: Best, ps: multiset<Probe>, p: Probe)
    requires IsBest(b, ps) && (b == NONE_YET || Usable(Probe(b.endpoint, b.latency)))
    ensures var c := Better(b, p);
            IsBest(c, ps + multiset{p}) && (c == NONE_YET || Usable(Probe(c.endpoint, c.latency)))
  {
  }

  lemma {:induction false} FoldIsBest(ps: seq<Probe>)
    ensures IsBest(Fold(ps), multiset(ps))
    ensures Fold(ps) == NONE_YET || Usable(Probe(Fold(ps).endpoint, Fold(ps).latency))
  {
    if ps != [] {
      var n := |ps| - 1;
      FoldIsBest(ps[..n]);
      assert ps == ps[..n] + [ps[n]];
      BetterIsBest(Fold(ps[..n]), multiset(ps[..n]), ps[n]);
    }
  }

  /** Of several fastest results, `b` is the one that came first. */
  ghost predicate CameFirst(b: Best, ps: seq<Probe>, k: nat) {
    && k < |ps| && ps[k] == Probe(b.endpoint, b.latency)
    && forall j :: 0 <= j < k && Usable(ps[j]) ==> b.latency < ps[j].latency
  }

  lemma {:induction false} FoldCameFirst(ps: seq<Probe>)
    ensures Fold(ps) == NONE_YET || exists k :: CameFirst(Fold(ps), ps, k)
  {
    if ps != [] {
      var most, p := ps[..|ps| - 1], ps[|ps| - 1];
      FoldCameFirst(most);
      FoldIsBest(most);
      if Fold(ps) == Fold(most) {
        if k :| CameFirst(Fold(most), most, k) {
          assert CameFirst(Fold(ps), ps, k);
        }
      } else {
        forall j | 0 <= j < |most| && Usable(ps[j])
          ensures p.latency < ps[j].latency
        {
          assert most[j] in multiset(most);
        }
        assert CameFirst(Fold(ps), ps, |most|);
      }
    }
  }

  /** With equal results, the choice has the same latency whatever the order of arrival, and is the
      same endpoint when only one has that latency. */
  lemma OrderDoesNotMatter(ps: seq<Probe>, qs: seq<Probe>)
    requires multiset(ps) == multiset(qs)
    ensures Fold(ps).latency == Fold(qs).latency
    ensures (forall p, q :: p in ps && q in ps && Usable(p) && p.latency == q.latency ==> p.endpoint == q.endpoint)
            ==> Fold(ps) == Fold(qs)
  {
    FoldIsBest(ps);
    FoldIsBest(qs);
    var p, q := Probe(Fold(ps).endpoint, Fold(ps).latency), Probe(Fold(qs).endpoint, Fold(qs).latency);
    assert forall r :: r in ps <==> r in multiset(ps);
    assert forall r :: r in qs <==> r in multiset(qs);
    assert Fold(ps) == NONE_YET <==> Fold(qs) == NONE_YET;
  }

  function Selected(ps: seq<Probe>): Option<string> {
    if Fold(ps).endpoint == "" then None else Some(Fold(ps).endpoint)
  }

  /** If no endpoint has an empty name, one is selected exactly when some probe is usable. */
  lemma SelectsIfUsable(ps: seq<Probe>)
    requires forall p <- ps :: p.endpoint != ""
    ensures Selected(ps).Some? <==> exists p :: p in ps && Usable(p)
    ensures Selected(ps).Some? ==> exists p :: p in ps && Usable(p) && p.endpoint == Selected(ps).value
                                              && forall q <- ps :: Usable(q) ==> p.latency <= q.latency
  {
    FoldIsBest(ps);
    assert forall r :: r in ps <==> r in multiset(ps);
    if Fold(ps) != NONE_YET {
      assert Probe(Fold(ps).endpoint, Fold(ps).latency) in ps;
    }
  }

  /** The sequential scan of one network's endpoints. */
  method ScanEndpoints(endpoints: seq<string>, latency: nat -> int) returns (best: Best)
    ensures best == Fold(Probed(endpoints, latency))
  {
    var bestEndpoint, lowestLatency := "", MAX_LATENCY;
    for i := 0 to |endpoints|
      invariant Best(bestEndpoint, lowestLatency) == Fold(Probed(endpoints, latency)[..i])
    {
      var l := latency(i);
      assert Probed(endpoints, latency)[..i + 1][..i] == Probed(endpoints, latency)[..i];
      if l > 0 && l < lowestLatency {
        lowestLatency := l;
        bestEndpoint := endpoints[i];
      }
    }
    assert Probed(endpoints, latency)[..|endpoints|] == Probed(endpoints, latency);
    best := Best(bestEndpoint, lowestLatency);
  }

  function Probed(endpoints: seq<string>, latency: nat -> int): (ps: seq<Probe>)
    ensures |ps| == |endpoints| && forall i :: 0 <= i < |ps| ==> ps[i] == Probe(endpoints[i], latency(i))
  {
    seq(|endpoints|, i requires 0 <= i < |endpoints| => Probe(endpoints[i], latency(i)))
  }

  // ---------- all endpoints at once ----------

  /** The goroutine of one endpoint: waiting for its probe or the timeout, about to send, about to sign
      off the wait group, gone. */
  datatype Task = Selecting | Sending(p: Probe) | Signing(p: Probe) | Gone(p: Probe)

  datatype State = State(
    endpoints: seq<string>,
    probes: seq<Option<nat>>,  // what each inner goroutine has put into its result channel
    tasks: seq<Task>,
    pending: int,              // the wait group
    buffer: seq<Probe>,        // the latency channel, with room for every endpoint
    closes: nat,
    received: seq<Probe>,
    best: Best,
    ended: bool
  )

  datatype Action =
    | Deliver(i: nat, latency: nat)  // the inner goroutine's send
    | Pick(i: nat)                   // select takes the result
    | TimeOut(i: nat)                // select takes ctx.Done
    | Send(i: nat)
    | SignOff(i: nat)
    | Close
    | Receive
    | End

  function Initial(endpoints: seq<string>): State {
    var n := |endpoints|;
    State(endpoints, seq(n, _ => None), seq(n, _ => Selecting), n, [], 0, [], NONE_YET, false)
  }

  predicate Shaped(s: State) {
    |s.endpoints| == |s.probes| == |s.tasks|
  }

  predicate Enabled(s: State, a: Action)
    requires |s.endpoints| == |s.probes| == |s.tasks|
  {
    match a
    case Deliver(i, _) => i < |s.probes| && s.probes[i].None?
    case Pick(i) => i < |s.tasks| && s.tasks[i].Selecting? && s.probes[i].Some?
    case TimeOut(i) => i < |s.tasks| && s.tasks[i].Selecting?
    case Send(i) => i < |s.tasks| && s.tasks[i].Sending? && |s.buffer| < |s.endpoints|
    case SignOff(i) => i < |s.tasks| && s.tasks[i].Signing?
    case Close => s.pending == 0 && s.closes == 0
    case Receive => s.buffer != [] && !s.ended
    case End => s.buffer == [] && s.closes > 0 && !s.ended
  }

  function Put(s: State, i: nat, t: Task): State
    requires i < |s.tasks|
  {
    s.(tasks := s.tasks[i := t])
  }

  function Next(s: State, a: Action): State
    requires |s.endpoints| == |s.probes| == |s.tasks| && Enabled(s, a)
  {
    match a
    case Deliver(i, latency) => s.(probes := s.probes[i := Some(latency)])
    case Pick(i) => Put(s, i, Sending(Probe(s.endpoints[i], s.probes[i].value)))
    case TimeOut(i) => Put(s, i, Sending(Probe(s.endpoints[i], 0)))
    case Send(i) => Put(s, i, Signing(s.tasks[i].p)).(buffer := s.buffer + [s.tasks[i].p])
    case SignOff(i) => Put(s, i, Gone(s.tasks[i].p)).(pending := s.pending - 1)
    case Close => s.(closes := s.closes + 1)
    case Receive =>
      s.(buffer := s.buffer[1..], received := s.received + [s.buffer[0]], best := Better(s.best, s.buffer[0]))
    case End => s.(ended := true)
  }

  // ---------- invariant ----------

  ghost function Contribution(t: Task): multiset<Probe> {
    if t.Signing? || t.Gone? then multiset{t.p} else multiset{}
  }

  ghost function Contributions(ts: seq<Task>): multiset<Probe> {
    if ts == [] then multiset{} else Contributions(ts[..|ts| - 1]) + Contribution(ts[|ts| - 1])
  }

  lemma {:induction false} ContributionsUpdate(ts: seq<Task>, i: nat, t: Task)
    requires i < |ts| && Contribution(ts[i]) == multiset{}
    ensures Contributions(ts[i := t]) == Contributions(ts) + Contribution(t)
  {
    var n := |ts| - 1;
    if i < n {
      assert ts[i := t][..n] == ts[..n][i := t];
      ContributionsUpdate(ts[..n], i, t);
    } else {
      assert ts[i := t][..n] == ts[..n];
    }
  }

  lemma {:induction false} ContributionsSame(ts: seq<Task>, i: nat, t: Task)
    requires i < |ts| && Contribution(ts[i]) == Contribution(t)
    ensures Contributions(ts[i := t]) == Contributions(ts)
  {
    var n := |ts| - 1;
    if i < n {
      assert ts[i := t][..n] == ts[..n][i := t];
      ContributionsSame(ts[..n], i, t);
    } else {
      assert ts[i := t][..n] == ts[..n];
    }
  }

  /** There are never more contributions than endpoints, and fewer while one has not been sent. */
  lemma {:induction false} ContributionsCount(ts: seq<Task>)
    ensures |Contributions(ts)| <= |ts|
    ensures (exists i :: 0 <= i < |ts| && Contribution(ts[i]) == multiset{}) ==> |Contributions(ts)| < |ts|
  {
    if ts != [] {
      ContributionsCount(ts[..|ts| - 1]);
      if i :| 0 <= i < |ts| && Contribution(ts[i]) == multiset{} {
        assert i < |ts| - 1 ==> ts[..|ts| - 1][i] == ts[i];
      }
    }
  }

  ghost function Running(t: Task): int {
    if t.Gone? then 0 else 1
  }

  /** A contribution is the endpoint's delivered result, or its timeout. */
  ghost predicate Honest(endpoint: string, probe: Option<nat>, t: Task) {
    t.Selecting? || t.p == Probe(endpoint, 0) || (probe.Some? && t.p == Probe(endpoint, probe.value))
  }

  ghost predicate Inv(s: State) {
    && Shaped(s)
    && (forall i :: 0 <= i < |s.tasks| ==> Honest(s.endpoints[i], s.probes[i], s.tasks[i]))
    && multiset(s.received) + multiset(s.buffer) == Contributions(s.tasks)
    && s.best == Fold(s.received)
    && s.pending == Sum(s.tasks, Running)
    && s.closes <= 1 && (s.closes > 0 ==> s.pending == 0)
    && (s.ended ==> s.buffer == [] && s.closes > 0)
  }

  lemma {:induction false} AllSelecting(n: nat)
    ensures var ts := seq<Task>(n, _ => Selecting); Sum(ts, Running) == n && Contributions(ts) == multiset{}
  {
    if n > 0 {
      AllSelecting(n - 1);
      assert seq<Task>(n, _ => Selecting)[..n - 1] == seq<Task>(n - 1, _ => Selecting);
    }
  }

  /** A task moves on without contributing. */
  lemma TaskMoves(ts: seq<Task>, i: nat, t: Task)
    requires i < |ts| && Contribution(ts[i]) == Contribution(t) && !ts[i].Gone?
    ensures Sum(ts[i := t], Running) == Sum(ts, Running) - (if t.Gone? then 1 else 0)
    ensures Sum(ts, Running) > 0 && Contributions(ts[i := t]) == Contributions(ts)
  {
    ContributionsSame(ts, i, t);
    SumUpdate(ts, i, t, Running);
    SumAtLeast(ts, Running, i);
  }

  lemma MoveKeepsInv(s: State, r: State, i: nat, t: Task)
    requires Inv(s) && i < |s.tasks| && Contribution(s.tasks[i]) == Contribution(t) && !s.tasks[i].Gone?
    requires Honest(s.endpoints[i], s.probes[i], t)
    requires r == s.(tasks := s.tasks[i := t], pending := s.pending - if t.Gone? then 1 else 0)
    ensures Inv(r)
  {
    TaskMoves(s.tasks, i, t);
  }

  lemma TaskKeepsInv(s: State, a: Action)
    requires Inv(s) && Enabled(s, a) && (a.Pick? || a.TimeOut? || a.SignOff?)
    ensures Inv(Next(s, a))
  {
    if a.SignOff? {
      SignOffKeepsInv(s, a.i);
    } else {
      var t := Next(s, a).tasks[a.i];
      assert Honest(s.endpoints[a.i], s.probes[a.i], t);
      MoveKeepsInv(s, Next(s, a), a.i, t);
    }
  }

  lemma SignOffKeepsInv(s: State, i: nat)
    requires Inv(s) && Enabled(s, SignOff(i))
    ensures Inv(Next(s, SignOff(i)))
  {
    MoveKeepsInv(s, Next(s, SignOff(i)), i, Gone(s.tasks[i].p));
  }

  lemma SendKeepsInv(s: State, i: nat)
    requires Inv(s) && Enabled(s, Send(i))
    ensures s.closes == 0 && Inv(Next(s, Send(i)))
  {
    var p := s.tasks[i].p;
    ContributionsUpdate(s.tasks, i, Signing(p));
    assert multiset(s.buffer + [p]) == multiset(s.buffer) + multiset{p};
    SumUpdate(s.tasks, i, Signing(p), Running);
    SumAtLeast(s.tasks, Running, i);
  }

  lemma ChannelKeepsInv(s: State, a: Action)
    requires Inv(s) && Enabled(s, a) && (a.Deliver? || a.Close? || a.Receive? || a.End?)
    ensures Inv(Next(s, a))
  {
    if a.Receive? {
      var p := s.buffer[0];
      assert s.buffer == [p] + s.buffer[1..];
      assert (s.received + [p])[..|s.received|] == s.received;
      assert multiset(s.received + [p]) + multiset(s.buffer[1..]) == multiset(s.received) + multiset(s.buffer);
    }
  }

  lemma StepKeepsInv(s: State, a: Action)
    requires Inv(s) && Enabled(s, a)
    ensures Inv(Next(s, a))
  {
    match a
    case Send(i) => SendKeepsInv(s, i);
    case Pick(_) | TimeOut(_) | SignOff(_) => TaskKeepsInv(s, a);
    case _ => ChannelKeepsInv(s, a);
  }

  predicate Run(s: State, acts: seq<Action>)
    decreases |acts|
  {
    acts == [] || (Shaped(s) && Enabled(s, acts[0]) && Run(Next(s, acts[0]), acts[1..]))
  }

  function Exec(s: State, acts: seq<Action>): State
    requires Run(s, acts)
    decreases |acts|
  {
    if acts == [] then s else Exec(Next(s, acts[0]), acts[1..])
  }

  // ---------- no blocking, bounded length ----------

  /** The channel has room for whoever wants to send, and nobody sends after it is closed. */
  lemma NeverBlocks(s: State, i: nat)
    requires Inv(s) && i < |s.tasks| && s.tasks[i].Sending?
    ensures Enabled(s, Send(i)) && s.closes == 0
  {
    ContributionsCount(s.tasks);
    assert Contribution(s.tasks[i]) == multiset{};
    assert |multiset(s.buffer)| == |s.buffer|;
    SumAtLeast(s.tasks, Running, i);
  }

  /** Until the collector has finished, some goroutine can go on. */
  lemma AlwaysProgress(s: State)
    requires Inv(s) && !s.ended
    ensures exists a :: Enabled(s, a)
  {
    if s.buffer != [] {
      assert Enabled(s, Receive);
    } else if s.closes > 0 {
      assert Enabled(s, End);
    } else if s.pending == 0 {
      assert Enabled(s, Close);
    } else {
      if forall i :: 0 <= i < |s.tasks| ==> s.tasks[i].Gone? {
        SumOfZeros(s.tasks, Running);
      }
      var i :| 0 <= i < |s.tasks| && !s.tasks[i].Gone?;
      match s.tasks[i]
      case Selecting => assert Enabled(s, TimeOut(i));
      case Sending(_) => NeverBlocks(s, i);
      case Signing(_) => assert Enabled(s, SignOff(i));
    }
  }

  ghost function Stage(t: Task): int {
    match t
    case Selecting => 0
    case Sending(_) => 1
    case Signing(_) => 2
    case Gone(_) => 3
  }

  ghost function Arrived(p: Option<nat>): int {
    if p.Some? then 1 else 0
  }

  ghost function Progress(s: State): int {
    Sum(s.tasks, Stage) + Sum(s.probes, Arrived) + |s.received| + s.closes + if s.ended then 1 else 0
  }

  lemma StepProgresses(s: State, a: Action)
    requires Shaped(s) && Enabled(s, a)
    ensures Progress(Next(s, a)) == Progress(s) + 1
  {
    match a
    case Deliver(i, latency) => SumUpdate(s.probes, i, Some(latency), Arrived);
    case Pick(i) => SumUpdate(s.tasks, i, Next(s, a).tasks[i], Stage);
    case TimeOut(i) => SumUpdate(s.tasks, i, Next(s, a).tasks[i], Stage);
    case Send(i) => SumUpdate(s.tasks, i, Next(s, a).tasks[i], Stage);
    case SignOff(i) => SumUpdate(s.tasks, i, Next(s, a).tasks[i], Stage);
    case Close | Receive | End =>
  }

  lemma {:induction false} RunKeepsInv(s: State, acts: seq<Action>)
    requires Inv(s) && Run(s, acts)
    ensures var t := Exec(s, acts);
            Inv(t) && t.endpoints == s.endpoints && Progress(t) == Progress(s) + |acts|
    decreases |acts|
  {
    if acts != [] {
      StepKeepsInv(s, acts[0]);
      StepProgresses(s, acts[0]);
      RunKeepsInv(Next(s, acts[0]), acts[1..]);
    }
  }

  lemma InitialInv(endpoints: seq<string>)
    ensures Inv(Initial(endpoints)) && Progress(Initial(endpoints)) == 0
  {
    AllSelecting(|endpoints|);
    SumOfZeros(Initial(endpoints).tasks, Stage);
    SumOfZeros(Initial(endpoints).probes, Arrived);
  }

  lemma {:induction false} SumAtMost<T>(ts: seq<T>, w: T -> int, bound: nat)
    requires forall t <- ts :: w(t) <= bound
    ensures Sum(ts, w) <= bound * |ts|
  {
    if ts != [] {
      SumAtMost(ts[..|ts| - 1], w, bound);
    }
  }

  // ---------- main results ----------

  /** What each endpoint's goroutine contributed. */
  ghost function Outcomes(ts: seq<Task>): (ps: seq<Probe>)
    requires forall t <- ts :: t.Gone?
    ensures |ps| == |ts| && forall i :: 0 <= i < |ts| ==> ps[i] == ts[i].p
  {
    seq(|ts|, i requires 0 <= i < |ts| => assert ts[i] in ts; ts[i].p)
  }

  lemma {:induction false} ContributionsOfGone(ts: seq<Task>)
    requires forall t <- ts :: t.Gone?
    ensures Contributions(ts) == multiset(Outcomes(ts))
  {
    if ts != [] {
      var n := |ts| - 1;
      ContributionsOfGone(ts[..n]);
      assert Outcomes(ts) == Outcomes(ts[..n]) + [ts[n].p];
    }
  }

  /** However probes, timeouts, the closer and the collector interleave: when the collector is done,
      it has received exactly one result per endpoint (the delivered latency or the timeout's 0), and
      its choice is a usable result of minimal latency, of several the one received first, or none if
      there is none. */
  lemma CollectorIsRight(endpoints: seq<string>, acts: seq<Action>)
    requires Run(Initial(endpoints), acts) && Exec(Initial(endpoints), acts).ended
    ensures var s := Exec(Initial(endpoints), acts);
            && s.closes == 1 && |s.tasks| == |s.probes| == |endpoints|
            && (forall t <- s.tasks :: t.Gone?)
            && multiset(s.received) == multiset(Outcomes(s.tasks))
            && (forall i :: 0 <= i < |endpoints| ==>
                  s.tasks[i].p == Probe(endpoints[i], 0)
                  || (s.probes[i].Some? && s.tasks[i].p == Probe(endpoints[i], s.probes[i].value)))
            && IsBest(s.best, multiset(Outcomes(s.tasks)))
            && (s.best == NONE_YET || exists k :: CameFirst(s.best, s.received, k))
  {
    InitialInv(endpoints);
    RunKeepsInv(Initial(endpoints), acts);
    var s := Exec(Initial(endpoints), acts);
    forall t | t in s.tasks ensures t.Gone? {
      var i :| 0 <= i < |s.tasks| && s.tasks[i] == t;
      SumAtLeast(s.tasks, Running, i);
    }
    ContributionsOfGone(s.tasks);
    FoldIsBest(s.received);
    FoldCameFirst(s.received);
    forall i | 0 <= i < |endpoints| ensures s.tasks[i].Gone? && Honest(s.endpoints[i], s.probes[i], s.tasks[i]) {
      assert s.tasks[i] in s.tasks;
    }
  }

  lemma ProgressIsBounded(s: State)
    requires Inv(s)
    ensures Progress(s) <= 5 * |s.endpoints| + 2
  {
    SumAtMost(s.tasks, Stage, 3);
    SumAtMost(s.probes, Arrived, 1);
    ContributionsCount(s.tasks);
    assert |multiset(s.received)| == |s.received| && |multiset(s.buffer)| == |s.buffer|;
  }

  /** Every run ends: each endpoint accounts for at most five steps. */
  lemma RunsAreShort(endpoints: seq<string>, acts: seq<Action>)
    requires Run(Initial(endpoints), acts)
    ensures |acts| <= 5 * |endpoints| + 2
    ensures var s := Exec(Initial(endpoints), acts); Shaped(s) && (!s.ended ==> exists a :: Enabled(s, a))
  {
    InitialInv(endpoints);
    RunKeepsInv(Initial(endpoints), acts);
    var s := Exec(Initial(endpoints), acts);
    ProgressIsBounded(s);
    if !s.ended {
      AlwaysProgress(s);
    }
  }
}
