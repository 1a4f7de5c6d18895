/** Which endpoint the parallel scan of one network chooses (rpcscan/rpcswitcher.go): the fastest of those
    whose result came before their timeout, read off what happened in the run. */
module ScanOutcome {
  import opened Wrappers
  import opened EndpointSelection

  function If(b: bool): nat {
    if b then 1 else 0
  }

  /** The result of endpoint `i` is `latency`, and its goroutine took it and not the timeout. */
  ghost predicate InTime(acts: seq<Action>, i: nat, latency: nat) {
    Pick(i) in acts && Deliver(i, latency) in acts
  }

  // ---------- what one goroutine does in a run ----------

  lemma StepOfTask(s: State, a: Action, i: nat)
    requires Shaped(s) && Enabled(s, a) && i < |s.tasks|
    ensures var t := Next(s, a);
            && Shaped(t) && t.endpoints == s.endpoints
            && If(!t.tasks[i].Selecting?) == If(!s.tasks[i].Selecting?) + If(a == Pick(i)) + If(a == TimeOut(i))
            && (!s.tasks[i].Selecting? ==> !t.tasks[i].Selecting? && t.tasks[i].p == s.tasks[i].p)
            && (a == Pick(i) ==>
                  s.probes[i].Some? && t.tasks[i] == Sending(Probe(s.endpoints[i], s.probes[i].value)))
            && (a == TimeOut(i) ==> t.tasks[i] == Sending(Probe(s.endpoints[i], 0)))
  {
  }

  lemma StepOfProbe(s: State, a: Action, i: nat)
    requires Shaped(s) && Enabled(s, a) && i < |s.probes|
    ensures Shaped(Next(s, a)) && |Next(s, a).probes| == |s.probes|
    ensures if a.Deliver? && a.i == i then s.probes[i].None? && Next(s, a).probes[i] == Some(a.latency)
            else Next(s, a).probes[i] == s.probes[i]
  {
  }

  lemma CountFirst(acts: seq<Action>, a: Action)
    requires acts != []
    ensures multiset(acts)[a] == If(acts[0] == a) + multiset(acts[1..])[a]
  {
    assert acts == [acts[0]] + acts[1..];
  }

  /** A goroutine leaves its select once, by one of its two cases. */
  lemma {:induction false} SelectsOnce(s: State, acts: seq<Action>, i: nat)
    requires Shaped(s) && Run(s, acts) && i < |s.tasks|
    ensures var t := Exec(s, acts);
            && Shaped(t) && t.endpoints == s.endpoints
            && If(!t.tasks[i].Selecting?)
               == If(!s.tasks[i].Selecting?) + multiset(acts)[Pick(i)] + multiset(acts)[TimeOut(i)]
            && (!s.tasks[i].Selecting? ==> t.tasks[i].p == s.tasks[i].p)
    decreases |acts|
  {
    if acts != [] {
      StepOfTask(s, acts[0], i);
      SelectsOnce(Next(s, acts[0]), acts[1..], i);
      CountFirst(acts, Pick(i));
      CountFirst(acts, TimeOut(i));
    }
  }

  /** A result is delivered once. */
  lemma {:induction false} DeliversOnce(s: State, acts: seq<Action>, i: nat)
    requires Shaped(s) && Run(s, acts) && i < |s.probes|
    ensures var t := Exec(s, acts);
            && |t.probes| == |s.probes|
            && (s.probes[i].Some? ==> t.probes[i] == s.probes[i])
            && (s.probes[i].None? && t.probes[i].Some? ==> Deliver(i, t.probes[i].value) in acts)
            && forall l: nat :: Deliver(i, l) in acts ==> s.probes[i].None? && t.probes[i] == Some(l)
    decreases |acts|
  {
    if acts != [] {
      StepOfProbe(s, acts[0], i);
      DeliversOnce(Next(s, acts[0]), acts[1..], i);
      assert forall a :: a in acts <==> a == acts[0] || a in acts[1..];
    }
  }

  /** What it then sends is the delivered result, or a latency of 0. */
  lemma {:induction false} SendsWhatItSelected(s: State, acts: seq<Action>, i: nat)
    requires Shaped(s) && Run(s, acts) && i < |s.tasks| && s.tasks[i].Selecting?
    ensures var t := Exec(s, acts);
            && Shaped(t) && |t.tasks| == |s.tasks|
            && (Pick(i) in acts ==>
                  !t.tasks[i].Selecting? && t.probes[i].Some?
                  && t.tasks[i].p == Probe(s.endpoints[i], t.probes[i].value))
            && (TimeOut(i) in acts ==> !t.tasks[i].Selecting? && t.tasks[i].p == Probe(s.endpoints[i], 0))
    decreases |acts|
  {
    if acts != [] {
      var a, r := acts[0], Next(s, acts[0]);
      StepOfTask(s, a, i);
      SelectsOnce(r, acts[1..], i);
      if a == Pick(i) || a == TimeOut(i) {
        DeliversOnce(r, acts[1..], i);
        assert Pick(i) !in multiset(acts[1..]) && TimeOut(i) !in multiset(acts[1..]);
      } else {
        SendsWhatItSelected(r, acts[1..], i);
      }
    }
  }

  // ---------- what the collector chooses ----------

  /** When the collector is done, every endpoint's goroutine has taken its result or its timeout, one of
      them and once, and what it contributed is that result, or a latency of 0. */
  lemma PickedOrTimedOut(endpoints: seq<string>, acts: seq<Action>, i: nat)
    requires Run(Initial(endpoints), acts) && Exec(Initial(endpoints), acts).ended && i < |endpoints|
    ensures multiset(acts)[Pick(i)] + multiset(acts)[TimeOut(i)] == 1
    ensures var s := Exec(Initial(endpoints), acts);
            && i < |s.tasks| && s.tasks[i].Gone?
            && (Pick(i) in acts ==> exists l :: InTime(acts, i, l))
            && (forall l: nat :: InTime(acts, i, l) ==> s.tasks[i].p == Probe(endpoints[i], l))
            && (TimeOut(i) in acts ==> s.tasks[i].p == Probe(endpoints[i], 0))
  {
    var s, t := Initial(endpoints), Exec(Initial(endpoints), acts);
    CollectorIsRight(endpoints, acts);
    SelectsOnce(s, acts, i);
    assert t.tasks[i] in t.tasks;
    DeliversOnce(s, acts, i);
    SendsWhatItSelected(s, acts, i);
    if Pick(i) in acts {
      assert InTime(acts, i, t.probes[i].value);
    }
  }

  /** `l` is the latency of an endpoint that answered in time, and none that did has a lower one; 0 is no
      answer. */
  ghost predicate Fastest(endpoints: seq<string>, acts: seq<Action>, i: nat, l: nat) {
    && i < |endpoints| && InTime(acts, i, l) && 0 < l
    && forall k: nat, m: nat :: k < |endpoints| && InTime(acts, k, m) && m > 0 ==> l <= m
  }

  /** `b` is the fastest endpoint that answered in time and within the greatest duration, or none did. */
  ghost predicate IsFastest(b: Best, endpoints: seq<string>, acts: seq<Action>) {
    if exists i: nat, l: nat :: i < |endpoints| && InTime(acts, i, l) && 0 < l < 0x7fff_ffff_ffff_ffff then
      exists i: nat, l: nat :: Fastest(endpoints, acts, i, l) && b == Best(endpoints[i], l)
    else b == NONE_YET
  }

  ghost predicate Finished(endpoints: seq<string>, acts: seq<Action>) {
    Run(Initial(endpoints), acts) && Exec(Initial(endpoints), acts).ended
  }

  ghost function Contributed(endpoints: seq<string>, acts: seq<Action>): multiset<Probe>
    requires Finished(endpoints, acts)
  {
    CollectorIsRight(endpoints, acts);
    multiset(Outcomes(Exec(Initial(endpoints), acts).tasks))
  }

  lemma ContributedInTime(endpoints: seq<string>, acts: seq<Action>, p: Probe) returns (i: nat, l: nat)
    requires Finished(endpoints, acts) && p.latency > 0 && p in Contributed(endpoints, acts)
    ensures i < |endpoints| && InTime(acts, i, l) && p == Probe(endpoints[i], l)
  {
    var s := Exec(Initial(endpoints), acts);
    CollectorIsRight(endpoints, acts);
    assert p in Outcomes(s.tasks);
    i :| i < |s.tasks| && s.tasks[i].p == p;
    PickedOrTimedOut(endpoints, acts, i);
    assert Pick(i) in multiset(acts) || TimeOut(i) in multiset(acts);
    l :| InTime(acts, i, l);
  }

  lemma InTimeIsContributed(endpoints: seq<string>, acts: seq<Action>, i: nat, l: nat)
    requires Finished(endpoints, acts) && i < |endpoints| && InTime(acts, i, l)
    ensures Probe(endpoints[i], l) in Contributed(endpoints, acts)
  {
    PickedOrTimedOut(endpoints, acts, i);
    CollectorIsRight(endpoints, acts);
    var s := Exec(Initial(endpoints), acts);
    assert Outcomes(s.tasks)[i] == Probe(endpoints[i], l);
  }

  lemma BestIsFastest(endpoints: seq<string>, acts: seq<Action>, b: Best) returns (i: nat, l: nat)
    requires Finished(endpoints, acts) && IsBest(b, Contributed(endpoints, acts)) && b != NONE_YET
    ensures Fastest(endpoints, acts, i, l) && b == Best(endpoints[i], l)
  {
    var ps := Contributed(endpoints, acts);
    i, l := ContributedInTime(endpoints, acts, Probe(b.endpoint, b.latency));
    forall k: nat, m: nat | k < |endpoints| && InTime(acts, k, m) && m > 0
      ensures l <= m
    {
      InTimeIsContributed(endpoints, acts, k, m);
      assert Probe(endpoints[k], m) in ps;
      NotSlower(b, ps, Probe(endpoints[k], m));
    }
  }

  lemma NotSlower(b: Best, ps: multiset<Probe>, p: Probe)
    requires IsBest(b, ps) && b != NONE_YET && p in ps && p.latency > 0
    ensures b.latency <= p.latency
  {
    var q :| q in ps && Usable(q);
  }

  lemma NoneUsable(ps: multiset<Probe>, p: Probe)
    requires IsBest(NONE_YET, ps) && p in ps
    ensures !Usable(p)
  {
  }

  /** However probes, timeouts, the closer and the collector interleave: the collector chooses the fastest
      endpoint among those whose result came in time. */
  lemma CollectorPicksFastest(endpoints: seq<string>, acts: seq<Action>)
    requires Run(Initial(endpoints), acts) && Exec(Initial(endpoints), acts).ended
    ensures IsFastest(Exec(Initial(endpoints), acts).best, endpoints, acts)
  {
    var b, ps := Exec(Initial(endpoints), acts).best, Contributed(endpoints, acts);
    CollectorIsRight(endpoints, acts);
    if b == NONE_YET {
      forall i: nat, l: nat | i < |endpoints| && InTime(acts, i, l)
        ensures !(0 < l < MAX_LATENCY)
      {
        InTimeIsContributed(endpoints, acts, i, l);
        NoneUsable(ps, Probe(endpoints[i], l));
      }
    } else {
      var i, l := BestIsFastest(endpoints, acts, b);
      var q :| q in ps && Usable(q);
      assert b.latency <= q.latency;
      assert i < |endpoints| && InTime(acts, i, l) && 0 < l < MAX_LATENCY;
    }
  }

  // ---------- every outcome is possible ----------

  ghost predicate Leads(s: State, acts: seq<Action>, t: State) {
    Shaped(s) && Run(s, acts) && Exec(s, acts) == t
  }

  lemma {:induction false} Joins(s: State, a: seq<Action>, t: State, b: seq<Action>, u: State)
    requires Leads(s, a, t) && Leads(t, b, u)
    ensures Leads(s, a + b, u)
    decreases |a|
  {
    if a == [] {
      assert a + b == b;
    } else {
      assert (a + b)[1..] == a[1..] + b;
      Joins(Next(s, a[0]), a[1..], t, b, u);
    }
  }

  lemma OneStep(s: State, a: Action)
    requires Shaped(s) && Enabled(s, a)
    ensures Leads(s, [a], Next(s, a))
  {
    assert [a][1..] == [];
  }

  /** What an endpoint contributes when its probe gives `answer` in time, or nothing in time. */
  function ResultOf(endpoint: string, answer: Option<nat>): Probe {
    Probe(endpoint, if answer.Some? then answer.value else 0)
  }

  function Results(endpoints: seq<string>, answers: seq<Option<nat>>): (ps: seq<Probe>)
    requires |answers| == |endpoints|
    ensures |ps| == |endpoints| && forall i :: 0 <= i < |ps| ==> ps[i] == ResultOf(endpoints[i], answers[i])
  {
    seq(|endpoints|, i requires 0 <= i < |endpoints| => ResultOf(endpoints[i], answers[i]))
  }

  /** The first `k` goroutines have ended, the others have not begun. */
  function Served(endpoints: seq<string>, answers: seq<Option<nat>>, k: nat): State
    requires |answers| == |endpoints| && k <= |endpoints|
  {
    var n, ps := |endpoints|, Results(endpoints, answers);
    State(endpoints,
          seq(n, i requires 0 <= i < n => if i < k then answers[i] else None),
          seq(n, i requires 0 <= i < n => if i < k then Gone(ps[i]) else Selecting),
          n - k, ps[..k], 0, [], NONE_YET, false)
  }

  /** One goroutine from its beginning to its end. */
  function Service(i: nat, answer: Option<nat>): seq<Action> {
    (if answer.Some? then [Deliver(i, answer.value)] + [Pick(i)] else [TimeOut(i)]) + [Send(i)] + [SignOff(i)]
  }

  lemma AnswerLeads(s: State, i: nat, answer: Option<nat>)
    requires Shaped(s) && i < |s.tasks| && s.tasks[i].Selecting? && s.probes[i].None?
    ensures Leads(s, if answer.Some? then [Deliver(i, answer.value)] + [Pick(i)] else [TimeOut(i)],
                  s.(probes := s.probes[i := answer], tasks := s.tasks[i := Sending(ResultOf(s.endpoints[i], answer))]))
  {
    if answer.Some? {
      var t := Next(s, Deliver(i, answer.value));
      OneStep(s, Deliver(i, answer.value));
      OneStep(t, Pick(i));
      Joins(s, [Deliver(i, answer.value)], t, [Pick(i)], Next(t, Pick(i)));
    } else {
      assert s.probes[i := answer] == s.probes;
      OneStep(s, TimeOut(i));
    }
  }

  lemma SendLeads(s: State, i: nat, p: Probe)
    requires Shaped(s) && i < |s.tasks| && s.tasks[i] == Sending(p) && |s.buffer| < |s.endpoints|
    ensures Leads(s, [Send(i)] + [SignOff(i)],
                  s.(tasks := s.tasks[i := Gone(p)], pending := s.pending - 1, buffer := s.buffer + [p]))
  {
    var t := Next(s, Send(i));
    OneStep(s, Send(i));
    OneStep(t, SignOff(i));
    Joins(s, [Send(i)], t, [SignOff(i)], Next(t, SignOff(i)));
    assert s.tasks[i := Signing(p)][i := Gone(p)] == s.tasks[i := Gone(p)];
  }

  lemma ServiceLeads(endpoints: seq<string>, answers: seq<Option<nat>>, k: nat)
    requires |answers| == |endpoints| && k < |endpoints|
    ensures Leads(Served(endpoints, answers, k), Service(k, answers[k]), Served(endpoints, answers, k + 1))
  {
    var s, t := Served(endpoints, answers, k), Served(endpoints, answers, k + 1);
    var p := ResultOf(endpoints[k], answers[k]);
    var m := s.(probes := s.probes[k := answers[k]], tasks := s.tasks[k := Sending(p)]);
    var a := if answers[k].Some? then [Deliver(k, answers[k].value)] + [Pick(k)] else [TimeOut(k)];
    AnswerLeads(s, k, answers[k]);
    SendLeads(m, k, p);
    assert m.tasks[k := Gone(p)] == t.tasks && m.probes == t.probes;
    assert s.buffer + [p] == t.buffer;
    Joins(s, a, m, [Send(k)] + [SignOff(k)], t);
    assert a + ([Send(k)] + [SignOff(k)]) == Service(k, answers[k]);
  }

  /** Everybody has ended, the channel is closed, and the collector has received `k` results. */
  function Collected(endpoints: seq<string>, answers: seq<Option<nat>>, k: nat): State
    requires |answers| == |endpoints| && k <= |endpoints|
  {
    var ps := Results(endpoints, answers);
    Served(endpoints, answers, |endpoints|).(closes := 1, buffer := ps[k..], received := ps[..k], best := Fold(ps[..k]))
  }

  lemma ReceiveLeads(endpoints: seq<string>, answers: seq<Option<nat>>, k: nat)
    requires |answers| == |endpoints| && k < |endpoints|
    ensures Leads(Collected(endpoints, answers, k), [Receive], Collected(endpoints, answers, k + 1))
  {
    var ps := Results(endpoints, answers);
    assert ps[k..][1..] == ps[k + 1..] && ps[..k] + [ps[k]] == ps[..k + 1];
    assert ps[..k + 1][..k] == ps[..k];
    OneStep(Collected(endpoints, answers, k), Receive);
  }

  ghost predicate Follows(acts: seq<Action>, answers: seq<Option<nat>>, k: nat)
    requires k <= |answers|
  {
    forall i :: 0 <= i < k ==>
      if answers[i].Some? then InTime(acts, i, answers[i].value) else TimeOut(i) in acts
  }

  lemma {:induction false} ServiceOfAll(endpoints: seq<string>, answers: seq<Option<nat>>, k: nat)
    returns (acts: seq<Action>)
    requires |answers| == |endpoints| && k <= |endpoints|
    ensures Leads(Initial(endpoints), acts, Served(endpoints, answers, k)) && Follows(acts, answers, k)
  {
    var s := Initial(endpoints);
    if k == 0 {
      var t := Served(endpoints, answers, 0);
      assert s.probes == t.probes && s.tasks == t.tasks && s.buffer == t.buffer;
      acts := [];
    } else {
      var before := ServiceOfAll(endpoints, answers, k - 1);
      ServiceLeads(endpoints, answers, k - 1);
      Joins(s, before, Served(endpoints, answers, k - 1), Service(k - 1, answers[k - 1]),
            Served(endpoints, answers, k));
      acts := before + Service(k - 1, answers[k - 1]);
    }
  }

  lemma {:induction false} ReceivesAll(endpoints: seq<string>, answers: seq<Option<nat>>, k: nat)
    returns (acts: seq<Action>)
    requires |answers| == |endpoints| && k <= |endpoints|
    ensures Leads(Collected(endpoints, answers, 0), acts, Collected(endpoints, answers, k))
  {
    if k == 0 {
      acts := [];
    } else {
      var before := ReceivesAll(endpoints, answers, k - 1);
      ReceiveLeads(endpoints, answers, k - 1);
      Joins(Collected(endpoints, answers, 0), before, Collected(endpoints, answers, k - 1),
            [Receive], Collected(endpoints, answers, k));
      acts := before + [Receive];
    }
  }

  lemma CloseLeads(endpoints: seq<string>, answers: seq<Option<nat>>)
    requires |answers| == |endpoints|
    ensures Leads(Served(endpoints, answers, |endpoints|), [Close], Collected(endpoints, answers, 0))
  {
    var ps := Results(endpoints, answers);
    assert ps[..|endpoints|] == ps && ps[0..] == ps && ps[..0] == [];
    OneStep(Served(endpoints, answers, |endpoints|), Close);
  }

  /** Whichever endpoints answer in time, and with whatever latencies: some run goes so, to the end. */
  lemma EveryOutcomeHappens(endpoints: seq<string>, answers: seq<Option<nat>>) returns (acts: seq<Action>)
    requires |answers| == |endpoints|
    ensures Run(Initial(endpoints), acts) && Exec(Initial(endpoints), acts).ended
    ensures Follows(acts, answers, |answers|)
  {
    var n := |endpoints|;
    var s, t, u := Initial(endpoints), Served(endpoints, answers, n), Collected(endpoints, answers, 0);
    var v := Collected(endpoints, answers, n);
    var first := ServiceOfAll(endpoints, answers, n);
    CloseLeads(endpoints, answers);
    Joins(s, first, t, [Close], u);
    var second := ReceivesAll(endpoints, answers, n);
    Joins(s, first + [Close], u, second, v);
    OneStep(v, End);
    Joins(s, first + [Close] + second, v, [End], Next(v, End));
    acts := first + [Close] + second + [End];
  }
}
