/** Fetching one Chainlink price (chainlink/client.go) through the monitor's adapter
    (pricefeed/chainlink_monitor.go): on certain errors the RPC endpoint is switched and the call
    repeated with the new client. */
module ChainlinkFetch {
  import opened Wrappers
  import opened EndpointSelection
  import opened ClientTable

  // ---------- the errors that cause a switch ----------

  ghost predicate Contains(s: string, part: string) {
    exists i :: 0 <= i <= |s| && part <= s[i..]
  }

  method StringsContains(s: string, part: string) returns (found: bool)
    ensures found <==> Contains(s, part)
  {
    for i := 0 to |s| + 1
      invariant forall j :: 0 <= j < i ==> !(part <= s[j..])
    {
      if part <= s[i..] {
        return true;
      }
    }
    return false;
  }

  ghost predicate AsksForSwitch(message: string) {
    Contains(message, "32097") || Contains(message, "revert")
  }

  lemma ContainsMiddle(s: string, before: string, part: string, after: string)
    requires Contains(s, before + part + after)
    ensures Contains(s, part)
  {
    var whole := before + part + after;
    var i :| 0 <= i <= |s| && whole <= s[i..];
    assert part <= whole[|before|..] <= s[i..][|before|..] == s[i + |before|..];
  }

  lemma TwoTextsDecide(s: string)
    ensures Contains(s, "-32097") ==> Contains(s, "32097")
    ensures Contains(s, "execution reverted") ==> Contains(s, "revert")
  {
    if Contains(s, "-32097") {
      ContainsMiddle(s, "-", "32097", "");
    }
    if Contains(s, "execution reverted") {
      ContainsMiddle(s, "execution ", "revert", "ed");
    }
  }

  /** Two of the four texts looked for contain the others, so those two decide. */
  method IsErrorCode32097(message: Option<string>) returns (yes: bool)
    ensures yes <==> message.Some? && AsksForSwitch(message.value)
  {
    if message.None? {
      return false;
    }
    var code := StringsContains(message.value, "-32097");
    var number := StringsContains(message.value, "32097");
    var reverted := StringsContains(message.value, "execution reverted");
    var revert := StringsContains(message.value, "revert");
    TwoTextsDecide(message.value);
    yes := code || number || reverted || revert;
  }

  // ---------- one fetch ----------

  type Uint8 = n: nat | n < 256

  /** What LatestRoundData returns. */
  datatype Reading = Reading(roundID: int, answer: int, startedAt: int, updatedAt: int, answeredInRound: int)

  /** What the contract calls of one attempt give. */
  datatype Round =
    | Unbound                  // the contract could not be bound
    | Failed(message: string)  // LatestRoundData returned an error
    | Answered(reading: Reading, decimals: Option<Uint8>)

  datatype Options = Options(
    networkID: nat,
    feedAddress: string,
    client: Option<Client>,
    switcher: bool,
    maxRetries: int
  )

  /** types.ChainlinkPrice, without the time at which it was made. */
  datatype Price = Price(
    roundID: int,
    answer: int,
    exponent: int,
    startedAt: int,
    updatedAt: int,
    answeredInRound: int,
    networkID: nat,
    feedAddress: string
  )

  /** What happens outside, attempt by attempt: the contract calls, the probes and the dial of a
      switch, what other goroutines do to the client table before and after it, and the clients that
      they hand to the monitor before the attempt. */
  datatype World = World(
    round: nat -> Round,
    latency: nat -> nat -> int,
    dialled: nat -> bool,
    before: nat -> seq<Event>,
    meanwhile: nat -> seq<Event>,
    handed: nat -> Table
  )

  datatype Call = RoundData(used: Client) | Switched(ok: bool) | Got(client: Option<Client>)

  /** The result, both client tables afterwards, and the calls made in order. */
  datatype Outcome = Outcome(result: Result<Price>, table: Table, monitor: Table, calls: seq<Call>)

  function PriceOf(o: Options, r: Round): Price
    requires r.Answered?
  {
    var data, decimals := r.reading, if r.decimals.Some? then r.decimals.value else 8;
    Price(data.roundID, data.answer, -decimals, data.startedAt, data.updatedAt, data.answeredInRound,
          o.networkID, o.feedAddress)
  }

  function Effective(maxRetries: int): int {
    if maxRetries == 0 then 1 else maxRetries
  }

  const BINDING_ERROR := "failed to create aggregator contract"
  const ROUND_DATA_ERROR := "failed to get latest round data"

  /** The client table when attempt `k` switches, and after that switch. */
  ghost function SwitchAt(networks: seq<Network>, networkID: nat, table: Table, w: World, k: nat): Option<Table> {
    AfterSwitch(networks, AfterAll(networks, table, w.before(k)), networkID, w.latency(k), w.dialled(k))
  }

  /** The client table when attempt `k` looks up its new client. */
  ghost function LookupAt(networks: seq<Network>, networkID: nat, table: Table, w: World, k: nat): Table
    requires SwitchAt(networks, networkID, table, w, k).Some?
  {
    AfterAll(networks, SwitchAt(networks, networkID, table, w, k).value, w.meanwhile(k))
  }

  /** The monitor's own client map when attempt `k` begins. */
  function Handed(monitor: Table, w: World, k: nat): Table {
    monitor + w.handed(k)
  }

  /** The attempts from number `attempt` on. */
  ghost function Attempts(o: Options, attempt: nat, networks: seq<Network>, table: Table, monitor: Table, w: World)
    : Outcome
    requires o.client.Some?
    decreases o.maxRetries + 1 - attempt
  {
    var m, called := Handed(monitor, w, attempt), [RoundData(o.client.value)];
    match w.round(attempt)
    case Unbound => Outcome(Err(BINDING_ERROR), table, m, [])
    case Answered(_, _) => Outcome(Ok(PriceOf(o, w.round(attempt))), table, m, called)
    case Failed(message) =>
      if !AsksForSwitch(message) || !o.switcher || attempt > o.maxRetries then
        Outcome(Err(ROUND_DATA_ERROR), table, m, called)
      else
        if SwitchAt(networks, o.networkID, table, w, attempt).None? then
          Outcome(Err(ROUND_DATA_ERROR), AfterAll(networks, table, w.before(attempt)), m,
                  called + [Switched(false)])
        else
        var u := LookupAt(networks, o.networkID, table, w, attempt);
        if o.networkID !in u then
          Outcome(Err(ROUND_DATA_ERROR), u, m, called + [Switched(true), Got(None)])
        else
          var c := u[o.networkID];
          var rest := Attempts(o.(client := Some(c)), attempt + 1, networks, u, m[o.networkID := c], w);
          rest.(calls := called + [Switched(true), Got(Some(c))] + rest.calls)
  }

  ghost function Fetch(o: Options, networks: seq<Network>, table: Table, monitor: Table, w: World): Outcome {
    if o.client.None? then Outcome(Err("client cannot be nil"), table, monitor, [])
    else if o.feedAddress == "" then Outcome(Err("feed address cannot be empty"), table, monitor, [])
    else Attempts(o.(maxRetries := Effective(o.maxRetries)), 1, networks, table, monitor, w)
  }

  ghost function MonitorFetch(networkID: nat, feedAddress: string, configured: bool, networks: seq<Network>,
                              table: Table, monitor: Table, w: World): Outcome {
    if networkID !in monitor then Outcome(Err("no client available for network"), table, monitor, [])
    else Fetch(Options(networkID, feedAddress, Some(monitor[networkID]), configured, 1), networks, table, monitor, w)
  }

  // ---------- the code ----------

  class CLPriceMonitor {
    var clients: Table

    constructor ()
      ensures clients == map[]
    {
      clients := map[];
    }

    method UpdateClient(networkID: nat, client: Client)
      modifies this`clients
      ensures clients == old(clients)[networkID := client]
    {
      clients := clients[networkID := client];
    }

    /** Other goroutines' calls of UpdateClient. */
    method UpdatedByOthers(handed: Table)
      modifies this`clients
      ensures clients == old(clients) + handed
    {
      var todo := handed.Keys;
      while todo != {}
        invariant todo <= handed.Keys && clients == old(clients) + (handed - todo)
      {
        var id :| id in todo;
        UpdateClient(id, handed[id]);
        todo := todo - {id};
      }
    }

    /** The adapter's GetBestClient also hands the client to the monitor. */
    method AdapterGetBestClient(config: NetworkConfiguration, networkID: nat) returns (client: Option<Client>)
      modifies this`clients
      ensures client == if networkID in config.clientUse then Some(config.clientUse[networkID]) else None
      ensures clients == if client.Some? then old(clients)[networkID := client.value] else old(clients)
    {
      client := config.GetBestClient(networkID);
      if client.Some? {
        UpdateClient(networkID, client.value);
      }
    }

    method FetchPriceDataWithRetry(o: Options, attempt: nat, config: NetworkConfiguration, w: World)
      returns (result: Result<Price>, ghost calls: seq<Call>)
      requires o.client.Some?
      modifies this`clients, config`clientUse
      ensures Outcome(result, config.clientUse, clients, calls)
           == Attempts(o, attempt, config.networks, old(config.clientUse), old(clients), w)
      decreases o.maxRetries + 1 - attempt
    {
      calls := [];
      UpdatedByOthers(w.handed(attempt));
      if w.round(attempt).Unbound? {
        return Err(BINDING_ERROR), [];
      }
      calls := [RoundData(o.client.value)];
      if w.round(attempt).Failed? {
        var matches := IsErrorCode32097(Some(w.round(attempt).message));
        if matches && o.switcher && attempt <= o.maxRetries {
          Elsewhere(config, w.before(attempt));
          var ok := config.SwitchRPCEndpointImmediately(o.networkID, w.latency(attempt), w.dialled(attempt));
          calls := calls + [Switched(ok)];
          if !ok {
            return Err(ROUND_DATA_ERROR), calls;
          }
          Elsewhere(config, w.meanwhile(attempt));
          var client := AdapterGetBestClient(config, o.networkID);
          calls := calls + [Got(client)];
          assert calls == [RoundData(o.client.value)] + [Switched(true), Got(client)];
          if client.None? {
            return Err(ROUND_DATA_ERROR), calls;
          }
          ghost var more;
          result, more := FetchPriceDataWithRetry(o.(client := client), attempt + 1, config, w);
          calls := calls + more;
          return result, calls;
        }
        return Err(ROUND_DATA_ERROR), calls;
      }
      result := Ok(PriceOf(o, w.round(attempt)));
    }

    method FetchPriceData(o: Options, config: NetworkConfiguration, w: World)
      returns (result: Result<Price>, ghost calls: seq<Call>)
      modifies this`clients, config`clientUse
      ensures Outcome(result, config.clientUse, clients, calls)
           == Fetch(o, config.networks, old(config.clientUse), old(clients), w)
    {
      if o.client.None? {
        return Err("client cannot be nil"), [];
      }
      if o.feedAddress == "" {
        return Err("feed address cannot be empty"), [];
      }
      var opts := o;
      if opts.maxRetries == 0 {
        opts := opts.(maxRetries := 1);
      }
      result, calls := FetchPriceDataWithRetry(opts, 1, config, w);
    }

    /** The monitor's own fetchPriceData; `configured` says whether it was given the network configuration. */
    method FetchForFeed(networkID: nat, feedAddress: string, configured: bool, config: NetworkConfiguration, w: World)
      returns (result: Result<Price>, ghost calls: seq<Call>)
      modifies this`clients, config`clientUse
      ensures Outcome(result, config.clientUse, clients, calls)
           == MonitorFetch(networkID, feedAddress, configured, config.networks, old(config.clientUse), old(clients), w)
    {
      if networkID !in clients {
        return Err("no client available for network"), [];
      }
      var o := Options(networkID, feedAddress, Some(clients[networkID]), configured, 1);
      result, calls := FetchPriceData(o, config, w);
    }
  }

  /** What other goroutines do to the client table while a fetch is elsewhere. */
  method Elsewhere(config: NetworkConfiguration, events: seq<Event>)
    modifies config`clientUse
    ensures config.clientUse == AfterAll(config.networks, old(config.clientUse), events)
  {
    for i := 0 to |events|
      invariant config.clientUse == AfterAll(config.networks, old(config.clientUse), events[..i])
    {
      assert events[..i + 1][..i] == events[..i];
      config.clientUse := After(config.networks, config.clientUse, events[i]);
    }
    assert events[..|events|] == events;
  }

  // ---------- what a fetch does ----------

  /** The configuration names no empty endpoint. */
  predicate NamedEndpoints(networks: seq<Network>) {
    forall n <- networks, e <- n.endpoints :: e != ""
  }

  /** An immediate switch during attempt `k` would succeed; this does not depend on the client table. */
  ghost predicate CanSwitch(networks: seq<Network>, networkID: nat, w: World, k: nat) {
    && w.dialled(k) && Target(networks, networkID).Some?
    && exists i :: 0 <= i < |networks[Target(networks, networkID).value].endpoints| && 0 < w.latency(k)(i) < MAX_LATENCY
  }

  /** Attempt `k` is followed by another one. */
  ghost predicate Retried(o: Options, networks: seq<Network>, w: World, k: nat) {
    && w.round(k).Failed? && AsksForSwitch(w.round(k).message)
    && o.switcher && k <= o.maxRetries && CanSwitch(networks, o.networkID, w, k)
  }

  ghost function RoundCalls(calls: seq<Call>): nat {
    if calls == [] then 0 else RoundCalls(calls[1..]) + if calls[0].RoundData? then 1 else 0
  }

  lemma {:induction false} RoundCallsConcat(a: seq<Call>, b: seq<Call>)
    ensures RoundCalls(a + b) == RoundCalls(a) + RoundCalls(b)
  {
    if a == [] {
      assert a + b == b;
    } else {
      assert (a + b)[1..] == a[1..] + b;
      RoundCallsConcat(a[1..], b);
    }
  }

  /** After a switch that succeeded, the client is there, whatever others did in between: the branch
      for a missing client is never taken. */
  lemma SwitchLeavesAClient(o: Options, networks: seq<Network>, table: Table, w: World, k: nat)
    requires WellFormed(networks, table) && NamedEndpoints(networks)
    ensures SwitchAt(networks, o.networkID, table, w, k).Some? <==> CanSwitch(networks, o.networkID, w, k)
    ensures SwitchAt(networks, o.networkID, table, w, k).Some? ==>
              o.networkID in LookupAt(networks, o.networkID, table, w, k)
    ensures KeepsTable(networks, table, AfterAll(networks, table, w.before(k)))
    ensures CanSwitch(networks, o.networkID, w, k) ==>
              KeepsTable(networks, table, LookupAt(networks, o.networkID, table, w, k))
  {
    EveryRun(networks, table, w.before(k));
    var t := AfterAll(networks, table, w.before(k));
    SwitchSucceedsIff(networks, t, o.networkID, w.latency(k), w.dialled(k));
    if SwitchAt(networks, o.networkID, table, w, k).Some? {
      SwitchedIsConfigured(networks, t, o.networkID, w.latency(k), w.dialled(k));
      EveryRun(networks, SwitchAt(networks, o.networkID, table, w, k).value, w.meanwhile(k));
    }
  }

  ghost predicate KeepsTable(networks: seq<Network>, table: Table, later: Table) {
    WellFormed(networks, later) && table.Keys <= later.Keys
  }

  /** How the calls of a fetch follow each other: the first round-data call uses the given client, and
      each later one comes right after a switch that succeeded and a lookup that gave its client. */
  ghost predicate Chained(calls: seq<Call>, client: Client, networks: seq<Network>, networkID: nat) {
    calls == [] || (
      && calls[0] == RoundData(client)
      && (|calls| == 1 || calls[1..] == [Switched(false)] || (
            && |calls| >= 3 && calls[1] == Switched(true) && calls[2].Got? && calls[2].client.Some?
            && var c := calls[2].client.value;
               c.networkID == networkID && Configured(networks, networkID, c.endpoint)
               && Chained(calls[3..], c, networks, networkID))))
  }

  /** Attempt `attempt` is retried: the outcome is the outcome of the rest, after three calls. */
  lemma OneMore(o: Options, attempt: nat, networks: seq<Network>, table: Table, monitor: Table, w: World)
    returns (c: Client, u: Table)
    requires o.client.Some? && WellFormed(networks, table) && NamedEndpoints(networks)
    requires Retried(o, networks, w, attempt)
    ensures KeepsTable(networks, table, u) && o.networkID in u && c == u[o.networkID]
    ensures Attempts(o, attempt, networks, table, monitor, w) == Prepended(o.client.value, c,
              Attempts(o.(client := Some(c)), attempt + 1, networks, u,
                       Handed(monitor, w, attempt)[o.networkID := c], w))
  {
    SwitchLeavesAClient(o, networks, table, w, attempt);
    u := LookupAt(networks, o.networkID, table, w, attempt);
    c := u[o.networkID];
    var m := Handed(monitor, w, attempt)[o.networkID := c];
    var rest := Attempts(o.(client := Some(c)), attempt + 1, networks, u, m, w).calls;
    assert [RoundData(o.client.value)] + [Switched(true), Got(Some(c))] + rest
        == [RoundData(o.client.value), Switched(true), Got(Some(c))] + rest;
  }

  ghost function Prepended(client: Client, c: Client, rest: Outcome): Outcome {
    rest.(calls := [RoundData(client), Switched(true), Got(Some(c))] + rest.calls)
  }

  /** The number of the last attempt. */
  ghost function LastAttempt(o: Options, attempt: nat, networks: seq<Network>, w: World): (k: nat)
    ensures attempt <= k && !Retried(o, networks, w, k)
    ensures forall i :: attempt <= i < k ==> Retried(o, networks, w, i)
    ensures k == attempt || k <= o.maxRetries + 1
    decreases o.maxRetries + 1 - attempt
  {
    if Retried(o, networks, w, attempt) then LastAttempt(o, attempt + 1, networks, w) else attempt
  }

  lemma {:induction false} SameLastAttempt(o: Options, p: Options, attempt: nat, networks: seq<Network>, w: World)
    requires p == o.(client := p.client)
    ensures LastAttempt(o, attempt, networks, w) == LastAttempt(p, attempt, networks, w)
    decreases o.maxRetries + 1 - attempt
  {
    if Retried(o, networks, w, attempt) {
      assert Retried(p, networks, w, attempt);
      SameLastAttempt(o, p, attempt + 1, networks, w);
    } else {
      assert !Retried(p, networks, w, attempt);
    }
  }

  /** The price carries the round, the answer and the times that were read, the network and feed asked for,
      and minus the decimals, 8 of them if they could not be read. */
  ghost predicate IsPrice(p: Price, o: Options, r: Round)
    requires r.Answered?
  {
    && p.answer == r.reading.answer && p.roundID == r.reading.roundID
    && p.startedAt == r.reading.startedAt && p.updatedAt == r.reading.updatedAt
    && p.answeredInRound == r.reading.answeredInRound
    && p.networkID == o.networkID && p.feedAddress == o.feedAddress
    && (r.decimals.Some? ==> p.exponent + r.decimals.value == 0) && (r.decimals.None? ==> p.exponent == -8)
  }

  /** What a fetch returns when the last attempt gave `r`. */
  ghost predicate IsResult(result: Result<Price>, o: Options, r: Round) {
    && (r.Unbound? ==> result == Err("failed to create aggregator contract"))
    && (r.Failed? ==> result == Err("failed to get latest round data"))
    && (r.Answered? ==> result.Ok? && IsPrice(result.value, o, r))
  }

  /** The outcome of an attempt that is not retried. */
  ghost predicate Final(o: Options, r: Round, networks: seq<Network>, table: Table, monitor: Table, out: Outcome)
    requires o.client.Some?
  {
    && IsResult(out.result, o, r)
    && out.monitor == monitor && KeepsTable(networks, table, out.table)
    && if r.Unbound? then out.calls == []
       else out.calls == [RoundData(o.client.value)]
            || (r.Failed? && out.calls == [RoundData(o.client.value), Switched(false)])
  }

  lemma LastOne(o: Options, attempt: nat, networks: seq<Network>, table: Table, monitor: Table, w: World)
    requires o.client.Some? && WellFormed(networks, table) && NamedEndpoints(networks)
    requires !Retried(o, networks, w, attempt)
    ensures Final(o, w.round(attempt), networks, table, Handed(monitor, w, attempt),
                  Attempts(o, attempt, networks, table, monitor, w))
  {
    SwitchLeavesAClient(o, networks, table, w, attempt);
  }

  /** Exactly the attempts from `attempt` to `k` are made, and `k` decides. */
  ghost predicate Exact(o: Options, attempt: nat, k: nat, w: World, out: Outcome) {
    && RoundCalls(out.calls) == k - attempt + (if w.round(k).Unbound? then 0 else 1)
    && IsResult(out.result, o, w.round(k))
  }

  lemma FinalIsExact(o: Options, k: nat, networks: seq<Network>, table: Table, monitor: Table, w: World, out: Outcome)
    requires o.client.Some? && Final(o, w.round(k), networks, table, monitor, out)
    ensures Exact(o, k, k, w, out)
  {
    if out.calls != [] {
      assert out.calls[1..] == [] || out.calls[1..] == [Switched(false)];
      assert RoundCalls([Switched(false)]) == 0;
    }
  }

  lemma PrependedIsExact(o: Options, c: Client, attempt: nat, k: nat, w: World, rest: Outcome)
    requires o.client.Some? && Exact(o.(client := Some(c)), attempt + 1, k, w, rest)
    ensures Exact(o, attempt, k, w, Prepended(o.client.value, c, rest))
  {
    var three := [RoundData(o.client.value), Switched(true), Got(Some(c))];
    assert three[1..] == [Switched(true), Got(Some(c))] && three[1..][1..] == [Got(Some(c))];
    assert RoundCalls([Got(Some(c))]) == 0;
    RoundCallsConcat(three, rest.calls);
  }

  lemma {:induction false} AttemptsAreExact(o: Options, attempt: nat, networks: seq<Network>, table: Table,
                                            monitor: Table, w: World)
    requires o.client.Some? && WellFormed(networks, table) && NamedEndpoints(networks)
    ensures Exact(o, attempt, LastAttempt(o, attempt, networks, w), w,
                  Attempts(o, attempt, networks, table, monitor, w))
    decreases o.maxRetries + 1 - attempt
  {
    if Retried(o, networks, w, attempt) {
      var c, u := OneMore(o, attempt, networks, table, monitor, w);
      var p, m := o.(client := Some(c)), Handed(monitor, w, attempt)[o.networkID := c];
      var k := LastAttempt(p, attempt + 1, networks, w);
      AttemptsAreExact(p, attempt + 1, networks, u, m, w);
      SameLastAttempt(o, p, attempt + 1, networks, w);
      PrependedIsExact(o, c, attempt, k, w, Attempts(p, attempt + 1, networks, u, m, w));
    } else {
      LastOne(o, attempt, networks, table, monitor, w);
      FinalIsExact(o, attempt, networks, table, Handed(monitor, w, attempt), w,
                   Attempts(o, attempt, networks, table, monitor, w));
    }
  }

  /** No other goroutine hands the monitor a client of this network. */
  ghost predicate LeftAlone(w: World, id: nat) {
    forall k: nat :: id !in w.handed(k)
  }

  /** The calls are chained; both tables only grow and, if others hand over only clients of the right
      network and a configured endpoint, stay well-formed; networks that others leave alone keep their
      monitor clients; and after a success the monitor holds the client that answered, unless others
      have replaced it. */
  ghost predicate Orderly(o: Options, networks: seq<Network>, table: Table, monitor: Table, w: World, out: Outcome)
    requires o.client.Some?
  {
    && Chained(out.calls, o.client.value, networks, o.networkID)
    && KeepsTable(networks, table, out.table) && monitor.Keys <= out.monitor.Keys
    && KeepsMonitor(o, networks, monitor, w, out)
  }

  ghost predicate KeepsMonitor(o: Options, networks: seq<Network>, monitor: Table, w: World, out: Outcome)
    requires o.client.Some? && monitor.Keys <= out.monitor.Keys
  {
    && (WellFormed(networks, monitor) && (forall k: nat :: WellFormed(networks, w.handed(k))) ==>
          WellFormed(networks, out.monitor))
    && (forall id <- monitor :: id != o.networkID && LeftAlone(w, id) ==> out.monitor[id] == monitor[id])
    && (out.result.Ok? && LeftAlone(w, o.networkID) && o.networkID in monitor
        && monitor[o.networkID] == o.client.value ==>
          out.calls != [] && out.calls[|out.calls| - 1] == RoundData(out.monitor[o.networkID]))
  }

  lemma PrependedIsChained(client: Client, c: Client, rest: seq<Call>, networks: seq<Network>, networkID: nat)
    requires Chained(rest, c, networks, networkID)
    requires c.networkID == networkID && Configured(networks, networkID, c.endpoint)
    ensures Chained([RoundData(client), Switched(true), Got(Some(c))] + rest, client, networks, networkID)
  {
    assert ([RoundData(client), Switched(true), Got(Some(c))] + rest)[3..] == rest;
  }

  lemma PrependedKeepsMonitor(o: Options, c: Client, k: nat, networks: seq<Network>, monitor: Table, w: World,
                              rest: Outcome)
    requires o.client.Some? && c.networkID == o.networkID && Configured(networks, o.networkID, c.endpoint)
    requires var m := Handed(monitor, w, k)[o.networkID := c];
             m.Keys <= rest.monitor.Keys && KeepsMonitor(o.(client := Some(c)), networks, m, w, rest)
    ensures KeepsMonitor(o, networks, monitor, w, Prepended(o.client.value, c, rest))
  {
    var m, out := Handed(monitor, w, k)[o.networkID := c], Prepended(o.client.value, c, rest);
    assert rest.calls != [] ==> out.calls[|out.calls| - 1] == rest.calls[|rest.calls| - 1];
    if WellFormed(networks, monitor) && forall i: nat :: WellFormed(networks, w.handed(i)) {
      assert WellFormed(networks, w.handed(k));
      assert WellFormed(networks, m);
    }
    forall id | id in monitor && id != o.networkID && LeftAlone(w, id) ensures rest.monitor[id] == monitor[id] {
      assert id !in w.handed(k) && id in m;
    }
  }

  lemma PrependedIsOrderly(o: Options, c: Client, k: nat, networks: seq<Network>, table: Table, u: Table,
                           monitor: Table, w: World, rest: Outcome)
    requires o.client.Some? && KeepsTable(networks, table, u) && o.networkID in u && c == u[o.networkID]
    requires Orderly(o.(client := Some(c)), networks, u, Handed(monitor, w, k)[o.networkID := c], w, rest)
    ensures Orderly(o, networks, table, monitor, w, Prepended(o.client.value, c, rest))
  {
    PrependedIsChained(o.client.value, c, rest.calls, networks, o.networkID);
    PrependedKeepsMonitor(o, c, k, networks, monitor, w, rest);
  }

  lemma {:induction false} AttemptsAreOrderly(o: Options, attempt: nat, networks: seq<Network>, table: Table,
                                              monitor: Table, w: World)
    requires o.client.Some? && WellFormed(networks, table) && NamedEndpoints(networks)
    ensures Orderly(o, networks, table, monitor, w, Attempts(o, attempt, networks, table, monitor, w))
    decreases o.maxRetries + 1 - attempt
  {
    if Retried(o, networks, w, attempt) {
      var c, u := OneMore(o, attempt, networks, table, monitor, w);
      var p, m := o.(client := Some(c)), Handed(monitor, w, attempt)[o.networkID := c];
      AttemptsAreOrderly(p, attempt + 1, networks, u, m, w);
      PrependedIsOrderly(o, c, attempt, networks, table, u, monitor, w, Attempts(p, attempt + 1, networks, u, m, w));
    } else {
      LastOne(o, attempt, networks, table, monitor, w);
      FinalIsOrderly(o, attempt, networks, table, monitor, w, Attempts(o, attempt, networks, table, monitor, w));
    }
  }

  lemma FinalIsOrderly(o: Options, k: nat, networks: seq<Network>, table: Table, monitor: Table, w: World, out: Outcome)
    requires o.client.Some? && Final(o, w.round(k), networks, table, Handed(monitor, w, k), out)
    ensures Orderly(o, networks, table, monitor, w, out)
  {
    if |out.calls| == 2 {
      assert out.calls[1..] == [Switched(false)];
    }
    forall id | id in monitor && LeftAlone(w, id) ensures out.monitor[id] == monitor[id] {
      assert id !in w.handed(k);
    }
  }

  // ---------- main results ----------

  /** A fetch with a client and a feed calls for round data exactly until the first attempt that is not
      retried, at most 1 + max(0, MaxRetries) times with 0 read as 1; that attempt decides what is returned:
      the price that was read, or which error. */
  lemma FetchIsExact(o: Options, networks: seq<Network>, table: Table, monitor: Table, w: World)
    requires o.client.Some? && o.feedAddress != ""
    requires WellFormed(networks, table) && NamedEndpoints(networks)
    ensures var out := Fetch(o, networks, table, monitor, w);
            var p := o.(maxRetries := if o.maxRetries == 0 then 1 else o.maxRetries);
            var k := LastAttempt(p, 1, networks, w);
            && RoundCalls(out.calls) == (if w.round(k).Unbound? then k - 1 else k)
            && RoundCalls(out.calls) <= 1 + (if p.maxRetries > 0 then p.maxRetries else 0)
            && IsResult(out.result, o, w.round(k))
            && (out.result.Ok? ==> -255 <= out.result.value.exponent <= 0)
  {
    var p := o.(maxRetries := Effective(o.maxRetries));
    AttemptsAreExact(p, 1, networks, table, monitor, w);
    ResultIgnoresRetries(o, p, Fetch(o, networks, table, monitor, w).result, w.round(LastAttempt(p, 1, networks, w)));
  }

  lemma ResultIgnoresRetries(o: Options, p: Options, result: Result<Price>, r: Round)
    requires p == o.(maxRetries := p.maxRetries) && IsResult(result, p, r)
    ensures IsResult(result, o, r) && (result.Ok? ==> -255 <= result.value.exponent <= 0)
  {
  }

  /** Without a client or a feed it returns an error, calls nothing and changes nothing. */
  lemma FetchRefuses(o: Options, networks: seq<Network>, table: Table, monitor: Table, w: World)
    requires o.client.None? || o.feedAddress == ""
    ensures var out := Fetch(o, networks, table, monitor, w);
            && out.result == Err(if o.client.None? then "client cannot be nil" else "feed address cannot be empty")
            && out.table == table && out.monitor == monitor && out.calls == []
  {
  }

  /** The monitor's fetch for a feed: nothing is called without a client of the network; otherwise the first
      call uses that client, and there is at most one retry, none without a network configuration. */
  lemma MonitorFetches(networkID: nat, feedAddress: string, configured: bool, networks: seq<Network>, table: Table,
                       monitor: Table, w: World)
    requires WellFormed(networks, table) && NamedEndpoints(networks) && feedAddress != ""
    ensures var out := MonitorFetch(networkID, feedAddress, configured, networks, table, monitor, w);
            if networkID !in monitor then out.result.Err? && out.calls == [] && out.monitor == monitor
            else
              && (out.calls != [] ==> out.calls[0] == RoundData(monitor[networkID]))
              && RoundCalls(out.calls) <= (if configured then 2 else 1)
  {
    if networkID in monitor {
      var o := Options(networkID, feedAddress, Some(monitor[networkID]), configured, 1);
      FetchIsExact(o, networks, table, monitor, w);
      FetchIsOrderly(o, networks, table, monitor, w);
    }
  }

  /** Between two round-data calls there is one switch, which succeeded, and one lookup, which gave the
      second call its client, of the right network and with an endpoint configured for it; the monitor's
      map holds what the fetch and the other goroutines have handed it. */
  lemma FetchIsOrderly(o: Options, networks: seq<Network>, table: Table, monitor: Table, w: World)
    requires o.client.Some? && o.feedAddress != ""
    requires WellFormed(networks, table) && NamedEndpoints(networks)
    ensures Orderly(o, networks, table, monitor, w, Fetch(o, networks, table, monitor, w))
  {
    AttemptsAreOrderly(o.(maxRetries := Effective(o.maxRetries)), 1, networks, table, monitor, w);
  }
}
