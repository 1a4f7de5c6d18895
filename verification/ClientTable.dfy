/** The table of RPC clients in rpcscan/rpcswitcher.go: refreshed by the monitor, replaced at once by
    SwitchRPCEndpointImmediately, read by GetBestClient. */
module ClientTable {
  import opened Wrappers
  import opened Decimal
  import opened EndpointSelection
  import opened ScanOutcome

  datatype Network = Network(id: string, endpoints: seq<string>)

  /** A client remembers, for the model, the endpoint it was dialled to. */
  datatype Client = Client(networkID: nat, endpoint: string)

  type Table = map<nat, Client>

  /** Index of the first configured network with this number. */
  function Target(networks: seq<Network>, networkID: nat): (j: Option<nat>)
    ensures j.Some? ==> j.value < |networks| && ParseUint(networks[j.value].id) == Some(networkID)
    ensures j.Some? ==> forall i :: 0 <= i < j.value ==> ParseUint(networks[i].id) != Some(networkID)
    ensures j.None? ==> forall i :: 0 <= i < |networks| ==> ParseUint(networks[i].id) != Some(networkID)
  {
    if networks == [] then None
    else if ParseUint(networks[0].id) == Some(networkID) then Some(0)
    else match Target(networks[1..], networkID)
         case None => None
         case Some(i) => Some(i + 1)
  }

  /** A number that is configured as Go writes it is found. */
  lemma WrittenNumberIsFound(networks: seq<Network>, networkID: nat, j: nat)
    requires j < |networks| && networks[j].id == Format(networkID) && networkID <= MAX_UINT64
    ensures Target(networks, networkID).Some? && Target(networks, networkID).value <= j
    decreases j
  {
    ParseFormat(networkID);
    if j > 0 {
      WrittenNumberIsFound(networks[1..], networkID, j - 1);
    }
  }

  /** The table after an immediate switch; None when it fails. `latency` are the probe results,
      `dialled` says whether the chosen endpoint could be dialled. */
  function AfterSwitch(networks: seq<Network>, table: Table, networkID: nat, latency: nat -> int, dialled: bool)
    : Option<Table>
  {
    match Target(networks, networkID)
    case None => None
    case Some(j) =>
      match Selected(Probed(networks[j].endpoints, latency))
      case None => None
      case Some(endpoint) => if dialled then Some(table[networkID := Client(networkID, endpoint)]) else None
  }

  /** The table after the monitor has tried to connect to a best endpoint. */
  function AfterRefresh(table: Table, networkID: nat, endpoint: string, dialled: bool): Table {
    if dialled then table[networkID := Client(networkID, endpoint)] else table
  }

  class NetworkConfiguration {
    const networks: seq<Network>
    var clientUse: Table

    constructor (networks: seq<Network>)
      ensures this.networks == networks && clientUse == map[]
    {
      this.networks := networks;
      clientUse := map[];
    }

    method SwitchRPCEndpointImmediately(networkID: nat, latency: nat -> int, dialled: bool) returns (ok: bool)
      modifies this`clientUse
      ensures var after := AfterSwitch(networks, old(clientUse), networkID, latency, dialled);
              ok == after.Some? && clientUse == if ok then after.value else old(clientUse)
    {
      var i := 0;
      while i < |networks| && ParseUint(networks[i].id) != Some(networkID)
        invariant 0 <= i <= |networks|
        invariant Target(networks, networkID) == match Target(networks[i..], networkID)
                                                 case None => None
                                                 case Some(j) => Some(j + i)
      {
        i := i + 1;
      }
      if i == |networks| {
        return false;
      }
      var best := ScanEndpoints(networks[i].endpoints, latency);
      if best.endpoint == "" || !dialled {
        return false;
      }
      clientUse := clientUse[networkID := Client(networkID, best.endpoint)];
      ok := true;
    }

    /** One tick of the monitor: the best endpoints found, and which of them could be dialled. */
    method Refresh(bestEndpoints: map<nat, string>, dialled: nat -> bool)
      modifies this`clientUse
      ensures clientUse == old(clientUse) + map id | id in bestEndpoints && dialled(id) :: Client(id, bestEndpoints[id])
    {
      var todo := bestEndpoints.Keys;
      while todo != {}
        invariant todo <= bestEndpoints.Keys
        invariant clientUse == old(clientUse)
                  + map id | id in bestEndpoints && id !in todo && dialled(id) :: Client(id, bestEndpoints[id])
      {
        var id :| id in todo;
        if dialled(id) {
          clientUse := clientUse[id := Client(id, bestEndpoints[id])];
        }
        todo := todo - {id};
      }
    }

    method GetBestClient(networkID: nat) returns (client: Option<Client>)
      ensures client == if networkID in clientUse then Some(clientUse[networkID]) else None
    {
      if networkID !in clientUse {
        return None;
      }
      client := Some(clientUse[networkID]);
    }

    method GetAllClients() returns (clients: Table)
      ensures clients == clientUse
    {
      clients := map[];
      var todo := clientUse.Keys;
      while todo != {}
        invariant todo <= clientUse.Keys
        invariant clients == clientUse - todo
      {
        var id :| id in todo;
        clients := clients[id := clientUse[id]];
        todo := todo - {id};
      }
    }
  }

  // ---------- what the parallel scan reports ----------

  /** Networks store their choices in the order in which they finish; unreadable numbers store nothing. */
  function Reported(networks: seq<Network>, picks: seq<Option<string>>, order: seq<nat>): map<nat, string>
    requires |picks| == |networks| && forall j <- order :: j < |networks|
  {
    if order == [] then map[] else
    var most, j := order[..|order| - 1], order[|order| - 1];
    assert j in order && forall i <- most :: i in order;
    var report := Reported(networks, picks, most);
    match (ParseUint(networks[j].id), picks[j])
    case (Some(id), Some(endpoint)) => report[id := endpoint]
    case _ => report
  }

  ghost predicate PickOf(networks: seq<Network>, picks: seq<Option<string>>, j: nat, id: nat, endpoint: string)
    requires |picks| == |networks|
  {
    j < |networks| && ParseUint(networks[j].id) == Some(id) && picks[j] == Some(endpoint)
  }

  /** In whatever order they finish: a number is reported exactly if some network with that number
      made a choice, and what is reported is the choice of such a network. */
  lemma {:induction false} ReportIsAPick(networks: seq<Network>, picks: seq<Option<string>>, order: seq<nat>, id: nat)
    requires |picks| == |networks| && forall j <- order :: j < |networks|
    ensures id in Reported(networks, picks, order) <==> exists j, e :: j in order && PickOf(networks, picks, j, id, e)
    ensures id in Reported(networks, picks, order) ==>
              exists j :: j in order && PickOf(networks, picks, j, id, Reported(networks, picks, order)[id])
    decreases |order|
  {
    if order != [] {
      var most, j := order[..|order| - 1], order[|order| - 1];
      assert j in order && (forall i <- order :: i in most || i == j) && (forall i <- most :: i in order);
      ReportIsAPick(networks, picks, most, id);
      if PickOf(networks, picks, j, id, if picks[j].Some? then picks[j].value else "") {
        assert PickOf(networks, picks, j, id, Reported(networks, picks, order)[id]);
      }
    }
  }

  predicate PicksFor(networks: seq<Network>, picks: seq<Option<string>>, j: nat, id: nat)
    requires |picks| == |networks|
  {
    j < |networks| && ParseUint(networks[j].id) == Some(id) && picks[j].Some?
  }

  /** The `m`-th network to finish chose `endpoint` for this number, and none after it chose for it. */
  ghost predicate LastPick(networks: seq<Network>, picks: seq<Option<string>>, order: seq<nat>, m: nat, id: nat,
                           endpoint: string)
    requires |picks| == |networks|
  {
    && m < |order| && PickOf(networks, picks, order[m], id, endpoint)
    && forall n :: m < n < |order| ==> !PicksFor(networks, picks, order[n], id)
  }

  /** When several networks have the number, the last one to store its choice wins. */
  lemma {:induction false} ReportIsTheLastPick(networks: seq<Network>, picks: seq<Option<string>>, order: seq<nat>,
                                               id: nat)
    requires |picks| == |networks| && forall j <- order :: j < |networks|
    ensures id in Reported(networks, picks, order) ==>
              exists m :: LastPick(networks, picks, order, m, id, Reported(networks, picks, order)[id])
    decreases |order|
  {
    if order != [] && id in Reported(networks, picks, order) {
      var most, j := order[..|order| - 1], order[|order| - 1];
      assert j in order && forall i <- most :: i in order;
      if PicksFor(networks, picks, j, id) {
        assert LastPick(networks, picks, order, |most|, id, Reported(networks, picks, order)[id]);
      } else {
        ReportIsTheLastPick(networks, picks, most, id);
        var m :| LastPick(networks, picks, most, m, id, Reported(networks, picks, most)[id]);
        assert LastPick(networks, picks, order, m, id, Reported(networks, picks, most)[id]);
      }
    }
  }

  ghost predicate Configured(networks: seq<Network>, id: nat, endpoint: string) {
    exists j :: 0 <= j < |networks| && ParseUint(networks[j].id) == Some(id) && endpoint in networks[j].endpoints
  }

  /** What the collector of one network chooses is one of that network's endpoints. */
  lemma CollectorPicksAnEndpoint(endpoints: seq<string>, acts: seq<Action>)
    requires Run(Initial(endpoints), acts) && Exec(Initial(endpoints), acts).ended
    requires Exec(Initial(endpoints), acts).best.endpoint != ""
    ensures Exec(Initial(endpoints), acts).best.endpoint in endpoints
  {
    CollectorIsRight(endpoints, acts);
    var s := Exec(Initial(endpoints), acts);
    var p := Probe(s.best.endpoint, s.best.latency);
    assert p in Outcomes(s.tasks);
  }

  /** One parallel scan: the run of each network's probes, closer and collector, and the order in which
      the networks store their choices. */
  datatype Scan = Scan(runs: seq<seq<Action>>, order: seq<nat>)

  predicate IsScan(networks: seq<Network>, scan: Scan) {
    && |scan.runs| == |scan.order| == |networks|
    && (forall j <- scan.order :: j < |networks|) && (forall j :: 0 <= j < |networks| ==> j in scan.order)
    && forall j :: 0 <= j < |networks| ==>
         var s := Initial(networks[j].endpoints); Run(s, scan.runs[j]) && Exec(s, scan.runs[j]).ended
  }

  function PickOfRun(endpoints: seq<string>, acts: seq<Action>): Option<string>
    requires Run(Initial(endpoints), acts)
  {
    var best := Exec(Initial(endpoints), acts).best.endpoint;
    if best == "" then None else Some(best)
  }

  function Picks(networks: seq<Network>, scan: Scan): (picks: seq<Option<string>>)
    requires IsScan(networks, scan)
    ensures |picks| == |networks|
    ensures forall j :: 0 <= j < |picks| ==> picks[j] == PickOfRun(networks[j].endpoints, scan.runs[j])
  {
    seq(|networks|, j requires 0 <= j < |networks| => PickOfRun(networks[j].endpoints, scan.runs[j]))
  }

  function Report(networks: seq<Network>, scan: Scan): map<nat, string>
    requires IsScan(networks, scan)
  {
    Reported(networks, Picks(networks, scan), scan.order)
  }

  /** Whatever the interleaving of the probes and the order of the networks: what a scan reports under a
      number is an endpoint configured for that number, and a number is reported exactly if the collector
      of some network with that number has chosen an endpoint. */
  lemma ScanReportsConfigured(networks: seq<Network>, scan: Scan, id: nat)
    requires IsScan(networks, scan)
    ensures id in Report(networks, scan) ==> Configured(networks, id, Report(networks, scan)[id])
    ensures id in Report(networks, scan) <==>
              exists j :: 0 <= j < |networks| && ParseUint(networks[j].id) == Some(id) && Picks(networks, scan)[j].Some?
  {
    var picks, report := Picks(networks, scan), Report(networks, scan);
    ReportIsAPick(networks, picks, scan.order, id);
    if id in report {
      var j :| j in scan.order && PickOf(networks, picks, j, id, report[id]);
      CollectorPicksAnEndpoint(networks[j].endpoints, scan.runs[j]);
    }
    if j :| 0 <= j < |networks| && ParseUint(networks[j].id) == Some(id) && picks[j].Some? {
      assert j in scan.order && PickOf(networks, picks, j, id, picks[j].value);
    }
  }

  /** What a scan reports under a number is the fastest endpoint, of those that answered in time, of a
      network with that number. */
  lemma ScanReportsFastest(networks: seq<Network>, scan: Scan, id: nat)
    requires IsScan(networks, scan) && id in Report(networks, scan)
    ensures exists j: nat, i: nat, l: nat :: j < |networks| && ParseUint(networks[j].id) == Some(id)
              && Fastest(networks[j].endpoints, scan.runs[j], i, l) && l < MAX_LATENCY
              && Report(networks, scan)[id] == networks[j].endpoints[i]
  {
    var picks, report := Picks(networks, scan), Report(networks, scan);
    ReportIsAPick(networks, picks, scan.order, id);
    var j :| j in scan.order && PickOf(networks, picks, j, id, report[id]);
    var endpoints, acts := networks[j].endpoints, scan.runs[j];
    CollectorPicksFastest(endpoints, acts);
    var i: nat, l: nat :| Fastest(endpoints, acts, i, l)
                          && Exec(Initial(endpoints), acts).best == Best(endpoints[i], l);
  }

  // ---------- every run of ticks and switches ----------

  /** An immediate switch, or one step of a monitor tick: the client of one reported network is dialled
      and replaced. Switches may come between the steps of a tick. */
  datatype Event =
    | Switch(networkID: nat, latency: nat -> int, dialled: bool)
    | Renew(scan: Scan, networkID: nat, dialled: bool)

  function After(networks: seq<Network>, table: Table, e: Event): Table {
    match e
    case Switch(id, latency, dialled) =>
      var after := AfterSwitch(networks, table, id, latency, dialled);
      if after.Some? then after.value else table
    case Renew(scan, id, dialled) =>
      if IsScan(networks, scan) && id in Report(networks, scan)
      then AfterRefresh(table, id, Report(networks, scan)[id], dialled) else table
  }

  function AfterAll(networks: seq<Network>, table: Table, es: seq<Event>): Table {
    if es == [] then table else After(networks, AfterAll(networks, table, es[..|es| - 1]), es[|es| - 1])
  }

  function Renewals(scan: Scan, ids: seq<nat>, dialled: nat -> bool): (es: seq<Event>)
    ensures |es| == |ids| && forall i :: 0 <= i < |ids| ==> es[i] == Renew(scan, ids[i], dialled(ids[i]))
  {
    seq(|ids|, i requires 0 <= i < |ids| => Renew(scan, ids[i], dialled(ids[i])))
  }

  /** The clients that a tick makes of the reported networks in `ids`. */
  function Renewed(report: map<nat, string>, ids: seq<nat>, dialled: nat -> bool): Table {
    map id | id in report && id in ids && dialled(id) :: Client(id, report[id])
  }

  function AfterRenewals(table: Table, report: map<nat, string>, ids: seq<nat>, dialled: nat -> bool): Table
    requires forall id <- ids :: id in report
  {
    if ids == [] then table else
    var most, id := ids[..|ids| - 1], ids[|ids| - 1];
    AfterRefresh(AfterRenewals(table, report, most, dialled), id, report[id], dialled(id))
  }

  lemma {:induction false} RenewalsAreRefreshes(networks: seq<Network>, table: Table, scan: Scan, ids: seq<nat>,
                                                dialled: nat -> bool)
    requires IsScan(networks, scan) && forall id <- ids :: id in Report(networks, scan)
    ensures AfterAll(networks, table, Renewals(scan, ids, dialled))
            == AfterRenewals(table, Report(networks, scan), ids, dialled)
    decreases |ids|
  {
    if ids != [] {
      var most, id := ids[..|ids| - 1], ids[|ids| - 1];
      RenewalsAreRefreshes(networks, table, scan, most, dialled);
      assert Renewals(scan, ids, dialled)[..|most|] == Renewals(scan, most, dialled);
      assert id in ids;
    }
  }

  lemma OneMoreRenewed(table: Table, report: map<nat, string>, ids: seq<nat>, dialled: nat -> bool, id: nat)
    requires id in report
    ensures AfterRefresh(table + Renewed(report, ids, dialled), id, report[id], dialled(id))
            == table + Renewed(report, ids + [id], dialled)
  {
  }

  lemma {:induction false} RefreshesMakeClients(table: Table, report: map<nat, string>, ids: seq<nat>,
                                                dialled: nat -> bool)
    requires forall id <- ids :: id in report
    ensures AfterRenewals(table, report, ids, dialled) == table + Renewed(report, ids, dialled)
    decreases |ids|
  {
    if ids == [] {
      assert Renewed(report, [], dialled) == map[];
    } else {
      var most, id := ids[..|ids| - 1], ids[|ids| - 1];
      RefreshesMakeClients(table, report, most, dialled);
      OneMoreRenewed(table, report, most, dialled, id);
      assert ids == most + [id];
    }
  }

  /** A tick without anything in between does what Refresh does with the scan's report, in whatever order
      the networks are taken. */
  lemma TickIsItsRenewals(networks: seq<Network>, table: Table, scan: Scan, ids: seq<nat>, dialled: nat -> bool)
    requires IsScan(networks, scan) && forall id :: id in ids <==> id in Report(networks, scan)
    ensures var report := Report(networks, scan);
            AfterAll(networks, table, Renewals(scan, ids, dialled))
            == table + map id | id in report && dialled(id) :: Client(id, report[id])
  {
    var report := Report(networks, scan);
    RenewalsAreRefreshes(networks, table, scan, ids, dialled);
    RefreshesMakeClients(table, report, ids, dialled);
    assert Renewed(report, ids, dialled) == map id | id in report && dialled(id) :: Client(id, report[id]);
  }

  ghost predicate WellFormed(networks: seq<Network>, table: Table) {
    forall id <- table :: table[id].networkID == id && Configured(networks, id, table[id].endpoint)
  }

  lemma SwitchedIsConfigured(networks: seq<Network>, table: Table, id: nat, latency: nat -> int, dialled: bool)
    requires AfterSwitch(networks, table, id, latency, dialled).Some?
    ensures var after := AfterSwitch(networks, table, id, latency, dialled).value;
            exists endpoint :: after == table[id := Client(id, endpoint)] && Configured(networks, id, endpoint)
  {
    var j := Target(networks, id).value;
    var ps := Probed(networks[j].endpoints, latency);
    FoldIsBest(ps);
    var p := Probe(Fold(ps).endpoint, Fold(ps).latency);
    assert p in ps;
    assert Configured(networks, id, p.endpoint);
  }

  lemma EventKeepsTable(networks: seq<Network>, table: Table, e: Event)
    requires WellFormed(networks, table)
    ensures WellFormed(networks, After(networks, table, e)) && table.Keys <= After(networks, table, e).Keys
  {
    match e
    case Switch(id, latency, dialled) =>
      if AfterSwitch(networks, table, id, latency, dialled).Some? {
        SwitchedIsConfigured(networks, table, id, latency, dialled);
      }
    case Renew(scan, id, _) =>
      if IsScan(networks, scan) {
        ScanReportsConfigured(networks, scan, id);
      }
  }

  /** An event changes at most the client of its own network. */
  lemma EventChangesOne(networks: seq<Network>, table: Table, e: Event, id: nat)
    requires id != e.networkID
    ensures id in After(networks, table, e) <==> id in table
    ensures id in table ==> After(networks, table, e)[id] == table[id]
  {
    if e.Switch? && AfterSwitch(networks, table, e.networkID, e.latency, e.dialled).Some? {
      SwitchedIsConfigured(networks, table, e.networkID, e.latency, e.dialled);
    }
  }

  /** In every run the set of networks with a client never shrinks, and every client belongs to its key
      and to an endpoint configured for it. */
  lemma {:induction false} EveryRun(networks: seq<Network>, table: Table, es: seq<Event>)
    requires WellFormed(networks, table)
    ensures WellFormed(networks, AfterAll(networks, table, es))
    ensures table.Keys <= AfterAll(networks, table, es).Keys
    decreases |es|
  {
    if es != [] {
      EveryRun(networks, table, es[..|es| - 1]);
      EventKeepsTable(networks, AfterAll(networks, table, es[..|es| - 1]), es[|es| - 1]);
    }
  }

  lemma {:induction false} AfterConcat(networks: seq<Network>, table: Table, a: seq<Event>, b: seq<Event>)
    ensures AfterAll(networks, table, a + b) == AfterAll(networks, AfterAll(networks, table, a), b)
    decreases |b|
  {
    if b == [] {
      assert a + b == a;
    } else {
      assert (a + b)[..|a + b| - 1] == a + b[..|b| - 1];
      AfterConcat(networks, table, a, b[..|b| - 1]);
    }
  }

  /** Once a switch has succeeded, GetBestClient succeeds for that network, whatever else happens before
      it is called. */
  lemma SwitchThenBestClient(networks: seq<Network>, table: Table, before: seq<Event>, e: Event, later: seq<Event>)
    requires WellFormed(networks, table) && e.Switch?
    requires AfterSwitch(networks, AfterAll(networks, table, before), e.networkID, e.latency, e.dialled).Some?
    ensures e.networkID in AfterAll(networks, table, before + [e] + later)
  {
    var t0 := AfterAll(networks, table, before);
    EveryRun(networks, table, before);
    EventKeepsTable(networks, t0, e);
    SwitchedIsConfigured(networks, t0, e.networkID, e.latency, e.dialled);
    AfterConcat(networks, table, before, [e]);
    assert [e][..0] == [];
    AfterConcat(networks, table, before + [e], later);
    EveryRun(networks, After(networks, t0, e), later);
  }

  /** `networks[j]` is the first configured network with this number. */
  ghost predicate FirstWith(networks: seq<Network>, id: nat, j: nat) {
    && j < |networks| && ParseUint(networks[j].id) == Some(id)
    && forall i :: 0 <= i < j ==> ParseUint(networks[i].id) != Some(id)
  }

  /** Endpoint `i` answered, none answered faster, and none before it as fast. */
  ghost predicate FastestProbe(endpoints: seq<string>, latency: nat -> int, i: nat) {
    && i < |endpoints| && 0 < latency(i) < 0x7fff_ffff_ffff_ffff
    && (forall k :: 0 <= k < |endpoints| && latency(k) > 0 ==> latency(i) <= latency(k))
    && forall k :: 0 <= k < i && latency(k) > 0 ==> latency(i) < latency(k)
  }

  lemma ScanPicksFastest(endpoints: seq<string>, latency: nat -> int) returns (i: nat)
    requires Fold(Probed(endpoints, latency)) != NONE_YET
    ensures FastestProbe(endpoints, latency, i)
    ensures Fold(Probed(endpoints, latency)) == Best(endpoints[i], latency(i))
  {
    var ps := Probed(endpoints, latency);
    FoldIsBest(ps);
    FoldCameFirst(ps);
    i :| CameFirst(Fold(ps), ps, i);
    forall k | 0 <= k < |endpoints| && latency(k) > 0
      ensures latency(i) <= latency(k) && (k < i ==> latency(i) < latency(k))
    {
      assert ps[k] in multiset(ps);
    }
  }

  /** A switch that succeeds replaces the client of that network alone, by one dialled to the fastest
      endpoint of the first configuration with that number, the first of them if several are as fast. */
  lemma SwitchPicksFastest(networks: seq<Network>, table: Table, id: nat, latency: nat -> int, dialled: bool)
    requires AfterSwitch(networks, table, id, latency, dialled).Some?
    ensures var after := AfterSwitch(networks, table, id, latency, dialled).value;
            exists j: nat, i: nat :: FirstWith(networks, id, j) && FastestProbe(networks[j].endpoints, latency, i)
                        && after == table[id := Client(id, networks[j].endpoints[i])]
  {
    var j := Target(networks, id).value;
    var i := ScanPicksFastest(networks[j].endpoints, latency);
    assert FirstWith(networks, id, j) && FastestProbe(networks[j].endpoints, latency, i);
  }

  /** When an immediate switch succeeds: the network is configured, its first configuration has a
      reachable endpoint, and the chosen endpoint can be dialled. */
  lemma SwitchSucceedsIff(networks: seq<Network>, table: Table, id: nat, latency: nat -> int, dialled: bool)
    requires forall n <- networks, e <- n.endpoints :: e != ""
    ensures AfterSwitch(networks, table, id, latency, dialled).Some? <==>
            && dialled && Target(networks, id).Some?
            && exists i :: 0 <= i < |networks[Target(networks, id).value].endpoints| && 0 < latency(i) < MAX_LATENCY
  {
    if Target(networks, id).Some? {
      var j := Target(networks, id).value;
      var ps := Probed(networks[j].endpoints, latency);
      assert networks[j] in networks;
      forall p | p in ps ensures p.endpoint != "" {
        var i :| 0 <= i < |ps| && ps[i] == p;
        assert p.endpoint == networks[j].endpoints[i] && p.endpoint in networks[j].endpoints;
      }
      SelectsIfUsable(ps);
      if i :| 0 <= i < |ps| && 0 < latency(i) < MAX_LATENCY {
        assert ps[i] in ps && Usable(ps[i]);
      }
    }
  }
}
