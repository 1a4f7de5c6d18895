/** The unified price cache of pricefeed/price_cache.go: the object, its size estimate and prune. */
module PriceCache {
  import opened Wrappers
  import opened Decimal
  import opened MapSums
  import opened PriceCacheModel

  const MAX_CACHE_SIZE_BYTES := 10 * 1024 * 1024

  type Estimator = PriceInfo -> int

  // ---------- sizes ----------

  ghost function EntryWeight(est: Estimator): (string, PriceInfo) -> int {
    (key, p) => |key| + 8 + est(p)
  }

  ghost function EntriesWeight(est: Estimator): (nat, NetworkData) -> int {
    (n, d) => MapSum(d, EntryWeight(est))
  }

  ghost function NetworkWeight(est: Estimator): (nat, NetworkData) -> int {
    (n, d) => 8 + MapSum(d, EntryWeight(est))
  }

  ghost function ListWeight(list: seq<string>): int {
    if list == [] then 0 else ListWeight(list[..|list| - 1]) + |list[|list| - 1]| + 8
  }

  ghost function FeedsWeight(): (nat, seq<string>) -> int {
    (n, list) => 8 + ListWeight(list)
  }

  /** The estimated size of the cache. */
  ghost function Estimate(est: Estimator, c: Cache): int {
    MapSum(c.data, NetworkWeight(est)) + MapSum(c.feeds, FeedsWeight())
  }

  /** The size that prune compares with the limit. */
  ghost function PruneTotal(est: Estimator, c: Cache): int {
    MapSum(c.data, EntriesWeight(est))
  }

  /** The estimate exceeds prune's total by 8 bytes per network with data plus the feed lists; so prune
      may find nothing to do although the estimate is over the limit. */
  lemma EstimateExceedsTotal(est: Estimator, c: Cache)
    ensures Estimate(est, c) == PruneTotal(est, c) + 8 * |c.data| + MapSum(c.feeds, FeedsWeight())
  {
    Surplus(c.data, NetworkWeight(est), EntriesWeight(est), 8);
  }

  lemma RegistrationChangesFeeds(feeds: map<nat, seq<string>>, n: nat, key: string)
    ensures MapSum(Registered(feeds, n, key), FeedsWeight()) - MapSum(feeds, FeedsWeight())
            == if n in feeds && key in feeds[n] then 0 else |key| + 8 + if n in feeds then 0 else 8
  {
    var list := if n in feeds then feeds[n] else [];
    if key !in list {
      assert (list + [key])[..|list|] == list;
      PutIn(feeds, n, list + [key], FeedsWeight());
      assert FeedsWeight()(n, list + [key]) == 8 + ListWeight(list) + |key| + 8;
    }
  }

  lemma EntryChangesNetwork(est: Estimator, d: NetworkData, key: string, p: PriceInfo)
    ensures MapSum(d[key := p], EntryWeight(est)) - MapSum(d, EntryWeight(est))
            == if key in d then est(p) - est(d[key]) else |key| + 8 + est(p)
  {
    PutIn(d, key, p, EntryWeight(est));
  }

  /** An update changes the estimate by the new entry's contribution minus the replaced one's, and by
      8 for a new network and the new feed's overhead. */
  lemma UpdateChangesEstimate(est: Estimator, c: Cache, n: nat, key: string, p: PriceInfo)
    ensures Estimate(est, AfterUpdate(c, n, key, p)) - Estimate(est, c)
            == (match Lookup(c, n, key)
                case Some(was) => est(p) - est(was)
                case None => |key| + 8 + est(p) + if n in c.data then 0 else 8)
             + (if key in FeedsOf(c, n) then 0 else |key| + 8 + if n in c.feeds then 0 else 8)
  {
    var d := DataOf(c, n);
    EntryChangesNetwork(est, d, key, p);
    PutIn(c.data, n, d[key := p], NetworkWeight(est));
    RegistrationChangesFeeds(c.feeds, n, key);
  }

  // ---------- prune's list of entries ----------

  datatype Entry = Entry(networkID: nat, prefixed: string, priceInfo: PriceInfo, entrySize: int)

  /** The key "%d:%s" under which prune remembers the latest entry. */
  function LatestKey(e: Entry): string {
    Format(e.networkID) + [':'] + e.prefixed
  }

  lemma LatestKeyIsInjective(d: Entry, e: Entry)
    requires LatestKey(d) == LatestKey(e)
    ensures d.networkID == e.networkID && d.prefixed == e.prefixed
  {
    PrefixedNumber(d.networkID, e.networkID, ':', d.prefixed, e.prefixed);
  }

  /** No two entries are of the same network and feed. */
  ghost predicate OnePerFeed(es: seq<Entry>) {
    forall i, j :: 0 <= i < |es| && 0 <= j < |es| && i != j ==>
      es[i].networkID != es[j].networkID || es[i].prefixed != es[j].prefixed
  }

  lemma SameMembers(es: seq<Entry>, ds: seq<Entry>)
    requires multiset(es) == multiset(ds)
    ensures forall e :: e in es <==> e in ds
  {
    assert forall e :: e in es <==> e in multiset(es);
    assert forall e :: e in ds <==> e in multiset(ds);
  }

  lemma TakeFrom(es: seq<Entry>, i: nat)
    requires i < |es|
    ensures multiset(es) == multiset{es[i]} + multiset(es[..i] + es[i + 1..])
  {
    assert es == es[..i] + [es[i]] + es[i + 1..];
  }

  /** The entry of a stored price. */
  ghost predicate IsEntryOf(e: Entry, est: Estimator, data: map<nat, NetworkData>) {
    && e.networkID in data && e.prefixed in data[e.networkID] && data[e.networkID][e.prefixed] == e.priceInfo
    && e.entrySize == |e.prefixed| + 8 + est(e.priceInfo)
  }

  /** One entry for every stored price, and no others. */
  ghost predicate IsListOf(es: seq<Entry>, est: Estimator, data: map<nat, NetworkData>) {
    OnePerFeed(es) && forall e :: e in es <==> IsEntryOf(e, est, data)
  }

  function Timestamp(e: Entry): int {
    e.priceInfo.timestamp
  }

  /** Older than the latest entry of its key. */
  predicate Outdated(e: Entry, latestEntries: map<string, Entry>) {
    LatestKey(e) in latestEntries && Timestamp(e) < Timestamp(latestEntries[LatestKey(e)])
  }

  /** What is left after taking out, from the left, outdated entries until no excess is left. */
  function Removed(data: map<nat, NetworkData>, es: seq<Entry>, latestEntries: map<string, Entry>, excess: int)
    : map<nat, NetworkData>
  {
    if es == [] || excess <= 0 then data else
    var e := es[0];
    if !Outdated(e, latestEntries) || e.networkID !in data then Removed(data, es[1..], latestEntries, excess)
    else Removed(WithoutEntry(data, e), es[1..], latestEntries, excess - e.entrySize)
  }

  /** A network without prices is taken out with its last one. */
  function WithoutEntry(data: map<nat, NetworkData>, e: Entry): map<nat, NetworkData>
    requires e.networkID in data
  {
    var network := data[e.networkID] - {e.prefixed};
    if network == map[] then data - {e.networkID} else data[e.networkID := network]
  }

  /** Latest entries are never taken out, whatever the sizes. */
  lemma {:induction false} LatestStay(data: map<nat, NetworkData>, es: seq<Entry>,
                                      latestEntries: map<string, Entry>, excess: int)
    requires forall e <- es :: !Outdated(e, latestEntries)
    ensures Removed(data, es, latestEntries, excess) == data
  {
    if es != [] && excess > 0 {
      LatestStay(data, es[1..], latestEntries, excess);
    }
  }

  /** Oldest first. */
  ghost predicate IsByTimestamp(es: seq<Entry>) {
    forall i, j :: 0 <= i < j < |es| ==> Timestamp(es[i]) <= Timestamp(es[j])
  }

  /** For every key in the list, an entry of that key that none of that key is later than. */
  ghost predicate IsLatestOf(latestEntries: map<string, Entry>, es: seq<Entry>) {
    && (forall key <- latestEntries :: latestEntries[key] in es && LatestKey(latestEntries[key]) == key)
    && (forall e <- es :: LatestKey(e) in latestEntries && Timestamp(e) <= Timestamp(latestEntries[LatestKey(e)]))
  }

  /** What prune may leave, whatever the order in which it meets, sorts and remembers the entries: below
      the limit everything, otherwise what is left after outdated entries have been taken out. */
  ghost predicate Prunes(est: Estimator, c: Cache, d: Cache) {
    if PruneTotal(est, c) <= MAX_CACHE_SIZE_BYTES then d == c else
    exists collected, es, latestEntries :: PruneLeaves(est, c, d, collected, es, latestEntries)
  }

  ghost predicate PruneLeaves(est: Estimator, c: Cache, d: Cache, collected: seq<Entry>, es: seq<Entry>,
                              latestEntries: map<string, Entry>) {
    && IsListOf(collected, est, c.data) && multiset(es) == multiset(collected) && IsByTimestamp(es)
    && IsLatestOf(latestEntries, es)
    && d == c.(data := Removed(c.data, es, latestEntries, PruneTotal(est, c) - MAX_CACHE_SIZE_BYTES))
  }

  lemma NoneOutdated(est: Estimator, data: map<nat, NetworkData>, es: seq<Entry>, latestEntries: map<string, Entry>)
    requires IsLatestOf(latestEntries, es) && forall e <- es :: IsEntryOf(e, est, data)
    ensures forall e <- es :: !Outdated(e, latestEntries)
  {
    forall e | e in es ensures !Outdated(e, latestEntries) {
      var l := latestEntries[LatestKey(e)];
      LatestKeyIsInjective(l, e);
      assert IsEntryOf(l, est, data) && IsEntryOf(e, est, data);
    }
  }

  /** Prune removes nothing, whatever the cache holds, however large it is and in whatever order prune
      goes: with one entry per feed, the latest entry of every key is the entry itself. */
  lemma PruneChangesNothing(est: Estimator, c: Cache, d: Cache)
    requires Prunes(est, c, d)
    ensures d == c
  {
    if PruneTotal(est, c) > MAX_CACHE_SIZE_BYTES {
      var collected, es, latestEntries :| PruneLeaves(est, c, d, collected, es, latestEntries);
      AllIsLeft(est, c, d, collected, es, latestEntries);
    }
  }

  lemma AllIsLeft(est: Estimator, c: Cache, d: Cache, collected: seq<Entry>, es: seq<Entry>,
                  latestEntries: map<string, Entry>)
    requires PruneLeaves(est, c, d, collected, es, latestEntries)
    ensures d == c
  {
    SortedListIsOfData(est, c.data, collected, es);
    NoneOutdated(est, c.data, es, latestEntries);
    LatestStay(c.data, es, latestEntries, PruneTotal(est, c) - MAX_CACHE_SIZE_BYTES);
  }

  lemma SortedListIsOfData(est: Estimator, data: map<nat, NetworkData>, collected: seq<Entry>, es: seq<Entry>)
    requires IsListOf(collected, est, data) && multiset(es) == multiset(collected)
    ensures forall e <- es :: IsEntryOf(e, est, data)
  {
    SameMembers(es, collected);
  }

  class PriceCache {
    var data: map<nat, NetworkData>
    var feeds: map<nat, seq<string>>
    const estimator: Estimator

    ghost function Contents(): Cache
      reads this
    {
      Cache(data, feeds)
    }

    constructor (estimator: Estimator)
      ensures Contents() == EMPTY && this.estimator == estimator
    {
      this.estimator := estimator;
      data, feeds := map[], map[];
    }

    method HasFeed(networkID: nat, prefixed: string) returns (found: bool)
      ensures found == (prefixed in FeedsOf(Contents(), networkID))
    {
      if networkID !in feeds {
        return false;
      }
      for i := 0 to |feeds[networkID]|
        invariant prefixed !in feeds[networkID][..i]
      {
        if feeds[networkID][i] == prefixed {
          return true;
        }
      }
      found := false;
    }

    method AddFeed(networkID: nat, identifier: string, source: string)
      modifies this
      ensures Contents() == AfterAddFeed(old(Contents()), networkID, Prefixed(source, identifier))
    {
      var prefixed := Prefixed(source, identifier);
      if networkID !in data {
        data := data[networkID := map[]];
        feeds := feeds[networkID := []];
      }
      var found := HasFeed(networkID, prefixed);
      if found {
        return;
      }
      feeds := feeds[networkID := (if networkID in feeds then feeds[networkID] else []) + [prefixed]];
    }

    method GetPrice(networkID: nat, identifier: string, source: string) returns (p: Option<PriceInfo>)
      ensures p == Lookup(Contents(), networkID, Prefixed(source, identifier))
    {
      var prefixed := Prefixed(source, identifier);
      if networkID !in data || prefixed !in data[networkID] {
        return None;
      }
      p := Some(data[networkID][prefixed]);
    }

    method GetAllPricesBySource(networkID: nat, source: string) returns (result: map<string, PriceInfo>)
      ensures IsSourceView(result, Contents(), networkID, source)
    {
      result := map[];
      if networkID !in data {
        return;
      }
      var network, prefix := data[networkID], source + ":";
      var todo := network.Keys;
      while todo != {}
        invariant todo <= network.Keys
        invariant forall x :: (x in result <==> Prefixed(source, x) in network && Prefixed(source, x) !in todo)
                              && (x in result ==> result[x] == network[Prefixed(source, x)])
      {
        var prefixed :| prefixed in todo;
        if HasPrefix(prefixed, prefix) {
          var identifier := TrimPrefix(prefixed, prefix);
          assert Prefixed(source, identifier) == prefixed;
          forall x | Prefixed(source, x) == prefixed ensures x == identifier {
            assert prefixed[|prefix|..] == x;
          }
          result := result[identifier := network[prefixed]];
        } else {
          assert forall x :: prefix <= Prefixed(source, x);
        }
        todo := todo - {prefixed};
      }
    }

    /** Stores the price as one step; pruning changes nothing, so it does not matter that the lock is
        given up in between. */
    method UpdatePrice(networkID: nat, identifier: string, source: string, priceInfo: PriceInfo)
      modifies this
      ensures Contents() == AfterUpdate(old(Contents()), networkID, Prefixed(source, identifier), priceInfo)
    {
      var prefixed := Prefixed(source, identifier);
      if networkID !in data {
        data := data[networkID := map[]];
      }
      data := data[networkID := data[networkID][prefixed := priceInfo]];
      var found := HasFeed(networkID, prefixed);
      if !found {
        feeds := feeds[networkID := (if networkID in feeds then feeds[networkID] else []) + [prefixed]];
      }
      var size := EstimateSizeUnlocked();
      if size > MAX_CACHE_SIZE_BYTES {
        Prune();
      }
    }

    method EstimateNetwork(network: NetworkData) returns (size: int)
      ensures size == MapSum(network, EntryWeight(estimator))
    {
      size := 0;
      var todo := network;
      while todo != map[]
        invariant size + MapSum(todo, EntryWeight(estimator)) == MapSum(network, EntryWeight(estimator))
        decreases |todo|
      {
        var key :| key in todo;
        TakeOut(todo, key, EntryWeight(estimator));
        Smaller(todo, key);
        size := size + |key|;
        size := size + 8;
        size := size + estimator(todo[key]);
        todo := todo - {key};
      }
    }

    method EstimateList(list: seq<string>) returns (size: int)
      ensures size == ListWeight(list)
    {
      size := 0;
      for i := 0 to |list|
        invariant size == ListWeight(list[..i])
      {
        assert list[..i + 1][..i] == list[..i];
        size := size + |list[i]| + 8;
      }
      assert list[..|list|] == list;
    }

    method EstimateSizeUnlocked() returns (size: int)
      ensures size == Estimate(estimator, Contents())
    {
      size := 0;
      var networks := data;
      while networks != map[]
        invariant size + MapSum(networks, NetworkWeight(estimator)) == MapSum(data, NetworkWeight(estimator))
        decreases |networks|
      {
        var n :| n in networks;
        TakeOut(networks, n, NetworkWeight(estimator));
        Smaller(networks, n);
        var entries := EstimateNetwork(networks[n]);
        size := size + 8 + entries;
        networks := networks - {n};
      }
      var lists := feeds;
      while lists != map[]
        invariant size + MapSum(lists, FeedsWeight()) == Estimate(estimator, Contents())
        decreases |lists|
      {
        var n :| n in lists;
        TakeOut(lists, n, FeedsWeight());
        Smaller(lists, n);
        var list := EstimateList(lists[n]);
        size := size + 8 + list;
        lists := lists - {n};
      }
    }

    /** The entries of one network, in any order, behind those collected before. */
    method CollectNetwork(n: nat, before: seq<Entry>) returns (entries: seq<Entry>)
      requires n in data && OnePerFeed(before) && forall e <- before :: e.networkID != n
      ensures OnePerFeed(entries)
      ensures forall e :: e in entries <==> e in before || (e.networkID == n && IsEntryOf(e, estimator, data))
    {
      entries := before;
      var todo := data[n].Keys;
      while todo != {}
        invariant todo <= data[n].Keys && OnePerFeed(entries)
        invariant forall e :: e in entries <==>
                    e in before || (e.networkID == n && IsEntryOf(e, estimator, data) && e.prefixed !in todo)
      {
        var prefixed :| prefixed in todo;
        var p := data[n][prefixed];
        var e := Entry(n, prefixed, p, |prefixed| + 8 + estimator(p));
        assert forall d <- entries :: d.networkID != n || d.prefixed != prefixed;
        entries := entries + [e];
        todo := todo - {prefixed};
      }
    }

    method CollectEntries() returns (entries: seq<Entry>, totalSize: int)
      ensures IsListOf(entries, estimator, data)
      ensures totalSize == PruneTotal(estimator, Contents())
    {
      entries, totalSize := [], 0;
      var networks := data;
      while networks != map[]
        invariant networks.Keys <= data.Keys && forall n <- networks :: networks[n] == data[n]
        invariant OnePerFeed(entries)
        invariant forall e :: e in entries <==> IsEntryOf(e, estimator, data) && e.networkID !in networks
        invariant totalSize + MapSum(networks, EntriesWeight(estimator)) == MapSum(data, EntriesWeight(estimator))
        decreases |networks|
      {
        var n :| n in networks;
        TakeOut(networks, n, EntriesWeight(estimator));
        Smaller(networks, n);
        var size := EstimateNetwork(data[n]);
        entries := CollectNetwork(n, entries);
        totalSize := totalSize + size;
        networks := networks - {n};
      }
    }

    /** Index of an oldest entry. */
    method Oldest(es: seq<Entry>) returns (i: nat)
      requires es != []
      ensures i < |es| && forall e <- es :: Timestamp(es[i]) <= Timestamp(e)
    {
      i := 0;
      for j := 1 to |es|
        invariant 0 <= i < j
        invariant forall k :: 0 <= k < j ==> Timestamp(es[i]) <= Timestamp(es[k])
      {
        if Timestamp(es[j]) < Timestamp(es[i]) {
          i := j;
        }
      }
    }

    /** sort.Slice by timestamp: a permutation in which no entry precedes an older one. */
    method SortByTimestamp(entries: seq<Entry>) returns (sorted: seq<Entry>)
      ensures multiset(sorted) == multiset(entries) && IsByTimestamp(sorted)
    {
      sorted := [];
      var rest := entries;
      while rest != []
        invariant multiset(sorted) + multiset(rest) == multiset(entries)
        invariant IsByTimestamp(sorted)
        invariant forall i, e :: 0 <= i < |sorted| && e in rest ==> Timestamp(sorted[i]) <= Timestamp(e)
        decreases |rest|
      {
        var i := Oldest(rest);
        TakeFrom(rest, i);
        var others := rest[..i] + rest[i + 1..];
        assert forall e <- others :: e in rest;
        sorted, rest := sorted + [rest[i]], others;
      }
    }

    /** For every key, an entry of that key with the latest timestamp. */
    method LatestEntries(entries: seq<Entry>) returns (latestEntries: map<string, Entry>)
      ensures IsLatestOf(latestEntries, entries)
    {
      latestEntries := map[];
      for i := 0 to |entries|
        invariant forall key <- latestEntries :: latestEntries[key] in entries && LatestKey(latestEntries[key]) == key
        invariant forall j :: 0 <= j < i ==>
                    LatestKey(entries[j]) in latestEntries
                    && Timestamp(entries[j]) <= Timestamp(latestEntries[LatestKey(entries[j])])
      {
        var key := LatestKey(entries[i]);
        if key !in latestEntries || Timestamp(entries[i]) > Timestamp(latestEntries[key]) {
          latestEntries := latestEntries[key := entries[i]];
        }
      }
    }

    /** Removes entries, oldest first, until the size is within the limit, but no latest ones. */
    method RemoveOutdated(entries: seq<Entry>, latestEntries: map<string, Entry>, totalSize: int)
      requires forall e <- entries :: LatestKey(e) in latestEntries
      modifies this`data
      ensures data == Removed(old(data), entries, latestEntries, totalSize - MAX_CACHE_SIZE_BYTES)
    {
      ghost var result := Removed(data, entries, latestEntries, totalSize - MAX_CACHE_SIZE_BYTES);
      var removedSize := 0;
      for i := 0 to |entries|
        invariant Removed(data, entries[i..], latestEntries, totalSize - removedSize - MAX_CACHE_SIZE_BYTES) == result
      {
        if totalSize - removedSize <= MAX_CACHE_SIZE_BYTES {
          break;
        }
        var entry := entries[i];
        assert entries[i..][1..] == entries[i + 1..] && entry in entries;
        var latest := latestEntries[LatestKey(entry)];
        if Timestamp(entry) == Timestamp(latest) || Timestamp(entry) > Timestamp(latest) {
          continue;
        }
        if entry.networkID in data {
          var networkData := data[entry.networkID] - {entry.prefixed};
          ghost var was := data;
          data := data[entry.networkID := networkData];
          removedSize := removedSize + entry.entrySize;
          if networkData == map[] {
            data := data - {entry.networkID};
            assert data == was - {entry.networkID};
          }
        }
      }
    }

    /** Prune leaves what its entries, sorted and with the latest ones spared, leave: everything. */
    method Prune()
      modifies this`data
      ensures Prunes(estimator, old(Contents()), Contents())
      ensures data == old(data)
    {
      var collected, totalSize := CollectEntries();
      if totalSize <= MAX_CACHE_SIZE_BYTES {
        return;
      }
      var entries := SortByTimestamp(collected);
      var latestEntries := LatestEntries(entries);
      ghost var was := Contents();
      RemoveOutdated(entries, latestEntries, totalSize);
      assert PruneLeaves(estimator, was, Contents(), collected, entries, latestEntries);
      PruneChangesNothing(estimator, was, Contents());
    }
  }
}
