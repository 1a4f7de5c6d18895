/** What the removal loop of prune (pricefeed/price_cache.go) takes out, for any entries and any latest
    entries: outdated ones, in the order given, until enough is gone. */
module PricePruning {
  import opened PriceCacheModel
  import opened PriceCache

  ghost predicate Has(data: map<nat, NetworkData>, n: nat, key: string) {
    n in data && key in data[n]
  }

  /** One of the first `m` entries is outdated and of this network and feed. */
  ghost predicate TakenOut(es: seq<Entry>, latestEntries: map<string, Entry>, m: nat, n: nat, key: string) {
    exists j :: 0 <= j < m && j < |es| && Outdated(es[j], latestEntries)
                && es[j].networkID == n && es[j].prefixed == key
  }

  /** How much the outdated ones among the entries weigh. */
  ghost function OutdatedSize(es: seq<Entry>, latestEntries: map<string, Entry>): int {
    if es == [] then 0
    else (if Outdated(es[0], latestEntries) then es[0].entrySize else 0) + OutdatedSize(es[1..], latestEntries)
  }

  /** Of the stored prices exactly the outdated ones among the first `m` entries are gone. */
  ghost predicate PricesLeft(data: map<nat, NetworkData>, left: map<nat, NetworkData>, es: seq<Entry>,
                             latestEntries: map<string, Entry>, m: nat) {
    forall n, key ::
      && (Has(left, n, key) <==> Has(data, n, key) && !TakenOut(es, latestEntries, m, n, key))
      && (Has(left, n, key) ==> left[n][key] == data[n][key])
  }

  /** A network whose last price is gone is gone, too, and no other. */
  ghost predicate NetworksLeft(data: map<nat, NetworkData>, left: map<nat, NetworkData>) {
    forall n :: n in left <==> n in data && (data[n] == map[] || exists key :: Has(left, n, key))
  }

  /** The loop stops as soon as the excess is gone, or at the end. */
  ghost predicate StopsAt(es: seq<Entry>, latestEntries: map<string, Entry>, excess: int, m: nat) {
    && m <= |es|
    && (forall j :: 0 <= j < m ==> OutdatedSize(es[..j], latestEntries) < excess)
    && (m == |es| || OutdatedSize(es[..m], latestEntries) >= excess)
  }

  lemma TakenOutLater(es: seq<Entry>, latestEntries: map<string, Entry>, m: nat, n: nat, key: string)
    requires es != []
    ensures TakenOut(es, latestEntries, m + 1, n, key)
       <==> (Outdated(es[0], latestEntries) && es[0].networkID == n && es[0].prefixed == key)
            || TakenOut(es[1..], latestEntries, m, n, key)
  {
    if j :| 0 <= j < m && j < |es[1..]| && Outdated(es[1..][j], latestEntries)
            && es[1..][j].networkID == n && es[1..][j].prefixed == key {
      assert es[j + 1] == es[1..][j];
    }
    if j :| 0 < j < m + 1 && j < |es| && Outdated(es[j], latestEntries)
            && es[j].networkID == n && es[j].prefixed == key {
      assert es[j] == es[1..][j - 1];
    }
  }

  lemma StopsLater(es: seq<Entry>, latestEntries: map<string, Entry>, excess: int, m: nat)
    requires es != [] && excess > 0
    requires var size := if Outdated(es[0], latestEntries) then es[0].entrySize else 0;
             StopsAt(es[1..], latestEntries, excess - size, m)
    ensures StopsAt(es, latestEntries, excess, m + 1)
  {
    forall j | 0 < j <= m + 1 ensures es[..j][1..] == es[1..][..j - 1] {
    }
  }

  lemma StopsAtOnce(es: seq<Entry>, latestEntries: map<string, Entry>, excess: int)
    requires es == [] || excess <= 0
    ensures StopsAt(es, latestEntries, excess, 0)
  {
    assert es[..0] == [];
  }

  lemma HasWithout(data: map<nat, NetworkData>, e: Entry, n: nat, key: string)
    requires Has(data, e.networkID, e.prefixed)
    ensures Has(WithoutEntry(data, e), n, key) <==> Has(data, n, key) && !(n == e.networkID && key == e.prefixed)
    ensures Has(WithoutEntry(data, e), n, key) ==> WithoutEntry(data, e)[n][key] == data[n][key]
  {
    var network := data[e.networkID] - {e.prefixed};
    assert n == e.networkID && key in data[n] && key != e.prefixed ==> key in network;
  }

  lemma RestStays(est: Estimator, data: map<nat, NetworkData>, es: seq<Entry>)
    requires es != [] && OnePerFeed(es) && forall e <- es :: IsEntryOf(e, est, data)
    ensures Has(data, es[0].networkID, es[0].prefixed) && OnePerFeed(es[1..])
    ensures forall e <- es[1..] :: IsEntryOf(e, est, data) && IsEntryOf(e, est, WithoutEntry(data, es[0]))
  {
    assert es[0] in es;
    forall e | e in es[1..]
      ensures IsEntryOf(e, est, data) && IsEntryOf(e, est, WithoutEntry(data, es[0]))
    {
      var i :| 0 < i < |es| && es[i] == e;
      assert es[i] in es;
      HasWithout(data, es[0], e.networkID, e.prefixed);
    }
  }

  lemma PricesLeftLater(data: map<nat, NetworkData>, d: map<nat, NetworkData>, left: map<nat, NetworkData>,
                        es: seq<Entry>, latestEntries: map<string, Entry>, m: nat)
    requires es != [] && Has(data, es[0].networkID, es[0].prefixed)
    requires d == if Outdated(es[0], latestEntries) then WithoutEntry(data, es[0]) else data
    requires PricesLeft(d, left, es[1..], latestEntries, m)
    ensures PricesLeft(data, left, es, latestEntries, m + 1)
  {
    forall n, key
      ensures Has(left, n, key) <==> Has(data, n, key) && !TakenOut(es, latestEntries, m + 1, n, key)
      ensures Has(left, n, key) ==> left[n][key] == data[n][key]
    {
      TakenOutLater(es, latestEntries, m, n, key);
      HasWithout(data, es[0], n, key);
    }
  }

  lemma NetworksLeftLater(data: map<nat, NetworkData>, e: Entry, left: map<nat, NetworkData>)
    requires Has(data, e.networkID, e.prefixed) && NetworksLeft(WithoutEntry(data, e), left)
    requires forall n, key :: Has(left, n, key) ==> Has(WithoutEntry(data, e), n, key)
    ensures NetworksLeft(data, left)
  {
    var d := WithoutEntry(data, e);
    forall n
      ensures n in left <==> n in data && (data[n] == map[] || exists key :: Has(left, n, key))
    {
      assert n != e.networkID ==> (n in d <==> n in data) && (n in d ==> d[n] == data[n]);
      assert n == e.networkID ==> n in data && data[n] != map[] && (n in d ==> d[n] != map[]);
      if key :| Has(left, n, key) {
        assert Has(d, n, key);
      }
    }
  }

  /** What the loop leaves when it takes out outdated ones among the first `m` entries. */
  ghost predicate IsLeft(data: map<nat, NetworkData>, left: map<nat, NetworkData>, es: seq<Entry>,
                         latestEntries: map<string, Entry>, excess: int, m: nat) {
    && StopsAt(es, latestEntries, excess, m)
    && PricesLeft(data, left, es, latestEntries, m) && NetworksLeft(data, left)
  }

  lemma OneOutdated(data: map<nat, NetworkData>, left: map<nat, NetworkData>, es: seq<Entry>,
                    latestEntries: map<string, Entry>, excess: int, m: nat)
    requires es != [] && excess > 0 && Has(data, es[0].networkID, es[0].prefixed) && Outdated(es[0], latestEntries)
    requires IsLeft(WithoutEntry(data, es[0]), left, es[1..], latestEntries, excess - es[0].entrySize, m)
    ensures IsLeft(data, left, es, latestEntries, excess, m + 1)
  {
    StopsLater(es, latestEntries, excess, m);
    PricesLeftLater(data, WithoutEntry(data, es[0]), left, es, latestEntries, m);
    NetworksLeftLater(data, es[0], left);
  }

  lemma OneSpared(data: map<nat, NetworkData>, left: map<nat, NetworkData>, es: seq<Entry>,
                  latestEntries: map<string, Entry>, excess: int, m: nat)
    requires es != [] && excess > 0 && Has(data, es[0].networkID, es[0].prefixed) && !Outdated(es[0], latestEntries)
    requires IsLeft(data, left, es[1..], latestEntries, excess, m)
    ensures IsLeft(data, left, es, latestEntries, excess, m + 1)
  {
    StopsLater(es, latestEntries, excess, m);
    PricesLeftLater(data, data, left, es, latestEntries, m);
  }

  /** For any entries of the stored prices, one per feed: what is left is everything but the outdated ones
      among the first `m`, without the networks that this empties, where `m` is how many entries it takes
      until the outdated ones weigh as much as the excess, or all of them. */
  lemma {:induction false} RemovesUntilEnough(est: Estimator, data: map<nat, NetworkData>, es: seq<Entry>,
                                              latestEntries: map<string, Entry>, excess: int) returns (m: nat)
    requires OnePerFeed(es) && forall e <- es :: IsEntryOf(e, est, data)
    ensures IsLeft(data, Removed(data, es, latestEntries, excess), es, latestEntries, excess, m)
    decreases |es|
  {
    if es == [] || excess <= 0 {
      m := 0;
      StopsAtOnce(es, latestEntries, excess);
      NothingRemoved(data, es, latestEntries);
    } else {
      RestStays(est, data, es);
      var left := Removed(data, es, latestEntries, excess);
      if Outdated(es[0], latestEntries) {
        var k := RemovesUntilEnough(est, WithoutEntry(data, es[0]), es[1..], latestEntries, excess - es[0].entrySize);
        OneOutdated(data, left, es, latestEntries, excess, k);
        m := k + 1;
      } else {
        var k := RemovesUntilEnough(est, data, es[1..], latestEntries, excess);
        OneSpared(data, left, es, latestEntries, excess, k);
        m := k + 1;
      }
    }
  }

  lemma NothingRemoved(data: map<nat, NetworkData>, es: seq<Entry>, latestEntries: map<string, Entry>)
    ensures PricesLeft(data, data, es, latestEntries, 0) && NetworksLeft(data, data)
  {
    forall n | n in data && data[n] != map[] ensures exists key :: Has(data, n, key) {
      var key :| key in data[n];
      assert Has(data, n, key);
    }
  }
}
