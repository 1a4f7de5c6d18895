/** The contents of the unified price cache of pricefeed/price_cache.go and what its operations do
    to them. */
module PriceCacheModel {
  import opened Wrappers

  /** What the cache looks at in a price; timestamps are only compared. */
  datatype PriceInfo = PriceInfo(timestamp: int, payload: int)

  type NetworkData = map<string, PriceInfo>

  datatype Cache = Cache(data: map<nat, NetworkData>, feeds: map<nat, seq<string>>)

  const EMPTY := Cache(map[], map[])

  function Prefixed(source: string, identifier: string): string {
    source + ":" + identifier
  }

  /** A missing feed list reads as an empty one. */
  function FeedsOf(c: Cache, n: nat): seq<string> {
    if n in c.feeds then c.feeds[n] else []
  }

  function DataOf(c: Cache, n: nat): NetworkData {
    if n in c.data then c.data[n] else map[]
  }

  function Registered(feeds: map<nat, seq<string>>, n: nat, key: string): map<nat, seq<string>> {
    var list := if n in feeds then feeds[n] else [];
    if key in list then feeds else feeds[n := list + [key]]
  }

  function AfterAddFeed(c: Cache, n: nat, key: string): Cache {
    var d := if n in c.data then c else Cache(c.data[n := map[]], c.feeds[n := []]);
    Cache(d.data, Registered(d.feeds, n, key))
  }

  function AfterUpdate(c: Cache, n: nat, key: string, p: PriceInfo): Cache {
    Cache(c.data[n := DataOf(c, n)[key := p]], Registered(c.feeds, n, key))
  }

  function Lookup(c: Cache, n: nat, key: string): Option<PriceInfo> {
    if n in c.data && key in c.data[n] then Some(c.data[n][key]) else None
  }

  // ---------- data and feeds agree ----------

  ghost predicate Distinct(s: seq<string>) {
    forall i, j :: 0 <= i < j < |s| ==> s[i] != s[j]
  }

  /** No feed twice, every stored price has its feed, and no feeds without a data map. */
  ghost predicate Agrees(c: Cache) {
    && (forall n :: Distinct(FeedsOf(c, n)))
    && (forall n, k :: n in c.data && k in c.data[n] ==> k in FeedsOf(c, n))
    && (forall n :: n !in c.data ==> FeedsOf(c, n) == [])
  }

  /** The re-initialisation in AddFeed loses feeds exactly when there are feeds without a data map. */
  lemma AddFeedKeepsFeedsIff(c: Cache, n: nat, key: string)
    ensures FeedsOf(c, n) <= FeedsOf(AfterAddFeed(c, n, key), n) <==>
            n in c.data || FeedsOf(c, n) == [] || FeedsOf(c, n) == [key]
  {
  }

  datatype Op =
    | AddFeed(n: nat, source: string, identifier: string)
    | Update(n: nat, source: string, identifier: string, p: PriceInfo)

  function KeyOf(op: Op): string {
    Prefixed(op.source, op.identifier)
  }

  function After(c: Cache, op: Op): Cache {
    match op
    case AddFeed(n, _, _) => AfterAddFeed(c, n, KeyOf(op))
    case Update(n, _, _, p) => AfterUpdate(c, n, KeyOf(op), p)
  }

  function AfterAll(ops: seq<Op>): Cache {
    if ops == [] then EMPTY else After(AfterAll(ops[..|ops| - 1]), ops[|ops| - 1])
  }

  lemma DistinctAppend(s: seq<string>, k: string)
    requires Distinct(s) && k !in s
    ensures Distinct(s + [k])
  {
  }

  /** A registration appends the key unless it is there. */
  lemma Registers(c: Cache, op: Op)
    requires Agrees(c)
    ensures var fs, gs := FeedsOf(c, op.n), FeedsOf(After(c, op), op.n);
            gs == if KeyOf(op) in fs then fs else fs + [KeyOf(op)]
  {
  }

  /** An operation leaves the other networks alone, and of its own network every price but the one that it
      updates; registering a feed changes no price. */
  lemma OpTouchesOne(c: Cache, op: Op)
    ensures var d := After(c, op);
            && (forall n :: n != op.n ==> FeedsOf(d, n) == FeedsOf(c, n) && (n in d.data <==> n in c.data))
            && (forall n, k :: n != op.n || k != KeyOf(op) ==> Lookup(d, n, k) == Lookup(c, n, k))
            && Lookup(d, op.n, KeyOf(op)) == if op.Update? then Some(op.p) else Lookup(c, op.n, KeyOf(op))
  {
  }

  lemma OpKeepsAgreement(c: Cache, op: Op)
    requires Agrees(c)
    ensures var d := After(c, op);
            Agrees(d) && KeyOf(op) in FeedsOf(d, op.n) && forall n :: FeedsOf(c, n) <= FeedsOf(d, n)
  {
    var d, key := After(c, op), KeyOf(op);
    Registers(c, op);
    if key !in FeedsOf(c, op.n) {
      DistinctAppend(FeedsOf(c, op.n), key);
    }
    forall n
      ensures Distinct(FeedsOf(d, n)) && FeedsOf(c, n) <= FeedsOf(d, n)
      ensures forall k <- FeedsOf(c, n) :: k in FeedsOf(d, n)
    {
      assert n != op.n ==> FeedsOf(d, n) == FeedsOf(c, n);
    }
  }

  /** Over every run: data and feeds agree, and feed lists only grow at their end. */
  lemma {:induction false} EveryRunAgrees(ops: seq<Op>, m: nat)
    requires m <= |ops|
    ensures Agrees(AfterAll(ops))
    ensures forall n :: FeedsOf(AfterAll(ops[..m]), n) <= FeedsOf(AfterAll(ops), n)
    decreases |ops|
  {
    if ops != [] {
      var most := ops[..|ops| - 1];
      if m == |ops| {
        assert ops[..m] == ops;
        EveryRunAgrees(most, |most|);
      } else {
        assert ops[..m] == most[..m];
        EveryRunAgrees(most, m);
      }
      OpKeepsAgreement(AfterAll(most), ops[|ops| - 1]);
    }
  }

  // ---------- identifiers ----------

  predicate ColonFree(s: string) {
    ':' !in s
  }

  function BeforeColon(s: string): nat {
    if s == "" || s[0] == ':' then 0 else 1 + BeforeColon(s[1..])
  }

  lemma {:induction false} FirstColon(source: string, x: string)
    requires ColonFree(source)
    ensures BeforeColon(Prefixed(source, x)) == |source|
    decreases |source|
  {
    var s := Prefixed(source, x);
    if source == "" {
      assert s[0] == ':';
    } else {
      assert s[0] == source[0] && source[0] in source && s[1..] == Prefixed(source[1..], x);
      FirstColon(source[1..], x);
    }
  }

  /** For sources without a colon, prefixed identifiers do not collide. */
  lemma PrefixedIsInjective(source: string, identifier: string, source': string, identifier': string)
    requires ColonFree(source) && ColonFree(source')
    ensures Prefixed(source, identifier) == Prefixed(source', identifier')
            <==> source == source' && identifier == identifier'
  {
    FirstColon(source, identifier);
    FirstColon(source', identifier');
    var s, t := Prefixed(source, identifier), Prefixed(source', identifier');
    assert s[..|source|] == source && t[..|source'|] == source';
    assert s[|source| + 1..] == identifier && t[|source'| + 1..] == identifier';
  }

  /** In general, identifiers of two sources can collide exactly when one source with its colon starts
      the other with its colon. */
  lemma CollisionIff(s: string, t: string)
    ensures (exists x, y :: Prefixed(s, x) == Prefixed(t, y)) <==> s + ":" <= t + ":" || t + ":" <= s + ":"
  {
    var a, b := s + ":", t + ":";
    if a <= b {
      var x := b[|a|..];
      assert Prefixed(s, x) == a + x == b == b + "" == Prefixed(t, "");
    } else if b <= a {
      var y := a[|b|..];
      assert Prefixed(t, y) == b + y == a == a + "" == Prefixed(s, "");
    }
    if x, y :| Prefixed(s, x) == Prefixed(t, y) {
      assert a + x == b + y;
      var n := if |a| <= |b| then |a| else |b|;
      assert a[..n] == (a + x)[..n] == (b + y)[..n] == b[..n];
    }
  }

  // ---------- the cache as a map from (network, source, identifier) ----------

  /** The last price written under a key. */
  function LastWrite(ops: seq<Op>, n: nat, key: string): Option<PriceInfo> {
    if ops == [] then None else
    var op := ops[|ops| - 1];
    if op.Update? && op.n == n && KeyOf(op) == key then Some(op.p) else LastWrite(ops[..|ops| - 1], n, key)
  }

  /** The last price written for a network, source and identifier. */
  function LastUpdate(ops: seq<Op>, n: nat, source: string, identifier: string): Option<PriceInfo> {
    if ops == [] then None else
    var op := ops[|ops| - 1];
    if op.Update? && op.n == n && op.source == source && op.identifier == identifier then Some(op.p)
    else LastUpdate(ops[..|ops| - 1], n, source, identifier)
  }

  lemma {:induction false} LookupIsLastWrite(ops: seq<Op>, n: nat, key: string)
    ensures Lookup(AfterAll(ops), n, key) == LastWrite(ops, n, key)
  {
    if ops != [] {
      LookupIsLastWrite(ops[..|ops| - 1], n, key);
    }
  }

  ghost predicate ColonFreeRun(ops: seq<Op>) {
    forall op <- ops :: ColonFree(op.source)
  }

  lemma {:induction false} WritesAreUpdates(ops: seq<Op>, n: nat, source: string, identifier: string)
    requires ColonFreeRun(ops) && ColonFree(source)
    ensures LastWrite(ops, n, Prefixed(source, identifier)) == LastUpdate(ops, n, source, identifier)
  {
    if ops != [] {
      var most, op := ops[..|ops| - 1], ops[|ops| - 1];
      assert op in ops && forall o <- most :: o in ops;
      WritesAreUpdates(most, n, source, identifier);
      PrefixedIsInjective(op.source, op.identifier, source, identifier);
    }
  }

  /** GetPrice returns the last update of exactly that network, source and identifier. */
  lemma CacheIsAMap(ops: seq<Op>, n: nat, source: string, identifier: string)
    requires ColonFreeRun(ops) && ColonFree(source)
    ensures Lookup(AfterAll(ops), n, Prefixed(source, identifier)) == LastUpdate(ops, n, source, identifier)
  {
    LookupIsLastWrite(ops, n, Prefixed(source, identifier));
    WritesAreUpdates(ops, n, source, identifier);
  }

  /** The entries of one source, with their prefix undone. */
  ghost predicate IsSourceView(view: map<string, PriceInfo>, c: Cache, n: nat, source: string) {
    forall x :: (x in view <==> Lookup(c, n, Prefixed(source, x)).Some?)
                && (x in view ==> Lookup(c, n, Prefixed(source, x)) == Some(view[x]))
  }

  /** GetAllPricesBySource returns the last update of every identifier of that source, and nothing of
      any other source. */
  lemma SourceViewIsExact(ops: seq<Op>, n: nat, source: string, view: map<string, PriceInfo>)
    requires ColonFreeRun(ops) && ColonFree(source) && IsSourceView(view, AfterAll(ops), n, source)
    ensures forall x :: (x in view <==> LastUpdate(ops, n, source, x).Some?)
                        && (x in view ==> LastUpdate(ops, n, source, x) == Some(view[x]))
  {
    forall x ensures Lookup(AfterAll(ops), n, Prefixed(source, x)) == LastUpdate(ops, n, source, x) {
      CacheIsAMap(ops, n, source, x);
    }
  }
}
