/** The sharded map of shared/patterns/concurrent.go: 32 maps, each behind its own lock, that
    together behave like one map. Every operation on one key is one critical section of that
    key's shard. */
module ShardedMap {
  import opened Wrappers
  import opened Fnv

  const SHARD_COUNT := 32

  function ShardOf(key: Key): (i: nat)
    ensures i < SHARD_COUNT
  {
    var r := Hash(key) % 32;
    assert r <= 31 && r as nat <= 31;
    r as nat
  }

  lemma SameShard(k: Key, l: Key)
    ensures ShardOf(k) == ShardOf(l) <==> Slot(k) == Slot(l)
  {
  }

  // ---------- many maps as one ----------

  /** A key lives only in its own shard. */
  ghost predicate Placed<V>(parts: seq<map<Key, V>>) {
    forall i, k :: 0 <= i < |parts| && k in parts[i] ==> ShardOf(k) == i
  }

  ghost function Union<V>(parts: seq<map<Key, V>>): map<Key, V> {
    if parts == [] then map[] else Union(parts[..|parts| - 1]) + parts[|parts| - 1]
  }

  ghost function Total<V>(parts: seq<map<Key, V>>): nat {
    if parts == [] then 0 else Total(parts[..|parts| - 1]) + |parts[|parts| - 1]|
  }

  /** Looking up a key in the union is looking it up in its own shard. */
  lemma {:induction false} UnionLookup<V>(parts: seq<map<Key, V>>, k: Key)
    requires Placed(parts)
    ensures k in Union(parts) <==> ShardOf(k) < |parts| && k in parts[ShardOf(k)]
    ensures k in Union(parts) ==> Union(parts)[k] == parts[ShardOf(k)][k]
  {
    if parts != [] {
      UnionLookup(parts[..|parts| - 1], k);
    }
  }

  lemma {:induction false} UnionSize<V>(parts: seq<map<Key, V>>)
    requires Placed(parts)
    ensures |Union(parts)| == Total(parts)
  {
    if parts != [] {
      var n := |parts| - 1;
      UnionSize(parts[..n]);
      var a, b := Union(parts[..n]), parts[n];
      forall k | k in a ensures k !in b {
        UnionLookup(parts[..n], k);
      }
      assert (a + b).Keys == a.Keys + b.Keys;
      assert |a.Keys + b.Keys| == |a.Keys| + |b.Keys|;
    }
  }

  // ---------- operations on one key ----------

  datatype Op<!V> =
    | Get(key: Key)
    | Has(key: Key)
    | Set(key: Key, value: V)
    | SetIfAbsent(key: Key, value: V)
    | Upsert(key: Key, value: V, cb: (Option<V>, V) -> V)
    | Remove(key: Key)
    | Pop(key: Key)

  datatype Reply<V> = Nothing | Flag(b: bool) | Found(v: Option<V>) | Result(res: V)

  function Lookup<V>(m: map<Key, V>, k: Key): Option<V> {
    if k in m then Some(m[k]) else None
  }

  /** What the operation means on a plain map. */
  function Plain<V>(m: map<Key, V>, op: Op<V>): (map<Key, V>, Reply<V>) {
    match op
    case Get(k) => (m, Found(Lookup(m, k)))
    case Has(k) => (m, Flag(k in m))
    case Set(k, v) => (m[k := v], Nothing)
    case SetIfAbsent(k, v) => if k in m then (m, Flag(false)) else (m[k := v], Flag(true))
    case Upsert(k, v, cb) => var res := cb(Lookup(m, k), v); (m[k := res], Result(res))
    case Remove(k) => (m - {k}, Nothing)
    case Pop(k) => (m - {k}, Found(Lookup(m, k)))
  }

  /** What it does to the shards. */
  function Sharded<V>(parts: seq<map<Key, V>>, op: Op<V>): (seq<map<Key, V>>, Reply<V>)
    requires |parts| == SHARD_COUNT
  {
    var i := ShardOf(op.key);
    var (part, reply) := Plain(parts[i], op);
    (parts[i := part], reply)
  }

  lemma PlainTouchesKeyOnly<V>(m: map<Key, V>, op: Op<V>, k: Key)
    requires k != op.key
    ensures Lookup(Plain(m, op).0, k) == Lookup(m, k)
  {
  }

  lemma PlainDependsOnKeyOnly<V>(m: map<Key, V>, n: map<Key, V>, op: Op<V>)
    requires Lookup(m, op.key) == Lookup(n, op.key)
    ensures Lookup(Plain(m, op).0, op.key) == Lookup(Plain(n, op).0, op.key)
    ensures Plain(m, op).1 == Plain(n, op).1
  {
  }

  lemma EqualLookups<V>(m: map<Key, V>, n: map<Key, V>)
    requires forall k :: Lookup(m, k) == Lookup(n, k)
    ensures m == n
  {
    forall k ensures k in m <==> k in n {
      assert Lookup(m, k) == Lookup(n, k);
    }
    forall k | k in m ensures m[k] == n[k] {
      assert Lookup(m, k) == Lookup(n, k);
    }
  }

  lemma UnionLookupOption<V>(parts: seq<map<Key, V>>, k: Key)
    requires Placed(parts) && |parts| == SHARD_COUNT
    ensures Lookup(Union(parts), k) == Lookup(parts[ShardOf(k)], k)
  {
    UnionLookup(parts, k);
  }

  lemma ShardedKeepsPlaced<V>(parts: seq<map<Key, V>>, op: Op<V>)
    requires Placed(parts) && |parts| == SHARD_COUNT
    ensures Placed(Sharded(parts, op).0)
  {
  }

  /** Every operation on the shards is the same operation on one plain map. */
  lemma Refines<V>(parts: seq<map<Key, V>>, op: Op<V>)
    requires Placed(parts) && |parts| == SHARD_COUNT
    ensures Placed(Sharded(parts, op).0)
    ensures (Union(Sharded(parts, op).0), Sharded(parts, op).1) == Plain(Union(parts), op)
  {
    ShardedKeepsPlaced(parts, op);
    var i, now := ShardOf(op.key), Sharded(parts, op).0;
    UnionLookupOption(parts, op.key);
    PlainDependsOnKeyOnly(parts[i], Union(parts), op);
    forall k ensures Lookup(Union(now), k) == Lookup(Plain(Union(parts), op).0, k) {
      UnionLookupOption(now, k);
      UnionLookupOption(parts, k);
      if k != op.key {
        PlainTouchesKeyOnly(Union(parts), op, k);
        PlainTouchesKeyOnly(parts[i], op, k);
      }
    }
    EqualLookups(Union(now), Plain(Union(parts), op).0);
  }

  lemma UnionSet<V>(parts: seq<map<Key, V>>, k: Key, v: V)
    requires Placed(parts) && |parts| == SHARD_COUNT
    ensures var i := ShardOf(k);
            Placed(parts[i := parts[i][k := v]]) && Union(parts[i := parts[i][k := v]]) == Union(parts)[k := v]
  {
    Refines(parts, Op.Set(k, v));
  }

  function RunPlain<V>(m: map<Key, V>, ops: seq<Op<V>>): (map<Key, V>, seq<Reply<V>>)
    decreases |ops|
  {
    if ops == [] then (m, []) else
    var (now, reply) := Plain(m, ops[0]);
    var (end, replies) := RunPlain(now, ops[1..]);
    (end, [reply] + replies)
  }

  function RunSharded<V>(parts: seq<map<Key, V>>, ops: seq<Op<V>>): (seq<map<Key, V>>, seq<Reply<V>>)
    requires |parts| == SHARD_COUNT
    decreases |ops|
  {
    if ops == [] then (parts, []) else
    var (now, reply) := Sharded(parts, ops[0]);
    var (end, replies) := RunSharded(now, ops[1..]);
    (end, [reply] + replies)
  }

  /** In whatever order the critical sections of concurrent callers follow each other, every caller
      gets the answer one plain map would have given at that point. */
  lemma {:induction false} EveryRunRefines<V>(parts: seq<map<Key, V>>, ops: seq<Op<V>>)
    requires Placed(parts) && |parts| == SHARD_COUNT
    ensures Placed(RunSharded(parts, ops).0)
    ensures (Union(RunSharded(parts, ops).0), RunSharded(parts, ops).1) == RunPlain(Union(parts), ops)
    decreases |ops|
  {
    if ops != [] {
      Refines(parts, ops[0]);
      EveryRunRefines(Sharded(parts, ops[0]).0, ops[1..]);
    }
  }

  /** Operations on different shards commute, and neither sees the other. */
  lemma ShardsCommute<V>(parts: seq<map<Key, V>>, a: Op<V>, b: Op<V>)
    requires |parts| == SHARD_COUNT && ShardOf(a.key) != ShardOf(b.key)
    ensures Sharded(Sharded(parts, a).0, b).0 == Sharded(Sharded(parts, b).0, a).0
    ensures Sharded(Sharded(parts, a).0, b).1 == Sharded(parts, b).1
    ensures Sharded(Sharded(parts, b).0, a).1 == Sharded(parts, a).1
  {
    var i, j := ShardOf(a.key), ShardOf(b.key);
    assert Sharded(parts, a).0[j] == parts[j] && Sharded(parts, b).0[i] == parts[i];
  }

  lemma OneMoreEntry<V>(m: map<Key, V>, data: map<Key, V>, todo: set<Key>, key: Key)
    requires key in todo && todo <= data.Keys
    ensures (m + (data - todo))[key := data[key]] == m + (data - (todo - {key}))
  {
  }

  // ---------- the object ----------

  class Shard<V> {
    var items: map<Key, V>

    constructor ()
      ensures items == map[]
    {
      items := map[];
    }
  }

  class ConcurrentMap<V> {
    const shards: seq<Shard<V>>

    ghost function Parts(): (parts: seq<map<Key, V>>)
      reads shards
      ensures |parts| == |shards| && forall i :: 0 <= i < |parts| ==> parts[i] == shards[i].items
    {
      seq(|shards|, i requires 0 <= i < |shards| reads shards => shards[i].items)
    }

    ghost predicate Valid()
      reads shards
    {
      && |shards| == SHARD_COUNT
      && (forall i, j :: 0 <= i < j < |shards| ==> shards[i] != shards[j])
      && Placed(Parts())
    }

    /** The one map that the shards stand for. */
    ghost function View(): map<Key, V>
      reads shards
    {
      Union(Parts())
    }

    constructor ()
      ensures Valid() && fresh(shards)
      ensures View() == map[]
    {
      var made: seq<Shard<V>> := [];
      for i := 0 to SHARD_COUNT
        invariant |made| == i
        invariant forall s <- made :: fresh(s) && s.items == map[]
        invariant forall j, k :: 0 <= j < k < i ==> made[j] != made[k]
      {
        var s := new Shard<V>();
        made := made + [s];
      }
      shards := made;
      new;
      assert Placed(Parts());
      forall k ensures k !in View() {
        UnionLookup(Parts(), k);
      }
    }

    method GetShard(key: Key) returns (i: nat)
      requires Valid()
      ensures i == ShardOf(key) && i < |shards|
    {
      var hash := Fnv32(key);
      var r := hash % 32;
      i := r as nat;
      assert i == ShardOf(key);
    }

    method Set(key: Key, value: V)
      requires Valid()
      modifies shards
      ensures Valid() && View() == old(View())[key := value]
      ensures (View(), Nothing) == Plain(old(View()), Op.Set(key, value))
    {
      var i := GetShard(key);
      Refines(Parts(), Op.Set(key, value));
      shards[i].items := shards[i].items[key := value];
      assert Parts() == Sharded(old(Parts()), Op.Set(key, value)).0;
    }

    method MSet(data: map<Key, V>)
      requires Valid()
      modifies shards
      ensures Valid() && View() == old(View()) + data
    {
      var todo := data.Keys;
      while todo != {}
        invariant Valid() && todo <= data.Keys
        invariant View() == old(View()) + (data - todo)
      {
        var key :| key in todo;
        OneMoreEntry(old(View()), data, todo, key);
        Set(key, data[key]);
        todo := todo - {key};
      }
      assert data - {} == data;
    }

    method Upsert(key: Key, value: V, cb: (Option<V>, V) -> V) returns (res: V)
      requires Valid()
      modifies shards
      ensures Valid() && res == cb(Lookup(old(View()), key), value)
      ensures View() == old(View())[key := res]
      ensures (View(), Result(res)) == Plain(old(View()), Op.Upsert(key, value, cb))
    {
      var i := GetShard(key);
      Refines(Parts(), Op.Upsert(key, value, cb));
      res := cb(if key in shards[i].items then Some(shards[i].items[key]) else None, value);
      shards[i].items := shards[i].items[key := res];
      assert Parts() == Sharded(old(Parts()), Op.Upsert(key, value, cb)).0;
    }

    method SetIfAbsent(key: Key, value: V) returns (stored: bool)
      requires Valid()
      modifies shards
      ensures Valid() && stored == (key !in old(View()))
      ensures View() == if stored then old(View())[key := value] else old(View())
      ensures (View(), Flag(stored)) == Plain(old(View()), Op.SetIfAbsent(key, value))
    {
      var i := GetShard(key);
      Refines(Parts(), Op.SetIfAbsent(key, value));
      stored := key !in shards[i].items;
      if stored {
        shards[i].items := shards[i].items[key := value];
      }
      assert Parts() == Sharded(old(Parts()), Op.SetIfAbsent(key, value)).0;
    }

    method Get(key: Key) returns (v: Option<V>)
      requires Valid()
      ensures v == Lookup(View(), key)
      ensures (View(), Found(v)) == Plain(View(), Op.Get(key))
    {
      var i := GetShard(key);
      UnionLookupOption(Parts(), key);
      v := if key in shards[i].items then Some(shards[i].items[key]) else None;
    }

    method Has(key: Key) returns (found: bool)
      requires Valid()
      ensures found == (key in View())
      ensures (View(), Flag(found)) == Plain(View(), Op.Has(key))
    {
      var i := GetShard(key);
      UnionLookup(Parts(), key);
      found := key in shards[i].items;
    }

    method Remove(key: Key)
      requires Valid()
      modifies shards
      ensures Valid() && View() == old(View()) - {key}
      ensures (View(), Nothing) == Plain(old(View()), Op.Remove(key))
    {
      var i := GetShard(key);
      Refines(Parts(), Op.Remove(key));
      shards[i].items := shards[i].items - {key};
      assert Parts() == Sharded(old(Parts()), Op.Remove(key)).0;
    }

    method Pop(key: Key) returns (v: Option<V>)
      requires Valid()
      modifies shards
      ensures Valid() && View() == old(View()) - {key}
      ensures v == Lookup(old(View()), key)
      ensures (View(), Found(v)) == Plain(old(View()), Op.Pop(key))
    {
      var i := GetShard(key);
      Refines(Parts(), Op.Pop(key));
      v := if key in shards[i].items then Some(shards[i].items[key]) else None;
      shards[i].items := shards[i].items - {key};
      assert Parts() == Sharded(old(Parts()), Op.Pop(key)).0;
    }

    method Count() returns (count: nat)
      requires Valid()
      ensures count == |View()|
    {
      count := 0;
      for i := 0 to SHARD_COUNT
        invariant count == Total(Parts()[..i])
      {
        assert Parts()[..i + 1][..i] == Parts()[..i];
        count := count + |shards[i].items|;
      }
      assert Parts()[..SHARD_COUNT] == Parts();
      UnionSize(Parts());
    }
  }
}
