/** Keys of the sharded map: a loop over the shards counts the entries, one goroutine per shard sends
    its names over a channel with room for that many, and a loop receives exactly that many times.
    Writers go on throughout. The goroutines are those of ShardIteration; what differs is that the
    receiver stops when it has its count, and that receiving from the closed, drained channel gives
    the zero value. */
module KeysCollection {
  import opened Fnv
  import opened ShardedMap
  import opened ShardIteration

  datatype Collection<V> = Collection(
    it: State<V>,
    counted: nat,  // shards counted so far
    count: nat,
    fillers: nat   // zero values received
  )

  datatype Move<!V> =
    | CountShard
    | Go(a: Action<V>)
    | Fill  // receive from the closed, drained channel

  function Start<V>(parts: seq<map<Key, V>>): Collection<V> {
    Collection(Initial(parts, 0), 0, 0, 0)
  }

  predicate Receiving<V>(s: Collection<V>) {
    |s.it.received| + s.fillers < s.count
  }

  predicate Returned<V>(s: Collection<V>) {
    s.counted == SHARD_COUNT && |s.it.received| + s.fillers == s.count
  }

  predicate CanMove<V>(s: Collection<V>, m: Move<V>)
    requires |s.it.parts| == |s.it.workers| == SHARD_COUNT
  {
    match m
    case CountShard => s.counted < SHARD_COUNT
    case Fill => s.counted == SHARD_COUNT && s.it.closes > 0 && s.it.buffer == [] && Receiving(s)
    case Go(a) =>
      Enabled(s.it, a)
      && (a.Write? || (s.counted == SHARD_COUNT && !a.End? && (a.Receive? || a.Handoff? ==> Receiving(s))))
  }

  function Moved<V>(s: Collection<V>, m: Move<V>): Collection<V>
    requires |s.it.parts| == |s.it.workers| == SHARD_COUNT && CanMove(s, m)
  {
    match m
    case CountShard =>
      var count := s.count + |s.it.parts[s.counted]|;
      s.(counted := s.counted + 1, count := count, it := s.it.(capacity := count))
    case Fill => s.(fillers := s.fillers + 1)
    case Go(a) => s.(it := Next(s.it, a))
  }

  function Names<V>(entries: seq<Entry<V>>): (names: seq<Key>)
    ensures |names| == |entries| && forall i :: 0 <= i < |names| ==> names[i] == entries[i].0
  {
    seq(|entries|, i requires 0 <= i < |entries| => entries[i].0)
  }

  /** The slice that Keys returns, zero values included. */
  function ReturnedKeys<V>(s: Collection<V>): seq<Key> {
    Names(s.it.received) + seq(s.fillers, _ => [])
  }

  ghost predicate Untouched<V>(it: State<V>) {
    it.received == it.buffer == [] && it.closes == 0
  }

  ghost predicate CInv<V>(s: Collection<V>) {
    && Inv(s.it) && s.counted <= SHARD_COUNT && s.it.capacity == s.count && !s.it.ended
    && |s.it.buffer| <= s.count && |s.it.received| + s.fillers <= s.count
    && (s.fillers > 0 ==> s.it.closes > 0 && s.it.buffer == [])
    && (s.counted < SHARD_COUNT ==> Untouched(s.it))
  }

  lemma MoveKeepsInv<V>(s: Collection<V>, m: Move<V>)
    requires CInv(s) && CanMove(s, m)
    ensures CInv(Moved(s, m))
  {
    if m.Go? {
      StepKeepsInv(s.it, m.a);
      if s.it.closes > 0 {
        NoSendAfterClose(s.it, m.a);
      }
      GoKeepsChannel(s, m.a);
    } else {
      SameButCapacity(s.it, Moved(s, m).it);
    }
  }

  lemma GoKeepsChannel<V>(s: Collection<V>, a: Action<V>)
    requires CInv(s) && CanMove(s, Go(a)) && (s.it.closes > 0 ==> !a.Send? && !a.Handoff? && !a.Close?)
    ensures var it := Next(s.it, a);
            && it.capacity == s.count && !it.ended && |it.buffer| <= s.count && |it.received| + s.fillers <= s.count
            && (s.fillers > 0 ==> it.closes > 0 && it.buffer == [])
            && (s.counted < SHARD_COUNT ==> Untouched(it))
  {
  }

  lemma SameButCapacity<V>(s: State<V>, t: State<V>)
    requires Inv(s) && t == s.(capacity := t.capacity)
    ensures Inv(t)
  {
  }

  lemma NoSendAfterClose<V>(s: State<V>, a: Action<V>)
    requires Inv(s) && Enabled(s, a) && s.closes > 0
    ensures !a.Send? && !a.Handoff? && !a.Close?
  {
    AllFinished(s);
  }

  ghost predicate Course<V>(s: Collection<V>, ms: seq<Move<V>>)
    decreases |ms|
  {
    ms == [] || (Shaped(s.it) && CanMove(s, ms[0]) && Course(Moved(s, ms[0]), ms[1..]))
  }

  ghost function After<V>(s: Collection<V>, ms: seq<Move<V>>): Collection<V>
    requires Course(s, ms)
    decreases |ms|
  {
    if ms == [] then s else After(Moved(s, ms[0]), ms[1..])
  }

  lemma {:induction false} CourseKeepsInv<V>(s: Collection<V>, ms: seq<Move<V>>)
    requires CInv(s) && Course(s, ms)
    ensures CInv(After(s, ms))
    decreases |ms|
  {
    if ms != [] {
      MoveKeepsInv(s, ms[0]);
      CourseKeepsInv(Moved(s, ms[0]), ms[1..]);
    }
  }

  lemma StartInv<V>(parts: seq<map<Key, V>>)
    requires |parts| == SHARD_COUNT && Placed(parts)
    ensures CInv(Start(parts))
  {
    InitialInv(parts, 0);
  }
}
