/** The 32-bit FNV-1 hash that picks a key's shard in shared/patterns/concurrent.go. */
module Fnv {
  type Key = seq<bv8>

  const OFFSET: bv32 := 2166136261

  function Times(hash: bv32): bv32 {
    hash * 16777619
  }

  function Mix(hash: bv32, b: bv8): bv32 {
    hash ^ (b as bv32)
  }

  function Fold(hash: bv32, b: bv8): bv32 {
    Mix(Times(hash), b)
  }

  /** FNV-1 over a byte string: multiply, then xor, byte by byte. */
  function Hash(key: Key): bv32 {
    if key == [] then OFFSET else Fold(Hash(key[..|key| - 1]), key[|key| - 1])
  }

  method Fnv32(key: Key) returns (hash: bv32)
    ensures hash == Hash(key)
  {
    hash := OFFSET;
    for i := 0 to |key|
      invariant hash == Hash(key[..i])
    {
      assert key[..i + 1][..i] == key[..i];
      hash := Times(hash);
      hash := Mix(hash, key[i]);
    }
    assert key[..|key|] == key;
  }

  /** The published FNV-1 values of "", "a" and "ab". */
  lemma KnownHashes()
    ensures Hash([]) == 0x811c_9dc5 && Hash([0x61]) == 0x050c_5d7e && Hash([0x61, 0x62]) == 0x7077_2d38
  {
    var a: Key, ab: Key := [0x61], [0x61, 0x62];
    assert a[..0] == [] && ab[..1] == a;
  }

  /** Multiplies by 0x359c449b, the prime's inverse modulo 2^32. */
  function Untimes(hash: bv32): bv32 {
    hash * 0x359c_449b
  }

  function Unfold(hash: bv32, b: bv8): bv32 {
    Untimes(Mix(hash, b))
  }

  lemma UntimesProduct(hash: bv32)
    ensures Untimes(hash * 16777619) == hash
  {
  }

  lemma TimesQuotient(hash: bv32)
    ensures Times(hash * 0x359c_449b) == hash
  {
  }

  lemma TimesIsBijective(hash: bv32)
    ensures Untimes(Times(hash)) == hash && Times(Untimes(hash)) == hash
  {
    UntimesProduct(hash);
    TimesQuotient(hash);
  }

  lemma MixTwice(hash: bv32, b: bv8)
    ensures Mix(Mix(hash, b), b) == hash
  {
  }

  lemma MixSeparatesBytes(hash: bv32, b: bv8, d: bv8)
    requires Mix(hash, b) == Mix(hash, d)
    ensures b == d
  {
  }

  /** The step is a bijection on hash values. */
  lemma FoldIsBijective(hash: bv32, b: bv8)
    ensures Unfold(Fold(hash, b), b) == hash && Fold(Unfold(hash, b), b) == hash
  {
    MixTwice(Times(hash), b);
    MixTwice(hash, b);
    TimesIsBijective(hash);
    TimesIsBijective(Mix(hash, b));
  }

  ghost predicate DifferOnlyAt(k: Key, l: Key, i: nat) {
    |k| == |l| && i < |k| && k[i] != l[i] && forall j :: 0 <= j < |k| && j != i ==> k[j] == l[j]
  }

  /** Keys of equal length that differ in exactly one byte never share a hash. */
  lemma {:induction false} OneByteApart(k: Key, l: Key, i: nat)
    requires DifferOnlyAt(k, l, i)
    ensures Hash(k) != Hash(l)
  {
    var n := |k| - 1;
    var g, h := Hash(k[..n]), Hash(l[..n]);
    if i == n {
      assert k[..n] == l[..n];
      if Hash(k) == Hash(l) {
        MixSeparatesBytes(Times(g), k[n], l[n]);
      }
    } else {
      OneByteApart(k[..n], l[..n], i);
      FoldIsBijective(g, k[n]);
      FoldIsBijective(h, k[n]);
    }
  }

  // ---------- the shard index ----------

  function Low(x: bv32): bv5 {
    (x & 31) as bv5
  }

  function LowByte(b: bv8): bv5 {
    (b & 31) as bv5
  }

  /** The low five bits of a key's hash. */
  function Slot(key: Key): bv5 {
    Low(Hash(key))
  }

  function SlotStep(slot: bv5, b: bv8): bv5 {
    (slot * 19) ^ LowByte(b)
  }

  /** GetShard's remainder modulo the 32 shards is the slot. */
  lemma SlotIsRemainder(hash: bv32)
    ensures hash % 32 == Low(hash) as bv32
  {
  }

  /** The shard index follows a recurrence on five bits: start at 5, times 19, xor the byte's low five. */
  lemma SlotRecurrence(key: Key)
    ensures Slot(key) == if key == [] then 5 else SlotStep(Slot(key[..|key| - 1]), key[|key| - 1])
  {
  }

  lemma SlotStepIsInjective(s: bv5, t: bv5, b: bv8, d: bv8)
    ensures SlotStep(s, b) == SlotStep(t, b) <==> s == t
    ensures SlotStep(s, b) == SlotStep(s, d) <==> LowByte(b) == LowByte(d)
  {
  }

  /** Such keys share a shard exactly when their differing bytes agree in the low five bits. */
  lemma {:induction false} OneByteApartSlots(k: Key, l: Key, i: nat)
    requires DifferOnlyAt(k, l, i)
    ensures Slot(k) == Slot(l) <==> LowByte(k[i]) == LowByte(l[i])
  {
    var n := |k| - 1;
    SlotRecurrence(k);
    SlotRecurrence(l);
    SlotStepIsInjective(Slot(k[..n]), Slot(l[..n]), k[n], l[n]);
    if i == n {
      assert k[..n] == l[..n];
    } else {
      OneByteApartSlots(k[..n], l[..n], i);
    }
  }
}
