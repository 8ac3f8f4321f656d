/// The key-value store of the two-phase-locking engine: an open-addressing hash index over a table of keys and
/// values, with one mutex per key.

module KeyValueStore {
  import opened Counting
  import opened Probing

  const INVALID := -100
  const SIZ_HASH_BUCKET := 100_000_000
  const HASH_DELTA := 13

  /** The stride and the number of buckets that are built in share no divisor. */
  lemma BuiltStride()
    ensures Coprime(HASH_DELTA, SIZ_HASH_BUCKET)
  {
    forall d: nat | Divides(d, HASH_DELTA) && Divides(d, SIZ_HASH_BUCKET) ensures d == 1 {
      var a: int :| HASH_DELTA == d * a;
      var b: int :| SIZ_HASH_BUCKET == d * b;
      assert d * (3 * b - 23076923 * a) == 3 * (d * b) - 23076923 * (d * a) == 1;
      DivModUnique(1, d, 3 * b - 23076923 * a, 0);
    }
  }

  datatype Slot = Slot(key: int, value: int)

  ghost predicate Distinct(keys: seq<int>) {
    forall i, j :: 0 <= i < j < |keys| ==> keys[i] != keys[j]
  }

  /** The table as a map. */
  function AsMap(keys: seq<int>, values: seq<int>): (m: map<int, int>)
    requires |keys| == |values|
    ensures m.Keys == set k | k in keys
  {
    if keys == [] then map[]
    else AsMap(keys[..|keys| - 1], values[..|keys| - 1])[keys[|keys| - 1] := values[|keys| - 1]]
  }

  lemma {:induction false} AsMapAt(keys: seq<int>, values: seq<int>, i: nat)
    requires |keys| == |values| && Distinct(keys) && i < |keys|
    ensures AsMap(keys, values)[keys[i]] == values[i]
  {
    var n := |keys| - 1;
    if i < n {
      AsMapAt(keys[..n], values[..n], i);
    }
  }

  lemma AsMapLast(keys: seq<int>, values: seq<int>)
    requires |keys| == |values| > 0
    ensures var n := |keys| - 1; AsMap(keys, values) == AsMap(keys[..n], values[..n])[keys[n] := values[n]]
  {
  }

  lemma UpdatesCommute(m: map<int, int>, a: int, x: int, b: int, y: int)
    requires a != b
    ensures m[a := x][b := y] == m[b := y][a := x]
  {
  }

  lemma {:induction false} AsMapUpdate(keys: seq<int>, values: seq<int>, i: nat, v: int)
    requires |keys| == |values| && Distinct(keys) && i < |keys|
    ensures AsMap(keys, values[i := v]) == AsMap(keys, values)[keys[i] := v]
  {
    var n := |keys| - 1;
    hide AsMap;
    AsMapLast(keys, values);
    AsMapLast(keys, values[i := v]);
    UpdateTake(values, i, v, n);
    if i < n {
      AsMapUpdate(keys[..n], values[..n], i, v);
      UpdatesCommute(AsMap(keys[..n], values[..n]), keys[i], v, keys[n], values[n]);
    } else {
      UpdatesOverwrite(AsMap(keys[..n], values[..n]), keys[n], values[n], v);
    }
  }

  lemma UpdateTake(values: seq<int>, i: nat, v: int, n: nat)
    requires i < |values| && n <= |values|
    ensures values[i := v][..n] == if i < n then values[..n][i := v] else values[..n]
  {
  }

  lemma UpdatesOverwrite(m: map<int, int>, a: int, x: int, y: int)
    ensures m[a := x][a := y] == m[a := y]
  {
  }

  ghost function Position(keys: seq<int>, k: int): (i: nat)
    requires k in keys
    ensures i < |keys| && keys[i] == k
  {
    var i: nat :| i < |keys| && keys[i] == k;
    i
  }

  /** The values found in the given buckets. */
  function Column(hash: seq<Slot>, slot: seq<nat>): (r: seq<int>)
    requires forall i :: 0 <= i < |slot| ==> slot[i] < |hash|
    ensures |r| == |slot|
  {
    seq(|slot|, i requires 0 <= i < |slot| => hash[slot[i]].value)
  }

  /** The keys are in the hash table, each in the bucket `slot` says; every other bucket is free. */
  ghost predicate Holds(hash: seq<Slot>, keys: seq<int>, slot: seq<nat>) {
    && |slot| == |keys| && Distinct(keys) && (forall i :: 0 <= i < |keys| ==> 0 <= keys[i])
    && (forall i :: 0 <= i < |slot| ==> slot[i] < |hash| && hash[slot[i]].key == keys[i])
    && (forall b: nat :: b < |hash| && hash[b].key != INVALID ==> b in slot)
  }

  /** A bucket that holds a key is the bucket of that key. */
  lemma BucketOf(hash: seq<Slot>, keys: seq<int>, slot: seq<nat>, b: nat, i: nat)
    requires Holds(hash, keys, slot) && b < |hash| && i < |keys| && hash[b].key == keys[i]
    ensures b == slot[i]
  {
    var j :| 0 <= j < |slot| && slot[j] == b;
    assert keys[j] == keys[i];
  }

  /** Probing reaches a key exactly when it is in the table: a lookup of any other key would never end. */
  lemma LookupEndsIff(hash: seq<Slot>, keys: seq<int>, slot: seq<nat>, k: nat, delta: nat)
    requires Holds(hash, keys, slot) && 0 < |hash| && Coprime(delta, |hash|)
    ensures (exists i: nat :: hash[Probe(k % |hash|, delta, |hash|, i)].key == k) <==> k in keys
  {
    if k in keys {
      var j :| 0 <= j < |keys| && keys[j] == k;
      var i := FullCycle(k % |hash|, delta, |hash|, slot[j]);
      assert hash[Probe(k % |hash|, delta, |hash|, i)].key == k;
    }
    forall i: nat | hash[Probe(k % |hash|, delta, |hash|, i)].key == k ensures k in keys {
      var j :| 0 <= j < |slot| && slot[j] == Probe(k % |hash|, delta, |hash|, i);
      assert keys[j] == k;
    }
  }

  /** Putting a new key into a free bucket. */
  lemma Occupy(hash: seq<Slot>, keys: seq<int>, slot: seq<nat>, b: nat, k: nat, v: int)
    requires Holds(hash, keys, slot) && b < |hash| && hash[b].key == INVALID && k !in keys
    ensures Holds(hash[b := Slot(k, v)], keys + [k], slot + [b])
    ensures Column(hash[b := Slot(k, v)], slot + [b]) == Column(hash, slot) + [v]
  {
    var hash', slot' := hash[b := Slot(k, v)], slot + [b];
    assert forall i :: 0 <= i < |slot| ==> slot[i] != b;
    forall c: nat | c < |hash'| && hash'[c].key != INVALID ensures c in slot' {
      if c == b {
        assert slot'[|slot|] == b;
      } else {
        var j :| 0 <= j < |slot| && slot[j] == c;
        assert slot'[j] == c;
      }
    }
  }

  /** Changing the value in the bucket of one key. */
  lemma Overwrite(hash: seq<Slot>, keys: seq<int>, slot: seq<nat>, j: nat, v: int)
    requires Holds(hash, keys, slot) && j < |keys|
    ensures Holds(hash[slot[j] := Slot(keys[j], v)], keys, slot)
    ensures Column(hash[slot[j] := Slot(keys[j], v)], slot) == Column(hash, slot)[j := v]
  {
    forall i | 0 <= i < |slot| && slot[i] == slot[j] ensures i == j {
      assert keys[i] == keys[j];
    }
  }

  class KVS {
    const delta: nat                   // HASH_DELTA
    const hash: array<Slot>
    const key: array<int>
    const value: array<int>
    const mutex: array<bool>           // whether `_lock[key]` is held
    ghost var slot: seq<nat>           // the bucket of each key

    ghost predicate Valid()
      reads this, hash, key, value
    {
      && key != value && key.Length == value.Length
      && 0 < hash.Length && delta <= hash.Length && Coprime(delta, hash.Length)
      && Holds(hash[..], key[..], slot)
    }

    /** What the index maps each key to. */
    ghost function Contents(): map<int, int>
      reads this, hash, key, value
      requires Valid()
    {
      AsMap(key[..], Column(hash[..], slot))
    }

    /** What the table of values holds for each key. */
    ghost function Stored(): map<int, int>
      reads this, hash, key, value
      requires Valid()
    {
      AsMap(key[..], value[..])
    }

    /** Builds the table and its index. Any keys will do as long as they are distinct and fit the buckets, and any
        stride that shares no divisor with the number of buckets. */
    constructor (keys: seq<int>, values: seq<int>, buckets: nat, stride: nat, locks: nat)
      requires |keys| == |values| <= buckets && 0 < buckets && stride <= buckets && Coprime(stride, buckets)
      requires Distinct(keys) && forall i :: 0 <= i < |keys| ==> 0 <= keys[i]
      ensures Valid() && fresh(hash) && fresh(key) && fresh(value) && fresh(mutex)
      ensures key[..] == keys && value[..] == values && hash.Length == buckets && delta == stride
      ensures mutex.Length == locks && forall k :: 0 <= k < locks ==> !mutex[k]
      ensures Contents() == Stored() == AsMap(keys, values)
    {
      delta := stride;
      key := new int[|keys|](i requires 0 <= i < |keys| => keys[i]);
      value := new int[|values|](i requires 0 <= i < |values| => values[i]);
      mutex := new bool[locks](_ => false);
      hash := new Slot[buckets](_ => Slot(INVALID, 0));
      slot := [];
      new;
      var i := 0;
      while i < key.Length
        invariant 0 <= i <= key.Length && key[..] == keys && value[..] == values
        invariant Holds(hash[..], keys[..i], slot)
        invariant Column(hash[..], slot) == values[..i]
        invariant forall k :: 0 <= k < locks ==> !mutex[k]
      {
        var k := key[i];
        var bid := FindFree(k, keys[..i]);
        Occupy(hash[..], keys[..i], slot, bid, k, values[i]);
        assert keys[..i + 1] == keys[..i] + [k] && values[..i + 1] == values[..i] + [values[i]];
        hash[bid] := Slot(key[i], value[i]);
        slot := slot + [bid];
        i := i + 1;
      }
      assert keys[..i] == keys && values[..i] == values;
    }

    /** The inner loop of the constructor: the first free bucket on the probe path of `k`. */
    method FindFree(k: nat, ghost keys: seq<int>) returns (bid: nat)
      requires 0 < hash.Length && delta <= hash.Length && Coprime(delta, hash.Length)
      requires Holds(hash[..], keys, slot) && |keys| < hash.Length
      ensures bid < hash.Length && hash[bid].key == INVALID
      ensures exists i: nat :: bid == Probe(k % hash.Length, delta, hash.Length, i)
                && forall j: nat :: j < i ==> hash[Probe(k % hash.Length, delta, hash.Length, j)].key != INVALID
    {
      ghost var n, home := hash.Length, k % hash.Length;
      ghost var free := FreeBucket(slot, n);
      ghost var last := FullCycle(home, delta, n, free);
      ghost var i: nat := 0;
      bid := k % hash.Length;
      ProbeStart(home, delta, n);
      assert hash[..][free].key == INVALID;
      while hash[bid].key != INVALID
        invariant i <= last && bid == Probe(home, delta, n, i)
        invariant forall j: nat :: j < i ==> hash[Probe(home, delta, n, j)].key != INVALID
        decreases last - i
      {
        ProbeNext(home, delta, n, i);
        i := i + 1;
        bid := bid + delta;
        if bid >= hash.Length {
          bid := bid - hash.Length;
        }
      }
    }

    /** The probe loop of `index_read` and `index_update`. */
    method Find(k: int) returns (bid: nat, ghost i: nat)
      requires Valid() && k in key[..]
      ensures i < key.Length && key[i] == k && bid == slot[i] && bid < hash.Length && hash[bid].key == k
    {
      i :| i < key.Length && key[i] == k;
      ghost var n, home := hash.Length, k % hash.Length;
      ghost var last := FullCycle(home, delta, n, slot[i]);
      ghost var p: nat := 0;
      assert hash[..][slot[i]].key == key[..][i];
      bid := k % hash.Length;
      ProbeStart(home, delta, n);
      while true
        invariant p <= last && bid == Probe(home, delta, n, p)
        decreases last - p
      {
        if hash[bid].key == k { break; }
        ProbeNext(home, delta, n, p);
        p := p + 1;
        bid := bid + delta;
        if bid >= hash.Length {
          bid := bid - hash.Length;
        }
      }
      assert hash[..][bid].key == key[..][i];
      BucketOf(hash[..], key[..], slot, bid, i);
    }

    /** Reads through the index. */
    method IndexRead(k: int) returns (v: int)
      requires Valid() && k in key[..]
      ensures k in Contents() && v == Contents()[k]
    {
      var bid; ghost var i;
      bid, i := Find(k);
      AsMapAt(key[..], Column(hash[..], slot), i);
      return hash[bid].value;
    }

    /** Updates through the index: that key only, and not the table of values. */
    method IndexUpdate(k: int, v: int)
      requires Valid() && k in key[..]
      modifies hash
      ensures Valid() && Contents() == old(Contents())[k := v] && Stored() == old(Stored())
    {
      var bid; ghost var i;
      bid, i := Find(k);
      Overwrite(hash[..], key[..], slot, i, v);
      AsMapUpdate(key[..], Column(hash[..], slot), i, v);
      hash[bid] := hash[bid].(value := v);
      assert hash[..] == old(hash[..])[slot[i] := Slot(key[i], v)];
    }

    /** Reads the table of values, not the index; 0 when there is no such key. */
    method Read(k: int) returns (v: int)
      requires Valid()
      ensures v == if k in Stored() then Stored()[k] else 0
    {
      for i := 0 to key.Length
        invariant k !in key[..i]
      {
        if k == key[i] {
          AsMapAt(key[..], value[..], i);
          return value[i];
        }
      }
      return 0;
    }

    /** Updates the table of values only, so that the index no longer agrees with it. */
    method Update(k: int, v: int)
      requires Valid()
      modifies value
      ensures Valid() && Contents() == old(Contents())
      ensures Stored() == if k in key[..] then old(Stored())[k := v] else old(Stored())
    {
      hide AsMap, Column;
      ghost var before := value[..];
      ghost var hit := if k in key[..] then Position(key[..], k) else -1;
      for i := 0 to key.Length
        invariant value[..] == if 0 <= hit < i then before[hit := v] else before
      {
        assert key[..][i] == key[i];
        if k == key[i] {
          value[i] := v;
        }
      }
      if hit >= 0 {
        AsMapUpdate(key[..], before, hit, v);
      }
      assert value[..] == if hit >= 0 then before[hit := v] else before;
    }

    /** `pthread_mutex_trylock`. */
    method Lock(k: nat) returns (ok: bool)
      requires k < mutex.Length
      modifies mutex
      ensures ok == !old(mutex[k]) && mutex[..] == old(mutex[..])[k := true]
    {
      if mutex[k] {
        return false;
      }
      mutex[k] := true;
      return true;
    }

    method Unlock(k: nat)
      requires k < mutex.Length && mutex[k]
      modifies mutex
      ensures mutex[..] == old(mutex[..])[k := false]
    {
      mutex[k] := false;
    }
  }
}
