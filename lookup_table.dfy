/** `threadsafe_lookup_table`: a hash map made of a fixed number of
    buckets, each a list of key/value pairs. A key lives in the bucket
    `hash(key) % buckets.size()`, at most once. The per-bucket
    `shared_mutex` is left out (one thread) and `std::hash` is a parameter
    of the table. */
module LookupTable {
  import opened Common

  /** The number of buckets when the caller does not choose one. */
  const DefaultBucketCount: nat := 19

  /** `find_entry_for`: the position of the first pair with key `key`, or
      `|data|` (the list's end) when there is none. */
  function Find<K(==), V>(data: seq<(K, V)>, key: K): (i: nat)
    ensures i <= |data|
    ensures i < |data| ==> data[i].0 == key
    ensures forall j | 0 <= j < i :: data[j].0 != key
  {
    if data == [] then 0
    else if data[0].0 == key then 0
    else
      var i := Find(data[1..], key);
      assert forall j | 1 <= j < |data| :: data[j] == data[1..][j - 1];
      1 + i
  }

  /** No other position has the three properties of `Find`. */
  lemma FindUnique<K, V>(data: seq<(K, V)>, key: K, i: nat)
    requires i <= |data| && (i < |data| ==> data[i].0 == key)
    requires forall j | 0 <= j < i :: data[j].0 != key
    ensures Find(data, key) == i
  {
  }

  /** The value stored for `key` in a bucket, if any. */
  function Lookup<K(==), V>(data: seq<(K, V)>, key: K): Option<V>
  {
    var i := Find(data, key);
    if i < |data| then Some(data[i].1) else None
  }

  /** Each key occurs at most once. */
  ghost predicate UniqueKeys<K, V>(data: seq<(K, V)>)
  {
    forall i, j | 0 <= i < j < |data| :: data[i].0 != data[j].0
  }

  /** The bucket after `add_or_update_mapping`: the value of an existing
      pair is overwritten, otherwise the pair is appended. */
  function Updated<K(==), V>(data: seq<(K, V)>, key: K, value: V): seq<(K, V)>
  {
    var i := Find(data, key);
    if i == |data| then data + [(key, value)] else data[i := (key, value)]
  }

  /** The bucket after `remove_mapping`: the pair found for `key`, if any,
      is erased. */
  function Removed<K(==), V>(data: seq<(K, V)>, key: K): seq<(K, V)>
  {
    var i := Find(data, key);
    if i == |data| then data else data[..i] + data[i + 1..]
  }

  /** After an update the key maps to the new value and no other key's
      lookup changes; keys stay unique. */
  lemma UpdatedLookup<K, V>(data: seq<(K, V)>, key: K, value: V, other: K)
    ensures Lookup(Updated(data, key, value), other) ==
            (if other == key then Some(value) else Lookup(data, other))
    ensures UniqueKeys(data) ==> UniqueKeys(Updated(data, key, value))
  {
    var d := Updated(data, key, value);
    var i := Find(data, key);
    var o := Find(data, other);
    if other == key {
      FindUnique(d, key, i);
    } else if i == |data| {
      FindUnique(d, other, if o < |data| then o else |d|);
    } else {
      assert forall j | 0 <= j < |d| :: d[j].0 == (if j == i then key else data[j].0);
      FindUnique(d, other, o);
    }
  }

  /** After a removal the key has no value and no other key's lookup
      changes, provided keys were unique; keys stay unique. */
  lemma RemovedLookup<K, V>(data: seq<(K, V)>, key: K, other: K)
    requires UniqueKeys(data)
    ensures Lookup(Removed(data, key), other) == (if other == key then None else Lookup(data, other))
    ensures UniqueKeys(Removed(data, key))
  {
    var d := Removed(data, key);
    var i := Find(data, key);
    RemovedUnique(data, key);
    if i < |data| {
      RemovedShifts(data, key);
      if other == key {
        FindUnique(d, key, |d|);
      } else {
        var o := Find(data, other);
        if o < i {
          FindUnique(d, other, o);
        } else if o == |data| {
          FindUnique(d, other, |d|);
        } else {
          FindUnique(d, other, o - 1);
        }
      }
    }
  }

  /** Removing a pair keeps the keys unique. */
  lemma RemovedUnique<K, V>(data: seq<(K, V)>, key: K)
    requires UniqueKeys(data)
    ensures UniqueKeys(Removed(data, key))
  {
    if Find(data, key) < |data| {
      RemovedShifts(data, key);
    }
  }

  /** Removing a present key moves every later pair one position down. */
  lemma RemovedShifts<K, V>(data: seq<(K, V)>, key: K)
    requires Find(data, key) < |data|
    ensures var d := Removed(data, key); var i := Find(data, key);
            |d| == |data| - 1 &&
            forall j | 0 <= j < |d| :: d[j] == (if j < i then data[j] else data[j + 1])
  {
    DropAt(data, Find(data, key));
  }

  /** Erasing position `i` of a sequence. */
  lemma DropAt<T>(s: seq<T>, i: nat)
    requires i < |s|
    ensures var d := s[..i] + s[i + 1..];
            |d| == |s| - 1 && forall j | 0 <= j < |d| :: d[j] == (if j < i then s[j] else s[j + 1])
  {
  }

  /** `std::map::insert`: a pair is added only when its key is not yet
      present. */
  function Insert<K, V>(m: map<K, V>, e: (K, V)): map<K, V>
  {
    if e.0 in m then m else m[e.0 := e.1]
  }

  /** Inserting the pairs of a bucket in list order. */
  function InsertAll<K, V>(m: map<K, V>, data: seq<(K, V)>): map<K, V>
  {
    if data == [] then m else Insert(InsertAll(m, data[..|data| - 1]), data[|data| - 1])
  }

  /** What `get_map` builds: every bucket's pairs inserted, bucket by
      bucket, into an empty map. */
  function MapOf<K, V>(datas: seq<seq<(K, V)>>): map<K, V>
  {
    if datas == [] then map[] else InsertAll(MapOf(datas[..|datas| - 1]), datas[|datas| - 1])
  }

  /** Looking a key up after appending a pair. */
  lemma LookupSnoc<K, V>(data: seq<(K, V)>, e: (K, V), key: K)
    ensures Lookup(data + [e], key) ==
            (if Lookup(data, key).Some? then Lookup(data, key) else if e.0 == key then Some(e.1) else None)
  {
    var i := Find(data, key);
    if i < |data| {
      FindUnique(data + [e], key, i);
    } else if e.0 == key {
      FindUnique(data + [e], key, |data|);
    } else {
      FindUnique(data + [e], key, |data| + 1);
    }
  }

  /** Inserting a bucket's pairs into `m` keeps what `m` has and otherwise
      adds the bucket's value for the key. */
  lemma {:induction false} InsertAllAt<K, V>(m: map<K, V>, data: seq<(K, V)>, key: K)
    ensures key in InsertAll(m, data) <==> key in m || Lookup(data, key).Some?
    ensures key in m ==> InsertAll(m, data)[key] == m[key]
    ensures key !in m && Lookup(data, key).Some? ==> InsertAll(m, data)[key] == Lookup(data, key).value
    decreases |data|
  {
    if data != [] {
      var init := data[..|data| - 1];
      InsertAllAt(m, init, key);
      LookupSnoc(init, data[|data| - 1], key);
      assert init + [data[|data| - 1]] == data;
    }
  }

  /** A key present in none of the buckets is not in their map. */
  lemma {:induction false} MapOfAbsent<K, V>(datas: seq<seq<(K, V)>>, key: K)
    requires forall i | 0 <= i < |datas| :: Lookup(datas[i], key).None?
    ensures key !in MapOf(datas)
    decreases |datas|
  {
    if datas != [] {
      MapOfAbsent(datas[..|datas| - 1], key);
      InsertAllAt(MapOf(datas[..|datas| - 1]), datas[|datas| - 1], key);
    }
  }

  /** A key that can only be in bucket `b` is in the map exactly when
      bucket `b` holds it, with bucket `b`'s value. */
  lemma {:induction false} MapOfAt<K, V>(datas: seq<seq<(K, V)>>, key: K, b: nat)
    requires b < |datas|
    requires forall i | 0 <= i < |datas| && i != b :: Lookup(datas[i], key).None?
    ensures key in MapOf(datas) <==> Lookup(datas[b], key).Some?
    ensures key in MapOf(datas) ==> MapOf(datas)[key] == Lookup(datas[b], key).value
    decreases |datas|
  {
    var init := datas[..|datas| - 1];
    if b < |datas| - 1 {
      MapOfAt(init, key, b);
    } else {
      MapOfAbsent(init, key);
    }
    InsertAllAt(MapOf(init), datas[|datas| - 1], key);
  }

  /** `get_bucket`'s index: in range whenever there is a bucket. */
  function BucketIndex(h: nat, n: nat): (i: nat)
    requires n > 0
    ensures i < n
  {
    h % n
  }

  /** Every pair sits in the bucket its key hashes to, and keys are unique
      within a bucket. */
  ghost predicate Placed<K, V>(datas: seq<seq<(K, V)>>, hash: K -> nat)
  {
    |datas| > 0 &&
    (forall i | 0 <= i < |datas| :: UniqueKeys(datas[i])) &&
    forall i, j | 0 <= i < |datas| && 0 <= j < |datas[i]| :: BucketIndex(hash(datas[i][j].0), |datas|) == i
  }

  /** In a well-placed table the map holds a key exactly when the key's
      bucket does, with that bucket's value: `get_map` and `value_for`
      agree. */
  lemma MapOfPlaced<K, V>(datas: seq<seq<(K, V)>>, hash: K -> nat, key: K)
    requires Placed(datas, hash)
    ensures var b := BucketIndex(hash(key), |datas|);
            (key in MapOf(datas) <==> Lookup(datas[b], key).Some?) &&
            (key in MapOf(datas) ==> MapOf(datas)[key] == Lookup(datas[b], key).value)
  {
    var b := BucketIndex(hash(key), |datas|);
    forall i | 0 <= i < |datas| && i != b
      ensures Lookup(datas[i], key).None?
    {
    }
    MapOfAt(datas, key, b);
  }

  /** Updating the key's own bucket keeps the table well placed and maps
      the key to the new value. */
  lemma MapOfUpdated<K, V>(datas: seq<seq<(K, V)>>, hash: K -> nat, key: K, value: V)
    requires Placed(datas, hash)
    ensures var b := BucketIndex(hash(key), |datas|);
            var datas' := datas[b := Updated(datas[b], key, value)];
            Placed(datas', hash) && MapOf(datas') == MapOf(datas)[key := value]
  {
    var b := BucketIndex(hash(key), |datas|);
    var datas' := datas[b := Updated(datas[b], key, value)];
    UpdatedLookup(datas[b], key, value, key);
    var d := Updated(datas[b], key, value);
    assert Placed(datas', hash);
    var m', expected := MapOf(datas'), MapOf(datas)[key := value];
    forall k | k in m'
      ensures k in expected && m'[k] == expected[k]
    {
      MapOfPlaced(datas, hash, k);
      MapOfPlaced(datas', hash, k);
      UpdatedLookup(datas[b], key, value, k);
    }
    forall k | k in expected
      ensures k in m'
    {
      MapOfPlaced(datas, hash, k);
      MapOfPlaced(datas', hash, k);
      UpdatedLookup(datas[b], key, value, k);
    }
    assert m' == expected;
  }

  /** Removing from the key's own bucket keeps the table well placed and
      drops exactly that key from the map. */
  lemma MapOfRemoved<K, V>(datas: seq<seq<(K, V)>>, hash: K -> nat, key: K)
    requires Placed(datas, hash)
    ensures var b := BucketIndex(hash(key), |datas|);
            var datas' := datas[b := Removed(datas[b], key)];
            Placed(datas', hash) && MapOf(datas') == MapOf(datas) - {key}
  {
    var b := BucketIndex(hash(key), |datas|);
    var datas' := datas[b := Removed(datas[b], key)];
    RemovedLookup(datas[b], key, key);
    var d := Removed(datas[b], key);
    var i := Find(datas[b], key);
    assert forall j | 0 <= j < |d| :: d[j] == (if j < i then datas[b][j] else datas[b][j + 1]);
    assert Placed(datas', hash);
    var m', expected := MapOf(datas'), MapOf(datas) - {key};
    forall k | k in m'
      ensures k in expected && m'[k] == expected[k]
    {
      MapOfPlaced(datas, hash, k);
      MapOfPlaced(datas', hash, k);
      RemovedLookup(datas[b], key, k);
    }
    forall k | k in expected
      ensures k in m'
    {
      MapOfPlaced(datas, hash, k);
      MapOfPlaced(datas', hash, k);
      RemovedLookup(datas[b], key, k);
    }
    assert m' == expected;
  }

  /** `bucket_type`: a list of key/value pairs. */
  class Bucket<K(==), V> {
    var data: seq<(K, V)>

    constructor ()
      ensures data == []
    {
      data := [];
    }

    /** `find_entry_for`: a linear search from the front. */
    method FindEntryFor(key: K) returns (i: nat)
      ensures i == Find(data, key)
    {
      i := 0;
      while i < |data| && data[i].0 != key
        invariant i <= |data|
        invariant forall j | 0 <= j < i :: data[j].0 != key
      {
        i := i + 1;
      }
      FindUnique(data, key, i);
    }

    /** `value_for`: the stored value, or `defaultValue` for a missing
        key. */
    method ValueFor(key: K, defaultValue: V) returns (v: V)
      ensures v == (if Lookup(data, key).Some? then Lookup(data, key).value else defaultValue)
    {
      var res := FindEntryFor(key);
      v := if res == |data| then defaultValue else data[res].1;
    }

    /** `add_or_update_mapping`. */
    method AddOrUpdateMapping(key: K, value: V)
      modifies this
      ensures data == Updated(old(data), key, value)
    {
      var res := FindEntryFor(key);
      if res == |data| {
        data := data + [(key, value)];
        return;
      }
      data := data[res := (key, value)];
    }

    /** `remove_mapping`. */
    method RemoveMapping(key: K)
      modifies this
      ensures data == Removed(old(data), key)
    {
      var res := FindEntryFor(key);
      if res != |data| {
        data := data[..res] + data[res + 1..];
      }
    }
  }

  class Table<K(==), V> {
    /** `hasher`. */
    const hash: K -> nat
    /** `buckets`, each owned by the table. */
    var buckets: seq<Bucket<K, V>>
    ghost var Repr: set<object>

    /** The pairs of every bucket, in bucket order. */
    ghost function Datas(): (r: seq<seq<(K, V)>>)
      reads this, buckets
      ensures |r| == |buckets| && forall i | 0 <= i < |buckets| :: r[i] == buckets[i].data
    {
      seq(|buckets|, i reads this, buckets requires 0 <= i < |buckets| => buckets[i].data)
    }

    /** The map the table stands for. */
    ghost function Mapping(): map<K, V>
      reads this, buckets
    {
      MapOf(Datas())
    }

    ghost predicate Valid()
      reads this, Repr
    {
      this in Repr &&
      (forall i | 0 <= i < |buckets| :: buckets[i] in Repr) &&
      (forall i, j | 0 <= i < j < |buckets| :: buckets[i] != buckets[j]) &&
      (|buckets| > 0 ==> Placed(Datas(), hash))
    }

    /** The constructor: `nums` empty buckets, 19 unless the caller says
        otherwise. */
    constructor (nums: nat := DefaultBucketCount, hasher: K -> nat)
      ensures Valid() && fresh(Repr - {this})
      ensures |buckets| == nums && hash == hasher
      ensures forall i | 0 <= i < nums :: buckets[i].data == []
    {
      var bs: seq<Bucket<K, V>> := [];
      var i := 0;
      while i < nums
        invariant i <= nums && |bs| == i
        invariant forall j | 0 <= j < i :: fresh(bs[j]) && bs[j].data == []
        invariant forall j, k | 0 <= j < k < i :: bs[j] != bs[k]
      {
        var b := new Bucket<K, V>();
        bs := bs + [b];
        i := i + 1;
      }
      hash := hasher;
      buckets := bs;
      Repr := {this} + set j | 0 <= j < |bs| :: bs[j];
      new;
      if nums > 0 {
        assert forall j | 0 <= j < |Datas()| :: Datas()[j] == [];
      }
    }

    /** `get_bucket`. */
    method GetBucket(key: K) returns (b: Bucket<K, V>)
      requires |buckets| > 0
      ensures b == buckets[BucketIndex(hash(key), |buckets|)]
    {
      var idx := hash(key) % |buckets|;
      b := buckets[idx];
    }

    /** `value_for`: the key's value in the map, or `defaultValue`. */
    method ValueFor(key: K, defaultValue: V) returns (v: V)
      requires Valid() && |buckets| > 0
      ensures v == (if key in Mapping() then Mapping()[key] else defaultValue)
    {
      var b := GetBucket(key);
      v := b.ValueFor(key, defaultValue);
      MapOfPlaced(Datas(), hash, key);
    }

    /** `add_or_update_mapping`: only the key's own bucket changes, and the
        key now maps to `value`. */
    method AddOrUpdateMapping(key: K, value: V)
      requires Valid() && |buckets| > 0
      modifies buckets[BucketIndex(hash(key), |buckets|)]
      ensures Valid()
      ensures Mapping() == old(Mapping())[key := value]
    {
      ghost var before := Datas();
      var b := GetBucket(key);
      b.AddOrUpdateMapping(key, value);
      MapOfUpdated(before, hash, key, value);
      assert Datas() == before[BucketIndex(hash(key), |buckets|) := Updated(before[BucketIndex(hash(key), |buckets|)], key, value)];
    }

    /** `remove_mapping`: only the key's own bucket changes, and the key is
        no longer mapped. */
    method RemoveMapping(key: K)
      requires Valid() && |buckets| > 0
      modifies buckets[BucketIndex(hash(key), |buckets|)]
      ensures Valid()
      ensures Mapping() == old(Mapping()) - {key}
    {
      ghost var before := Datas();
      var b := GetBucket(key);
      b.RemoveMapping(key);
      MapOfRemoved(before, hash, key);
      assert Datas() == before[BucketIndex(hash(key), |buckets|) := Removed(before[BucketIndex(hash(key), |buckets|)], key)];
    }

    /** `get_map`: the pairs of all buckets, bucket by bucket, inserted into
        an empty `std::map`. */
    method GetMap() returns (res: map<K, V>)
      requires Valid()
      ensures res == Mapping()
    {
      res := map[];
      var i := 0;
      while i < |buckets|
        invariant i <= |buckets|
        invariant res == MapOf(Datas()[..i])
      {
        var data := buckets[i].data;
        ghost var start := res;
        var j := 0;
        while j < |data|
          invariant j <= |data|
          invariant res == InsertAll(start, data[..j])
        {
          assert data[..j + 1][..j] == data[..j];
          res := Insert(res, data[j]);
          j := j + 1;
        }
        assert data[..j] == data;
        assert Datas()[..i + 1][..i] == Datas()[..i];
        i := i + 1;
      }
      assert Datas()[..i] == Datas();
    }
  }
}
