/** A bucketed hash table with hasher and comparison of its own. */
module HashTables {

  /**
   * `std::unordered_map<K, V, Hasher, Equal>`, rehashed into more buckets when it has more entries
   * than buckets. It stands for a plain map from canonical keys as long as, on valid keys, `equal`
   * compares canonical keys and `hash` depends on nothing else.
   */
  class UnorderedMap<K(!new, ==), V> {
    const hash: K -> nat
    const equal: (K, K) -> bool
    ghost const valid: K -> bool
    ghost const canon: K -> K
    /** The bucket count that follows another one; the library leaves it open. */
    const grow: nat -> nat
    var buckets: seq<seq<(K, V)>>
    var size: nat
    ghost var view: map<K, V>

    ghost predicate Lawful() {
      && (forall a, b :: valid(a) && valid(b) ==> equal(a, b) == (canon(a) == canon(b)))
      && (forall a :: valid(a) ==> hash(canon(a)) == hash(a))
    }

    /** The entries of a bucket are exactly those of a map from canonical keys, each one once. */
    ghost predicate Represents(bucket: seq<(K, V)>, part: map<K, V>) {
      && (forall j :: 0 <= j < |bucket| ==>
            valid(bucket[j].0) && canon(bucket[j].0) in part && part[canon(bucket[j].0)] == bucket[j].1)
      && (forall j, l :: 0 <= j < l < |bucket| ==> canon(bucket[j].0) != canon(bucket[l].0))
      && (forall c :: c in part ==> exists j :: 0 <= j < |bucket| && canon(bucket[j].0) == c)
    }

    /** The part of a map whose keys belong to bucket `i` of `n`. */
    ghost function Part(m: map<K, V>, i: nat, n: nat): map<K, V>
      requires n > 0
    {
      map c | c in m && hash(c) % n == i :: m[c]
    }

    ghost predicate Valid()
      reads this
    {
      && |buckets| > 0 && size == |view| && Lawful()
      && forall i :: 0 <= i < |buckets| ==> Represents(buckets[i], Part(view, i, |buckets|))
    }

    constructor (hash: K -> nat, equal: (K, K) -> bool, count: nat, grow: nat -> nat,
                 ghost valid: K -> bool, ghost canon: K -> K)
      requires count > 0
      requires forall a, b :: valid(a) && valid(b) ==> equal(a, b) == (canon(a) == canon(b))
      requires forall a :: valid(a) ==> hash(canon(a)) == hash(a)
      ensures Valid() && view == map[]
      ensures this.hash == hash && this.equal == equal && this.valid == valid && this.canon == canon
    {
      this.hash, this.equal, this.grow, this.valid, this.canon := hash, equal, grow, valid, canon;
      buckets := seq(count, _ => []);
      size, view := 0, map[];
    }

    method Find(key: K) returns (found: bool, i: nat, j: nat)
      requires Valid() && valid(key)
      ensures i == hash(canon(key)) % |buckets|
      ensures found <==> canon(key) in view
      ensures found ==> j < |buckets[i]| && canon(buckets[i][j].0) == canon(key)
    {
      i := hash(key) % |buckets|;
      j := 0;
      while j < |buckets[i]|
        invariant j <= |buckets[i]|
        invariant forall l :: 0 <= l < j ==> canon(buckets[i][l].0) != canon(key)
      {
        if equal(buckets[i][j].0, key) {
          return true, i, j;
        }
        j := j + 1;
      }
      assert canon(key) !in Part(view, i, |buckets|);
      return false, i, j;
    }

    lemma Updated(bucket: seq<(K, V)>, part: map<K, V>, j: nat, value: V)
      requires Represents(bucket, part) && j < |bucket|
      ensures Represents(bucket[j := (bucket[j].0, value)], part[canon(bucket[j].0) := value])
    {
      var after := bucket[j := (bucket[j].0, value)];
      forall c | c in part
        ensures exists l :: 0 <= l < |after| && canon(after[l].0) == c
      {
        var l :| 0 <= l < |bucket| && canon(bucket[l].0) == c;
        assert canon(after[l].0) == c;
      }
    }

    lemma Appended(bucket: seq<(K, V)>, part: map<K, V>, key: K, value: V)
      requires Represents(bucket, part) && valid(key) && canon(key) !in part
      ensures Represents(bucket + [(key, value)], part[canon(key) := value])
    {
      var after := bucket + [(key, value)];
      assert canon(after[|bucket|].0) == canon(key);
      forall c | c in part
        ensures exists l :: 0 <= l < |after| && canon(after[l].0) == c
      {
        var l :| 0 <= l < |bucket| && canon(bucket[l].0) == c;
        assert canon(after[l].0) == c;
      }
    }

    /** The bucket without the entry at `j`. */
    function Without(bucket: seq<(K, V)>, j: nat): (after: seq<(K, V)>)
      requires j < |bucket|
      ensures |after| == |bucket| - 1
      ensures forall l :: 0 <= l < |after| ==> after[l] == bucket[if l < j then l else l + 1]
    {
      bucket[..j] + bucket[j + 1..]
    }

    lemma ErasedEntries(bucket: seq<(K, V)>, part: map<K, V>, j: nat)
      requires Represents(bucket, part) && j < |bucket|
      ensures var after, rest := Without(bucket, j), part - {canon(bucket[j].0)};
              forall l :: 0 <= l < |after| ==>
                valid(after[l].0) && canon(after[l].0) in rest && rest[canon(after[l].0)] == after[l].1
    {
      var after := Without(bucket, j);
      forall l | 0 <= l < |after| ensures canon(after[l].0) != canon(bucket[j].0) {
        var before := if l < j then l else l + 1;
        assert after[l] == bucket[before];
      }
    }

    lemma ErasedDistinct(bucket: seq<(K, V)>, part: map<K, V>, j: nat, l: nat, m: nat)
      requires Represents(bucket, part) && j < |bucket| && l < m < |bucket| - 1
      ensures canon(Without(bucket, j)[l].0) != canon(Without(bucket, j)[m].0)
    {
      var l', m' := if l < j then l else l + 1, if m < j then m else m + 1;
      assert Without(bucket, j)[l] == bucket[l'] && Without(bucket, j)[m] == bucket[m'];
    }

    lemma ErasedComplete(bucket: seq<(K, V)>, part: map<K, V>, j: nat, c: K)
      requires Represents(bucket, part) && j < |bucket| && c in part && c != canon(bucket[j].0)
      ensures exists l :: 0 <= l < |bucket| - 1 && canon(Without(bucket, j)[l].0) == c
    {
      var l :| 0 <= l < |bucket| && canon(bucket[l].0) == c;
      var l' := if l < j then l else l - 1;
      assert Without(bucket, j)[l'] == bucket[l];
    }

    lemma Erased(bucket: seq<(K, V)>, part: map<K, V>, j: nat)
      requires Represents(bucket, part) && j < |bucket|
      ensures Represents(Without(bucket, j), part - {canon(bucket[j].0)})
    {
      ErasedEntries(bucket, part, j);
      forall l: nat, m: nat | l < m < |bucket| - 1
        ensures canon(Without(bucket, j)[l].0) != canon(Without(bucket, j)[m].0)
      {
        ErasedDistinct(bucket, part, j, l, m);
      }
      forall c | c in part - {canon(bucket[j].0)}
        ensures exists l :: 0 <= l < |bucket| - 1 && canon(Without(bucket, j)[l].0) == c
      {
        ErasedComplete(bucket, part, j, c);
      }
    }

    /** Two maps that differ at one key at most. */
    ghost predicate SameElsewhere(m: map<K, V>, m': map<K, V>, key: K) {
      forall c :: c != key ==> (c in m' <==> c in m) && (c in m ==> m'[c] == m[c])
    }

    /** They differ only in the part of that key's bucket. */
    lemma OtherPartsStay(m: map<K, V>, m': map<K, V>, key: K, l: nat, n: nat)
      requires n > 0 && SameElsewhere(m, m', key) && hash(key) % n != l
      ensures Part(m', l, n) == Part(m, l, n)
    {}

    /** Replacing the bucket of that key turns a table of the one map into a table of the other. */
    lemma AllRepresented(before: seq<seq<(K, V)>>, m: map<K, V>, m': map<K, V>, key: K, bucket: seq<(K, V)>)
      requires |before| > 0 && SameElsewhere(m, m', key)
      requires forall l :: 0 <= l < |before| ==> Represents(before[l], Part(m, l, |before|))
      requires Represents(bucket, Part(m', hash(key) % |before|, |before|))
      ensures var after := before[hash(key) % |before| := bucket];
              forall l :: 0 <= l < |after| ==> Represents(after[l], Part(m', l, |after|))
    {
      var n, i := |before|, hash(key) % |before|;
      forall l | 0 <= l < n ensures Represents(before[i := bucket][l], Part(m', l, n)) {
        if l != i {
          OtherPartsStay(m, m', key, l, n);
        }
      }
    }

    /** Puts an entry into its bucket: the key of an entry that is already there stays as it is. */
    method Place(key: K, value: V)
      requires Valid() && valid(key)
      modifies this
      ensures Valid() && view == old(view)[canon(key) := value]
    {
      var found, i, j := Find(key);
      ghost var part := Part(view, i, |buckets|);
      ghost var before := buckets;
      if found {
        Updated(buckets[i], part, j, value);
        buckets := buckets[i := buckets[i][j := (buckets[i][j].0, value)]];
      } else {
        Appended(buckets[i], part, key, value);
        buckets := buckets[i := buckets[i] + [(key, value)]];
        size := size + 1;
      }
      ghost var after := view[canon(key) := value];
      assert Part(after, i, |before|) == part[canon(key) := value];
      AllRepresented(before, view, after, canon(key), buckets[i]);
      view := after;
    }

    /** The entries of the first `i` of `n` buckets, and the first `j` of the next one. */
    ghost predicate Moved(whole: map<K, V>, now: map<K, V>, from: seq<seq<(K, V)>>, i: nat, j: nat)
      requires i <= |from| && (i < |from| ==> j <= |from[i]|) && |from| > 0
    {
      && (forall c :: c in now ==> c in whole && now[c] == whole[c])
      && (forall c :: c in whole && hash(c) % |from| < i ==> c in now)
      && (i < |from| ==> forall l :: 0 <= l < j ==> canon(from[i][l].0) in now)
    }

    /** All entries move to `count` new buckets. */
    method Rehash(count: nat)
      requires Valid() && count > 0
      modifies this
      ensures Valid() && view == old(view)
    {
      ghost var whole := view;
      var from := buckets;
      buckets := seq(count, _ => []);
      size, view := 0, map[];
      for i := 0 to |from|
        invariant Valid() && Moved(whole, view, from, i, 0)
      {
        MoveBucket(from, i, whole);
      }
      assert view == whole;
    }

    method MoveBucket(from: seq<seq<(K, V)>>, i: nat, ghost whole: map<K, V>)
      requires Valid() && i < |from| && Moved(whole, view, from, i, 0)
      requires Represents(from[i], Part(whole, i, |from|))
      modifies this
      ensures Valid() && Moved(whole, view, from, i + 1, 0)
    {
      for j := 0 to |from[i]|
        invariant Valid() && Moved(whole, view, from, i, j)
      {
        EntryMoved(whole, view, from, i, j);
        Place(from[i][j].0, from[i][j].1);
      }
      BucketMoved(whole, view, from, i);
    }

    lemma EntryMoved(whole: map<K, V>, now: map<K, V>, from: seq<seq<(K, V)>>, i: nat, j: nat)
      requires i < |from| && j < |from[i]| && Moved(whole, now, from, i, j)
      requires Represents(from[i], Part(whole, i, |from|))
      ensures valid(from[i][j].0)
      ensures Moved(whole, now[canon(from[i][j].0) := from[i][j].1], from, i, j + 1)
    {
      var c := canon(from[i][j].0);
      assert c in Part(whole, i, |from|) && Part(whole, i, |from|)[c] == whole[c];
    }

    lemma BucketMoved(whole: map<K, V>, now: map<K, V>, from: seq<seq<(K, V)>>, i: nat)
      requires i < |from| && Moved(whole, now, from, i, |from[i]|)
      requires Represents(from[i], Part(whole, i, |from|))
      ensures Moved(whole, now, from, i + 1, 0)
    {
      forall c | c in whole && hash(c) % |from| == i ensures c in now {
        assert c in Part(whole, i, |from|);
      }
    }

    /** `m[key] = value`. */
    method Put(key: K, value: V)
      requires Valid() && valid(key)
      modifies this
      ensures Valid() && view == old(view)[canon(key) := value]
    {
      var found, i, j := Find(key);
      if !found && size >= |buckets| {
        var count := grow(|buckets|);
        if count > 0 {
          Rehash(count);
        }
      }
      Place(key, value);
    }

    method Erase(key: K)
      requires Valid() && valid(key)
      modifies this
      ensures Valid() && view == old(view) - {canon(key)}
    {
      var found, i, j := Find(key);
      if found {
        ghost var part, before, after := Part(view, i, |buckets|), buckets, view - {canon(key)};
        Erased(buckets[i], part, j);
        buckets := buckets[i := Without(buckets[i], j)];
        assert Part(after, i, |before|) == part - {canon(key)};
        AllRepresented(before, view, after, canon(key), buckets[i]);
        size, view := size - 1, after;
      }
    }

    method Get(key: K) returns (value: V)
      requires Valid() && valid(key) && canon(key) in view
      ensures value == view[canon(key)]
    {
      var found, i, j := Find(key);
      assert Represents(buckets[i], Part(view, i, |buckets|));
      value := buckets[i][j].1;
    }

    method Clear()
      requires Valid()
      modifies this
      ensures Valid() && view == map[]
    {
      buckets := seq(|buckets|, _ => []);
      size, view := 0, map[];
    }
  }
}

/** The objects known to the metadata layer, by key (meta/SaiObjectCollection.cpp). */
module ObjectCollection {
  import opened Common
  import opened MetaKeys
  import HashTables

  /** An object: the key it was created with and its attributes by id. */
  datatype SaiObject = SaiObject(metaKey: MetaKey, attrs: map<nat, string>)

  function KeyHash(combine: Combine, k: MetaKey): nat {
    match Hash(combine, k)
    case Returned(h) => h
    case Thrown => 0
  }

  function KeysEqual(a: MetaKey, b: MetaKey): bool { Equal(a, b) == Returned(true) }

  lemma HasherIsLawful(combine: Combine)
    ensures forall a, b :: Handled(a) && Handled(b) ==> KeysEqual(a, b) == (Normal(a) == Normal(b))
    ensures forall a :: KeyHash(combine, Normal(a)) == KeyHash(combine, a)
  {
    forall a, b | Handled(a) && Handled(b) ensures KeysEqual(a, b) == (Normal(a) == Normal(b)) {
      EqualityIsNormalForm(a, b);
    }
    forall a ensures KeyHash(combine, Normal(a)) == KeyHash(combine, a) {
      HashIgnoresUnusedBytes(combine, a);
    }
  }

  /**
   * The keys a collection decides about: handled ones, and those on which the hasher throws. Left
   * out are only multicast keys whose group family is known and whose source family is not.
   */
  predicate Decided(combine: Combine, k: MetaKey) { Handled(k) || Hash(combine, k).Thrown? }

  /**
   * `Objects` is a plain map from normal keys, and each method does to it what it would do to a map:
   * unused address bytes never matter. Every method throws on keys that are not handled.
   */
  class SaiObjectCollection {
    const combine: Combine
    const table: HashTables.UnorderedMap<MetaKey, SaiObject>

    ghost predicate Valid()
      reads this, table
    {
      table.Valid() && table.valid == Handled && table.canon == Normal
    }

    ghost function Objects(): map<MetaKey, SaiObject>
      reads this, table
    {
      table.view
    }

    constructor (combine: Combine, bucketCount: nat, grow: nat -> nat)
      requires bucketCount > 0
      ensures Valid() && fresh(table) && Objects() == map[] && this.combine == combine
    {
      HasherIsLawful(combine);
      this.combine := combine;
      var hash := k => KeyHash(combine, k);
      table := new HashTables.UnorderedMap(hash, KeysEqual, bucketCount, grow, Handled, Normal);
    }

    method Clear()
      requires Valid()
      modifies table
      ensures Valid() && Objects() == map[]
    {
      table.Clear();
    }

    method ObjectExists(metaKey: MetaKey) returns (r: Result<bool>)
      requires Valid() && Decided(combine, metaKey)
      ensures r == if Handled(metaKey) then Returned(Normal(metaKey) in Objects()) else Thrown
    {
      HandledKeysExactlyHash(combine, metaKey);
      if Hash(combine, metaKey).Thrown? {
        return Thrown;
      }
      var known, i, j := table.Find(metaKey);
      return Returned(known);
    }

    method CreateObject(metaKey: MetaKey) returns (r: Result<()>)
      requires Valid() && Decided(combine, metaKey)
      modifies table
      ensures Valid()
      ensures if !Handled(metaKey) || Normal(metaKey) in old(Objects()) then r == Thrown && Objects() == old(Objects())
              else r == Returned(()) && Objects() == old(Objects())[Normal(metaKey) := SaiObject(metaKey, map[])]
    {
      var known := ObjectExists(metaKey);
      if known != Returned(false) {
        return Thrown;
      }
      table.Put(metaKey, SaiObject(metaKey, map[]));
      return Returned(());
    }

    method RemoveObject(metaKey: MetaKey) returns (r: Result<()>)
      requires Valid() && Decided(combine, metaKey)
      modifies table
      ensures Valid()
      ensures if !Handled(metaKey) || Normal(metaKey) !in old(Objects()) then r == Thrown && Objects() == old(Objects())
              else r == Returned(()) && Objects() == old(Objects()) - {Normal(metaKey)}
    {
      var known := ObjectExists(metaKey);
      if known != Returned(true) {
        return Thrown;
      }
      table.Erase(metaKey);
      return Returned(());
    }

    method SetObjectAttr(metaKey: MetaKey, id: nat, value: string) returns (r: Result<()>)
      requires Valid() && Decided(combine, metaKey)
      modifies table
      ensures Valid()
      ensures var k := Normal(metaKey);
              if !Handled(metaKey) || k !in old(Objects()) then r == Thrown && Objects() == old(Objects())
              else
                && r == Returned(())
                && var o := old(Objects())[k];
                   Objects() == old(Objects())[k := SaiObject(o.metaKey, o.attrs[id := value])]
    {
      var known := ObjectExists(metaKey);
      if known != Returned(true) {
        return Thrown;
      }
      var obj := table.Get(metaKey);
      table.Put(metaKey, SaiObject(obj.metaKey, obj.attrs[id := value]));
      return Returned(());
    }

    /** Null both for an unknown object and for an attribute that was not set. */
    method GetObjectAttr(metaKey: MetaKey, id: nat) returns (r: Result<Option<string>>)
      requires Valid() && Decided(combine, metaKey)
      ensures var k := Normal(metaKey);
              r == if !Handled(metaKey) then Thrown
                   else if k in Objects() && id in Objects()[k].attrs then Returned(Some(Objects()[k].attrs[id]))
                   else Returned(None)
    {
      var known := ObjectExists(metaKey);
      if known.Thrown? {
        return Thrown;
      }
      if !known.value {
        return Returned(None);
      }
      var obj := table.Get(metaKey);
      return Returned(if id in obj.attrs then Some(obj.attrs[id]) else None);
    }

    method GetObject(metaKey: MetaKey) returns (r: Result<SaiObject>)
      requires Valid() && Decided(combine, metaKey)
      ensures r == if Handled(metaKey) && Normal(metaKey) in Objects() then Returned(Objects()[Normal(metaKey)])
                   else Thrown
    {
      var known := ObjectExists(metaKey);
      if known != Returned(true) {
        return Thrown;
      }
      var obj := table.Get(metaKey);
      return Returned(obj);
    }
  }

  lemma HandledKeysExactlyHash(combine: Combine, k: MetaKey)
    requires Decided(combine, k)
    ensures Handled(k) <==> Hash(combine, k).Returned?
  {
    if Handled(k) {
      HandledKeysHaveHashes(combine, k);
    }
  }

  datatype Operation =
    | Create(metaKey: MetaKey)
    | Remove(metaKey: MetaKey)
    | SetAttr(metaKey: MetaKey, id: nat, value: string)
    | ClearAll

  predicate DecidedOperation(combine: Combine, op: Operation) { op.ClearAll? || Decided(combine, op.metaKey) }

  type Plain = map<MetaKey, SaiObject>

  /** What an operation does to a plain map from normal keys; None when it throws. */
  function Apply(m: Plain, op: Operation): Option<Plain> {
    match op
    case Create(k) => if !Handled(k) || Normal(k) in m then None else Some(m[Normal(k) := SaiObject(k, map[])])
    case Remove(k) => if Handled(k) && Normal(k) in m then Some(m - {Normal(k)}) else None
    case SetAttr(k, id, value) =>
      if Handled(k) && Normal(k) in m then
        Some(m[Normal(k) := SaiObject(m[Normal(k)].metaKey, m[Normal(k)].attrs[id := value])])
      else None
    case ClearAll => Some(map[])
  }

  /** A run over a plain map: the map it leaves and which operations have thrown, changing nothing. */
  function PlainRun(ops: seq<Operation>): (Plain, seq<bool>) {
    if ops == [] then (map[], [])
    else
      var (before, thrown) := PlainRun(ops[..|ops| - 1]);
      match Apply(before, ops[|ops| - 1])
      case None => (before, thrown + [true])
      case Some(after) => (after, thrown + [false])
  }

  method Perform(collection: SaiObjectCollection, op: Operation) returns (thrown: bool)
    requires collection.Valid() && DecidedOperation(collection.combine, op)
    modifies collection.table
    ensures collection.Valid()
    ensures match Apply(old(collection.Objects()), op)
            case None => thrown && collection.Objects() == old(collection.Objects())
            case Some(after) => !thrown && collection.Objects() == after
  {
    var r := Returned(());
    match op {
      case Create(k) => r := collection.CreateObject(k);
      case Remove(k) => r := collection.RemoveObject(k);
      case SetAttr(k, id, value) => r := collection.SetObjectAttr(k, id, value);
      case ClearAll => collection.Clear();
    }
    return r.Thrown?;
  }

  lemma OneMoreOperation(ops: seq<Operation>, i: nat)
    requires i < |ops|
    ensures var (before, thrown) := PlainRun(ops[..i]);
            PlainRun(ops[..i + 1])
            == match Apply(before, ops[i])
               case None => (before, thrown + [true])
               case Some(after) => (after, thrown + [false])
  {
    assert ops[..i + 1][..i] == ops[..i];
  }

  /** After any run the hash table is the plain map, and the same operations have thrown. */
  method RunOperations(collection: SaiObjectCollection, ops: seq<Operation>) returns (thrown: seq<bool>)
    requires collection.Valid() && collection.Objects() == map[]
    requires forall i :: 0 <= i < |ops| ==> DecidedOperation(collection.combine, ops[i])
    modifies collection.table
    ensures collection.Valid() && (collection.Objects(), thrown) == PlainRun(ops)
  {
    thrown := [];
    for i := 0 to |ops|
      invariant collection.Valid() && (collection.Objects(), thrown) == PlainRun(ops[..i])
    {
      OneMoreOperation(ops, i);
      var failed := Perform(collection, ops[i]);
      thrown := thrown + [failed];
    }
    assert ops[..|ops|] == ops;
  }
}
