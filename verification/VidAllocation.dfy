/** `SwitchConfigContainer` (lib/SwitchConfigContainer.cpp): two indexes over one set of switch configs. */
module SwitchConfigs {
  import opened Common

  /** `index` is a `uint32_t`. */
  datatype SwitchConfig = SwitchConfig(index: nat, hardwareInfo: string)

  class SwitchConfigContainer {
    var indexToConfig: map<nat, SwitchConfig>
    var hwinfoToConfig: map<string, SwitchConfig>

    /** The two maps hold the same configs, each under its own key. */
    ghost predicate Valid()
      reads this
    {
      && (forall i :: i in indexToConfig ==>
            && indexToConfig[i].index == i
            && indexToConfig[i].hardwareInfo in hwinfoToConfig
            && hwinfoToConfig[indexToConfig[i].hardwareInfo] == indexToConfig[i])
      && (forall h :: h in hwinfoToConfig ==>
            && hwinfoToConfig[h].hardwareInfo == h
            && hwinfoToConfig[h].index in indexToConfig
            && indexToConfig[hwinfoToConfig[h].index] == hwinfoToConfig[h])
    }

    constructor ()
      ensures Valid() && indexToConfig == map[] && hwinfoToConfig == map[]
    {
      indexToConfig, hwinfoToConfig := map[], map[];
    }

    /** Throws, changing nothing, when either key is taken. */
    method Insert(config: SwitchConfig) returns (r: Result<()>)
      requires Valid()
      modifies this
      ensures Valid()
      ensures r.Thrown? <==> config.index in old(indexToConfig) || config.hardwareInfo in old(hwinfoToConfig)
      ensures r.Thrown? ==> indexToConfig == old(indexToConfig) && hwinfoToConfig == old(hwinfoToConfig)
      ensures r.Returned? ==>
                && indexToConfig == old(indexToConfig)[config.index := config]
                && hwinfoToConfig == old(hwinfoToConfig)[config.hardwareInfo := config]
    {
      if config.index in indexToConfig {
        return Thrown;
      }
      if config.hardwareInfo in hwinfoToConfig {
        return Thrown;
      }
      indexToConfig := indexToConfig[config.index := config];
      hwinfoToConfig := hwinfoToConfig[config.hardwareInfo := config];
      return Returned(());
    }

    /** Different hardware infos have different switch indexes. */
    lemma HardwareInfosHaveDistinctIndexes(h1: string, h2: string)
      requires Valid() && h1 in hwinfoToConfig && h2 in hwinfoToConfig
      ensures hwinfoToConfig[h1].index == hwinfoToConfig[h2].index <==> h1 == h2
    {
      assert indexToConfig[hwinfoToConfig[h1].index] == hwinfoToConfig[h1];
    }
  }
}

/**
 * Allocation of object ids: the two index generators (lib/RedisVidIndexGenerator.cpp,
 * meta/NumberOidIndexGenerator.cpp) and the allocating half of lib/VirtualObjectIdManager.cpp.
 */
module VidAllocation {
  import opened Common
  import opened Sequences
  import opened ObjectId
  import opened SwitchConfigs

  /** The consecutive indexes first, first + 1, ..., first + count - 1. */
  function IndexRange(first: nat, count: nat): (s: seq<nat>)
    ensures |s| == count && forall k :: 0 <= k < count ==> s[k] == first + k
  {
    seq(count, k => first + k)
  }

  /** INCRBY succeeds while its argument and the new value are signed 64-bit numbers. */
  predicate CanIncrement(value: nat, count: nat) {
    value + count < TWO_63
  }

  /** The VIDCOUNTER key of one context's database, shared by every process that uses the context. */
  class VidCounter {
    var value: nat

    constructor ()
      ensures value == 0
    {
      value := 0;
    }

    /** INCR and INCRBY are atomic; an error reply makes the caller throw and leaves the key alone. */
    method IncrementBy(count: nat) returns (r: Result<nat>)
      modifies this
      ensures r == if CanIncrement(old(value), count) then Returned(old(value) + count) else Thrown
      ensures value == if CanIncrement(old(value), count) then old(value) + count else old(value)
    {
      if !CanIncrement(value, count) {
        return Thrown;
      }
      value := value + count;
      return Returned(value);
    }
  }

  class RedisVidIndexGenerator {
    const db: VidCounter

    constructor (db: VidCounter)
      ensures this.db == db
    {
      this.db := db;
    }

    method Increment() returns (r: Result<nat>)
      modifies db
      ensures r == if CanIncrement(old(db.value), 1) then Returned(old(db.value) + 1) else Thrown
      ensures db.value == if CanIncrement(old(db.value), 1) then old(db.value) + 1 else old(db.value)
    {
      r := db.IncrementBy(1);
    }

    /** The source rebuilds the range from its last index with unsigned 64-bit arithmetic. */
    method IncrementBy(count: nat) returns (r: Result<seq<nat>>)
      modifies db
      ensures r == if CanIncrement(old(db.value), count)
                   then Returned(IndexRange(old(db.value) + 1, count)) else Thrown
      ensures db.value == if CanIncrement(old(db.value), count) then old(db.value) + count else old(db.value)
    {
      var reply := db.IncrementBy(count);
      if reply.Thrown? {
        return Thrown;
      }
      var last := reply.value;
      var first := (last - count + 1) % TWO_64;
      var indexes: seq<nat> := [];
      var i := first;
      while i <= last
        invariant first <= i <= last + 1
        invariant indexes == IndexRange(first, i - first)
      {
        indexes := indexes + [i];
        i := (i + 1) % TWO_64;
      }
      return Returned(indexes);
    }
  }

  class NumberOidIndexGenerator {
    var index: nat

    constructor ()
      ensures index == 0
    {
      index := 0;
    }

    method Increment() returns (r: nat)
      requires index < TWO_64
      modifies this
      ensures index == r == (old(index) + 1) % TWO_64
    {
      index := (index + 1) % TWO_64;
      r := index;
    }

    /**
     * What that many single increments return, also across the 64-bit wrap; below it this agrees
     * with the Redis generator on equal counters.
     */
    method IncrementBy(count: nat) returns (r: seq<nat>)
      requires index < TWO_64
      modifies this
      ensures |r| == count && index == (old(index) + count) % TWO_64
      ensures forall k :: 0 <= k < count ==> r[k] == (old(index) + (k + 1)) % TWO_64
      ensures old(index) + count < TWO_64 ==> r == IndexRange(old(index) + 1, count)
    {
      r := [];
      for i := 0 to count
        invariant |r| == i && index == (old(index) + i) % TWO_64
        invariant forall k :: 0 <= k < i ==> r[k] == (old(index) + (k + 1)) % TWO_64
        invariant old(index) + i < TWO_64 ==> r == IndexRange(old(index) + 1, i)
      {
        index := (index + 1) % TWO_64;
        r := r + [index];
      }
    }
  }

  // What one allocating call returns, and the counter it leaves.
  datatype Allocation<+T> = Allocation(result: Result<T>, counter: nat)

  predicate IsAllocatable(objectType: int) {
    IsObjectTypeValid(objectType) && objectType != TYPE_SWITCH
  }

  predicate AllAllocatable(objectTypes: seq<int>) {
    forall k :: 0 <= k < |objectTypes| ==> IsAllocatable(objectTypes[k])
  }

  /** The checks before the counter moves, and the move: the first of the reserved indexes. */
  function Reserve(objectTypes: seq<int>, switchId: Oid, counter: nat): Allocation<nat> {
    if AllAllocatable(objectTypes) && ObjectTypeQuery(switchId) == TYPE_SWITCH
       && CanIncrement(counter, |objectTypes|)
    then Allocation(Returned(counter + 1), counter + |objectTypes|)
    else Allocation(Thrown, counter)
  }

  /** The id one reserved index becomes. */
  function EmittedId(globalContext: nat, objectType: int, switchId: Oid, index: nat): Oid
    requires globalContext <= FIELD_MAX && IsAllocatable(objectType) && index <= INDEX_MAX
  {
    ConstructObjectId(objectType, SwitchField(switchId), index, globalContext).value
  }

  /** The ids made from a reserved range. Only the last index is compared with the limit. */
  function Emit(globalContext: nat, objectTypes: seq<int>, switchId: Oid, first: nat): (r: Result<seq<Oid>>)
    requires globalContext <= FIELD_MAX && AllAllocatable(objectTypes) && 1 <= first
    ensures r.Returned? ==> |r.value| == |objectTypes|
  {
    if first + |objectTypes| - 1 > INDEX_MAX then Thrown
    else Returned(seq(|objectTypes|, k requires 0 <= k < |objectTypes| =>
      EmittedId(globalContext, objectTypes[k], switchId, first + k)))
  }

  /** `allocateNewObjectIds`. */
  function AllocateIds(globalContext: nat, objectTypes: seq<int>, switchId: Oid, counter: nat)
    : Allocation<seq<Oid>>
    requires globalContext <= FIELD_MAX
  {
    if |objectTypes| == 0 then Allocation(Returned([]), counter)
    else
      var reserved := Reserve(objectTypes, switchId, counter);
      if reserved.result.Thrown? then Allocation(Thrown, reserved.counter)
      else Allocation(Emit(globalContext, objectTypes, switchId, reserved.result.value), reserved.counter)
  }

  /** `allocateNewObjectId`. */
  function AllocateId(globalContext: nat, objectType: int, switchId: Oid, counter: nat): Allocation<Oid>
    requires globalContext <= FIELD_MAX
  {
    if !IsAllocatable(objectType) || ObjectTypeQuery(switchId) != TYPE_SWITCH || !CanIncrement(counter, 1)
    then Allocation(Thrown, counter)
    else if counter + 1 > INDEX_MAX then Allocation(Thrown, counter + 1)
    else Allocation(ConstructObjectId(objectType, SwitchField(switchId), counter + 1, globalContext), counter + 1)
  }

  /** One `allocateNewObjectId` call after another, stopping at the first exception. */
  function AllocateOneByOne(globalContext: nat, objectTypes: seq<int>, switchId: Oid, counter: nat)
    : Allocation<seq<Oid>>
    requires globalContext <= FIELD_MAX
  {
    if |objectTypes| == 0 then Allocation(Returned([]), counter)
    else
      var head := AllocateId(globalContext, objectTypes[0], switchId, counter);
      if head.result.Thrown? then Allocation(Thrown, head.counter)
      else
        var tail := AllocateOneByOne(globalContext, objectTypes[1..], switchId, head.counter);
        if tail.result.Thrown? then Allocation(Thrown, tail.counter)
        else Allocation(Returned([head.result.value] + tail.result.value), tail.counter)
  }

  lemma EmittedAt(globalContext: nat, objectTypes: seq<int>, switchId: Oid, first: nat, k: nat)
    requires globalContext <= FIELD_MAX && AllAllocatable(objectTypes) && 1 <= first && k < |objectTypes|
    requires Emit(globalContext, objectTypes, switchId, first).Returned?
    ensures Emit(globalContext, objectTypes, switchId, first).value[k]
         == EmittedId(globalContext, objectTypes[k], switchId, first + k)
  {}

  lemma EmittedIdDecodes(globalContext: nat, objectType: int, switchId: Oid, index: nat)
    requires globalContext <= FIELD_MAX && IsAllocatable(objectType) && index <= INDEX_MAX
    ensures var id := EmittedId(globalContext, objectType, switchId, index);
            && ObjectTypeQuery(id) == objectType
            && SwitchIdQuery(id) == SwitchIdAt(SwitchField(switchId), globalContext)
            && IndexField(id) == index
            && ContextField(id) == GetGlobalContext(id) == globalContext
  {
    DecodeConstructed(objectType, SwitchField(switchId), index, globalContext);
    SwitchIdQueryIdempotent(EmittedId(globalContext, objectType, switchId, index));
  }

  lemma AllocatableParts(objectTypes: seq<int>)
    requires |objectTypes| > 0
    ensures AllAllocatable(objectTypes) <==> IsAllocatable(objectTypes[0]) && AllAllocatable(objectTypes[1..])
  {
    assert objectTypes == [objectTypes[0]] + objectTypes[1..];
  }

  lemma EmittedNext(globalContext: nat, objectTypes: seq<int>, switchId: Oid, first: nat, k: nat)
    requires globalContext <= FIELD_MAX && 1 <= first && k < |objectTypes| - 1
    requires AllAllocatable(objectTypes) && AllAllocatable(objectTypes[1..]) && first + |objectTypes| - 1 <= INDEX_MAX
    ensures Emit(globalContext, objectTypes, switchId, first).value[k + 1]
         == Emit(globalContext, objectTypes[1..], switchId, first + 1).value[k]
  {
    EmittedAt(globalContext, objectTypes, switchId, first, k + 1);
    EmittedAt(globalContext, objectTypes[1..], switchId, first + 1, k);
  }

  lemma EmitFirst(globalContext: nat, objectTypes: seq<int>, switchId: Oid, first: nat)
    requires globalContext <= FIELD_MAX && AllAllocatable(objectTypes) && 1 <= first
    requires |objectTypes| > 0 && first + |objectTypes| - 1 <= INDEX_MAX
    ensures AllAllocatable(objectTypes[1..])
    ensures Emit(globalContext, objectTypes, switchId, first).value
         == [EmittedId(globalContext, objectTypes[0], switchId, first)]
            + Emit(globalContext, objectTypes[1..], switchId, first + 1).value
  {
    var tail := objectTypes[1..];
    AllocatableParts(objectTypes);
    var whole, rest := Emit(globalContext, objectTypes, switchId, first).value,
                       Emit(globalContext, tail, switchId, first + 1).value;
    EmittedAt(globalContext, objectTypes, switchId, first, 0);
    forall k | 0 <= k < |tail| ensures whole[k + 1] == rest[k] {
      EmittedNext(globalContext, objectTypes, switchId, first, k);
    }
    Prepended(whole, whole[0], rest);
  }

  /** When the single calls all succeed, and what they return. */
  predicate CanAllocate(objectTypes: seq<int>, switchId: Oid, counter: nat) {
    AllAllocatable(objectTypes) && ObjectTypeQuery(switchId) == TYPE_SWITCH && counter + |objectTypes| <= INDEX_MAX
  }

  /** The first of several single calls. */
  lemma FirstSingle(globalContext: nat, objectTypes: seq<int>, switchId: Oid, counter: nat)
    requires globalContext <= FIELD_MAX && |objectTypes| > 0
    ensures CanAllocate(objectTypes, switchId, counter) ==>
              && CanAllocate(objectTypes[1..], switchId, counter + 1)
              && AllocateId(globalContext, objectTypes[0], switchId, counter)
                 == Allocation(Returned(EmittedId(globalContext, objectTypes[0], switchId, counter + 1)), counter + 1)
    ensures !CanAllocate(objectTypes, switchId, counter) ==>
              || AllocateId(globalContext, objectTypes[0], switchId, counter).result.Thrown?
              || (|objectTypes| > 1 && !CanAllocate(objectTypes[1..], switchId, counter + 1)
                  && AllocateId(globalContext, objectTypes[0], switchId, counter).counter == counter + 1)
  {
    AllocatableParts(objectTypes);
  }

  /** Single calls go on after a first one that returned. */
  lemma OneByOneStep(globalContext: nat, objectTypes: seq<int>, switchId: Oid, counter: nat)
    requires globalContext <= FIELD_MAX && |objectTypes| > 0
    ensures var head := AllocateId(globalContext, objectTypes[0], switchId, counter);
            var rest := AllocateOneByOne(globalContext, objectTypes[1..], switchId, head.counter);
            head.result.Returned? ==>
              AllocateOneByOne(globalContext, objectTypes, switchId, counter)
              == Allocation(if rest.result.Thrown? then Thrown else Returned([head.result.value] + rest.result.value),
                            rest.counter)
  {}

  /** The single calls all succeed exactly when they can, and return what a batch emits. */
  predicate SinglesAgree(globalContext: nat, objectTypes: seq<int>, switchId: Oid, counter: nat)
    requires globalContext <= FIELD_MAX
  {
    var singles := AllocateOneByOne(globalContext, objectTypes, switchId, counter);
    if CanAllocate(objectTypes, switchId, counter)
    then singles == Allocation(Emit(globalContext, objectTypes, switchId, counter + 1), counter + |objectTypes|)
    else singles.result.Thrown?
  }

  lemma OneSingle(globalContext: nat, objectTypes: seq<int>, switchId: Oid, counter: nat)
    requires globalContext <= FIELD_MAX && |objectTypes| == 1
    ensures SinglesAgree(globalContext, objectTypes, switchId, counter)
  {
    FirstSingle(globalContext, objectTypes, switchId, counter);
    if CanAllocate(objectTypes, switchId, counter) {
      EmitFirst(globalContext, objectTypes, switchId, counter + 1);
    }
  }

  lemma OneMoreSingle(globalContext: nat, objectTypes: seq<int>, switchId: Oid, counter: nat)
    requires globalContext <= FIELD_MAX && |objectTypes| > 1
    ensures SinglesAgree(globalContext, objectTypes[1..], switchId, counter + 1) ==>
              SinglesAgree(globalContext, objectTypes, switchId, counter)
  {
    FirstSingle(globalContext, objectTypes, switchId, counter);
    OneByOneStep(globalContext, objectTypes, switchId, counter);
    if CanAllocate(objectTypes, switchId, counter) {
      EmitFirst(globalContext, objectTypes, switchId, counter + 1);
    }
  }

  lemma {:induction false} SinglesEmit(globalContext: nat, objectTypes: seq<int>, switchId: Oid, counter: nat)
    requires globalContext <= FIELD_MAX && |objectTypes| > 0
    ensures SinglesAgree(globalContext, objectTypes, switchId, counter)
    decreases |objectTypes|
  {
    if |objectTypes| == 1 {
      OneSingle(globalContext, objectTypes, switchId, counter);
    } else {
      SinglesEmit(globalContext, objectTypes[1..], switchId, counter + 1);
      OneMoreSingle(globalContext, objectTypes, switchId, counter);
    }
  }

  /** A batch succeeds exactly when the single calls all do, with the same ids and the same counter. */
  lemma BatchEqualsSingles(globalContext: nat, objectTypes: seq<int>, switchId: Oid, counter: nat)
    requires globalContext <= FIELD_MAX
    ensures var batch := AllocateIds(globalContext, objectTypes, switchId, counter);
            var singles := AllocateOneByOne(globalContext, objectTypes, switchId, counter);
            && (batch.result.Returned? <==> singles.result.Returned?)
            && (batch.result.Returned? ==> batch == singles)
  {
    if |objectTypes| > 0 {
      SinglesEmit(globalContext, objectTypes, switchId, counter);
    }
  }

  /**
   * When a batch succeeds, and what it does to the shared counter: indexes are used up also by a
   * batch that throws because its last index does not fit an id.
   */
  lemma AllocatesExactly(globalContext: nat, objectTypes: seq<int>, switchId: Oid, counter: nat)
    requires globalContext <= FIELD_MAX
    ensures var batch := AllocateIds(globalContext, objectTypes, switchId, counter);
            var n := |objectTypes|;
            var asksWell := && (forall t :: t in objectTypes ==> t != TYPE_SWITCH && IsObjectTypeValid(t))
                            && ObjectTypeQuery(switchId) == TYPE_SWITCH;
            && (batch.result.Returned? <==> n == 0 || (asksWell && counter + n <= INDEX_MAX))
            && batch.counter == counter + if asksWell && counter + n < TWO_63 then n else 0
  {
    assert AllAllocatable(objectTypes) <==> forall t :: t in objectTypes ==> IsAllocatable(t);
  }

  lemma AllocatedAt(globalContext: nat, objectTypes: seq<int>, switchId: Oid, counter: nat, k: nat)
    requires globalContext <= FIELD_MAX && k < |objectTypes|
    requires AllocateIds(globalContext, objectTypes, switchId, counter).result.Returned?
    ensures AllAllocatable(objectTypes) && counter + 1 + k <= INDEX_MAX
    ensures AllocateIds(globalContext, objectTypes, switchId, counter).result.value[k]
         == EmittedId(globalContext, objectTypes[k], switchId, counter + 1 + k)
  {
    EmittedAt(globalContext, objectTypes, switchId, counter + 1, k);
  }

  /** A successful batch hands out the next indexes in order, on the switch and context it was asked for. */
  lemma AllocatedIdsDecode(globalContext: nat, objectTypes: seq<int>, switchId: Oid, counter: nat, k: nat)
    requires globalContext <= FIELD_MAX && k < |objectTypes|
    requires AllocateIds(globalContext, objectTypes, switchId, counter).result.Returned?
    ensures var id := AllocateIds(globalContext, objectTypes, switchId, counter).result.value[k];
            && ObjectTypeQuery(id) == objectTypes[k]
            && SwitchIdQuery(id) == SwitchIdAt(SwitchField(switchId), globalContext)
            && IndexField(id) == counter + 1 + k
            && GetGlobalContext(id) == globalContext
  {
    AllocatedAt(globalContext, objectTypes, switchId, counter, k);
    EmittedIdDecodes(globalContext, objectTypes[k], switchId, counter + 1 + k);
  }

  class VirtualObjectIdManager {
    const globalContext: nat
    const container: SwitchConfigContainer
    const generator: RedisVidIndexGenerator
    var switchIndexes: set<nat>

    ghost predicate Valid()
      reads this, container
    {
      globalContext <= FIELD_MAX && container.Valid()
    }

    /** The source throws for a larger context; a run of all contexts has that failure (`Sai.Creatable`). */
    constructor (globalContext: nat, container: SwitchConfigContainer, generator: RedisVidIndexGenerator)
      requires globalContext <= FIELD_MAX && container.Valid()
      ensures Valid() && switchIndexes == {}
      ensures this.globalContext == globalContext && this.container == container && this.generator == generator
    {
      this.globalContext, this.container, this.generator := globalContext, container, generator;
      switchIndexes := {};
    }

    method Clear()
      requires Valid()
      modifies this
      ensures Valid() && switchIndexes == {}
    {
      switchIndexes := {};
    }

    method AllocateNewObjectId(objectType: int, switchId: Oid) returns (r: Result<Oid>)
      requires Valid()
      modifies generator.db
      ensures Valid()
      ensures Allocation(r, generator.db.value)
           == AllocateId(globalContext, objectType, switchId, old(generator.db.value))
    {
      if !IsObjectTypeValid(objectType) {
        return Thrown;
      }
      if objectType == TYPE_SWITCH {
        return Thrown;
      }
      var switchObjectType := ObjectTypeQuery(switchId);
      if switchObjectType != TYPE_SWITCH {
        return Thrown;
      }
      var switchIndex := SwitchField(switchId);
      var index := generator.Increment();
      if index.Thrown? || index.value > INDEX_MAX {
        return Thrown;
      }
      r := ConstructObjectId(objectType, switchIndex, index.value, globalContext);
    }

    /** The first loop of `allocateNewObjectIds`: false when it throws. */
    static method CheckObjectTypes(objectTypes: seq<int>) returns (ok: bool)
      ensures ok <==> AllAllocatable(objectTypes)
    {
      for idx := 0 to |objectTypes|
        invariant forall k :: 0 <= k < idx ==> IsAllocatable(objectTypes[k])
      {
        if !IsObjectTypeValid(objectTypes[idx]) {
          return false;
        }
        if objectTypes[idx] == TYPE_SWITCH {
          return false;
        }
      }
      return true;
    }

    /** The second loop of `allocateNewObjectIds`. */
    method FillObjectIds(switchId: Oid, objectTypes: seq<int>, indexes: seq<nat>, oids: array<Oid>)
      requires Valid() && oids.Length == |objectTypes| == |indexes| && AllAllocatable(objectTypes)
      requires |indexes| > 0 && indexes == IndexRange(indexes[0], |indexes|)
      requires 1 <= indexes[0] && indexes[|indexes| - 1] <= INDEX_MAX
      modifies oids
      ensures Emit(globalContext, objectTypes, switchId, indexes[0]) == Returned(oids[..])
    {
      ghost var ids := Emit(globalContext, objectTypes, switchId, indexes[0]).value;
      for idx := 0 to |objectTypes|
        invariant forall k :: 0 <= k < idx ==> oids[k] == ids[k]
      {
        oids[idx] := ConstructObjectId(objectTypes[idx], SwitchField(switchId), indexes[idx], globalContext).value;
      }
      assert oids[..] == ids;
    }

    /** The ids are written into the caller's array, which keeps its contents when the call throws. */
    method AllocateNewObjectIds(switchId: Oid, objectTypes: seq<int>, oids: array<Oid>) returns (r: Result<()>)
      requires Valid() && oids.Length == |objectTypes|
      modifies generator.db, oids
      ensures Valid()
      ensures var spec := AllocateIds(globalContext, objectTypes, switchId, old(generator.db.value));
              && generator.db.value == spec.counter
              && (r.Returned? <==> spec.result.Returned?)
              && oids[..] == (if r.Returned? then spec.result.value else old(oids[..]))
    {
      if |objectTypes| == 0 {
        assert oids[..] == [];
        return Returned(());
      }
      var ok := CheckObjectTypes(objectTypes);
      if !ok {
        return Thrown;
      }
      var switchObjectType := ObjectTypeQuery(switchId);
      if switchObjectType != TYPE_SWITCH {
        return Thrown;
      }
      var indexes := generator.IncrementBy(|objectTypes|);
      if indexes.Thrown? {
        return Thrown;
      }
      var last := indexes.value[|indexes.value| - 1];
      if last > INDEX_MAX {
        return Thrown;
      }
      FillObjectIds(switchId, objectTypes, indexes.value, oids);
      return Returned(());
    }

    /** The switch index is marked as allocated even when it already was. */
    method AllocateNewSwitchObjectId(hardwareInfo: string) returns (r: Result<Oid>)
      requires Valid()
      modifies this
      ensures Valid()
      ensures hardwareInfo !in container.hwinfoToConfig ==>
                r == Returned(NULL_OID) && switchIndexes == old(switchIndexes)
      ensures hardwareInfo in container.hwinfoToConfig ==>
                var index := container.hwinfoToConfig[hardwareInfo].index;
                if index > FIELD_MAX then r == Thrown && switchIndexes == old(switchIndexes)
                else r == Returned(SwitchIdAt(index, globalContext)) && switchIndexes == old(switchIndexes) + {index}
    {
      if hardwareInfo !in container.hwinfoToConfig {
        return Returned(NULL_OID);
      }
      var switchIndex := container.hwinfoToConfig[hardwareInfo].index;
      if switchIndex > FIELD_MAX {
        return Thrown;
      }
      switchIndexes := switchIndexes + {switchIndex};
      r := ConstructObjectId(TYPE_SWITCH, switchIndex, switchIndex, globalContext);
    }

    /** Throws when the id is a switch whose index is not allocated; other ids are left alone. */
    method ReleaseObjectId(oid: Oid) returns (r: Result<()>)
      requires Valid()
      modifies this
      ensures Valid()
      ensures r.Thrown? <==> ObjectTypeQuery(oid) == TYPE_SWITCH && SwitchField(oid) !in old(switchIndexes)
      ensures switchIndexes == if ObjectTypeQuery(oid) == TYPE_SWITCH then old(switchIndexes) - {SwitchField(oid)}
                               else old(switchIndexes)
    {
      if ObjectTypeQuery(oid) == TYPE_SWITCH {
        var index := SwitchField(oid);
        if index !in switchIndexes {
          return Thrown;
        }
        switchIndexes := switchIndexes - {index};
      }
      return Returned(());
    }
  }
}
