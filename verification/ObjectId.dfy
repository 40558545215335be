/**
 * Virtual object ids: the 64-bit layout of lib/VirtualObjectIdManager.cpp and the static queries on it.
 *
 *   bits 63..56 switch index, 55..48 object type, 47..40 global context,
 *   bit  39     object type extensions flag, 38..0 object index
 */
module ObjectId {
  import opened Common
  import opened Bits

  const INDEX_BITS: nat := 39
  const FLAG_BITS: nat := 1
  const CONTEXT_BITS: nat := 8
  const TYPE_BITS: nat := 8

  const INDEX_MAX: nat := 0x7F_FFFF_FFFF
  const FIELD_MAX: nat := 255

  const TWO_39: nat := 0x80_0000_0000
  const TWO_40: nat := 0x100_0000_0000
  const TWO_48: nat := 0x1_0000_0000_0000
  const TWO_56: nat := 0x100_0000_0000_0000

  const TYPE_NULL: int := 0
  const TYPE_SWITCH: int := 0x21
  const EXTENSIONS_START: int := 0x2000_0000

  // The ends of the two type ranges come from the SAI headers. The source only asserts that each
  // range can be encoded on one byte, so their values are left open here.
  type BaseTypeEnd = n: int | 0x21 < n < 256 witness 0x22
  type ExtensionTypeEnd = n: int | 0x2000_0000 <= n < 0x2000_0000 + 256 witness 0x2000_0000
  const OBJECT_TYPE_MAX: BaseTypeEnd
  const EXTENSIONS_END: ExtensionTypeEnd

  /** `sai_metadata_is_object_type_valid`. */
  predicate IsObjectTypeValid(objectType: int) {
    (TYPE_NULL < objectType < OBJECT_TYPE_MAX) || (EXTENSIONS_START <= objectType < EXTENSIONS_END)
  }

  // The field macros.

  function IndexField(oid: Oid): nat { oid % TWO_39 }
  function FlagField(oid: Oid): nat { oid / TWO_39 % 2 }
  function ContextField(oid: Oid): nat { oid / TWO_40 % 256 }
  function TypeField(oid: Oid): nat { oid / TWO_48 % 256 }
  function SwitchField(oid: Oid): nat { oid / TWO_56 % 256 }

  function ShiftLeft(x: nat, k: nat): nat { x * Pow2(k) % TWO_64 }

  lemma PowersOfTwo()
    ensures Pow2(INDEX_BITS) == TWO_39
    ensures Pow2(FLAG_BITS + INDEX_BITS) == TWO_40
    ensures Pow2(CONTEXT_BITS + FLAG_BITS + INDEX_BITS) == TWO_48
    ensures Pow2(TYPE_BITS + CONTEXT_BITS + FLAG_BITS + INDEX_BITS) == TWO_56
  {
    assert Pow2(10) == 1024;
    assert Pow2(20) == 0x10_0000;
    assert Pow2(30) == 0x4000_0000;
    assert Pow2(39) == TWO_39;
    assert Pow2(48) == TWO_48;
    assert Pow2(56) == TWO_56;
  }

  /** The word the source builds: five shifted fields joined by bitwise or. */
  function Pack(switchIndex: nat, typeCode: nat, globalContext: nat, flag: nat, objectIndex: nat): nat {
    BitOr(
      BitOr(
        BitOr(
          BitOr(ShiftLeft(switchIndex, TYPE_BITS + CONTEXT_BITS + FLAG_BITS + INDEX_BITS),
                ShiftLeft(typeCode, CONTEXT_BITS + FLAG_BITS + INDEX_BITS)),
          ShiftLeft(globalContext, FLAG_BITS + INDEX_BITS)),
        ShiftLeft(flag, INDEX_BITS)),
      objectIndex)
  }

  predicate FieldsInRange(switchIndex: nat, typeCode: nat, globalContext: nat, flag: nat, objectIndex: nat) {
    switchIndex <= FIELD_MAX && typeCode <= FIELD_MAX && globalContext <= FIELD_MAX && flag <= 1
    && objectIndex <= INDEX_MAX
  }

  /** The packed word as a number in mixed radix: switch, type, context, flag, index. */
  function Layout(switchIndex: nat, typeCode: nat, globalContext: nat, flag: nat, objectIndex: nat): nat {
    (((switchIndex * 256 + typeCode) * 256 + globalContext) * 2 + flag) * TWO_39 + objectIndex
  }

  lemma ShiftedSwitch(switchIndex: nat)
    requires switchIndex <= FIELD_MAX
    ensures ShiftLeft(switchIndex, 56) == switchIndex * Pow2(56) == switchIndex * TWO_56
  {
    PowersOfTwo();
    assert switchIndex * TWO_56 < TWO_64;
  }

  lemma JoinType(switchIndex: nat, typeCode: nat)
    requires switchIndex <= FIELD_MAX && typeCode <= FIELD_MAX
    ensures BitOr(ShiftLeft(switchIndex, 56), ShiftLeft(typeCode, 48)) == (switchIndex * 256 + typeCode) * TWO_48
  {
    ShiftedSwitch(switchIndex);
    PowersOfTwo();
    assert ShiftLeft(typeCode, 48) == typeCode * TWO_48 < TWO_56;
    OrOfDisjoint(switchIndex, 56, typeCode * TWO_48);
  }

  lemma JoinContext(upper: nat, globalContext: nat)
    requires globalContext <= FIELD_MAX
    ensures BitOr(upper * TWO_48, ShiftLeft(globalContext, 40)) == (upper * 256 + globalContext) * TWO_40
  {
    PowersOfTwo();
    assert ShiftLeft(globalContext, 40) == globalContext * TWO_40 < TWO_48;
    OrOfDisjoint(upper, 48, globalContext * TWO_40);
  }

  lemma JoinFlag(upper: nat, flag: nat)
    requires flag <= 1
    ensures BitOr(upper * TWO_40, ShiftLeft(flag, 39)) == (upper * 2 + flag) * TWO_39
  {
    PowersOfTwo();
    assert ShiftLeft(flag, 39) == flag * TWO_39 < TWO_40;
    OrOfDisjoint(upper, 40, flag * TWO_39);
  }

  lemma JoinIndex(upper: nat, objectIndex: nat)
    requires objectIndex <= INDEX_MAX
    ensures BitOr(upper * TWO_39, objectIndex) == upper * TWO_39 + objectIndex
  {
    PowersOfTwo();
    OrOfDisjoint(upper, 39, objectIndex);
  }

  lemma JoinedContext(word: nat, upper: nat, globalContext: nat)
    requires word == upper * TWO_48 && globalContext <= FIELD_MAX
    ensures BitOr(word, ShiftLeft(globalContext, 40)) == (upper * 256 + globalContext) * TWO_40
  {
    JoinContext(upper, globalContext);
  }

  lemma JoinUpTo40(switchIndex: nat, typeCode: nat, globalContext: nat)
    requires switchIndex <= FIELD_MAX && typeCode <= FIELD_MAX && globalContext <= FIELD_MAX
    ensures BitOr(BitOr(ShiftLeft(switchIndex, 56), ShiftLeft(typeCode, 48)), ShiftLeft(globalContext, 40))
         == ((switchIndex * 256 + typeCode) * 256 + globalContext) * TWO_40
  {
    var word, upper := BitOr(ShiftLeft(switchIndex, 56), ShiftLeft(typeCode, 48)), switchIndex * 256 + typeCode;
    assert word == upper * TWO_48 by {
      JoinType(switchIndex, typeCode);
    }
    JoinedContext(word, upper, globalContext);
  }

  lemma JoinUpTo39(upper: nat, word: nat, flag: nat, objectIndex: nat)
    requires word == upper * TWO_40 && flag <= 1 && objectIndex <= INDEX_MAX
    ensures BitOr(BitOr(word, ShiftLeft(flag, 39)), objectIndex) == (upper * 2 + flag) * TWO_39 + objectIndex
  {
    JoinFlag(upper, flag);
    JoinIndex(upper * 2 + flag, objectIndex);
  }

  /** Fields that fit their bits never overlap, so the packed word is their mixed-radix number. */
  lemma PackIsLayout(switchIndex: nat, typeCode: nat, globalContext: nat, flag: nat, objectIndex: nat)
    requires FieldsInRange(switchIndex, typeCode, globalContext, flag, objectIndex)
    ensures Pack(switchIndex, typeCode, globalContext, flag, objectIndex)
         == Layout(switchIndex, typeCode, globalContext, flag, objectIndex)
  {
    var word := BitOr(BitOr(ShiftLeft(switchIndex, 56), ShiftLeft(typeCode, 48)), ShiftLeft(globalContext, 40));
    JoinUpTo40(switchIndex, typeCode, globalContext);
    JoinUpTo39((switchIndex * 256 + typeCode) * 256 + globalContext, word, flag, objectIndex);
  }

  lemma DivideBy39And40(n: nat)
    ensures n / TWO_40 == n / TWO_39 / 2
  {}

  lemma DivideBy40And48(n: nat)
    ensures n / TWO_48 == n / TWO_40 / 256
  {}

  lemma DivideBy48And56(n: nat)
    ensures n / TWO_56 == n / TWO_48 / 256
  {}

  /** The field macros take the number apart digit by digit. */
  lemma FieldsAreDigits(oid: Oid)
    ensures oid / TWO_39 == oid / TWO_40 * 2 + FlagField(oid)
    ensures oid / TWO_40 == oid / TWO_48 * 256 + ContextField(oid)
    ensures oid / TWO_48 == oid / TWO_56 * 256 + TypeField(oid)
    ensures oid / TWO_56 == SwitchField(oid)
    ensures oid == Layout(SwitchField(oid), TypeField(oid), ContextField(oid), FlagField(oid), IndexField(oid))
  {
    DivideBy39And40(oid);
    DivideBy40And48(oid);
    DivideBy48And56(oid);
    assert oid / TWO_56 < 256;
  }

  lemma FieldsOfLayout(switchIndex: nat, typeCode: nat, globalContext: nat, flag: nat, objectIndex: nat)
    requires FieldsInRange(switchIndex, typeCode, globalContext, flag, objectIndex)
    ensures var oid := Layout(switchIndex, typeCode, globalContext, flag, objectIndex);
            && oid < TWO_64
            && IndexField(oid) == objectIndex && FlagField(oid) == flag && ContextField(oid) == globalContext
            && TypeField(oid) == typeCode && SwitchField(oid) == switchIndex
  {
    var oid := Layout(switchIndex, typeCode, globalContext, flag, objectIndex);
    var upper := switchIndex * 256 + typeCode;
    var middle := upper * 256 + globalContext;
    assert oid == (middle * 2 + flag) * TWO_39 + objectIndex;
    assert oid / TWO_39 == middle * 2 + flag;
    DivideBy39And40(oid);
    assert oid / TWO_40 == middle;
    DivideBy40And48(oid);
    assert oid / TWO_48 == upper;
    DivideBy48And56(oid);
    assert oid / TWO_56 == switchIndex;
  }

  function FlagOf(objectType: int): nat { if objectType >= EXTENSIONS_START then 1 else 0 }

  function CodeOf(objectType: int): nat
    requires IsObjectTypeValid(objectType)
  {
    if objectType >= EXTENSIONS_START then objectType - EXTENSIONS_START else objectType
  }

  /**
   * `constructObjectId`. Its callers pass fields that fit their bits: indexes and contexts were
   * checked against the maxima, or were read back from an id.
   */
  function ConstructObjectId(objectType: int, switchIndex: nat, objectIndex: nat, globalContext: nat)
    : (id: Result<Oid>)
    requires switchIndex <= FIELD_MAX && objectIndex <= INDEX_MAX && globalContext <= FIELD_MAX
  {
    if !IsObjectTypeValid(objectType) then
      Thrown
    else
      PackIsLayout(switchIndex, CodeOf(objectType), globalContext, FlagOf(objectType), objectIndex);
      FieldsOfLayout(switchIndex, CodeOf(objectType), globalContext, FlagOf(objectType), objectIndex);
      Returned(Pack(switchIndex, CodeOf(objectType), globalContext, FlagOf(objectType), objectIndex))
  }

  /** `objectTypeQuery` and `saiObjectTypeQuery`: TYPE_NULL for the null id and for an invalid type. */
  function ObjectTypeQuery(oid: Oid): int {
    if oid == NULL_OID then TYPE_NULL
    else
      var objectType := if FlagField(oid) == 1 then TypeField(oid) + EXTENSIONS_START else TypeField(oid);
      if IsObjectTypeValid(objectType) then objectType else TYPE_NULL
  }

  function SwitchIdAt(switchIndex: nat, globalContext: nat): Oid
    requires switchIndex <= FIELD_MAX && globalContext <= FIELD_MAX
  {
    ConstructObjectId(TYPE_SWITCH, switchIndex, switchIndex, globalContext).value
  }

  /** `switchIdQuery`: null for an id of invalid type. */
  function SwitchIdQuery(oid: Oid): Oid {
    if oid == NULL_OID then NULL_OID
    else if ObjectTypeQuery(oid) == TYPE_NULL then NULL_OID
    else if ObjectTypeQuery(oid) == TYPE_SWITCH then oid
    else SwitchIdAt(SwitchField(oid), ContextField(oid))
  }

  /** `saiSwitchIdQuery`: throws for an id of invalid type. */
  function SaiSwitchIdQuery(oid: Oid): Result<Oid> {
    if oid == NULL_OID then Returned(NULL_OID)
    else if ObjectTypeQuery(oid) == TYPE_NULL then Thrown
    else if ObjectTypeQuery(oid) == TYPE_SWITCH then Returned(oid)
    else ConstructObjectId(TYPE_SWITCH, SwitchField(oid), SwitchField(oid), ContextField(oid))
  }

  function GetSwitchIndex(oid: Oid): nat { SwitchField(SwitchIdQuery(oid)) }

  function GetGlobalContext(oid: Oid): nat { ContextField(SwitchIdQuery(oid)) }

  /** `getObjectIndex`: the source narrows the 39-bit field to `uint32_t`. */
  function GetObjectIndex(oid: Oid): nat { ToUint32(IndexField(oid)) }

  function UpdateObjectIndex(oid: Oid, objectIndex: nat): Result<Oid> {
    if oid == NULL_OID then Thrown
    else if objectIndex > INDEX_MAX then Thrown
    else if ObjectTypeQuery(oid) == TYPE_NULL then Thrown
    else ConstructObjectId(ObjectTypeQuery(oid), SwitchField(oid), objectIndex, ContextField(oid))
  }

  // Round trips.

  /** Every field of a constructed id is read back, and the id is not null. */
  lemma DecodeConstructed(objectType: int, switchIndex: nat, objectIndex: nat, globalContext: nat)
    requires IsObjectTypeValid(objectType)
    requires switchIndex <= FIELD_MAX && objectIndex <= INDEX_MAX && globalContext <= FIELD_MAX
    ensures var id := ConstructObjectId(objectType, switchIndex, objectIndex, globalContext).value;
            && id != NULL_OID
            && ObjectTypeQuery(id) == objectType
            && SwitchField(id) == switchIndex
            && IndexField(id) == objectIndex
            && ContextField(id) == globalContext
  {
    PackIsLayout(switchIndex, CodeOf(objectType), globalContext, FlagOf(objectType), objectIndex);
    FieldsOfLayout(switchIndex, CodeOf(objectType), globalContext, FlagOf(objectType), objectIndex);
  }

  /** A switch id is not null and names its switch index and its context. */
  lemma SwitchIdDecodes(switchIndex: nat, globalContext: nat)
    requires switchIndex <= FIELD_MAX && globalContext <= FIELD_MAX
    ensures var id := SwitchIdAt(switchIndex, globalContext);
            && id != NULL_OID
            && ObjectTypeQuery(id) == TYPE_SWITCH
            && SwitchField(id) == IndexField(id) == switchIndex
            && GetGlobalContext(id) == globalContext
  {
    DecodeConstructed(TYPE_SWITCH, switchIndex, switchIndex, globalContext);
  }

  /** The layout loses nothing: an id of valid type is rebuilt from its four decoded fields. */
  lemma ConstructDecoded(oid: Oid)
    requires ObjectTypeQuery(oid) != TYPE_NULL
    ensures ConstructObjectId(ObjectTypeQuery(oid), SwitchField(oid), IndexField(oid), ContextField(oid))
         == Returned(oid)
  {
    var objectType := ObjectTypeQuery(oid);
    FieldsAreDigits(oid);
    assert CodeOf(objectType) == TypeField(oid) && FlagOf(objectType) == FlagField(oid);
    PackIsLayout(SwitchField(oid), TypeField(oid), ContextField(oid), FlagField(oid), IndexField(oid));
  }

  /** The switch of an id is a fixed point, and keeps the id's switch index and context. */
  lemma SwitchIdQueryIdempotent(oid: Oid)
    ensures SwitchIdQuery(SwitchIdQuery(oid)) == SwitchIdQuery(oid)
    ensures ObjectTypeQuery(oid) != TYPE_NULL ==>
              && ObjectTypeQuery(SwitchIdQuery(oid)) == TYPE_SWITCH
              && GetSwitchIndex(oid) == SwitchField(oid)
              && GetGlobalContext(oid) == ContextField(oid)
    ensures ObjectTypeQuery(oid) == TYPE_NULL ==> GetSwitchIndex(oid) == 0 && GetGlobalContext(oid) == 0
  {
    if ObjectTypeQuery(oid) != TYPE_NULL && ObjectTypeQuery(oid) != TYPE_SWITCH {
      SwitchIdDecodes(SwitchField(oid), ContextField(oid));
    }
  }

  /** The throwing and the static switch query differ only on non-null ids of invalid type. */
  lemma SwitchQueriesAgree(oid: Oid)
    ensures SaiSwitchIdQuery(oid).Thrown? <==> oid != NULL_OID && ObjectTypeQuery(oid) == TYPE_NULL
    ensures SaiSwitchIdQuery(oid).Returned? ==> SaiSwitchIdQuery(oid).value == SwitchIdQuery(oid)
  {
    SwitchIdQueryIdempotent(oid);
  }

  /** Updating the index changes that field and no other; writing the present index back changes nothing. */
  lemma UpdateChangesOnlyIndex(oid: Oid, objectIndex: nat)
    ensures UpdateObjectIndex(oid, objectIndex).Returned?
       <==> ObjectTypeQuery(oid) != TYPE_NULL && objectIndex <= INDEX_MAX
    ensures UpdateObjectIndex(oid, objectIndex).Returned? ==>
              var id := UpdateObjectIndex(oid, objectIndex).value;
              && IndexField(id) == objectIndex
              && ObjectTypeQuery(id) == ObjectTypeQuery(oid)
              && SwitchField(id) == SwitchField(oid)
              && ContextField(id) == ContextField(oid)
              && (id == oid <==> objectIndex == IndexField(oid))
  {
    if UpdateObjectIndex(oid, objectIndex).Returned? {
      DecodeConstructed(ObjectTypeQuery(oid), SwitchField(oid), objectIndex, ContextField(oid));
      ConstructDecoded(oid);
    }
  }

  /** `getObjectIndex` gives the constructed index back exactly when that index fits 32 bits. */
  lemma ObjectIndexIsNarrowed(objectType: int, switchIndex: nat, objectIndex: nat, globalContext: nat)
    requires IsObjectTypeValid(objectType)
    requires switchIndex <= FIELD_MAX && objectIndex <= INDEX_MAX && globalContext <= FIELD_MAX
    ensures var id := ConstructObjectId(objectType, switchIndex, objectIndex, globalContext).value;
            && GetObjectIndex(id) == ToUint32(objectIndex)
            && (GetObjectIndex(id) == objectIndex <==> objectIndex < TWO_32)
  {
    var id := ConstructObjectId(objectType, switchIndex, objectIndex, globalContext).value;
    assert IndexField(id) == objectIndex by {
      DecodeConstructed(objectType, switchIndex, objectIndex, globalContext);
    }
  }

  /** Two constructed ids are equal only if they were constructed from the same four values. */
  lemma ConstructInjective(t1: int, s1: nat, i1: nat, c1: nat, t2: int, s2: nat, i2: nat, c2: nat)
    requires IsObjectTypeValid(t1) && s1 <= FIELD_MAX && i1 <= INDEX_MAX && c1 <= FIELD_MAX
    requires IsObjectTypeValid(t2) && s2 <= FIELD_MAX && i2 <= INDEX_MAX && c2 <= FIELD_MAX
    ensures ConstructObjectId(t1, s1, i1, c1) == ConstructObjectId(t2, s2, i2, c2)
       <==> t1 == t2 && s1 == s2 && i1 == i2 && c1 == c2
  {
    DecodeConstructed(t1, s1, i1, c1);
    DecodeConstructed(t2, s2, i2, c2);
  }
}
