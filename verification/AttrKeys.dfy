/** The canonical text under which an object's key attributes are remembered (meta/AttrKeyMap.cpp). */
module AttrKeys {
  import opened Common
  import opened Text
  import opened Numerals

  /** `sai_attribute_value_t`: what each member of the union reads. */
  datatype Value = Value(u32list: seq<Uint32>, s32: Int32, u32: Uint32, u8: nat, u16: nat, oid: Oid)

  datatype Attr = Attr(id: Int32, value: Value)

  datatype ValueType = Uint32List | Signed32 | Unsigned32 | Unsigned8 | Unsigned16 | ObjectId | NotPrimitive

  datatype Metadata = Metadata(name: string, isKey: bool, valueType: ValueType)

  /** The metadata of one object type, by attribute id. */
  type Metas = Int32 -> Option<Metadata>

  /** What of a value ends up in the key. */
  datatype Reading = Numbers(list: seq<Uint32>) | Number(n: int) | Id(oid: Oid)

  function Read(valueType: ValueType, v: Value): Reading
    requires !valueType.NotPrimitive?
  {
    match valueType
    case Uint32List => Numbers(v.u32list)
    case Signed32 => Number(v.s32)
    case Unsigned32 => Number(v.u32)
    case Unsigned8 => Number(v.u8)
    case Unsigned16 => Number(v.u16)
    case ObjectId => Id(v.oid)
  }

  function ReadingText(r: Reading): string {
    match r
    case Numbers(list) => Join(Strings(list), ',')
    case Number(n) => ToString(n)
    case Id(oid) => SerializeOid(oid)
  }

  function NameOf(metas: Metas, id: Int32): string {
    match metas(id)
    case None => ""
    case Some(md) => md.name
  }

  /** A `std::map` from attribute ids, as the list of its pairs in the order of its iteration. */
  type IdMap<V> = seq<(Int32, V)>

  type Readings = IdMap<Reading>

  ghost predicate Above(readings: Readings, id: Int32) { forall p :: p in readings ==> id < p.0 }

  ghost predicate Ascending(readings: Readings) {
    readings != [] ==> Above(readings[1..], readings[0].0) && Ascending(readings[1..])
  }

  /** `m[id] = v`. */
  function Assign<V>(m: IdMap<V>, id: Int32, v: V): IdMap<V> {
    if |m| == 0 then [(id, v)]
    else if id < m[0].0 then [(id, v)] + m
    else if id == m[0].0 then [(id, v)] + m[1..]
    else [m[0]] + Assign(m[1..], id, v)
  }

  function Entry(metas: Metas, pair: (Int32, Reading)): string { NameOf(metas, pair.0) + ":" + ReadingText(pair.1) }

  /** The map from ids to entries. */
  function Texts(metas: Metas, readings: Readings): (texts: IdMap<string>)
    ensures |texts| == |readings|
    ensures forall i :: 0 <= i < |texts| ==> texts[i] == (readings[i].0, Entry(metas, readings[i]))
  {
    if |readings| == 0 then [] else [(readings[0].0, Entry(metas, readings[0]))] + Texts(metas, readings[1..])
  }

  function Entries(metas: Metas, readings: Readings): (entries: seq<string>)
    ensures |entries| == |readings|
    ensures forall i :: 0 <= i < |entries| ==> entries[i] == Entry(metas, readings[i])
  {
    seq(|readings|, i requires 0 <= i < |readings| => Entry(metas, readings[i]))
  }

  function Key(metas: Metas, switchId: Oid, readings: Readings): string {
    Terminated([SerializeOid(switchId)] + Entries(metas, readings), ';')
  }

  predicate Throws(metas: Metas, a: Attr) {
    match metas(a.id)
    case None => true
    case Some(md) => md.isKey && md.valueType.NotPrimitive?
  }

  predicate IsKey(metas: Metas, id: Int32) { metas(id).Some? && metas(id).value.isKey }

  /** The last value given for each key attribute; throws as the loop does. */
  function LastReadings(metas: Metas, attrs: seq<Attr>): Result<Readings> {
    if attrs == [] then Returned([])
    else
      var last := attrs[|attrs| - 1];
      match LastReadings(metas, attrs[..|attrs| - 1])
      case Thrown => Thrown
      case Returned(readings) =>
        if Throws(metas, last) then Thrown
        else if IsKey(metas, last.id) then
          Returned(Assign(readings, last.id, Read(metas(last.id).value.valueType, last.value)))
        else Returned(readings)
  }

  /** `constructKey`. */
  function ConstructKey(metas: Metas, switchId: Oid, attrs: seq<Attr>): Result<string> {
    if switchId == NULL_OID then Thrown
    else
      match LastReadings(metas, attrs)
      case Thrown => Thrown
      case Returned(readings) => Returned(Key(metas, switchId, readings))
  }

  // ---------------------------------------------------------------- the last value counts

  lemma FirstOrRest(readings: Readings, p: (Int32, Reading))
    requires readings != []
    ensures p in readings <==> p == readings[0] || p in readings[1..]
  {
    assert readings == [readings[0]] + readings[1..];
  }

  /** Assignment replaces the pair of its id, or adds one, and leaves the rest. */
  lemma {:induction false} AssignIsUpdate(readings: Readings, id: Int32, r: Reading)
    requires Ascending(readings)
    ensures Ascending(Assign(readings, id, r))
    ensures forall p :: p in Assign(readings, id, r) <==> p == (id, r) || (p in readings && p.0 != id)
    decreases |readings|
  {
    if readings != [] {
      forall p ensures p in readings <==> p == readings[0] || p in readings[1..] {
        FirstOrRest(readings, p);
      }
      if readings[0].0 < id {
        var rest := Assign(readings[1..], id, r);
        AssignIsUpdate(readings[1..], id, r);
        assert ([readings[0]] + rest)[1..] == rest;
      } else if id == readings[0].0 {
        assert ([(id, r)] + readings[1..])[1..] == readings[1..];
      } else {
        assert ([(id, r)] + readings)[1..] == readings;
      }
    }
  }

  /** The attribute at `i` is the last one with its id, and part of the key. */
  ghost predicate Counts(metas: Metas, attrs: seq<Attr>, i: nat) {
    i < |attrs| && IsKey(metas, attrs[i].id) && !metas(attrs[i].id).value.valueType.NotPrimitive?
    && forall j :: i < j < |attrs| ==> attrs[j].id != attrs[i].id
  }

  function PairOf(metas: Metas, a: Attr): (Int32, Reading)
    requires IsKey(metas, a.id) && !metas(a.id).value.valueType.NotPrimitive?
  {
    (a.id, Read(metas(a.id).value.valueType, a.value))
  }

  ghost predicate Counted(metas: Metas, attrs: seq<Attr>, p: (Int32, Reading)) {
    exists i: nat :: Counts(metas, attrs, i) && p == PairOf(metas, attrs[i])
  }

  /** In the order of ids, the last value of every key attribute and nothing else. */
  ghost predicate AreLastValues(metas: Metas, attrs: seq<Attr>, readings: Readings) {
    Ascending(readings) && forall p :: p in readings <==> Counted(metas, attrs, p)
  }

  lemma CountedBefore(metas: Metas, attrs: seq<Attr>, p: (Int32, Reading))
    requires attrs != []
    ensures var n := |attrs| - 1;
            Counted(metas, attrs, p) <==>
              || (Counts(metas, attrs, n) && p == PairOf(metas, attrs[n]))
              || (Counted(metas, attrs[..n], p) && p.0 != attrs[n].id)
  {
    var n := |attrs| - 1;
    assert forall j :: 0 <= j < n ==> attrs[..n][j] == attrs[j];
    if Counted(metas, attrs[..n], p) && p.0 != attrs[n].id {
      var i: nat :| Counts(metas, attrs[..n], i) && p == PairOf(metas, attrs[..n][i]);
      assert Counts(metas, attrs, i);
    }
    if Counted(metas, attrs, p) {
      var i: nat :| Counts(metas, attrs, i) && p == PairOf(metas, attrs[i]);
      assert i < n ==> Counts(metas, attrs[..n], i);
    }
  }

  /**
   * The key holds the last value of every key attribute; it cannot be built exactly when some
   * attribute has no metadata or is a key of a type that has no text.
   */
  lemma {:induction false} LastValueCounts(metas: Metas, attrs: seq<Attr>)
    ensures var r := LastReadings(metas, attrs);
            && (r.Thrown? <==> exists a :: a in attrs && Throws(metas, a))
            && (r.Returned? ==> AreLastValues(metas, attrs, r.value))
    decreases |attrs|
  {
    if attrs != [] {
      var n := |attrs| - 1;
      LastValueCounts(metas, attrs[..n]);
      assert forall a :: a in attrs <==> a in attrs[..n] || a == attrs[n];
      if LastReadings(metas, attrs).Returned? {
        LastValueStep(metas, attrs, LastReadings(metas, attrs[..n]).value);
      }
    }
  }

  lemma LastValueStep(metas: Metas, attrs: seq<Attr>, before: Readings)
    requires attrs != [] && !Throws(metas, attrs[|attrs| - 1])
    requires AreLastValues(metas, attrs[..|attrs| - 1], before)
    ensures var last := attrs[|attrs| - 1];
            AreLastValues(metas, attrs,
                          if IsKey(metas, last.id) then Assign(before, last.id, PairOf(metas, last).1) else before)
  {
    var n := |attrs| - 1;
    if IsKey(metas, attrs[n].id) {
      AssignIsUpdate(before, attrs[n].id, PairOf(metas, attrs[n]).1);
    }
    forall p ensures Counted(metas, attrs, p) <==>
                       || (IsKey(metas, attrs[n].id) && p == PairOf(metas, attrs[n]))
                       || (p in before && p.0 != attrs[n].id)
    {
      CountedBefore(metas, attrs, p);
    }
    forall p | p in before ensures IsKey(metas, p.0) {
      assert Counted(metas, attrs[..n], p);
    }
  }

  lemma {:induction false} AscendingIsUnique(a: Readings, b: Readings)
    requires Ascending(a) && Ascending(b) && forall p :: p in a <==> p in b
    ensures a == b
    decreases |a|
  {
    assert b != [] ==> b[0] in b;
    if a != [] {
      assert a[0] in b && b != [];
      assert b[0] in a;
      FirstOrRest(a, b[0]);
      FirstOrRest(b, a[0]);
      assert a[0] == b[0];
      forall p ensures p in a[1..] <==> p in b[1..] {
        FirstOrRest(a, p);
        FirstOrRest(b, p);
      }
      AscendingIsUnique(a[1..], b[1..]);
      assert a == [a[0]] + a[1..] && b == [b[0]] + b[1..];
    }
  }

  ghost predicate DistinctIds(attrs: seq<Attr>) {
    forall i, j :: 0 <= i < j < |attrs| ==> attrs[i].id != attrs[j].id
  }

  lemma CountedIsMember(metas: Metas, attrs: seq<Attr>, p: (Int32, Reading))
    requires DistinctIds(attrs) && forall a :: a in attrs ==> !Throws(metas, a)
    ensures Counted(metas, attrs, p) <==>
              exists a :: a in attrs && IsKey(metas, a.id) && !Throws(metas, a) && p == PairOf(metas, a)
  {
    if a :| a in attrs && IsKey(metas, a.id) && !Throws(metas, a) && p == PairOf(metas, a) {
      var i: nat :| i < |attrs| && attrs[i] == a;
      assert Counts(metas, attrs, i);
    }
  }

  /** Any reordering of a list with distinct ids gives the same key, or throws just as well. */
  lemma OrderDoesNotMatter(metas: Metas, switchId: Oid, attrs: seq<Attr>, reordered: seq<Attr>)
    requires DistinctIds(attrs) && DistinctIds(reordered) && multiset(attrs) == multiset(reordered)
    ensures ConstructKey(metas, switchId, attrs) == ConstructKey(metas, switchId, reordered)
  {
    forall a ensures a in attrs <==> a in reordered {
      assert a in attrs <==> a in multiset(attrs);
      assert a in reordered <==> a in multiset(reordered);
    }
    LastValueCounts(metas, attrs);
    LastValueCounts(metas, reordered);
    var r, r' := LastReadings(metas, attrs), LastReadings(metas, reordered);
    if r.Returned? {
      forall p ensures p in r.value <==> p in r'.value {
        CountedIsMember(metas, attrs, p);
        CountedIsMember(metas, reordered, p);
      }
      AscendingIsUnique(r.value, r'.value);
    }
  }

  // ---------------------------------------------------------------- keys collide exactly on equal readings

  predicate Matches(valueType: ValueType, r: Reading) {
    match valueType
    case Uint32List => r.Numbers?
    case ObjectId => r.Id?
    case NotPrimitive => false
    case _ => r.Number?
  }

  ghost predicate WellTyped(metas: Metas, readings: Readings) {
    forall p :: p in readings ==> metas(p.0).Some? && Matches(metas(p.0).value.valueType, p.1)
  }

  /** Names as the metadata has them: one per attribute, without the separators of the key. */
  ghost predicate WellNamed(metas: Metas) {
    && (forall id :: metas(id).Some? ==> ';' !in metas(id).value.name && ':' !in metas(id).value.name)
    && (forall id, id' :: metas(id).Some? && metas(id').Some? && metas(id).value.name == metas(id').value.name ==>
          id == id')
  }

  lemma LastReadingsAreWellTyped(metas: Metas, attrs: seq<Attr>)
    ensures var r := LastReadings(metas, attrs); r.Returned? ==> WellTyped(metas, r.value)
  {
    LastValueCounts(metas, attrs);
    var r := LastReadings(metas, attrs);
    if r.Returned? {
      forall p | p in r.value ensures metas(p.0).Some? && Matches(metas(p.0).value.valueType, p.1) {
        assert Counted(metas, attrs, p);
      }
    }
  }

  lemma {:induction false} JoinIsFree(parts: seq<string>, c: char, d: char)
    requires c != d && AllFree(parts, d)
    ensures d !in Join(parts, c)
    decreases |parts|
  {
    if |parts| > 1 {
      JoinIsFree(parts[1..], c, d);
    }
  }

  lemma ReadingTextIsFree(r: Reading)
    ensures ';' !in ReadingText(r)
  {
    match r
    case Numbers(list) =>
      forall i | 0 <= i < |list| ensures ';' !in Strings(list)[i] {
        ToStringAlphabet(list[i]);
      }
      JoinIsFree(Strings(list), ',', ';');
    case Number(n) => ToStringAlphabet(n);
    case Id(oid) => OidAlphabet(oid);
  }

  lemma ListPieces(list: seq<Uint32>)
    ensures list != [] ==> Join(Strings(list), ',') != "" && Split(Join(Strings(list), ','), ',') == Strings(list)
  {
    if list != [] {
      forall i | 0 <= i < |list| ensures ',' !in Strings(list)[i] {
        ToStringAlphabet(list[i]);
      }
      SplitJoin(Strings(list), ',');
      assert Strings(list)[0] != "";
    }
  }

  lemma ListTextInjective(a: seq<Uint32>, b: seq<Uint32>)
    requires Join(Strings(a), ',') == Join(Strings(b), ',')
    ensures a == b
  {
    ListPieces(a);
    ListPieces(b);
    if a != [] && b != [] {
      assert Strings(a) == Strings(b);
      forall i | 0 <= i < |a| ensures a[i] == b[i] {
        assert Strings(a)[i] == Strings(b)[i];
        ToStringInjective(a[i], b[i]);
      }
    }
  }

  lemma ReadingTextInjective(valueType: ValueType, r: Reading, r': Reading)
    requires Matches(valueType, r) && Matches(valueType, r') && ReadingText(r) == ReadingText(r')
    ensures r == r'
  {
    if r.Numbers? {
      ListTextInjective(r.list, r'.list);
    } else if r.Number? {
      ToStringInjective(r.n, r'.n);
    } else {
      OidRoundTrip(r.oid);
      OidRoundTrip(r'.oid);
    }
  }

  /** Two texts that put the same character behind parts free of it have the same parts before and after it. */
  lemma CutAtFirst(head: string, tail: string, head': string, tail': string, c: char)
    requires c !in head && c !in head' && head + [c] + tail == head' + [c] + tail'
    ensures head == head' && tail == tail'
  {
    FindAfterFree(head, c, tail);
    FindAfterFree(head', c, tail');
    var s := head + [c] + tail;
    assert head == s[..|head|] && tail == s[|head| + 1..];
    assert head' == s[..|head'|] && tail' == s[|head'| + 1..];
  }

  lemma EntryInjective(metas: Metas, p: (Int32, Reading), p': (Int32, Reading))
    requires WellNamed(metas) && WellTyped(metas, [p]) && WellTyped(metas, [p'])
    requires Entry(metas, p) == Entry(metas, p')
    ensures p == p'
  {
    assert p in [p] && p' in [p'];
    assert NameOf(metas, p.0) + [':'] + ReadingText(p.1) == NameOf(metas, p'.0) + [':'] + ReadingText(p'.1);
    CutAtFirst(NameOf(metas, p.0), ReadingText(p.1), NameOf(metas, p'.0), ReadingText(p'.1), ':');
    ReadingTextInjective(metas(p.0).value.valueType, p.1, p'.1);
  }

  lemma {:induction false} TerminatedInjective(parts: seq<string>, parts': seq<string>)
    requires AllFree(parts, ';') && AllFree(parts', ';') && Terminated(parts, ';') == Terminated(parts', ';')
    ensures parts == parts'
    decreases |parts|
  {
    if parts != [] && parts' != [] {
      TerminatedFirst(parts, ';');
      TerminatedFirst(parts', ';');
      CutAtFirst(parts[0], Terminated(parts[1..], ';'), parts'[0], Terminated(parts'[1..], ';'), ';');
      TerminatedInjective(parts[1..], parts'[1..]);
      assert parts == [parts[0]] + parts[1..] && parts' == [parts'[0]] + parts'[1..];
    }
  }

  lemma KeyPartsAreFree(metas: Metas, switchId: Oid, readings: Readings)
    requires WellNamed(metas) && WellTyped(metas, readings)
    ensures AllFree([SerializeOid(switchId)] + Entries(metas, readings), ';')
  {
    OidAlphabet(switchId);
    forall i | 0 <= i < |readings| ensures ';' !in Entry(metas, readings[i]) {
      assert readings[i] in readings;
      ReadingTextIsFree(readings[i].1);
    }
  }

  lemma EntriesInjective(metas: Metas, r: Readings, r': Readings)
    requires WellNamed(metas) && WellTyped(metas, r) && WellTyped(metas, r')
    requires Entries(metas, r) == Entries(metas, r')
    ensures r == r'
  {
    assert |r| == |Entries(metas, r)| == |r'|;
    forall i | 0 <= i < |r| ensures r[i] == r'[i] {
      assert r[i] in r && r'[i] in r';
      assert Entries(metas, r)[i] == Entries(metas, r')[i];
      EntryInjective(metas, r[i], r'[i]);
    }
  }

  /** Whole keys are equal exactly when the switch and all readings are. */
  lemma KeysAgreeExactly(metas: Metas, switchId: Oid, r: Readings, switchId': Oid, r': Readings)
    requires WellNamed(metas) && WellTyped(metas, r) && WellTyped(metas, r')
    ensures Key(metas, switchId, r) == Key(metas, switchId', r') <==> switchId == switchId' && r == r'
  {
    var parts := [SerializeOid(switchId)] + Entries(metas, r);
    var parts' := [SerializeOid(switchId')] + Entries(metas, r');
    if Terminated(parts, ';') == Terminated(parts', ';') {
      KeyPartsAreFree(metas, switchId, r);
      KeyPartsAreFree(metas, switchId', r');
      TerminatedInjective(parts, parts');
      assert parts[0] == parts'[0] && parts[1..] == Entries(metas, r) && parts'[1..] == Entries(metas, r');
      OidRoundTrip(switchId);
      OidRoundTrip(switchId');
      EntriesInjective(metas, r, r');
    }
  }

  /** Do two values agree in the union member that this type reads? */
  predicate SameMember(valueType: ValueType, v: Value, v': Value) {
    match valueType
    case Uint32List => v.u32list == v'.u32list
    case Signed32 => v.s32 == v'.s32
    case Unsigned32 => v.u32 == v'.u32
    case Unsigned8 => v.u8 == v'.u8
    case Unsigned16 => v.u16 == v'.u16
    case ObjectId => v.oid == v'.oid
    case NotPrimitive => true
  }

  lemma SameMemberExactly(valueType: ValueType, v: Value, v': Value)
    requires !valueType.NotPrimitive?
    ensures SameMember(valueType, v, v') <==> Read(valueType, v) == Read(valueType, v')
  {}

  /** The value at `i` is the last one given for its attribute. */
  ghost predicate IsLast(attrs: seq<Attr>, i: nat) {
    i < |attrs| && forall j :: i < j < |attrs| ==> attrs[j].id != attrs[i].id
  }

  /** Every last value of a key attribute in one list has its like in the other one. */
  ghost predicate Covers(metas: Metas, attrs: seq<Attr>, attrs': seq<Attr>) {
    forall i: nat :: IsLast(attrs, i) && metas(attrs[i].id).Some? && metas(attrs[i].id).value.isKey ==>
      exists k: nat :: IsLast(attrs', k) && attrs'[k].id == attrs[i].id
        && SameMember(metas(attrs[i].id).value.valueType, attrs[i].value, attrs'[k].value)
  }

  /** The two lists give the same key attributes, each with the same last value. */
  ghost predicate SameLastValues(metas: Metas, attrs: seq<Attr>, attrs': seq<Attr>) {
    Covers(metas, attrs, attrs') && Covers(metas, attrs', attrs)
  }

  lemma CoversCounted(metas: Metas, attrs: seq<Attr>, attrs': seq<Attr>)
    requires (forall a :: a in attrs ==> !Throws(metas, a)) && Covers(metas, attrs, attrs')
    ensures forall p :: Counted(metas, attrs, p) ==> Counted(metas, attrs', p)
  {
    forall p | Counted(metas, attrs, p) ensures Counted(metas, attrs', p) {
      var i: nat :| Counts(metas, attrs, i) && p == PairOf(metas, attrs[i]);
      assert IsLast(attrs, i);
      var valueType := metas(attrs[i].id).value.valueType;
      var k: nat :| IsLast(attrs', k) && attrs'[k].id == attrs[i].id
                    && SameMember(valueType, attrs[i].value, attrs'[k].value);
      SameMemberExactly(valueType, attrs[i].value, attrs'[k].value);
      assert Counts(metas, attrs', k) && p == PairOf(metas, attrs'[k]);
    }
  }

  lemma CountedCovers(metas: Metas, attrs: seq<Attr>, attrs': seq<Attr>)
    requires forall a :: a in attrs ==> !Throws(metas, a)
    requires forall p :: Counted(metas, attrs, p) ==> Counted(metas, attrs', p)
    ensures Covers(metas, attrs, attrs')
  {
    forall i: nat | IsLast(attrs, i) && IsKey(metas, attrs[i].id)
      ensures exists k: nat :: IsLast(attrs', k) && attrs'[k].id == attrs[i].id
                && SameMember(metas(attrs[i].id).value.valueType, attrs[i].value, attrs'[k].value)
    {
      assert !Throws(metas, attrs[i]) && Counts(metas, attrs, i);
      assert Counted(metas, attrs, PairOf(metas, attrs[i]));
      var k: nat :| Counts(metas, attrs', k) && PairOf(metas, attrs[i]) == PairOf(metas, attrs'[k]);
      SameMemberExactly(metas(attrs[i].id).value.valueType, attrs[i].value, attrs'[k].value);
      assert IsLast(attrs', k);
    }
  }

  /** The key cannot be built exactly for the null switch, for a missing metadata and for a key attribute without text. */
  lemma KeyThrowsExactly(metas: Metas, switchId: Oid, attrs: seq<Attr>)
    ensures ConstructKey(metas, switchId, attrs).Thrown? <==>
              || switchId == NULL_OID
              || exists a :: a in attrs
                   && (metas(a.id) == None || (metas(a.id).value.isKey && metas(a.id).value.valueType == NotPrimitive))
  {
    LastValueCounts(metas, attrs);
    assert forall a :: a in attrs ==>
      (Throws(metas, a) <==>
         metas(a.id) == None || (metas(a.id).value.isKey && metas(a.id).value.valueType == NotPrimitive));
  }

  /**
   * Two lists of attributes of one object type get the same key exactly when they are for the same
   * switch and give the same key attributes, each with the same last value in the member of the union
   * that its type reads, lists of numbers included.
   */
  lemma CollideExactly(metas: Metas, switchId: Oid, attrs: seq<Attr>, switchId': Oid, attrs': seq<Attr>)
    requires WellNamed(metas)
    requires ConstructKey(metas, switchId, attrs).Returned? && ConstructKey(metas, switchId', attrs').Returned?
    ensures ConstructKey(metas, switchId, attrs) == ConstructKey(metas, switchId', attrs')
            <==> switchId == switchId' && SameLastValues(metas, attrs, attrs')
  {
    LastValueCounts(metas, attrs);
    LastValueCounts(metas, attrs');
    var r, r' := LastReadings(metas, attrs).value, LastReadings(metas, attrs').value;
    LastReadingsAreWellTyped(metas, attrs);
    LastReadingsAreWellTyped(metas, attrs');
    KeysAgreeExactly(metas, switchId, r, switchId', r');
    if r == r' {
      CountedCovers(metas, attrs, attrs');
      CountedCovers(metas, attrs', attrs);
    }
    if SameLastValues(metas, attrs, attrs') {
      CoversCounted(metas, attrs, attrs');
      CoversCounted(metas, attrs', attrs);
      AscendingIsUnique(r, r');
    }
  }

  /** The text of one value, by its type. */
  predicate IsTextOf(valueType: ValueType, v: Value, text: string) {
    match valueType
    case Uint32List => text == Join(Strings(v.u32list), ',')
    case Signed32 => text == ToString(v.s32)
    case Unsigned32 => text == ToString(v.u32)
    case Unsigned8 => text == ToString(v.u8)
    case Unsigned16 => text == ToString(v.u16)
    case ObjectId => text == SerializeOid(v.oid)
    case NotPrimitive => false
  }

  lemma TwoTerminated(a: string, b: string)
    ensures Terminated([a, b], ';') == a + ";" + b + ";"
  {
    assert [a, b][..1] == [a] && [a][..0] == [];
    assert Terminated([a], ';') == a + ";";
  }

  lemma OneReading(metas: Metas, a: Attr)
    requires IsKey(metas, a.id) && !Throws(metas, a)
    ensures LastReadings(metas, [a]) == Returned([PairOf(metas, a)])
  {
    assert [a][..0] == [];
    assert LastReadings(metas, []) == Returned([]);
  }

  lemma OneEntry(metas: Metas, a: Attr, text: string)
    requires metas(a.id).Some? && metas(a.id).value.isKey
    requires IsTextOf(metas(a.id).value.valueType, a.value, text)
    ensures Entries(metas, [PairOf(metas, a)]) == [metas(a.id).value.name + ":" + text]
  {}

  /** The key of a list with one key attribute: the switch, and behind it the name and the value. */
  lemma OneAttributeKey(metas: Metas, switchId: Oid, a: Attr, text: string)
    requires switchId != NULL_OID && metas(a.id).Some? && metas(a.id).value.isKey
    requires IsTextOf(metas(a.id).value.valueType, a.value, text)
    ensures ConstructKey(metas, switchId, [a])
         == Returned(SerializeOid(switchId) + ";" + (metas(a.id).value.name + ":" + text) + ";")
  {
    OneReading(metas, a);
    OneEntry(metas, a, text);
    var entry := metas(a.id).value.name + ":" + text;
    TwoTerminated(SerializeOid(switchId), entry);
    assert [SerializeOid(switchId)] + [entry] == [SerializeOid(switchId), entry];
  }

  // ---------------------------------------------------------------- the map of keys

  class AttrKeyMap {
    /** From the printed key of an object to its attribute key. */
    var keys: map<string, string>

    constructor ()
      ensures keys == map[]
    {
      keys := map[];
    }

    method Clear()
      modifies this
      ensures keys == map[]
    {
      keys := map[];
    }

    method Insert(metaKey: string, attrKey: string)
      modifies this
      ensures keys == old(keys)[metaKey := attrKey]
    {
      keys := keys[metaKey := attrKey];
    }

    method EraseMetaKey(metaKey: string)
      modifies this
      ensures keys == old(keys) - {metaKey}
    {
      if metaKey in keys {
        keys := keys - {metaKey};
      }
    }

    method AttrKeyExists(attrKey: string) returns (found: bool)
      ensures found <==> exists k :: k in keys && keys[k] == attrKey
    {
      var rest := keys.Keys;
      while rest != {}
        invariant forall k :: k in keys && k !in rest ==> keys[k] != attrKey
        invariant rest <= keys.Keys
        decreases |rest|
      {
        var k :| k in rest;
        if keys[k] == attrKey {
          return true;
        }
        rest := rest - {k};
      }
      return false;
    }

    /** The list's numbers with commas between them, appended to a name. */
    static method AppendList(start: string, list: seq<Uint32>) returns (name: string)
      ensures name == start + Join(Strings(list), ',')
    {
      ghost var parts := Strings(list);
      name := start;
      for i := 0 to |list|
        invariant name == start + Begun(parts, i)
      {
        BegunNext(parts, i, start);
        name := name + ToString(list[i]);
        if i != |list| - 1 {
          name := name + ",";
        }
      }
      assert parts[..|list|] == parts;
    }

    /** The text that one key attribute contributes. */
    static method EntryText(md: Metadata, value: Value) returns (name: string)
      requires !md.valueType.NotPrimitive?
      ensures name == md.name + ":" + ReadingText(Read(md.valueType, value))
    {
      name := md.name + ":";
      match md.valueType {
        case Uint32List => name := AppendList(name, value.u32list);
        case Signed32 => name := name + ToString(value.s32);
        case Unsigned32 => name := name + ToString(value.u32);
        case Unsigned8 => name := name + ToString(value.u8);
        case Unsigned16 => name := name + ToString(value.u16);
        case ObjectId => name := name + SerializeOid(value.oid);
      }
    }

    static method CollectTexts(metas: Metas, attrs: seq<Attr>) returns (ok: bool, keys: IdMap<string>)
      ensures match LastReadings(metas, attrs)
              case Thrown => !ok
              case Returned(readings) => ok && keys == Texts(metas, readings)
    {
      keys := [];
      ghost var readings: Readings := [];
      for idx := 0 to |attrs|
        invariant LastReadings(metas, attrs[..idx]) == Returned(readings) && keys == Texts(metas, readings)
      {
        var attr := attrs[idx];
        var md := metas(attr.id);
        if md.None? || (md.value.isKey && md.value.valueType.NotPrimitive?) {
          assert attr in attrs && Throws(metas, attr);
          LastValueCounts(metas, attrs);
          return false, [];
        }
        OneMoreAttribute(metas, attrs, idx);
        if md.value.isKey {
          var name := EntryText(md.value, attr.value);
          AssignTexts(metas, readings, attr.id, PairOf(metas, attr).1);
          readings := Assign(readings, attr.id, PairOf(metas, attr).1);
          keys := Assign(keys, attr.id, name);
        }
      }
      assert attrs[..|attrs|] == attrs;
      ok := true;
    }

    static method ConstructKeyText(metas: Metas, switchId: Oid, attrs: seq<Attr>) returns (r: Result<string>)
      ensures r == ConstructKey(metas, switchId, attrs)
    {
      if switchId == NULL_OID {
        return Thrown;
      }
      var ok, keys := CollectTexts(metas, attrs);
      if !ok {
        return Thrown;
      }
      var key := Concatenate(SerializeOid(switchId), keys, Entries(metas, LastReadings(metas, attrs).value));
      return Returned(key);
    }

    /** The loop that appends all entries to the switch. */
    static method Concatenate(first: string, keys: IdMap<string>, ghost entries: seq<string>) returns (key: string)
      requires |keys| == |entries| && forall i :: 0 <= i < |keys| ==> keys[i].1 == entries[i]
      ensures key == Terminated([first] + entries, ';')
    {
      ghost var parts := [first] + entries;
      key := first + ";";
      assert parts[..1] == [first] && [first][..0] == [];
      for i := 0 to |keys|
        invariant key == Terminated(parts[..i + 1], ';')
      {
        assert parts[..i + 2][..i + 1] == parts[..i + 1];
        key := key + keys[i].1 + ";";
      }
      assert parts[..|keys| + 1] == parts;
    }
  }

  lemma OneMoreAttribute(metas: Metas, attrs: seq<Attr>, i: nat)
    requires i < |attrs| && LastReadings(metas, attrs[..i]).Returned? && !Throws(metas, attrs[i])
    ensures var readings := LastReadings(metas, attrs[..i]).value;
            LastReadings(metas, attrs[..i + 1])
            == Returned(if IsKey(metas, attrs[i].id) then Assign(readings, attrs[i].id, PairOf(metas, attrs[i]).1)
                        else readings)
  {
    assert attrs[..i + 1][..i] == attrs[..i];
  }

  /** The first `i` parts, with the comma that is already there for the next one. */
  function Begun(parts: seq<string>, i: nat): string
    requires i <= |parts|
  {
    Join(parts[..i], ',') + if 0 < i < |parts| then "," else ""
  }

  lemma BegunNext(parts: seq<string>, i: nat, start: string)
    requires i < |parts|
    ensures start + Begun(parts, i + 1)
            == start + Begun(parts, i) + parts[i] + if i != |parts| - 1 then "," else ""
  {
    assert parts[..i + 1] == parts[..i] + [parts[i]];
    if i > 0 {
      JoinOneMore(parts[..i], parts[i], ',');
    }
  }

  lemma {:induction false} AssignTexts(metas: Metas, readings: Readings, id: Int32, r: Reading)
    ensures Texts(metas, Assign(readings, id, r)) == Assign(Texts(metas, readings), id, Entry(metas, (id, r)))
    decreases |readings|
  {
    if |readings| > 0 {
      var rest := readings[1..];
      if id < readings[0].0 {
        assert ([(id, r)] + readings)[1..] == readings;
      } else if id == readings[0].0 {
        assert ([(id, r)] + rest)[1..] == rest;
      } else {
        AssignTexts(metas, rest, id, r);
        assert ([readings[0]] + Assign(rest, id, r))[1..] == Assign(rest, id, r);
      }
    }
  }
}
