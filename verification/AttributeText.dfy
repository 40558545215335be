/**
 * Attribute lists as text: the `field=value|field=value` form in which bulk requests carry them and
 * the record file shows them (meta/Globals.cpp, meta/SaiAttributeList.cpp and the loops that read it).
 */
module AttributeText {
  import opened Common
  import opened Text

  /** One attribute as SaiSerialize prints it: the name of its id and its value. */
  datatype Attribute = Attribute(field: string, value: string)

  function Item(a: Attribute): string { a.field + "=" + a.value }

  function Items(list: seq<Attribute>): (items: seq<string>)
    ensures |items| == |list|
  {
    seq(|list|, i requires 0 <= i < |list| => Item(list[i]))
  }

  /** What `joinFieldValues` prints. */
  function Joined(list: seq<Attribute>): string { Join(Items(list), '|') }

  /** An item without '=' reads as a field that equals its value: `npos + 1` wraps to 0. */
  function ParseItem(item: string): Attribute {
    match Find(item, '=', 0)
    case None => Attribute(item, item)
    case Some(i) => Attribute(item[..i], item[i + 1..])
  }

  function ParseItems(items: seq<string>): (list: seq<Attribute>)
    ensures |list| == |items|
  {
    seq(|items|, i requires 0 <= i < |items| => ParseItem(items[i]))
  }

  /** How the readers take a joined text apart. */
  function Parse(joined: string): seq<Attribute> { ParseItems(Split(joined, '|')) }

  predicate CleanAttribute(a: Attribute) {
    '|' !in a.field && '=' !in a.field && '|' !in a.value
  }

  predicate Clean(list: seq<Attribute>) {
    forall k :: 0 <= k < |list| ==> CleanAttribute(list[k])
  }

  lemma ItemRoundTrip(a: Attribute)
    requires '=' !in a.field
    ensures ParseItem(Item(a)) == a
  {
    FindAfterFree(a.field, '=', a.value);
    assert Item(a) == a.field + ['='] + a.value;
  }

  /** An item is cut at its first '='; one without it is field and value at once. */
  lemma ItemsReadExactly(field: string, value: string, item: string)
    ensures '=' !in field ==> ParseItem(field + "=" + value) == Attribute(field, value)
    ensures '=' !in item ==> ParseItem(item) == Attribute(item, item)
  {
    if '=' !in field {
      ItemRoundTrip(Attribute(field, value));
    }
  }

  /** Whatever is parsed has no separator inside a field or a value. */
  lemma ParsedIsClean(joined: string)
    ensures Clean(Parse(joined))
  {
    var pieces := Split(joined, '|');
    SplitPartsFree(joined, '|');
    forall k | 0 <= k < |pieces| ensures CleanAttribute(ParseItem(pieces[k])) {
      assert '|' !in pieces[k];
      FindIsFirst(pieces[k], '=', 0);
    }
  }

  lemma ItemsSplit(list: seq<Attribute>)
    requires |list| > 0 && Clean(list)
    ensures Split(Joined(list), '|') == Items(list)
  {
    forall k | 0 <= k < |list| ensures '|' !in Items(list)[k] {
      assert CleanAttribute(list[k]);
    }
    SplitJoin(Items(list), '|');
  }

  /**
   * A list survives printing and parsing exactly when it is not empty and no separator hides in it.
   * The empty list prints as nothing and comes back as one nameless attribute.
   */
  lemma RoundTripExactly(list: seq<Attribute>)
    ensures Parse(Joined(list)) == list <==> list != [] && Clean(list)
  {
    ParsedIsClean(Joined(list));
    if list != [] && Clean(list) {
      ItemsSplit(list);
      forall k | 0 <= k < |list| ensures Parse(Joined(list))[k] == list[k] {
        assert CleanAttribute(list[k]);
        ItemRoundTrip(list[k]);
      }
    }
  }

  /** A split that reads a stream line by line, and so yields no last empty piece. */
  function GetlineSplit(s: string, c: char): seq<string> {
    var pieces := Split(s, c);
    if pieces[|pieces| - 1] == "" then pieces[..|pieces| - 1] else pieces
  }

  /** The two readings of a single-character split agree on printed lists. */
  lemma EitherSplitAgrees(list: seq<Attribute>)
    requires |list| > 0 && Clean(list)
    ensures GetlineSplit(Joined(list), '|') == Split(Joined(list), '|')
  {
    ItemsSplit(list);
    assert Item(list[|list| - 1])[|list[|list| - 1].field|] == '=';
  }

  const PLACEHOLDER := Attribute("NULL", "NULL")

  function Padded(list: seq<Attribute>): (padded: seq<Attribute>)
    ensures padded != []
  {
    if list == [] then [PLACEHOLDER] else list
  }

  /** The text that stands for a list in a bulk request: never empty. */
  function RequestText(list: seq<Attribute>): string { Joined(Padded(list)) }

  /**
   * The attributes a `SaiAttributeList` holds: those not named NULL. `readable` tells which printed
   * attributes SaiSerialize can read back; any other one throws.
   */
  function Loaded(entries: seq<Attribute>, readable: Attribute -> bool): Result<seq<Attribute>> {
    if entries == [] then Returned([])
    else
      var last := entries[|entries| - 1];
      match Loaded(entries[..|entries| - 1], readable)
      case Thrown => Thrown
      case Returned(list) =>
        if last.field == "NULL" then Returned(list)
        else if readable(last) then Returned(list + [last])
        else Thrown
  }

  /** Reading throws exactly for an entry that is neither named NULL nor readable. */
  lemma {:induction false} LoadedThrowsExactly(entries: seq<Attribute>, readable: Attribute -> bool)
    ensures Loaded(entries, readable).Thrown? <==> exists a :: a in entries && a.field != "NULL" && !readable(a)
    decreases |entries|
  {
    if entries != [] {
      var front, last := entries[..|entries| - 1], entries[|entries| - 1];
      LoadedThrowsExactly(front, readable);
      assert forall a :: a in entries <==> a in front || a == last;
    }
  }

  /** Reading goes entry by entry: two lists behind each other load as what each loads as. */
  lemma {:induction false} LoadedSplits(a: seq<Attribute>, b: seq<Attribute>, readable: Attribute -> bool)
    requires Loaded(a, readable).Returned? && Loaded(b, readable).Returned?
    ensures Loaded(a + b, readable) == Returned(Loaded(a, readable).value + Loaded(b, readable).value)
    decreases |b|
  {
    if b == [] {
      assert a + b == a && Loaded(a, readable).value + [] == Loaded(a, readable).value;
    } else {
      var front, last := b[..|b| - 1], b[|b| - 1];
      assert (a + b)[..|a + b| - 1] == a + front && (a + b)[|a + b| - 1] == last;
      LoadedSplits(a, front, readable);
      var l, r := Loaded(a, readable).value, Loaded(front, readable).value;
      assert l + r + [last] == l + (r + [last]);
    }
  }

  /** An entry named NULL is dropped, any other one kept. */
  lemma LoadedSingle(a: Attribute, readable: Attribute -> bool)
    requires a.field == "NULL" || readable(a)
    ensures Loaded([a], readable) == Returned(if a.field == "NULL" then [] else [a])
  {
    assert [a][..0] == [] && [a][0] == a;
    assert Loaded([], readable) == Returned([]);
    assert [] + [a] == [a];
  }

  predicate Deliverable(list: seq<Attribute>) {
    Clean(list) && forall k :: 0 <= k < |list| ==> list[k].field != "NULL"
  }

  lemma {:induction false} LoadedHasNoNull(entries: seq<Attribute>, readable: Attribute -> bool)
    ensures var r := Loaded(entries, readable);
            r.Returned? ==> forall a :: a in r.value ==> a in entries && a.field != "NULL"
    decreases |entries|
  {
    if entries != [] {
      LoadedHasNoNull(entries[..|entries| - 1], readable);
    }
  }

  predicate Kept(a: Attribute, readable: Attribute -> bool) { a.field != "NULL" && readable(a) }

  lemma OneMoreLoaded(front: seq<Attribute>, last: Attribute, readable: Attribute -> bool)
    requires Kept(last, readable) && Loaded(front, readable) == Returned(front)
    ensures Loaded(front + [last], readable) == Returned(front + [last])
  {
    assert (front + [last])[..|front|] == front;
  }

  lemma {:induction false} LoadedKeepsAll(entries: seq<Attribute>, readable: Attribute -> bool)
    requires forall a :: a in entries ==> Kept(a, readable)
    ensures Loaded(entries, readable) == Returned(entries)
    decreases |entries|
  {
    if entries != [] {
      var front, last := entries[..|entries| - 1], entries[|entries| - 1];
      assert entries == front + [last];
      assert Loaded(front, readable) == Returned(front) by {
        LoadedKeepsAll(front, readable);
      }
      assert Loaded(front + [last], readable) == Returned(front + [last]) by {
        OneMoreLoaded(front, last, readable);
      }
    }
  }

  /** Reading entries drops what padding added. */
  lemma PaddingIsDropped(list: seq<Attribute>, readable: Attribute -> bool)
    requires Deliverable(list) && forall k :: 0 <= k < |list| ==> readable(list[k])
    ensures Loaded(Padded(list), readable) == Returned(list)
  {
    if list == [] {
      assert [PLACEHOLDER][..0] == [];
      assert Loaded([], readable) == Returned([]);
    } else {
      LoadedKeepsAll(list, readable);
    }
  }

  /**
   * A list of readable attributes reaches the other side unchanged, the empty list included,
   * exactly when it holds no separator and no field named NULL.
   */
  lemma DeliveredExactly(list: seq<Attribute>, readable: Attribute -> bool)
    requires forall k :: 0 <= k < |list| ==> readable(list[k])
    ensures Loaded(Parse(RequestText(list)), readable) == Returned(list) <==> Deliverable(list)
  {
    var parsed := Parse(RequestText(list));
    if Deliverable(list) {
      assert Clean(Padded(list));
      RoundTripExactly(Padded(list));
      PaddingIsDropped(list, readable);
    }
    if Loaded(parsed, readable) == Returned(list) {
      ParsedIsClean(RequestText(list));
      LoadedHasNoNull(parsed, readable);
      forall k | 0 <= k < |list| ensures CleanAttribute(list[k]) && list[k].field != "NULL" {
        assert list[k] in parsed;
      }
    }
  }

  lemma JoinedOneMore(list: seq<Attribute>, i: nat)
    requires i < |list|
    ensures Joined(list[..i + 1]) == Joined(list[..i]) + (if i == 0 then "" else "|") + Item(list[i])
  {
    assert Items(list[..i + 1]) == Items(list[..i]) + [Item(list[i])];
    if i > 0 {
      JoinOneMore(Items(list[..i]), Item(list[i]), '|');
    }
  }

  method JoinFieldValues(values: seq<Attribute>) returns (ss: string)
    ensures ss == Joined(values)
  {
    ss := "";
    for i := 0 to |values|
      invariant ss == Joined(values[..i])
    {
      JoinedOneMore(values, i);
      if i != 0 {
        ss := ss + "|";
      }
      ss := ss + values[i].field + "=" + values[i].value;
    }
    assert values[..|values|] == values;
  }

  method SplitFieldValues(joined: string) returns (entries: seq<Attribute>)
    ensures entries == Parse(joined)
  {
    var v := Split(joined, '|');
    entries := [];
    for i := 0 to |v|
      invariant entries == ParseItems(v)[..i]
    {
      var item := v[i];
      var start := Find(item, '=', 0);
      var field := if start.None? then item else item[..start.value];
      var value := if start.None? then item else item[start.value + 1..];
      entries := entries + [Attribute(field, value)];
    }
  }

  class SaiAttributeList {
    var attributes: seq<Attribute>

    constructor ()
      ensures attributes == []
    {
      attributes := [];
    }

    /** The body of the constructor that takes printed entries; `ok` is false when it throws. */
    method Load(entries: seq<Attribute>, readable: Attribute -> bool) returns (ok: bool)
      requires attributes == []
      modifies this
      ensures ok == Loaded(entries, readable).Returned?
      ensures ok ==> attributes == Loaded(entries, readable).value
    {
      for i := 0 to |entries|
        invariant Loaded(entries[..i], readable) == Returned(attributes)
      {
        assert entries[..i + 1][..i] == entries[..i];
        if entries[i].field == "NULL" {
          continue;
        }
        if !readable(entries[i]) {
          ThrownForGood(entries, i + 1, readable);
          return false;
        }
        attributes := attributes + [entries[i]];
      }
      assert entries[..|entries|] == entries;
      return true;
    }
  }

  lemma {:induction false} ThrownForGood(entries: seq<Attribute>, n: nat, readable: Attribute -> bool)
    requires n <= |entries| && Loaded(entries[..n], readable) == Thrown
    ensures Loaded(entries, readable) == Thrown
    decreases |entries|
  {
    if n < |entries| {
      assert entries[..|entries| - 1][..n] == entries[..n];
      ThrownForGood(entries[..|entries| - 1], n, readable);
    } else {
      assert entries[..n] == entries;
    }
  }
}
