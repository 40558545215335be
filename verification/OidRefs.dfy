/** Reference counts of object ids (meta/OidRefCounter.cpp). */
module OidRefs {
  import opened Common

  type Refs = map<Oid, int>

  const INT_MAX: int := 0x7fff_ffff

  /** How a call ends, with the table as it leaves it: a call that throws may have changed it. */
  datatype Outcome = Done(refs: Refs) | Failed(refs: Refs)

  /** An increment at INT_MAX has no defined result and counts as a failure. */
  function Increment(refs: Refs, oid: Oid): Outcome {
    if oid == NULL_OID then Done(refs)
    else if oid !in refs || refs[oid] == INT_MAX then Failed(refs)
    else Done(refs[oid := refs[oid] + 1])
  }

  /** The count is written before it is checked: a call that throws on a zero count leaves -1. */
  function Decrement(refs: Refs, oid: Oid): Outcome {
    if oid == NULL_OID then Done(refs)
    else if oid !in refs then Failed(refs)
    else
      var after := refs[oid := refs[oid] - 1];
      if after[oid] < 0 then Failed(after) else Done(after)
  }

  function Insert(refs: Refs, oid: Oid): Outcome { if oid in refs then Failed(refs) else Done(refs[oid := 0]) }

  function Remove(refs: Refs, oid: Oid): Outcome {
    if oid !in refs || refs[oid] > 0 then Failed(refs) else Done(refs - {oid})
  }

  function Clear(refs: Refs, oid: Oid): Outcome { if oid in refs then Done(refs - {oid}) else Failed(refs) }

  /** The list forms stop at the first element that throws and keep what they did before it. */
  function IncrementList(refs: Refs, list: seq<Oid>): Outcome
    decreases |list|
  {
    if list == [] then Done(refs)
    else
      match IncrementList(refs, list[..|list| - 1])
      case Failed(after) => Failed(after)
      case Done(after) => Increment(after, list[|list| - 1])
  }

  function DecrementList(refs: Refs, list: seq<Oid>): Outcome
    decreases |list|
  {
    if list == [] then Done(refs)
    else
      match DecrementList(refs, list[..|list| - 1])
      case Failed(after) => Failed(after)
      case Done(after) => Decrement(after, list[|list| - 1])
  }

  // ---------------------------------------------------------------- lists

  /** How often a list counts for an id: null is not kept track of. */
  function Times(list: seq<Oid>, oid: Oid): nat { if oid == NULL_OID then 0 else multiset(list)[oid] }

  predicate AllKnown(refs: Refs, list: seq<Oid>) {
    forall oid :: oid in list && oid != NULL_OID ==> oid in refs
  }

  /** The counts are those of `refs`, with every occurrence in the list counted up or down. */
  ghost predicate Shifted(refs: Refs, after: Refs, list: seq<Oid>, up: bool) {
    after.Keys == refs.Keys &&
    forall oid :: oid in refs ==> after[oid] == if up then refs[oid] + Times(list, oid) else refs[oid] - Times(list, oid)
  }

  lemma TimesOneMore(list: seq<Oid>, last: Oid, oid: Oid)
    ensures Times(list + [last], oid) == Times(list, oid) + if oid == last && oid != NULL_OID then 1 else 0
  {}

  lemma ShiftedOneMore(refs: Refs, before: Refs, after: Refs, front: seq<Oid>, last: Oid, up: bool)
    requires Shifted(refs, before, front, up) && after.Keys == before.Keys
    requires forall oid :: oid in refs ==>
               after[oid] == if oid != last || oid == NULL_OID then before[oid]
                             else if up then before[oid] + 1 else before[oid] - 1
    ensures Shifted(refs, after, front + [last], up)
  {
    forall oid | oid in refs
      ensures after[oid] == if up then refs[oid] + Times(front + [last], oid) else refs[oid] - Times(front + [last], oid)
    {
      TimesOneMore(front, last, oid);
    }
  }

  lemma KnownOneMore(refs: Refs, front: seq<Oid>, last: Oid)
    ensures AllKnown(refs, front + [last]) <==> AllKnown(refs, front) && (last != NULL_OID ==> last in refs)
  {
    assert forall oid :: oid in front + [last] <==> oid in front || oid == last;
  }

  /** An increment that ends well has counted every element, and known every one of them. */
  lemma {:induction false} IncrementListCounts(refs: Refs, list: seq<Oid>)
    requires IncrementList(refs, list).Done?
    ensures AllKnown(refs, list) && Shifted(refs, IncrementList(refs, list).refs, list, true)
    decreases |list|
  {
    if list != [] {
      var front, last := list[..|list| - 1], list[|list| - 1];
      var before, after := IncrementList(refs, front).refs, IncrementList(refs, list).refs;
      IncrementListCounts(refs, front);
      assert list == front + [last];
      ShiftedOneMore(refs, before, after, front, last, true);
      KnownOneMore(refs, front, last);
    }
  }

  predicate Enough(refs: Refs, list: seq<Oid>) { forall oid :: oid in refs ==> Times(list, oid) <= refs[oid] }

  lemma EnoughOneMore(refs: Refs, front: seq<Oid>, last: Oid)
    ensures Enough(refs, front + [last]) <==>
              Enough(refs, front) && (last != NULL_OID && last in refs ==> Times(front, last) < refs[last])
  {
    forall oid | oid in refs
      ensures Times(front + [last], oid) == Times(front, oid) + if oid == last && oid != NULL_OID then 1 else 0
    {
      TimesOneMore(front, last, oid);
    }
  }

  /** A decrement ends well exactly when every element is known and counted often enough. */
  lemma {:induction false} DecrementListExactly(refs: Refs, list: seq<Oid>)
    requires forall oid :: oid in refs ==> refs[oid] >= 0
    ensures DecrementList(refs, list).Done? <==> AllKnown(refs, list) && Enough(refs, list)
    ensures DecrementList(refs, list).Done? ==> Shifted(refs, DecrementList(refs, list).refs, list, false)
    decreases |list|
  {
    if list != [] {
      var front, last := list[..|list| - 1], list[|list| - 1];
      DecrementListExactly(refs, front);
      assert list == front + [last];
      KnownOneMore(refs, front, last);
      EnoughOneMore(refs, front, last);
      if DecrementList(refs, list).Done? {
        ShiftedOneMore(refs, DecrementList(refs, front).refs, DecrementList(refs, list).refs, front, last, false);
      }
    }
  }

  /** Known ids, counts and sums do not depend on the order of a list. */
  lemma OrderIsForgotten(refs: Refs, up: Refs, list: seq<Oid>, reordered: seq<Oid>)
    requires multiset(list) == multiset(reordered)
    requires AllKnown(refs, list) && Shifted(refs, up, list, true)
    ensures AllKnown(up, reordered) && Shifted(refs, up, reordered, true)
  {
    forall oid | oid in reordered ensures oid in list {
      assert oid in multiset(reordered);
    }
    assert forall oid :: Times(reordered, oid) == Times(list, oid);
  }

  lemma UpAndDown(refs: Refs, up: Refs, down: Refs, list: seq<Oid>)
    requires Shifted(refs, up, list, true) && Shifted(up, down, list, false)
    ensures down == refs
  {}

  lemma ShiftedIsEnough(refs: Refs, up: Refs, list: seq<Oid>)
    requires Shifted(refs, up, list, true) && forall oid :: oid in refs ==> refs[oid] >= 0
    ensures Enough(up, list) && forall oid :: oid in up ==> up[oid] >= 0
  {}

  /**
   * Decrementing a list that was incremented restores the table exactly, in any order, with
   * duplicates and null ids.
   */
  lemma DecrementUndoesIncrement(refs: Refs, list: seq<Oid>, reordered: seq<Oid>)
    requires forall oid :: oid in refs ==> refs[oid] >= 0
    requires IncrementList(refs, list).Done? && multiset(list) == multiset(reordered)
    ensures DecrementList(IncrementList(refs, list).refs, reordered) == Done(refs)
  {
    var up := IncrementList(refs, list).refs;
    IncrementListCounts(refs, list);
    OrderIsForgotten(refs, up, list, reordered);
    ShiftedIsEnough(refs, up, reordered);
    DecrementListExactly(up, reordered);
    UpAndDown(refs, up, DecrementList(up, reordered).refs, reordered);
  }

  // ---------------------------------------------------------------- runs

  datatype Operation =
    | DoInsert(oid: Oid)
    | DoRemove(oid: Oid)
    | DoClear(oid: Oid)
    | DoClearAll
    | DoIncrement(oid: Oid)
    | DoDecrement(oid: Oid)
    | DoIncrementList(list: seq<Oid>)
    | DoDecrementList(list: seq<Oid>)

  function Perform(refs: Refs, op: Operation): Outcome {
    match op
    case DoInsert(oid) => Insert(refs, oid)
    case DoRemove(oid) => Remove(refs, oid)
    case DoClear(oid) => Clear(refs, oid)
    case DoClearAll => Done(map[])
    case DoIncrement(oid) => Increment(refs, oid)
    case DoDecrement(oid) => Decrement(refs, oid)
    case DoIncrementList(list) => IncrementList(refs, list)
    case DoDecrementList(list) => DecrementList(refs, list)
  }

  /** A run from the empty table; it ends at the first operation that throws. */
  function Run(ops: seq<Operation>): Outcome {
    if ops == [] then Done(map[])
    else
      match Run(ops[..|ops| - 1])
      case Failed(refs) => Failed(refs)
      case Done(refs) => Perform(refs, ops[|ops| - 1])
  }

  /** Increments minus decrements of an id since it was last inserted. */
  function Net(ops: seq<Operation>, oid: Oid): int {
    if ops == [] then 0
    else
      var before := Net(ops[..|ops| - 1], oid);
      match ops[|ops| - 1]
      case DoInsert(o) => if o == oid then 0 else before
      case DoIncrement(o) => before + Times([o], oid)
      case DoDecrement(o) => before - Times([o], oid)
      case DoIncrementList(list) => before + Times(list, oid)
      case DoDecrementList(list) => before - Times(list, oid)
      case _ => before
  }

  /** In every run without an exception each count is what was incremented and not decremented, and not negative. */
  lemma {:induction false} CountsBalance(ops: seq<Operation>)
    requires Run(ops).Done?
    ensures forall oid :: oid in Run(ops).refs ==> 0 <= Run(ops).refs[oid] == Net(ops, oid) <= INT_MAX
    decreases |ops|
  {
    if ops != [] {
      CountsBalance(ops[..|ops| - 1]);
      StepBalances(ops, Run(ops[..|ops| - 1]).refs);
    }
  }

  lemma StepBalances(ops: seq<Operation>, before: Refs)
    requires ops != [] && Perform(before, ops[|ops| - 1]).Done?
    requires forall oid :: oid in before ==> 0 <= before[oid] == Net(ops[..|ops| - 1], oid) <= INT_MAX
    ensures var after := Perform(before, ops[|ops| - 1]).refs;
            forall oid :: oid in after ==> 0 <= after[oid] == Net(ops, oid) <= INT_MAX
  {
    match ops[|ops| - 1]
    case DoIncrementList(list) =>
      IncrementListCounts(before, list);
      IncrementListStaysBelow(before, list);
    case DoDecrementList(list) =>
      DecrementListExactly(before, list);
    case _ =>
  }

  lemma {:induction false} IncrementListStaysBelow(refs: Refs, list: seq<Oid>)
    requires IncrementList(refs, list).Done?
    requires forall oid :: oid in refs ==> refs[oid] <= INT_MAX
    ensures forall oid :: oid in IncrementList(refs, list).refs ==> IncrementList(refs, list).refs[oid] <= INT_MAX
    decreases |list|
  {
    if list != [] {
      IncrementListStaysBelow(refs, list[..|list| - 1]);
    }
  }

  /** Is an id known? Inserting makes it known, removing and clearing make it unknown. */
  predicate Known(ops: seq<Operation>, oid: Oid) {
    ops != [] &&
    match ops[|ops| - 1]
    case DoInsert(o) => o == oid || Known(ops[..|ops| - 1], oid)
    case DoRemove(o) => o != oid && Known(ops[..|ops| - 1], oid)
    case DoClear(o) => o != oid && Known(ops[..|ops| - 1], oid)
    case DoClearAll => false
    case _ => Known(ops[..|ops| - 1], oid)
  }

  lemma {:induction false} ListsKeepKeys(refs: Refs, list: seq<Oid>)
    ensures IncrementList(refs, list).refs.Keys == refs.Keys && DecrementList(refs, list).refs.Keys == refs.Keys
    decreases |list|
  {
    if list != [] {
      ListsKeepKeys(refs, list[..|list| - 1]);
    }
  }

  /** With the counts this is the whole table: in every run without an exception it holds exactly the known ids. */
  lemma {:induction false} TableHoldsTheKnown(ops: seq<Operation>, oid: Oid)
    requires Run(ops).Done?
    ensures oid in Run(ops).refs <==> Known(ops, oid)
    decreases |ops|
  {
    if ops != [] {
      var before, op := Run(ops[..|ops| - 1]).refs, ops[|ops| - 1];
      TableHoldsTheKnown(ops[..|ops| - 1], oid);
      if op.DoIncrementList? || op.DoDecrementList? {
        ListsKeepKeys(before, op.list);
      }
    }
  }

  predicate Room(refs: Refs, list: seq<Oid>) { forall oid :: oid in refs ==> refs[oid] + Times(list, oid) <= INT_MAX }

  lemma RoomOneMore(refs: Refs, front: seq<Oid>, last: Oid)
    requires forall oid :: oid in refs ==> refs[oid] <= INT_MAX
    ensures Room(refs, front + [last]) <==>
              Room(refs, front) && (last != NULL_OID && last in refs ==> refs[last] + Times(front, last) < INT_MAX)
  {
    forall oid | oid in refs
      ensures Times(front + [last], oid) == Times(front, oid) + if oid == last && oid != NULL_OID then 1 else 0
    {
      TimesOneMore(front, last, oid);
    }
  }

  /** Incrementing a list ends well exactly when every element is known and no count leaves its range. */
  lemma {:induction false} IncrementListExactly(refs: Refs, list: seq<Oid>)
    requires forall oid :: oid in refs ==> refs[oid] <= INT_MAX
    ensures IncrementList(refs, list).Done? <==> AllKnown(refs, list) && Room(refs, list)
    decreases |list|
  {
    if list != [] {
      var front, last := list[..|list| - 1], list[|list| - 1];
      IncrementListExactly(refs, front);
      assert list == front + [last];
      KnownOneMore(refs, front, last);
      RoomOneMore(refs, front, last);
      if IncrementList(refs, front).Done? {
        IncrementListCounts(refs, front);
      }
    }
  }

  /**
   * What an operation needs after earlier ones, in terms of what is known and of the balances, with
   * null ids left out of account.
   */
  predicate EndsWell(ops: seq<Operation>, op: Operation) {
    match op
    case DoInsert(oid) => !Known(ops, oid)
    case DoRemove(oid) => Known(ops, oid) && Net(ops, oid) == 0
    case DoClear(oid) => Known(ops, oid)
    case DoClearAll => true
    case DoIncrement(oid) => oid != NULL_OID ==> Known(ops, oid) && Net(ops, oid) < INT_MAX
    case DoDecrement(oid) => oid != NULL_OID ==> Known(ops, oid) && Net(ops, oid) > 0
    case DoIncrementList(list) =>
      forall oid :: oid in list && oid != NULL_OID ==>
        Known(ops, oid) && Net(ops, oid) + multiset(list)[oid] <= INT_MAX
    case DoDecrementList(list) =>
      forall oid :: oid in list && oid != NULL_OID ==> Known(ops, oid) && multiset(list)[oid] <= Net(ops, oid)
  }

  /** After every run without an exception, exactly the operations that have what they need end well. */
  lemma OperationsSucceedExactly(ops: seq<Operation>, op: Operation)
    requires Run(ops).Done?
    ensures Perform(Run(ops).refs, op).Done? <==> EndsWell(ops, op)
  {
    var refs := Run(ops).refs;
    CountsBalance(ops);
    forall oid ensures oid in refs <==> Known(ops, oid) {
      TableHoldsTheKnown(ops, oid);
    }
    match op
    case DoIncrementList(list) =>
      IncrementListExactly(refs, list);
      ListedOrNot(refs, list);
    case DoDecrementList(list) =>
      DecrementListExactly(refs, list);
      ListedOrNot(refs, list);
    case _ =>
  }

  lemma ListedOrNot(refs: Refs, list: seq<Oid>)
    ensures forall oid :: Times(list, oid) == if oid in list && oid != NULL_OID then multiset(list)[oid] else 0
  {
    forall oid ensures oid in list <==> multiset(list)[oid] > 0 {
      assert oid in list <==> oid in multiset(list);
    }
  }

  /** An operation that throws changes nothing, except that a decrement of a known id has been written. */
  lemma FailuresLeaveTheTable(refs: Refs, op: Operation)
    requires !op.DoIncrementList? && !op.DoDecrementList? && Perform(refs, op).Failed?
    ensures Perform(refs, op).refs ==
              if op.DoDecrement? && op.oid in refs then refs[op.oid := refs[op.oid] - 1] else refs
  {}

  /** A list operation that throws has done its elements up to the first one that throws. */
  lemma {:induction false} ListsStopAtAFailure(refs: Refs, list: seq<Oid>)
    ensures IncrementList(refs, list).Failed? ==>
              exists n :: 0 <= n < |list| && IncrementList(refs, list[..n]).Done?
                && IncrementList(refs, list) == Increment(IncrementList(refs, list[..n]).refs, list[n])
    ensures DecrementList(refs, list).Failed? ==>
              exists n :: 0 <= n < |list| && DecrementList(refs, list[..n]).Done?
                && DecrementList(refs, list) == Decrement(DecrementList(refs, list[..n]).refs, list[n])
    decreases |list|
  {
    if list != [] {
      var front := list[..|list| - 1];
      ListsStopAtAFailure(refs, front);
      assert forall n :: 0 <= n < |front| ==> front[..n] == list[..n] && front[n] == list[n];
      assert list[..|front|] == front;
    }
  }

  /** After such a run an id can be removed exactly when it is known and nothing refers to it. */
  lemma RemoveOnlyAtZero(ops: seq<Operation>, oid: Oid)
    requires Run(ops).Done?
    ensures Remove(Run(ops).refs, oid).Done? <==> oid in Run(ops).refs && Net(ops, oid) == 0
  {
    CountsBalance(ops);
  }

  /**
   * Once a decrement has thrown, the balance is lost: the count is -1, the id can be removed, and it
   * can still be removed after one more reference to it has been taken.
   */
  lemma ThrowingDecrementLosesTheBalance(refs: Refs, oid: Oid)
    requires oid != NULL_OID && oid in refs && refs[oid] == 0
    ensures Decrement(refs, oid) == Failed(refs[oid := -1])
    ensures Remove(refs[oid := -1], oid).Done?
    ensures Increment(refs[oid := -1], oid) == Done(refs) && Remove(refs, oid).Done?
  {
    assert refs[oid := -1][oid := 0] == refs;
  }

  // ---------------------------------------------------------------- the table

  class OidRefCounter {
    var hash: Refs

    constructor ()
      ensures hash == map[]
    {
      hash := map[];
    }

    method ClearAll()
      modifies this
      ensures hash == map[]
    {
      hash := map[];
    }

    method ObjectReferenceIncrement(oid: Oid) returns (ok: bool)
      modifies this
      ensures (if ok then Done(hash) else Failed(hash)) == Increment(old(hash), oid)
    {
      if oid == NULL_OID {
        return true;
      }
      if oid !in hash || hash[oid] == INT_MAX {
        return false;
      }
      hash := hash[oid := hash[oid] + 1];
      return true;
    }

    method ObjectReferenceIncrementList(list: seq<Oid>) returns (ok: bool)
      modifies this
      ensures (if ok then Done(hash) else Failed(hash)) == IncrementList(old(hash), list)
    {
      for i := 0 to |list|
        invariant IncrementList(old(hash), list[..i]) == Done(hash)
      {
        assert list[..i + 1][..i] == list[..i];
        ok := ObjectReferenceIncrement(list[i]);
        if !ok {
          IncrementStops(old(hash), list, i + 1);
          return false;
        }
      }
      assert list[..|list|] == list;
      return true;
    }

    method ObjectReferenceDecrement(oid: Oid) returns (ok: bool)
      modifies this
      ensures (if ok then Done(hash) else Failed(hash)) == Decrement(old(hash), oid)
    {
      if oid == NULL_OID {
        return true;
      }
      if oid !in hash {
        return false;
      }
      hash := hash[oid := hash[oid] - 1];
      return hash[oid] >= 0;
    }

    method ObjectReferenceDecrementList(list: seq<Oid>) returns (ok: bool)
      modifies this
      ensures (if ok then Done(hash) else Failed(hash)) == DecrementList(old(hash), list)
    {
      for i := 0 to |list|
        invariant DecrementList(old(hash), list[..i]) == Done(hash)
      {
        assert list[..i + 1][..i] == list[..i];
        ok := ObjectReferenceDecrement(list[i]);
        if !ok {
          DecrementStops(old(hash), list, i + 1);
          return false;
        }
      }
      assert list[..|list|] == list;
      return true;
    }

    method ObjectReferenceInsert(oid: Oid) returns (ok: bool)
      modifies this
      ensures (if ok then Done(hash) else Failed(hash)) == Insert(old(hash), oid)
    {
      if oid in hash {
        return false;
      }
      hash := hash[oid := 0];
      return true;
    }

    method ObjectReferenceRemove(oid: Oid) returns (ok: bool)
      modifies this
      ensures (if ok then Done(hash) else Failed(hash)) == Remove(old(hash), oid)
    {
      if oid in hash {
        if hash[oid] > 0 {
          return false;
        }
      } else {
        return false;
      }
      hash := hash - {oid};
      return true;
    }

    method ObjectReferenceClear(oid: Oid) returns (ok: bool)
      modifies this
      ensures (if ok then Done(hash) else Failed(hash)) == Clear(old(hash), oid)
    {
      if oid in hash {
        hash := hash - {oid};
        return true;
      }
      return false;
    }
  }

  lemma {:induction false} IncrementStops(refs: Refs, list: seq<Oid>, n: nat)
    requires n <= |list| && IncrementList(refs, list[..n]).Failed?
    ensures IncrementList(refs, list) == IncrementList(refs, list[..n])
    decreases |list|
  {
    if n < |list| {
      assert list[..|list| - 1][..n] == list[..n];
      IncrementStops(refs, list[..|list| - 1], n);
    } else {
      assert list[..n] == list;
    }
  }

  lemma {:induction false} DecrementStops(refs: Refs, list: seq<Oid>, n: nat)
    requires n <= |list| && DecrementList(refs, list[..n]).Failed?
    ensures DecrementList(refs, list) == DecrementList(refs, list[..n])
    decreases |list|
  {
    if n < |list| {
      assert list[..|list| - 1][..n] == list[..n];
      DecrementStops(refs, list[..|list| - 1], n);
    } else {
      assert list[..n] == list;
    }
  }
}
