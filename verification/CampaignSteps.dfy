/** Reordering the steps of a campaign, write by write. */
module CampaignSteps {
  import opened Wrappers

  /** `step_order` of each step of one campaign. */
  type Orders = map<Id, int>

  /** The uniqueness of (campaign_id, step_order) that the two phases are written for. */
  ghost predicate NoTwoShare(orders: Orders) {
    forall a, b :: a in orders && b in orders && a != b ==> orders[a] != orders[b]
  }

  /** A list `get_steps` may return: every step, by ascending order. */
  ghost predicate InOrder(orders: Orders, steps: seq<Id>) {
    && Lists(steps, orders.Keys)
    && (forall i, j :: 0 <= i < j < |steps| ==> orders[steps[i]] <= orders[steps[j]])
  }

  /** A flush on its way from one table to another: the rows in `written` have their new order. */
  ghost function Partly(before: Orders, after: Orders, written: set<Id>): Orders
    requires before.Keys == after.Keys
  {
    map id | id in before :: if id in written then after[id] else before[id]
  }

  /** No write of a flush collides, in whatever order it writes the rows. */
  ghost predicate NeverCollides(before: Orders, after: Orders)
    requires before.Keys == after.Keys
  {
    forall written: set<Id> :: NoTwoShare(Partly(before, after, written))
  }

  /** Exactly when: no row's new order is another row's old one. */
  lemma NeverCollidesIff(before: Orders, after: Orders)
    requires before.Keys == after.Keys
    ensures NeverCollides(before, after) <==>
      && NoTwoShare(before) && NoTwoShare(after)
      && forall a, b :: a in before && b in before && a != b ==> after[a] != before[b]
  {
    if NeverCollides(before, after) {
      SameMap(Partly(before, after, {}), before);
      SameMap(Partly(before, after, before.Keys), after);
      assert NoTwoShare(Partly(before, after, {})) && NoTwoShare(Partly(before, after, before.Keys));
      forall a, b | a in before && b in before && a != b ensures after[a] != before[b] {
        var table := Partly(before, after, {a});
        assert NoTwoShare(table) && table[a] == after[a] && table[b] == before[b];
      }
    }
  }

  /** Where a step stands in the submitted list. */
  function Position(stepIds: seq<Id>, id: Id): (i: nat)
    requires id in stepIds
    ensures i < |stepIds| && stepIds[i] == id
  {
    var last := |stepIds| - 1;
    if stepIds[last] == id then last else Position(stepIds[..last], id)
  }

  /** Phase 1: everything at negative orders. */
  function Parked(stepIds: seq<Id>): Orders {
    map id | id in stepIds :: -(Position(stepIds, id) + 1)
  }

  /** Phase 2: the final positions. */
  function Placed(stepIds: seq<Id>): Orders {
    map id | id in stepIds :: Position(stepIds, id) + 1
  }

  lemma PositionOfOneMore(stepIds: seq<Id>, x: Id, id: Id)
    requires id in stepIds + [x]
    ensures id == x || id in stepIds
    ensures Position(stepIds + [x], id) == if id == x then |stepIds| else Position(stepIds, id)
  {
    assert (stepIds + [x])[..|stepIds|] == stepIds;
  }

  lemma ParkedOneMore(stepIds: seq<Id>, x: Id)
    ensures Parked(stepIds + [x]) == Parked(stepIds)[x := -(|stepIds| + 1)]
  {
    var more, less := Parked(stepIds + [x]), Parked(stepIds)[x := -(|stepIds| + 1)];
    SameSet(more.Keys, less.Keys);
    forall id | id in more ensures more[id] == less[id] { PositionOfOneMore(stepIds, x, id); }
    SameMap(more, less);
  }

  lemma PlacedOneMore(stepIds: seq<Id>, x: Id)
    ensures Placed(stepIds + [x]) == Placed(stepIds)[x := |stepIds| + 1]
  {
    var more, less := Placed(stepIds + [x]), Placed(stepIds)[x := |stepIds| + 1];
    SameSet(more.Keys, less.Keys);
    forall id | id in more ensures more[id] == less[id] { PositionOfOneMore(stepIds, x, id); }
    SameMap(more, less);
  }

  lemma PhaseKeys(orders: Orders, stepIds: seq<Id>)
    requires forall id :: id in stepIds <==> id in orders
    ensures Parked(stepIds).Keys == orders.Keys && Placed(stepIds).Keys == orders.Keys
  {
    SameSet(Parked(stepIds).Keys, orders.Keys);
    SameSet(Placed(stepIds).Keys, orders.Keys);
  }

  /** Two different steps have different positions. */
  lemma PhasesShareNothing(stepIds: seq<Id>)
    ensures NoTwoShare(Parked(stepIds)) && NoTwoShare(Placed(stepIds))
    ensures forall id :: id in stepIds ==> Parked(stepIds)[id] < 0 < Placed(stepIds)[id]
  {
  }

  /** Neither phase ever collides if the orders start out distinct and none is negative. */
  lemma BothPhasesAreSafe(orders: Orders, stepIds: seq<Id>)
    requires Lists(stepIds, orders.Keys)
    requires NoTwoShare(orders) && forall id :: id in orders ==> orders[id] >= 0
    ensures Parked(stepIds).Keys == orders.Keys && Placed(stepIds).Keys == orders.Keys
    ensures NeverCollides(orders, Parked(stepIds)) && NeverCollides(Parked(stepIds), Placed(stepIds))
  {
    PhaseKeys(orders, stepIds);
    PhasesShareNothing(stepIds);
    NeverCollidesIff(orders, Parked(stepIds));
    NeverCollidesIff(Parked(stepIds), Placed(stepIds));
  }

  function Positions(stepIds: seq<Id>, steps: seq<Id>): seq<nat>
    requires forall i :: 0 <= i < |steps| ==> steps[i] in stepIds
  {
    seq(|steps|, i requires 0 <= i < |steps| => Position(stepIds, steps[i]))
  }

  lemma PositionsAscend(stepIds: seq<Id>, steps: seq<Id>)
    requires InOrder(Placed(stepIds), steps)
    requires forall i :: 0 <= i < |steps| ==> steps[i] in stepIds
    ensures forall i, j :: 0 <= i < j < |steps| ==> Positions(stepIds, steps)[i] < Positions(stepIds, steps)[j]
  {
    forall i, j | 0 <= i < j < |steps| ensures Positions(stepIds, steps)[i] < Positions(stepIds, steps)[j] {
      assert steps[i] != steps[j];
      assert Placed(stepIds)[steps[i]] <= Placed(stepIds)[steps[j]];
    }
  }

  lemma SameCount(stepIds: seq<Id>, steps: seq<Id>)
    requires Distinct(stepIds) && InOrder(Placed(stepIds), steps)
    ensures |steps| == |stepIds| && forall i :: 0 <= i < |steps| ==> steps[i] in stepIds
  {
    SizeOfSet(steps);
    SizeOfSet(stepIds);
    SameSet(ToSet(steps), ToSet(stepIds));
    forall i | 0 <= i < |steps| ensures steps[i] in stepIds { assert steps[i] in steps; }
  }

  /** The list read back from the final positions is the submitted one: no other is in order. */
  lemma PlacedReadsBack(stepIds: seq<Id>, steps: seq<Id>)
    requires Distinct(stepIds) && InOrder(Placed(stepIds), steps)
    ensures steps == stepIds
  {
    SameCount(stepIds, steps);
    PositionsAscend(stepIds, steps);
    forall i | 0 <= i < |steps| ensures steps[i] == stepIds[i] {
      Climbs(Positions(stepIds, steps), i);
    }
  }

  /** Ascending numbers below their count are 0, 1, 2 and so on. */
  lemma Climbs(ns: seq<nat>, i: nat)
    requires forall j, k :: 0 <= j < k < |ns| ==> ns[j] < ns[k]
    requires forall j :: 0 <= j < |ns| ==> ns[j] < |ns|
    requires i < |ns|
    ensures ns[i] == i
  {
    AtLeast(ns, i);
    AtMost(ns, i);
  }

  lemma {:induction false} AtLeast(ns: seq<nat>, i: nat)
    requires forall j, k :: 0 <= j < k < |ns| ==> ns[j] < ns[k]
    requires i < |ns|
    ensures ns[i] >= i
  {
    if i > 0 { AtLeast(ns, i - 1); }
  }

  lemma {:induction false} AtMost(ns: seq<nat>, i: nat)
    requires forall j, k :: 0 <= j < k < |ns| ==> ns[j] < ns[k]
    requires forall j :: 0 <= j < |ns| ==> ns[j] < |ns|
    requires i < |ns|
    ensures ns[i] <= i
    decreases |ns| - i
  {
    if i < |ns| - 1 { AtMost(ns, i + 1); }
  }

  class CampaignStepTable {
    var orders: Orders

    /** `get_steps`: ORDER BY step_order. */
    method GetSteps() returns (steps: seq<Id>)
      ensures InOrder(orders, steps)
    {
      var rest := orders.Keys;
      steps := [];
      while rest != {}
        invariant rest <= orders.Keys && Lists(steps, orders.Keys - rest)
        invariant forall i :: 0 <= i < |steps| ==> steps[i] in orders
        invariant forall i, j :: 0 <= i < j < |steps| ==> orders[steps[i]] <= orders[steps[j]]
        invariant forall done, next :: done in steps && next in rest ==> orders[done] <= orders[next]
        decreases rest
      {
        ghost var first := Earliest(orders, rest);
        var next :| next in rest && forall id :: id in rest ==> orders[next] <= orders[id];
        assert forall i :: 0 <= i < |steps| ==> steps[i] in steps;
        steps, rest := steps + [next], rest - {next};
      }
    }

    /** A flush: one UPDATE per row, in an order nobody promises; `trace` is the table after each. */
    method Flush(target: Orders) returns (ghost trace: seq<Orders>)
      requires target.Keys == orders.Keys
      modifies this
      ensures orders == target
      ensures forall t :: t in trace ==> exists written :: t == Partly(old(orders), target, written)
      ensures NeverCollides(old(orders), target) ==> forall t :: t in trace ==> NoTwoShare(t)
    {
      ghost var before := orders;
      var rows := Rows(orders.Keys);
      ghost var written: set<Id> := {};
      trace := [];
      SameMap(orders, Partly(before, target, {}));
      for i := 0 to |rows|
        invariant forall id :: id in written <==> id in rows[..i]
        invariant orders == Partly(before, target, written)
        invariant forall t :: t in trace ==> exists w :: t == Partly(before, target, w)
      {
        assert rows[i] in rows;
        ghost var next := written + {rows[i]};
        orders := orders[rows[i] := target[rows[i]]];
        SameMap(orders, Partly(before, target, next));
        written := next;
        trace := trace + [orders];
      }
      assert rows[..|rows|] == rows;
      SameMap(orders, target);
    }

    /**
     * `reorder_steps`: accepts exactly the permutations of the steps, returns the submitted list, and
     * shares no order on the way if the orders were distinct and not negative.
     */
    method ReorderSteps(stepIds: seq<Id>) returns (accepted: bool, steps: seq<Id>, ghost trace: seq<Orders>)
      modifies this
      ensures accepted <==> Lists(stepIds, old(orders.Keys))
      ensures !accepted ==> orders == old(orders)
      ensures accepted ==> steps == stepIds && orders == Placed(stepIds)
      ensures NoTwoShare(old(orders)) && (forall id :: id in old(orders) ==> old(orders)[id] >= 0) ==>
        forall t :: t in trace ==> NoTwoShare(t)
    {
      ghost var before := orders;
      trace, steps := [], [];
      var submitted := ToSet(stepIds);
      SizeOfSet(stepIds);
      if orders.Keys != submitted {
        return false, steps, trace;
      }
      if |submitted| != |stepIds| {
        return false, steps, trace;
      }
      PhaseKeys(orders, stepIds);
      var parked := Park(stepIds);
      ghost var first := Flush(parked);
      var placed := Place(stepIds);
      ghost var second := Flush(placed);
      if NoTwoShare(before) && forall id :: id in before ==> before[id] >= 0 {
        BothPhasesAreSafe(before, stepIds);
      }
      trace := first + second;
      steps := GetSteps();
      PlacedReadsBack(stepIds, steps);
      accepted := true;
    }
  }

  /** The first loop over the submitted list. */
  method Park(stepIds: seq<Id>) returns (parked: Orders)
    ensures parked == Parked(stepIds)
  {
    parked := map[];
    for offset := 0 to |stepIds|
      invariant parked == Parked(stepIds[..offset])
    {
      assert stepIds[..offset + 1] == stepIds[..offset] + [stepIds[offset]];
      ParkedOneMore(stepIds[..offset], stepIds[offset]);
      parked := parked[stepIds[offset] := -(offset + 1)];
    }
    assert stepIds[..|stepIds|] == stepIds;
  }

  /** The second loop over the submitted list. */
  method Place(stepIds: seq<Id>) returns (placed: Orders)
    ensures placed == Placed(stepIds)
  {
    placed := map[];
    for index := 0 to |stepIds|
      invariant placed == Placed(stepIds[..index])
    {
      assert stepIds[..index + 1] == stepIds[..index] + [stepIds[index]];
      PlacedOneMore(stepIds[..index], stepIds[index]);
      placed := placed[stepIds[index] := index + 1];
    }
    assert stepIds[..|stepIds|] == stepIds;
  }

  lemma Earliest(orders: Orders, ids: set<Id>) returns (first: Id)
    requires ids != {} && ids <= orders.Keys
    ensures first in ids && forall id :: id in ids ==> orders[first] <= orders[id]
    decreases ids
  {
    var any := Member(ids);
    first := any;
    if ids != {any} {
      var rest := ids - {any};
      var other := Earliest(orders, rest);
      first := if orders[other] < orders[any] then other else any;
      assert forall id :: id in ids ==> id in rest || id == any;
    }
  }
}
