/** Companies and the `merged_into_id` pointers that chain merged ones to a live root. */
module MergeChains {
  import opened Wrappers

  datatype Company = Company(status: string, mergedInto: Option<Id>)

  type Companies = map<Id, Company>

  /** A company nothing was merged away from: where a chain may stop. */
  predicate Live(cs: Companies, id: Id) {
    id in cs && cs[id].status != "merged" && cs[id].mergedInto.None?
  }

  /** A company whose pointer the walk follows, whatever its status says. */
  predicate Forwards(cs: Companies, id: Id) {
    id in cs && cs[id].mergedInto.Some?
  }

  function Next(cs: Companies, id: Id): Id
    requires Forwards(cs, id)
  {
    cs[id].mergedInto.value
  }

  /** Where `n` pointers lead from `id`, if there are that many. */
  ghost function Hop(cs: Companies, id: Id, n: nat): Option<Id>
    decreases n
  {
    if n == 0 then Some(id)
    else if Forwards(cs, id) then Hop(cs, Next(cs, id), n - 1)
    else None
  }

  ghost predicate Reaches(cs: Companies, id: Id, root: Id) {
    Live(cs, root) && exists n: nat :: Hop(cs, id, n) == Some(root)
  }

  /** The live root of a company, defined by reachability alone. */
  ghost function LiveRoot(cs: Companies, id: Id): Option<Id> {
    if exists r :: Reaches(cs, id, r) then
      var r :| Reaches(cs, id, r); Some(r)
    else None
  }

  /** The chain stops at a missing row, or at a merged row without a pointer. */
  ghost predicate DeadEnds(cs: Companies, id: Id) {
    exists n: nat, x :: Hop(cs, id, n) == Some(x) && !Live(cs, x) && !Forwards(cs, x)
  }

  /** The chain comes back to a company it has visited. */
  ghost predicate Cycles(cs: Companies, id: Id) {
    exists i: nat, j: nat :: i < j && Hop(cs, id, i).Some? && Hop(cs, id, i) == Hop(cs, id, j)
  }

  lemma {:induction false} HopAdds(cs: Companies, id: Id, m: nat, n: nat)
    requires Hop(cs, id, m).Some?
    ensures Hop(cs, id, m + n) == Hop(cs, Hop(cs, id, m).value, n)
    decreases m
  {
    if m > 0 {
      HopAdds(cs, Next(cs, id), m - 1, n);
    }
  }

  /** Every company a chain leaves behind has a pointer, so it is not live. */
  lemma {:induction false} HopPassesForwarders(cs: Companies, id: Id, m: nat, n: nat)
    requires m < n && Hop(cs, id, n).Some?
    ensures Hop(cs, id, m).Some? && Forwards(cs, Hop(cs, id, m).value)
    decreases m
  {
    if m > 0 {
      HopPassesForwarders(cs, Next(cs, id), m - 1, n - 1);
    }
  }

  /** A chain has at most one live root. */
  lemma RootIsUnique(cs: Companies, id: Id, r: Id, q: Id)
    requires Reaches(cs, id, r) && Reaches(cs, id, q)
    ensures r == q
  {
    var m: nat :| Hop(cs, id, m) == Some(r);
    var n: nat :| Hop(cs, id, n) == Some(q);
    if m < n { HopPassesForwarders(cs, id, m, n); }
    if n < m { HopPassesForwarders(cs, id, n, m); }
  }

  lemma LiveRootIsReachability(cs: Companies, id: Id, r: Id)
    ensures LiveRoot(cs, id) == Some(r) <==> Reaches(cs, id, r)
  {
    if Reaches(cs, id, r) {
      RootIsUnique(cs, id, r, LiveRoot(cs, id).value);
    }
  }

  /** One step of a chain does not change what it reaches. */
  lemma ReachesStep(cs: Companies, id: Id, r: Id)
    requires Forwards(cs, id)
    ensures Reaches(cs, id, r) <==> Reaches(cs, Next(cs, id), r)
  {
    if Reaches(cs, id, r) {
      var n: nat :| Hop(cs, id, n) == Some(r);
      assert Hop(cs, Next(cs, id), n - 1) == Some(r);
    }
    if Reaches(cs, Next(cs, id), r) {
      var n: nat :| Hop(cs, Next(cs, id), n) == Some(r);
      assert Hop(cs, id, n + 1) == Some(r);
    }
  }

  /** Companies whose pointers stay among themselves reach no live root. */
  lemma {:induction false} ClosedNeverLive(cs: Companies, closed: set<Id>, id: Id, n: nat)
    requires id in closed
    requires forall x :: x in closed ==> Forwards(cs, x) && Next(cs, x) in closed
    ensures Hop(cs, id, n).Some? && Hop(cs, id, n).value in closed
    decreases n
  {
    if n > 0 {
      ClosedNeverLive(cs, closed, Next(cs, id), n - 1);
    }
  }

  /** `_live_root`: stops on every pointer graph, with the root reachability defines. */
  method FindLiveRoot(companyId: Id, cs: Companies) returns (root: Option<Id>)
    ensures root == LiveRoot(cs, companyId)
  {
    var seen: set<Id> := {};
    var currentId := companyId;
    while currentId !in seen
      invariant forall r :: Reaches(cs, companyId, r) <==> Reaches(cs, currentId, r)
      invariant seen <= cs.Keys
      invariant forall x :: x in seen ==>
        Forwards(cs, x) && (Next(cs, x) in seen || Next(cs, x) == currentId)
      decreases cs.Keys - seen
    {
      seen := seen + {currentId};
      if currentId !in cs {
        return None;
      }
      var nextId := cs[currentId].mergedInto;
      if cs[currentId].status != "merged" && nextId == None {
        assert Hop(cs, currentId, 0) == Some(currentId);
        LiveRootIsReachability(cs, companyId, currentId);
        return Some(currentId);
      }
      if nextId == None {
        return None;
      }
      forall r { ReachesStep(cs, currentId, r); }
      currentId := nextId.value;
    }
    forall n: nat { ClosedNeverLive(cs, seen, currentId, n); }
    return None;
  }

  /** What ends a chain: exactly one of a live root, or a dead end or cycle. */
  lemma NoRootIffDeadEndOrCycle(cs: Companies, id: Id)
    ensures LiveRoot(cs, id).None? <==> DeadEnds(cs, id) || Cycles(cs, id)
  {
    EveryChainEnds(cs, id, 0, {});
    if LiveRoot(cs, id).Some? {
      var n: nat :| Hop(cs, id, n) == LiveRoot(cs, id);
      if DeadEnds(cs, id) {
        var m: nat, x :| Hop(cs, id, m) == Some(x) && !Live(cs, x) && !Forwards(cs, x);
        if m < n { HopPassesForwarders(cs, id, m, n); }
        if n < m { HopPassesForwarders(cs, id, n, m); }
      }
      if Cycles(cs, id) {
        var i: nat, j: nat :| i < j && Hop(cs, id, i).Some? && Hop(cs, id, i) == Hop(cs, id, j);
        CyclesOutlastRoots(cs, id, i, j, n);
      }
    }
  }

  lemma {:induction false} CyclesOutlastRoots(cs: Companies, id: Id, i: nat, j: nat, n: nat)
    requires i < j && Hop(cs, id, i).Some? && Hop(cs, id, i) == Hop(cs, id, j)
    requires Hop(cs, id, n).Some?
    ensures Forwards(cs, Hop(cs, id, n).value)
    decreases n
  {
    if n < j {
      HopPassesForwarders(cs, id, n, j);
    } else {
      HopAdds(cs, id, j, n - j);
      HopAdds(cs, id, i, n - j);
      CyclesOutlastRoots(cs, id, i, j, n - j + i);
    }
  }

  ghost predicate Visited(cs: Companies, id: Id, n: nat, x: Id) {
    exists i: nat :: i < n && Hop(cs, id, i) == Some(x)
  }

  /** Only finitely many companies exist, so a walk stops or repeats. */
  lemma {:induction false} EveryChainEnds(cs: Companies, id: Id, n: nat, seen: set<Id>)
    requires Hop(cs, id, n).Some?
    requires seen <= cs.Keys
    requires forall x :: x in seen ==> Visited(cs, id, n, x)
    ensures LiveRoot(cs, id).Some? || DeadEnds(cs, id) || Cycles(cs, id)
    decreases cs.Keys - seen
  {
    var x := Hop(cs, id, n).value;
    if Forwards(cs, x) && x !in seen {
      HopAdds(cs, id, n, 1);
      assert Hop(cs, x, 1) == Hop(cs, Next(cs, x), 0);
      assert forall y :: Visited(cs, id, n, y) ==> Visited(cs, id, n + 1, y);
      EveryChainEnds(cs, id, n + 1, seen + {x});
    } else if Live(cs, x) {
      assert Reaches(cs, id, x);
    }
  }

  /** All the companies along a chain share one root, or none of them has one. */
  lemma ChainSharesRoot(cs: Companies, id: Id, n: nat)
    requires Hop(cs, id, n).Some?
    ensures LiveRoot(cs, Hop(cs, id, n).value) == LiveRoot(cs, id)
    decreases n
  {
    if n > 0 {
      ChainSharesRoot(cs, Next(cs, id), n - 1);
      forall r { ReachesStep(cs, id, r); }
      SameReachSameRoot(cs, id, Next(cs, id));
    }
  }

  lemma SameReachSameRoot(cs: Companies, id: Id, other: Id)
    requires forall r :: Reaches(cs, id, r) <==> Reaches(cs, other, r)
    ensures LiveRoot(cs, id) == LiveRoot(cs, other)
  {
    if LiveRoot(cs, id).Some? {
      LiveRootIsReachability(cs, other, LiveRoot(cs, id).value);
    }
  }

  /** A root is its own root, so the groups of two different roots cannot meet. */
  lemma RootOfRoot(cs: Companies, id: Id)
    requires LiveRoot(cs, id).Some?
    ensures Live(cs, LiveRoot(cs, id).value)
    ensures LiveRoot(cs, LiveRoot(cs, id).value) == LiveRoot(cs, id)
  {
    var r := LiveRoot(cs, id).value;
    assert Hop(cs, r, 0) == Some(r);
    LiveRootIsReachability(cs, r, r);
  }
}
