/** Fairness of assignment over any number of leads, and the one default rule. */
module AssignmentFairness {
  import opened Wrappers
  import opened LeadAssignment

  /** One call of `assign_lead`: the lead, and the leads table it finds. */
  datatype Request = Request(lead: Data, leads: Leads)

  ghost function After(rules: seq<Rule>, requests: seq<Request>): (after: seq<Rule>)
    ensures |after| == |rules|
  {
    if requests == [] then rules
    else
      var rest := After(rules, requests[..|requests| - 1]);
      var chosen := Chosen(rest, requests[|requests| - 1].lead);
      if chosen.None? then rest else rest[chosen.value := Bumped(rest[chosen.value])]
  }

  /** The slots rule `i` handed out, whatever the other rules did in between. */
  ghost function Slots(rules: seq<Rule>, requests: seq<Request>, i: nat): seq<nat>
    requires i < |rules|
  {
    if requests == [] then []
    else
      var rest := requests[..|requests| - 1];
      var before := After(rules, rest);
      Slots(rules, rest, i) +
        (if Chosen(before, requests[|requests| - 1].lead) == Some(i) then [NextSlot(before[i])] else [])
  }

  /** The slot after another, around a list of `n` users. */
  function Following(slot: nat, n: nat): nat
    requires slot < n
  {
    if slot + 1 == n then 0 else slot + 1
  }

  /** Each slot follows the one before; the rule remembers the last. */
  ghost predicate Rotates(slots: seq<nat>, n: nat) {
    && (forall k :: 0 <= k < |slots| ==> slots[k] < n)
    && (forall k :: 0 < k < |slots| ==> slots[k] == Following(slots[k - 1], n))
  }

  /** A call moves at most the index of the rule it chose, to that rule's next slot. */
  lemma OneMoreRequest(rules: seq<Rule>, requests: seq<Request>, request: Request, i: nat)
    requires i < |rules|
    ensures var before, after := After(rules, requests), After(rules, requests + [request]);
      var slots := Slots(rules, requests, i);
      if Chosen(before, request.lead) == Some(i)
      then after[i] == Bumped(before[i]) && Slots(rules, requests + [request], i) == slots + [NextSlot(before[i])]
      else after[i] == before[i] && Slots(rules, requests + [request], i) == slots
  {
    assert (requests + [request])[..|requests|] == requests;
  }

  lemma {:induction false} RuleRotates(rules: seq<Rule>, requests: seq<Request>, i: nat)
    requires i < |rules| && rules[i].kind == RoundRobin && rules[i].userIds != []
    ensures var slots, rule := Slots(rules, requests, i), After(rules, requests)[i];
      && Rotates(slots, |rules[i].userIds|)
      && rule == rules[i].(lastAssignedIndex := if slots == [] then rules[i].lastAssignedIndex else slots[|slots| - 1])
  {
    if requests != [] {
      var rest, request := requests[..|requests| - 1], requests[|requests| - 1];
      assert requests == rest + [request];
      RuleRotates(rules, rest, i);
      OneMoreRequest(rules, rest, request, i);
      RotatesOn(Slots(rules, rest, i), After(rules, rest)[i]);
    }
  }

  lemma RotatesOn(slots: seq<nat>, rule: Rule)
    requires rule.userIds != [] && Rotates(slots, |rule.userIds|)
    requires slots != [] ==> rule.lastAssignedIndex == slots[|slots| - 1]
    ensures Rotates(slots + [NextSlot(rule)], |rule.userIds|)
  {
    if slots != [] { NextFollows(slots[|slots| - 1], |rule.userIds|); }
  }

  lemma NextFollows(slot: nat, n: nat)
    requires slot < n
    ensures (slot + 1) % n == Following(slot, n)
  {
    if slot + 1 < n {
      SmallMod(slot + 1, n);
    } else {
      assert n % n == 0;
    }
  }

  lemma SmallMod(a: nat, n: nat)
    requires a < n
    ensures a % n == a
  {
  }

  function Count(slots: seq<nat>, slot: nat): nat {
    if slots == [] then 0
    else Count(slots[..|slots| - 1], slot) + if slots[|slots| - 1] == slot then 1 else 0
  }

  /** Slot `s` lies on the way from `first` to `last`, both included, going around. */
  predicate OnTheWay(first: nat, last: nat, s: nat) {
    if first <= last then first <= s <= last else s >= first || s <= last
  }

  /** After any number of picks, the slots from the first to the last have had one turn more. */
  lemma {:induction false} TurnsSoFar(slots: seq<nat>, n: nat) returns (turns: nat)
    requires slots != [] && Rotates(slots, n)
    ensures forall s :: 0 <= s < n ==>
      Count(slots, s) == turns + if OnTheWay(slots[0], slots[|slots| - 1], s) then 1 else 0
  {
    var last := |slots| - 1;
    if last == 0 {
      turns := 0;
      assert forall s :: Count(slots[..0], s) == 0;
    } else {
      turns := TurnsSoFar(slots[..last], n);
      assert slots[last] == Following(slots[last - 1], n);
      if slots[last] == slots[0] { turns := turns + 1; }
    }
  }

  /** Round-robin is fair: two users of a rule never differ by more than one pick. */
  lemma RoundRobinIsFair(rules: seq<Rule>, requests: seq<Request>, i: nat, a: nat, b: nat)
    requires i < |rules| && rules[i].kind == RoundRobin
    requires a < |rules[i].userIds| && b < |rules[i].userIds|
    ensures -1 <= Count(Slots(rules, requests, i), a) - Count(Slots(rules, requests, i), b) <= 1
  {
    RuleRotates(rules, requests, i);
    var slots := Slots(rules, requests, i);
    if slots != [] {
      var turns := TurnsSoFar(slots, |rules[i].userIds|);
    }
  }

  lemma {:induction false} AroundTheList(slots: seq<nat>, n: nat, k: nat, d: nat)
    requires Rotates(slots, n) && k + d < |slots| && d < n
    ensures slots[k + d] == if slots[k] + d < n then slots[k] + d else slots[k] + d - n
    decreases d
  {
    if d > 0 { AroundTheList(slots, n, k, d - 1); }
  }

  /** Any n consecutive slots of a rotation hit every slot of the list, each one once. */
  lemma RoundsAreComplete(slots: seq<nat>, n: nat, k: nat, slot: nat)
    requires Rotates(slots, n) && slot < n && k + n <= |slots|
    ensures slot in slots[k..k + n] && Distinct(slots[k..k + n])
  {
    var round := slots[k..k + n];
    forall d | 0 <= d < n ensures round[d] == if slots[k] + d < n then slots[k] + d else slots[k] + d - n {
      AroundTheList(slots, n, k, d);
    }
    var d := if slots[k] <= slot then slot - slots[k] else slot - slots[k] + n;
    assert round[d] == slot;
  }

  /** So any n consecutive picks of a rule with n users hit every user's slot exactly once. */
  lemma EveryRoundHitsEachSlotOnce(rules: seq<Rule>, requests: seq<Request>, i: nat, k: nat, slot: nat)
    requires i < |rules| && rules[i].kind == RoundRobin && slot < |rules[i].userIds|
    requires k + |rules[i].userIds| <= |Slots(rules, requests, i)|
    ensures var round := Slots(rules, requests, i)[k..k + |rules[i].userIds|];
      slot in round && Distinct(round)
  {
    RuleRotates(rules, requests, i);
    RoundsAreComplete(Slots(rules, requests, i), |rules[i].userIds|, k, slot);
  }

  // ---- Load balance ----

  /** No two users of the rule are further apart than `bound` active leads. */
  ghost predicate SpreadWithin(leads: Leads, users: seq<Id>, bound: int) {
    forall u, v :: u in users && v in users ==> ActiveLeads(leads, u) - ActiveLeads(leads, v) <= bound
  }

  /** The table once a new lead is given to the user the rule picks. */
  function Assigned(leads: Leads, users: seq<Id>, lead: Id): Leads
    requires users != []
  {
    leads[lead := Lead(Some(LeastLoaded(leads, users)), "new")]
  }

  lemma OneMoreLead(leads: Leads, users: seq<Id>, lead: Id, user: Id)
    requires users != [] && lead !in leads
    ensures ActiveLeads(Assigned(leads, users, lead), user) ==
      ActiveLeads(leads, user) + if user == LeastLoaded(leads, users) then 1 else 0
  {
    var after, picked := Assigned(leads, users, lead), LeastLoaded(leads, users);
    var more, less := ActiveOf(after, user), ActiveOf(leads, user);
    var expected := less + if user == picked then {lead} else {};
    forall l ensures l in more <==> l in expected {
      assert l in after <==> l == lead || l in leads;
    }
    SameSet(more, expected);
  }

  function AllAssigned(leads: Leads, users: seq<Id>, newLeads: seq<Id>): Leads
    requires users != []
  {
    if newLeads == [] then leads
    else Assigned(AllAssigned(leads, users, newLeads[..|newLeads| - 1]), users, newLeads[|newLeads| - 1])
  }

  /** Greedy assignment never widens the spread beyond what it was, or one. */
  lemma {:induction false} SpreadStaysBounded(leads: Leads, users: seq<Id>, newLeads: seq<Id>, bound: int)
    requires users != [] && bound >= 1 && SpreadWithin(leads, users, bound)
    requires Distinct(newLeads) && forall l :: l in newLeads ==> l !in leads
    ensures SpreadWithin(AllAssigned(leads, users, newLeads), users, bound)
    ensures AllAssigned(leads, users, newLeads).Keys == leads.Keys + ToSet(newLeads)
  {
    if newLeads == [] {
      SameSet(leads.Keys, leads.Keys + ToSet(newLeads));
    } else {
      var n := |newLeads| - 1;
      var lead := newLeads[n];
      SpreadStaysBounded(leads, users, newLeads[..n], bound);
      var before := AllAssigned(leads, users, newLeads[..n]);
      assert lead !in before;
      forall u { OneMoreLead(before, users, lead, u); }
      SameSet(AllAssigned(leads, users, newLeads).Keys, leads.Keys + ToSet(newLeads));
    }
  }

  // ---- The default rule ----

  type RuleTable = map<Id, Rule>

  /** The fields of an update that were set. */
  datatype RuleUpdate = RuleUpdate(
    kind: Option<Kind>, userIds: Option<seq<Id>>, filters: Option<Option<Data>>,
    isActive: Option<bool>, isDefault: Option<bool>)
  {
    function Apply(rule: Rule): Rule {
      rule.(kind := if kind.Some? then kind.value else rule.kind,
            filters := if filters.Some? then filters.value else rule.filters,
            userIds := if userIds.Some? then userIds.value else rule.userIds,
            isActive := if isActive.Some? then isActive.value else rule.isActive,
            isDefault := if isDefault.Some? then isDefault.value else rule.isDefault)
    }
  }

  datatype Change = Create(id: Id, rule: Rule) | Update(id: Id, update: RuleUpdate) | Delete(id: Id)

  /** `_demote_existing_default`. */
  function Demoted(table: RuleTable, exceptId: Option<Id>): RuleTable {
    map id | id in table ::
      if table[id].isDefault && exceptId != Some(id) then table[id].(isDefault := false) else table[id]
  }

  /** `create_rule`, `update_rule` and `delete_rule`. */
  function Changed(table: RuleTable, change: Change): RuleTable {
    match change
    case Create(id, rule) => (if rule.isDefault then Demoted(table, None) else table)[id := rule]
    case Update(id, update) =>
      if id !in table then table
      else
        (if update.isDefault == Some(true) then Demoted(table, Some(id)) else table)[id := update.Apply(table[id])]
    case Delete(id) => table - {id}
  }

  function AllChanged(table: RuleTable, changes: seq<Change>): RuleTable {
    if changes == [] then table else Changed(AllChanged(table, changes[..|changes| - 1]), changes[|changes| - 1])
  }

  class AssignmentRules {
    var table: RuleTable

    method DemoteExistingDefault(exceptId: Option<Id>)
      modifies this
      ensures table == Demoted(old(table), exceptId)
    {
      table := map id | id in table ::
        if table[id].isDefault && exceptId != Some(id) then table[id].(isDefault := false) else table[id];
    }

    method CreateRule(id: Id, rule: Rule)
      modifies this
      ensures table == Changed(old(table), Create(id, rule))
    {
      if rule.isDefault {
        DemoteExistingDefault(None);
      }
      table := table[id := rule];
    }

    method UpdateRule(id: Id, update: RuleUpdate)
      requires id in table
      modifies this
      ensures table == Changed(old(table), Update(id, update))
    {
      if update.isDefault == Some(true) {
        DemoteExistingDefault(Some(id));
      }
      table := table[id := update.Apply(table[id])];
    }
  }

  ghost predicate OneDefault(table: RuleTable) {
    forall a, b :: a in table && b in table && table[a].isDefault && table[b].isDefault ==> a == b
  }

  lemma ChangeKeepsOneDefault(table: RuleTable, change: Change)
    requires OneDefault(table)
    ensures OneDefault(Changed(table, change))
  {
    match change
    case Create(id, rule) => assert rule.isDefault ==> forall k :: k in Demoted(table, None) ==> !Demoted(table, None)[k].isDefault;
    case Update(id, update) => assert forall k :: k in Demoted(table, Some(id)) && k != id ==> !Demoted(table, Some(id))[k].isDefault;
    case Delete(id) =>
  }

  /** A rule that is promoted becomes the only default; of the others nothing else changes. */
  lemma PromotedRuleIsTheDefault(table: RuleTable, change: Change)
    requires change.Create? ==> change.rule.isDefault
    requires change.Update? ==> change.id in table && change.update.isDefault == Some(true)
    requires !change.Delete?
    ensures change.id in Changed(table, change)
    ensures forall k :: k in Changed(table, change) ==>
      (Changed(table, change)[k].isDefault <==> k == change.id)
      && (k != change.id ==> k in table && Changed(table, change)[k] == table[k].(isDefault := false))
  {
  }

  /** An update sets the fields it names and no others; the rotation goes on where it was. */
  lemma UpdateSetsWhatItNames(table: RuleTable, id: Id, update: RuleUpdate)
    requires id in table
    ensures var before, after := table[id], Changed(table, Update(id, update))[id];
      && (update.kind.Some? ==> after.kind == update.kind.value)
      && (update.userIds.Some? ==> after.userIds == update.userIds.value)
      && (update.filters.Some? ==> after.filters == update.filters.value)
      && (update.isActive.Some? ==> after.isActive == update.isActive.value)
      && (update.isDefault.Some? ==> after.isDefault == update.isDefault.value)
      && (update == RuleUpdate(None, None, None, None, None) ==> Changed(table, Update(id, update)) == table)
      && after.id == before.id && after.lastAssignedIndex == before.lastAssignedIndex
      && (update.kind.None? ==> after.kind == before.kind) && (update.userIds.None? ==> after.userIds == before.userIds)
      && (update.filters.None? ==> after.filters == before.filters)
      && (update.isActive.None? ==> after.isActive == before.isActive)
      && (update.isDefault.None? ==> after.isDefault == before.isDefault)
  {
    if update == RuleUpdate(None, None, None, None, None) { SameMap(Changed(table, Update(id, update)), table); }
  }

  /** A change that promotes nothing leaves every other rule alone. */
  lemma OthersStay(table: RuleTable, change: Change, k: Id)
    requires change.Create? ==> !change.rule.isDefault
    requires change.Update? ==> change.update.isDefault != Some(true)
    requires k != change.id
    ensures k in Changed(table, change) <==> k in table
    ensures k in table ==> Changed(table, change)[k] == table[k]
  {
  }

  /** Creating, updating and deleting rules never makes a second default. */
  lemma {:induction false} AtMostOneDefault(table: RuleTable, changes: seq<Change>)
    requires OneDefault(table)
    ensures OneDefault(AllChanged(table, changes))
  {
    if changes != [] {
      AtMostOneDefault(table, changes[..|changes| - 1]);
      ChangeKeepsOneDefault(AllChanged(table, changes[..|changes| - 1]), changes[|changes| - 1]);
    }
  }
}
