/** Auto-assignment of new leads: which rule fires, and which user it picks. */
module LeadAssignment {
  import opened Wrappers

  datatype Value = Missing | Text(s: string) | Number(n: int)

  /** A JSON object: the lead's data, or a rule's filters. */
  type Data = map<string, Value>

  function Get(data: Data, key: string): Value {
    if key in data then data[key] else Missing
  }

  function Or(a: Value, b: Value): Value {
    if a == Missing || a == Text("") || a == Number(0) then b else a
  }

  /** `_matches_filters`. */
  predicate Matches(lead: Data, filters: Option<Data>) {
    filters.Some? ==>
      && ("source" in filters.value ==> Or(Get(lead, "source_name"), Get(lead, "source")) == filters.value["source"])
      && ("source_id" in filters.value ==> Get(lead, "source_id") == filters.value["source_id"])
      && ("industry" in filters.value ==> Get(lead, "industry") == filters.value["industry"])
      && ("status" in filters.value ==> Get(lead, "status") == filters.value["status"])
  }

  /** The lead says nothing about the key, or something empty. */
  ghost predicate Blank(data: Data, key: string) {
    key !in data || data[key] == Missing || data[key] == Text("") || data[key] == Number(0)
  }

  ghost predicate Says(data: Data, key: string, value: Value) {
    if key in data then data[key] == value else value == Missing
  }

  /** Which leads a rule takes: all without filters, else those that agree with each of the four it may have. */
  lemma WhichLeadsMatch(lead: Data, filters: Data)
    ensures Matches(lead, None) && Matches(lead, Some(map[]))
    ensures Matches(lead, Some(filters)) <==>
      && ("source" in filters ==>
            Says(lead, if Blank(lead, "source_name") then "source" else "source_name", filters["source"]))
      && ("source_id" in filters ==> Says(lead, "source_id", filters["source_id"]))
      && ("industry" in filters ==> Says(lead, "industry", filters["industry"]))
      && ("status" in filters ==> Says(lead, "status", filters["status"]))
  {
  }

  datatype Kind = RoundRobin | LoadBalance

  datatype Rule = Rule(
    id: Id, kind: Kind, userIds: seq<Id>, filters: Option<Data>, lastAssignedIndex: int,
    isActive: bool, isDefault: bool)

  datatype Lead = Lead(ownerId: Option<Id>, status: string)

  type Leads = map<Id, Lead>

  const ACTIVE: set<string> := {"new", "contacted", "qualified"}

  /** The COUNT of a user's active leads. */
  function ActiveLeads(leads: Leads, user: Id): nat {
    |ActiveOf(leads, user)|
  }

  function ActiveOf(leads: Leads, user: Id): set<Id> {
    set l | l in leads && leads[l].ownerId == Some(user) && leads[l].status in ACTIVE
  }

  /** A lead counts for its owner while it is new, contacted or qualified. */
  lemma WhatCountsAsActive(leads: Leads, user: Id, l: Id)
    ensures l in ActiveOf(leads, user) <==>
      && l in leads && leads[l].ownerId == Some(user)
      && (leads[l].status == "new" || leads[l].status == "contacted" || leads[l].status == "qualified")
    ensures ActiveLeads(leads, user) == |ActiveOf(leads, user)|
  {
  }

  /** Python's `min` with a key: the first user whose load is least. */
  function LeastBy(load: Id -> nat, users: seq<Id>): (user: Id)
    requires users != []
    ensures user in users
    ensures forall u :: u in users ==> load(user) <= load(u)
  {
    if |users| == 1 then users[0]
    else
      var last := |users| - 1;
      var best := LeastBy(load, users[..last]);
      assert forall u :: u in users ==> u in users[..last] || u == users[last];
      if load(users[last]) < load(best) then users[last] else best
  }

  function LoadIn(leads: Leads): Id -> nat {
    user => ActiveLeads(leads, user)
  }

  /** The user of a load-balancing rule. */
  function LeastLoaded(leads: Leads, users: seq<Id>): (user: Id)
    requires users != []
    ensures user in users
    ensures forall u :: u in users ==> ActiveLeads(leads, user) <= ActiveLeads(leads, u)
  {
    var load := LoadIn(leads);
    assert forall u :: load(u) == ActiveLeads(leads, u);
    LeastBy(load, users)
  }

  lemma {:induction false} FirstOfTheLeast(load: Id -> nat, users: seq<Id>) returns (i: nat)
    requires users != []
    ensures i < |users| && users[i] == LeastBy(load, users)
    ensures forall j :: 0 <= j < i ==> load(users[j]) > load(users[i])
  {
    var last := |users| - 1;
    if last == 0 {
      i := 0;
    } else {
      i := FirstOfTheLeast(load, users[..last]);
      if load(users[last]) < load(users[i]) {
        forall j | 0 <= j < last ensures load(users[j]) > load(users[last]) {
          assert users[..last][j] in users[..last];
        }
        i := last;
      }
    }
  }

  /** The user picked has the fewest active leads, and everybody listed before has more. */
  lemma FirstOfTheLeastLoaded(leads: Leads, users: seq<Id>) returns (i: nat)
    requires users != []
    ensures i < |users| && users[i] == LeastLoaded(leads, users)
    ensures forall u :: u in users ==> ActiveLeads(leads, users[i]) <= ActiveLeads(leads, u)
    ensures forall j :: 0 <= j < i ==> ActiveLeads(leads, users[j]) > ActiveLeads(leads, users[i])
  {
    i := FirstOfTheLeast(LoadIn(leads), users);
    forall j | 0 <= j < i ensures ActiveLeads(leads, users[j]) > ActiveLeads(leads, users[i]) {
      assert LoadIn(leads)(users[j]) > LoadIn(leads)(users[i]);
    }
  }

  /** `_get_load_balance_user`, counting in a loop. */
  method LoadBalanceUser(leads: Leads, users: seq<Id>) returns (best: Id)
    requires users != []
    ensures best == LeastLoaded(leads, users)
  {
    best := users[0];
    assert users[..1] == [best];
    for j := 1 to |users|
      invariant best == LeastBy(LoadIn(leads), users[..j])
    {
      assert users[..j + 1][..j] == users[..j];
      if ActiveLeads(leads, users[j]) < ActiveLeads(leads, best) {
        best := users[j];
      }
    }
    assert users[..|users|] == users;
  }

  /** The slot a round-robin rule moves to. */
  function NextSlot(rule: Rule): nat
    requires rule.userIds != []
  {
    (rule.lastAssignedIndex + 1) % |rule.userIds|
  }

  function PickOf(rule: Rule, leads: Leads): Id
    requires rule.userIds != []
  {
    if rule.kind == RoundRobin then rule.userIds[NextSlot(rule)] else LeastLoaded(leads, rule.userIds)
  }

  function Bumped(rule: Rule): Rule
    requires rule.userIds != []
  {
    if rule.kind == RoundRobin then rule.(lastAssignedIndex := NextSlot(rule)) else rule
  }

  datatype Reason = RuleMatch | DefaultFallback

  datatype Decision = Decision(userId: Id, ruleId: Id, reason: Reason)

  /** A filtered rule that would yield a user for this lead. */
  predicate Yields(rule: Rule, lead: Data) {
    rule.isActive && !rule.isDefault && Matches(lead, rule.filters) && rule.userIds != []
  }

  predicate ActiveDefault(rule: Rule) {
    rule.isActive && rule.isDefault
  }

  /** `rules` are the table in creation order. */
  class AssignmentService {
    var rules: seq<Rule>

    method ResolveUser(i: nat, leads: Leads) returns (user: Option<Id>)
      requires i < |rules|
      modifies this
      ensures old(rules)[i].userIds == [] ==> user.None? && rules == old(rules)
      ensures old(rules)[i].userIds != [] ==>
        && user == Some(PickOf(old(rules)[i], leads))
        && rules == old(rules)[i := Bumped(old(rules)[i])]
    {
      var rule := rules[i];
      if rule.userIds == [] {
        return None;
      }
      if rule.kind == RoundRobin {
        var nextIndex := (rule.lastAssignedIndex + 1) % |rule.userIds|;
        rules := rules[i := rule.(lastAssignedIndex := nextIndex)];
        return Some(rule.userIds[nextIndex]);
      }
      var best := LoadBalanceUser(leads, rule.userIds);
      return Some(best);
    }

    /**
     * `assign_lead`: the first active filtered rule that yields a user; only if there is none, the
     * first active default. At most the chosen rule's index moves.
     */
    method AssignLead(lead: Data, leads: Leads) returns (decision: Option<Decision>, ghost chosen: Option<nat>)
      modifies this
      ensures chosen == Chosen(old(rules), lead)
      ensures decision.Some? <==> chosen.Some?
      ensures chosen.None? ==> rules == old(rules)
      ensures chosen.Some? ==>
        var rule := old(rules)[chosen.value];
        && rules == old(rules)[chosen.value := Bumped(rule)]
        && decision.value == Decision(PickOf(rule, leads), rule.id, if rule.isDefault then DefaultFallback else RuleMatch)
    {
      for i := 0 to |rules|
        invariant rules == old(rules)
        invariant forall j :: 0 <= j < i ==> !Yields(rules[j], lead)
      {
        var rule := rules[i];
        if rule.isActive && !rule.isDefault && Matches(lead, rule.filters) {
          assert rule.userIds != [] ==> FirstYields(rules, lead, i);
          var user := ResolveUser(i, leads);
          if user.Some? {
            return Some(Decision(user.value, rule.id, RuleMatch)), Some(i);
          }
        }
      }
      for i := 0 to |rules|
        invariant rules == old(rules)
        invariant forall j :: 0 <= j < i ==> !ActiveDefault(rules[j])
      {
        var rule := rules[i];
        if rule.isActive && rule.isDefault {
          var user := ResolveUser(i, leads);
          if user.Some? {
            return Some(Decision(user.value, rule.id, DefaultFallback)), Some(i);
          }
          return None, None;
        }
      }
      return None, None;
    }
  }

  /** The rule that fires for a lead. */
  ghost function Chosen(rules: seq<Rule>, lead: Data): (i: Option<nat>)
    ensures i.Some? ==> i.value < |rules| && rules[i.value].userIds != []
  {
    if exists i :: 0 <= i < |rules| && FirstYields(rules, lead, i) then
      var i :| 0 <= i < |rules| && FirstYields(rules, lead, i); Some(i)
    else if exists i :: 0 <= i < |rules| && FirstDefault(rules, i) && rules[i].userIds != [] then
      var i :| 0 <= i < |rules| && FirstDefault(rules, i) && rules[i].userIds != []; Some(i)
    else None
  }

  ghost predicate FirstYields(rules: seq<Rule>, lead: Data, i: nat)
    requires i < |rules|
  {
    Yields(rules[i], lead) && forall j :: 0 <= j < i ==> !Yields(rules[j], lead)
  }

  ghost predicate FirstDefault(rules: seq<Rule>, i: nat)
    requires i < |rules|
  {
    ActiveDefault(rules[i]) && forall j :: 0 <= j < i ==> !ActiveDefault(rules[j])
  }

  /** The default never starves a filtered rule, and a lead goes unassigned only when all else fails. */
  lemma DefaultIsLastResort(rules: seq<Rule>, lead: Data)
    ensures Chosen(rules, lead).Some? ==>
      (rules[Chosen(rules, lead).value].isDefault <==> forall j :: 0 <= j < |rules| ==> !Yields(rules[j], lead))
    ensures Chosen(rules, lead).None? <==>
      && (forall j :: 0 <= j < |rules| ==> !Yields(rules[j], lead))
      && (forall j :: 0 <= j < |rules| && FirstDefault(rules, j) ==> rules[j].userIds == [])
  {
    if j :| 0 <= j < |rules| && Yields(rules[j], lead) {
      var i := FirstToYield(rules, lead, j);
    }
  }

  /** The rule takes the lead: it is active, no default, has users, and its filters agree. */
  ghost predicate Takes(rule: Rule, lead: Data) {
    rule.isActive && !rule.isDefault && |rule.userIds| > 0 && Matches(lead, rule.filters)
  }

  /** The first rule that takes the lead is chosen; without one the first active default, if it has users. */
  lemma ChosenIff(rules: seq<Rule>, lead: Data, i: nat)
    requires i < |rules|
    ensures Chosen(rules, lead) == Some(i) <==>
      || (Takes(rules[i], lead) && forall j :: 0 <= j < i ==> !Takes(rules[j], lead))
      || (&& (forall j :: 0 <= j < |rules| ==> !Takes(rules[j], lead))
          && rules[i].isActive && rules[i].isDefault && |rules[i].userIds| > 0
          && forall j :: 0 <= j < i ==> !(rules[j].isActive && rules[j].isDefault))
  {
    forall j | 0 <= j < |rules| ensures Takes(rules[j], lead) <==> Yields(rules[j], lead) {}
    if j :| 0 <= j < |rules| && Yields(rules[j], lead) {
      var first := FirstToYield(rules, lead, j);
    }
    if Takes(rules[i], lead) && forall j :: 0 <= j < i ==> !Takes(rules[j], lead) {
      assert FirstYields(rules, lead, i);
    }
    if rules[i].isActive && rules[i].isDefault && forall j :: 0 <= j < i ==> !(rules[j].isActive && rules[j].isDefault) {
      assert FirstDefault(rules, i);
    }
  }

  lemma {:induction false} FirstToYield(rules: seq<Rule>, lead: Data, j: nat) returns (i: nat)
    requires j < |rules| && Yields(rules[j], lead)
    ensures i <= j && FirstYields(rules, lead, i)
  {
    if k :| 0 <= k < j && Yields(rules[k], lead) {
      i := FirstToYield(rules, lead, k);
    } else {
      i := j;
    }
  }
}
