/** The repair itself: what `upgrade` does to the tables, and what it leaves alone. */
module StripeRepair {
  import opened Wrappers
  import opened MergeChains
  import opened StripeTables

  // ---- The outcome, customer by customer, with no order in it ----

  ghost function RootOf(cs: Companies, t: Tables, customer: Id): Option<Id> {
    if customer in t.customers && t.customers[customer].companyId.Some? then
      LiveRoot(cs, t.customers[customer].companyId.value)
    else None
  }

  /** The company-owned customers whose companies all end in `root`. */
  ghost function Group(cs: Companies, t: Tables, root: Id): set<Id> {
    set k | k in t.customers && t.customers[k].contactId.None? && RootOf(cs, t, k) == Some(root)
  }

  ghost predicate SeveralLive(t: Tables, group: set<Id>) {
    exists k, j :: k in group && j in group && k != j && HasLiveBilling(t, k) && HasLiveBilling(t, j)
  }

  ghost predicate Older(t: Tables, k: Id, j: Id)
    requires k in t.customers && j in t.customers
  {
    Predates(t.customers[k].createdAt, k, t.customers[j].createdAt, j)
  }

  /** The one with live billing, or the newest when none has any. */
  ghost predicate IsKeeper(t: Tables, group: set<Id>, k: Id)
    requires group <= t.customers.Keys
  {
    && k in group
    && (forall j :: j in group && j != k ==> !HasLiveBilling(t, j))
    && (HasLiveBilling(t, k) || forall j :: j in group && j != k ==> Older(t, j, k))
  }

  lemma KeeperIsUnique(t: Tables, group: set<Id>, k: Id, j: Id)
    requires group <= t.customers.Keys && IsKeeper(t, group, k) && IsKeeper(t, group, j)
    ensures k == j
  {
  }

  lemma {:induction false} NewestExists(t: Tables, group: set<Id>) returns (k: Id)
    requires group <= t.customers.Keys && group != {}
    ensures k in group && forall j :: j in group && j != k ==> Older(t, j, k)
    decreases group
  {
    var first := Member(group);
    k := first;
    if group != {first} {
      var rest := group - {first};
      assert rest != {};
      var newest := NewestExists(t, rest);
      k := if Older(t, newest, first) then first else newest;
      assert forall j :: j in group ==> j == first || j in rest;
    }
  }

  lemma KeeperExists(t: Tables, group: set<Id>)
    requires group <= t.customers.Keys && group != {} && !SeveralLive(t, group)
    ensures exists k :: IsKeeper(t, group, k)
  {
    if k :| k in group && HasLiveBilling(t, k) {
      assert IsKeeper(t, group, k);
    } else {
      var k := NewestExists(t, group);
      assert IsKeeper(t, group, k);
    }
  }

  ghost function Keeper(t: Tables, group: set<Id>): (k: Id)
    requires group <= t.customers.Keys && group != {} && !SeveralLive(t, group)
    ensures IsKeeper(t, group, k)
  {
    KeeperExists(t, group);
    var k :| IsKeeper(t, group, k); k
  }

  /** A company-owned customer that gives way to another one of its group. */
  ghost predicate Loses(cs: Companies, t: Tables, k: Id) {
    && k in t.customers && t.customers[k].contactId.None? && RootOf(cs, t, k).Some?
    && var group := Group(cs, t, RootOf(cs, t, k).value);
    assert k in group;
    !SeveralLive(t, group) && k != Keeper(t, group)
  }

  ghost function RepairedCustomer(cs: Companies, t: Tables, k: Id): Customer
    requires k in t.customers
  {
    var c := t.customers[k];
    if Loses(cs, t, k) then c.(companyId := None, contactId := None)
    else if RootOf(cs, t, k).Some? then c.(companyId := RootOf(cs, t, k))
    else c
  }

  ghost function RepairedSubscription(cs: Companies, t: Tables, b: Id): Subscription
    requires b in t.subscriptions
  {
    var s := t.subscriptions[b];
    if Loses(cs, t, s.customerId) then
      s.(customerId := Keeper(t, Group(cs, t, RootOf(cs, t, s.customerId).value)))
    else s
  }

  /** The tables once the groups of the roots in `done` are repaired. */
  ghost function RepairedUpTo(cs: Companies, t: Tables, done: set<Id>): Tables {
    Tables(
      map k | k in t.customers ::
        if RootOf(cs, t, k).Some? && RootOf(cs, t, k).value in done then RepairedCustomer(cs, t, k)
        else t.customers[k],
      t.payments,
      map b | b in t.subscriptions ::
        var root := RootOf(cs, t, t.subscriptions[b].customerId);
        if root.Some? && root.value in done then RepairedSubscription(cs, t, b)
        else t.subscriptions[b])
  }

  ghost function Repaired(cs: Companies, t: Tables): Tables {
    Tables(
      map k | k in t.customers :: RepairedCustomer(cs, t, k),
      t.payments,
      map b | b in t.subscriptions :: RepairedSubscription(cs, t, b))
  }

  // ---- One group, statement by statement: each function is one bulk UPDATE ----

  /** Contact-linked customers of `companies` move to `target`. */
  function Relink(customers: map<Id, Customer>, companies: set<Id>, target: Id): map<Id, Customer> {
    map k | k in customers ::
      var c := customers[k];
      if c.companyId.Some? && c.companyId.value in companies && c.contactId.Some?
      then c.(companyId := Some(target)) else c
  }

  function Own(customers: map<Id, Customer>, ids: set<Id>, target: Id): map<Id, Customer> {
    map k | k in customers ::
      if k in ids then customers[k].(companyId := Some(target)) else customers[k]
  }

  function Detach(customers: map<Id, Customer>, ids: set<Id>): map<Id, Customer> {
    map k | k in customers ::
      if k in ids then customers[k].(companyId := None, contactId := None) else customers[k]
  }

  function MovePayments(payments: map<Id, Payment>, from: set<Id>, keep: Id): map<Id, Payment> {
    map p | p in payments ::
      if payments[p].customerId.Some? && payments[p].customerId.value in from
      then Payment(Some(keep)) else payments[p]
  }

  function MoveSubscriptions(subscriptions: map<Id, Subscription>, from: set<Id>, keep: Id)
    : map<Id, Subscription>
  {
    map b | b in subscriptions ::
      if subscriptions[b].customerId in from then subscriptions[b].(customerId := keep)
      else subscriptions[b]
  }

  function Owned(t: Tables, companies: set<Id>): set<Id> {
    set k | k in t.customers && t.customers[k].contactId.None?
            && t.customers[k].companyId.Some? && t.customers[k].companyId.value in companies
  }

  ghost function Coalesced(t: Tables, group: set<Id>, target: Id): Tables
    requires group <= t.customers.Keys
  {
    if group == {} then t
    else if SeveralLive(t, group) then t.(customers := Own(t.customers, group, target))
    else
      var keep := Keeper(t, group);
      Tables(
        Own(Detach(t.customers, group - {keep}), {keep}, target),
        t.payments,
        MoveSubscriptions(t.subscriptions, group - {keep}, keep))
  }

  /** The rows a SELECT of the customers in `group` returns, in any order. */
  ghost predicate Answers(t: Tables, group: set<Id>, rows: seq<Candidate>) {
    && Keyed(rows)
    && (forall k :: k in group <==> exists r :: r in rows && r.id == k)
    && (forall r :: r in rows ==>
          && r.id in t.customers && r.createdAt == t.customers[r.id].createdAt
          && (LiveRow(r) <==> HasLiveBilling(t, r.id)))
  }

  /** A plan that does to `group` what its live billing calls for. */
  ghost predicate Settles(t: Tables, group: set<Id>, plan: Plan)
    requires group <= t.customers.Keys
  {
    match plan
    case NoCustomers => group == {}
    case Contested => SeveralLive(t, group)
    case Coalesce(keep, losers) =>
      group != {} && !SeveralLive(t, group) && keep == Keeper(t, group) && Members(losers) == group - {keep}
  }

  function Members(ids: seq<Id>): set<Id> {
    set k | k in ids
  }

  class StripeDatabase {
    const companies: Companies
    var customers: map<Id, Customer>
    var payments: map<Id, Payment>
    var subscriptions: map<Id, Subscription>

    ghost function Contents(): Tables
      reads this
    {
      Tables(customers, payments, subscriptions)
    }

    /** The SELECT of candidates, with its two correlated COUNTs. */
    method SelectCandidates(companyIds: set<Id>) returns (rows: seq<Candidate>)
      ensures Answers(Contents(), Owned(Contents(), companyIds), rows)
    {
      var t := Tables(customers, payments, subscriptions);
      var ids := Rows(Owned(t, companyIds));
      assert forall i :: 0 <= i < |ids| ==> ids[i] in ids;
      rows := seq(|ids|, i requires 0 <= i < |ids| && ids[i] in t.customers =>
        Candidate(ids[i], t.customers[ids[i]].createdAt,
                  |ActiveSubscriptions(t, ids[i])|, |PaymentsOf(t, ids[i])|));
      forall k | k in Owned(t, companyIds) ensures exists r :: r in rows && r.id == k {
        var i :| 0 <= i < |ids| && ids[i] == k;
        assert rows[i] in rows;
      }
      forall r | r in rows ensures LiveRow(r) <==> HasLiveBilling(t, r.id) {
        CountsTellLiveBilling(t, r.id);
      }
    }

    method PlanFor(companyIds: set<Id>) returns (candidateIds: seq<Id>, plan: Plan)
      ensures Settles(Contents(), Owned(Contents(), companyIds), plan)
      ensures Members(candidateIds) == Owned(Contents(), companyIds)
    {
      var rows := SelectCandidates(companyIds);
      candidateIds, plan := Ids(rows), CoalescePlan(rows);
      PlanSettlesGroup(Contents(), Owned(Contents(), companyIds), rows);
      SameSet(Members(candidateIds), Owned(Contents(), companyIds));
    }

    /** `_coalesce_company_owned_customers`. */
    method Coalesce(companyIds: set<Id>, targetCompanyId: Id)
      modifies `customers, `payments, `subscriptions
      ensures Contents() == Coalesced(old(Contents()), Owned(old(Contents()), companyIds), targetCompanyId)
    {
      if companyIds == {} {
        return;
      }
      var candidateIds, plan := PlanFor(companyIds);
      PlanCoalesces(Contents(), Owned(Contents(), companyIds), plan, targetCompanyId);
      match plan {
        case NoCustomers =>
        case Contested =>
          customers := Own(customers, Members(candidateIds), targetCompanyId);
        case Coalesce(keep, losers) =>
          if losers != [] {
            payments := MovePayments(payments, Members(losers), keep);
            subscriptions := MoveSubscriptions(subscriptions, Members(losers), keep);
            customers := Detach(customers, Members(losers));
          }
          customers := Own(customers, {keep}, targetCompanyId);
      }
    }

    /** The first half of `upgrade`: the companies in use, grouped under their live roots. */
    method CollectGroups() returns (rootCompanyIds: map<Id, set<Id>>)
      ensures Collected(companies, Contents(), rootCompanyIds)
    {
      ghost var t := Contents();
      var inUse := set k | k in customers && customers[k].companyId.Some? :: customers[k].companyId.value;
      assert forall c :: c in inUse <==> InUse(t, c);
      var companyIds := Rows(inUse);
      rootCompanyIds := GroupByRoot(companies, companyIds);
      forall k | k in customers && RootOf(companies, t, k).Some?
        ensures RootOf(companies, t, k).value in rootCompanyIds
      {
        assert InUse(t, customers[k].companyId.value);
      }
    }

    /** One turn of the loop over roots. */
    method RepairRoot(rootId: Id, companyIds: set<Id>)
      modifies `customers, `payments, `subscriptions
      ensures var relinked := old(Contents()).(customers := Relink(old(customers), companyIds, rootId));
        Contents() == Coalesced(relinked, Owned(relinked, companyIds), rootId)
    {
      customers := Relink(customers, companyIds, rootId);
      Coalesce(companyIds, rootId);
    }

    /** `upgrade`: whatever order the rows and the groups come in, the outcome is the same. */
    method Upgrade()
      modifies `customers, `payments, `subscriptions
      ensures Contents() == Repaired(companies, old(Contents()))
    {
      ghost var t := Contents();
      var rootCompanyIds := CollectGroups();
      var roots := Rows(rootCompanyIds.Keys);
      RepairsNothingYet(companies, t);
      for i := 0 to |roots|
        invariant Contents() == RepairedUpTo(companies, t, ToSet(roots[..i]))
      {
        NextRoot(companies, t, rootCompanyIds, roots, i);
        RepairRoot(roots[i], rootCompanyIds[roots[i]]);
      }
      AllRootsRepaired(companies, t, rootCompanyIds, roots);
    }
  }

  /** The groups hold, under every live root, the companies in use that end there, and no root is missing. */
  ghost predicate Collected(cs: Companies, t: Tables, groups: map<Id, set<Id>>) {
    && (forall r :: r in groups ==> LiveRoot(cs, r) == Some(r) && CompaniesOf(cs, t, r, groups[r]))
    && (forall k :: k in t.customers && RootOf(cs, t, k).Some? ==> RootOf(cs, t, k).value in groups)
  }

  /** Repairing the group of the next root in the list, whatever the list's order. */
  lemma NextRoot(cs: Companies, t: Tables, groups: map<Id, set<Id>>, roots: seq<Id>, i: nat)
    requires Collected(cs, t, groups) && Lists(roots, groups.Keys) && i < |roots|
    ensures roots[i] in groups
    ensures var v := Before(cs, t, ToSet(roots[..i]), roots[i], groups[roots[i]]);
      Coalesced(v, Owned(v, groups[roots[i]]), roots[i]) == RepairedUpTo(cs, t, ToSet(roots[..i + 1]))
  {
    assert roots[i] in roots;
    SameSet(ToSet(roots[..i + 1]), ToSet(roots[..i]) + {roots[i]});
    NextGroup(cs, t, ToSet(roots[..i]), roots[i], groups[roots[i]]);
  }

  lemma AllRootsRepaired(cs: Companies, t: Tables, groups: map<Id, set<Id>>, roots: seq<Id>)
    requires Collected(cs, t, groups) && Lists(roots, groups.Keys)
    ensures RepairedUpTo(cs, t, ToSet(roots[..|roots|])) == Repaired(cs, t)
  {
    assert roots[..|roots|] == roots;
    RepairsEverything(cs, t, ToSet(roots));
  }

  /** `groups` holds, under each live root, the root and those of `ids` that have it. */
  ghost predicate Groups(cs: Companies, ids: seq<Id>, groups: map<Id, set<Id>>) {
    && (forall r :: r in groups ==> LiveRoot(cs, r) == Some(r))
    && (forall c :: c in ids && LiveRoot(cs, c).Some? ==> LiveRoot(cs, c).value in groups)
    && (forall r, c :: r in groups ==> (c in groups[r] <==> c == r || (c in ids && LiveRoot(cs, c) == Some(r))))
  }

  lemma GroupsOneMore(cs: Companies, ids: seq<Id>, groups: map<Id, set<Id>>, c: Id)
    requires Groups(cs, ids, groups)
    ensures LiveRoot(cs, c).None? ==> Groups(cs, ids + [c], groups)
    ensures LiveRoot(cs, c).Some? ==>
      var r := LiveRoot(cs, c).value;
      Groups(cs, ids + [c], groups[r := (if r in groups then groups[r] else {}) + {c, r}])
  {
    assert forall x :: x in ids + [c] <==> x in ids || x == c;
    if LiveRoot(cs, c).Some? {
      var r := LiveRoot(cs, c).value;
      RootOfRoot(cs, c);
      GroupsOneMoreUnder(cs, ids, groups, c, r);
    }
  }

  lemma GroupsOneMoreUnder(cs: Companies, ids: seq<Id>, groups: map<Id, set<Id>>, c: Id, r: Id)
    requires Groups(cs, ids, groups) && LiveRoot(cs, c) == Some(r) && LiveRoot(cs, r) == Some(r)
    ensures Groups(cs, ids + [c], groups[r := (if r in groups then groups[r] else {}) + {c, r}])
  {
    var next := groups[r := (if r in groups then groups[r] else {}) + {c, r}];
    forall q, x | q in next
      ensures x in next[q] <==> x == q || (x in ids + [c] && LiveRoot(cs, x) == Some(q))
    {
      if r !in groups && q == r && x in ids { assert LiveRoot(cs, x) != Some(r); }
    }
  }

  method GroupByRoot(cs: Companies, companyIds: seq<Id>) returns (rootCompanyIds: map<Id, set<Id>>)
    ensures Groups(cs, companyIds, rootCompanyIds)
  {
    rootCompanyIds := map[];
    for i := 0 to |companyIds|
      invariant Groups(cs, companyIds[..i], rootCompanyIds)
    {
      assert companyIds[..i + 1] == companyIds[..i] + [companyIds[i]];
      GroupsOneMore(cs, companyIds[..i], rootCompanyIds, companyIds[i]);
      var rootId := FindLiveRoot(companyIds[i], cs);
      if rootId.Some? {
        var r := rootId.value;
        var group := if r in rootCompanyIds then rootCompanyIds[r] else {};
        rootCompanyIds := rootCompanyIds[r := group + {companyIds[i], r}];
      }
    }
    assert companyIds[..|companyIds|] == companyIds;
  }

  /** Carrying out a plan that fits, statement by statement, coalesces the group. */
  lemma PlanCoalesces(t: Tables, group: set<Id>, plan: Plan, target: Id)
    requires group <= t.customers.Keys && Settles(t, group, plan)
    ensures match plan
      case NoCustomers => Coalesced(t, group, target) == t
      case Contested => Coalesced(t, group, target) == t.(customers := Own(t.customers, group, target))
      case Coalesce(keep, losers) =>
        var from := Members(losers);
        && Coalesced(t, group, target) == Tables(
             Own(Detach(t.customers, from), {keep}, target),
             MovePayments(t.payments, from, keep),
             MoveSubscriptions(t.subscriptions, from, keep))
        && MoveSubscriptions(t.subscriptions, {}, keep) == t.subscriptions
        && Detach(t.customers, {}) == t.customers
  {
    if plan.Coalesce? {
      LosersHaveNoPayments(t, group, plan.keep);
    }
  }

  /** The plan made from the selected rows is the one the group calls for. */
  lemma PlanSettlesGroup(t: Tables, group: set<Id>, rows: seq<Candidate>)
    requires group <= t.customers.Keys && Answers(t, group, rows)
    ensures Settles(t, group, CoalescePlan(rows))
  {
    PlanIsSafe(rows);
    ContestedIffSeveralLive(t, group, rows);
    if rows == [] {
      forall k ensures k !in group {}
    } else {
      assert rows[0] in rows && rows[0].id in group;
    }
    if CoalescePlan(rows).Coalesce? {
      KeptRowSettles(t, group, rows, CoalescePlan(rows).keep, CoalescePlan(rows).losers);
    }
  }

  lemma KeptRowSettles(t: Tables, group: set<Id>, rows: seq<Candidate>, keep: Id, losers: seq<Id>)
    requires group <= t.customers.Keys && Answers(t, group, rows)
    requires group != {} && !SeveralLive(t, group)
    requires forall k :: k in losers <==> k != keep && exists r :: r in rows && r.id == k
    requires forall r :: r in rows && r.id != keep ==> !LiveRow(r)
    requires exists k :: k in rows && k.id == keep && (k.activeSubscriptions > 0 || k.payments > 0 || NoneNewer(rows, k))
    ensures Settles(t, group, Plan.Coalesce(keep, losers))
  {
    KeptRowIsKeeper(t, group, rows, keep);
    KeeperIsUnique(t, group, keep, Keeper(t, group));
    SameSet(Members(losers), group - {keep});
  }

  lemma ContestedIffSeveralLive(t: Tables, group: set<Id>, rows: seq<Candidate>)
    requires Answers(t, group, rows)
    ensures (exists r, q :: r in rows && q in rows && r.id != q.id && LiveRow(r) && LiveRow(q))
      <==> SeveralLive(t, group)
  {
    if SeveralLive(t, group) {
      var k, j :| k in group && j in group && k != j && HasLiveBilling(t, k) && HasLiveBilling(t, j);
      var r :| r in rows && r.id == k;
      var q :| q in rows && q.id == j;
      assert LiveRow(r) && LiveRow(q);
    }
    if r, q :| r in rows && q in rows && r.id != q.id && LiveRow(r) && LiveRow(q) {
      assert r.id in group && q.id in group;
    }
  }

  lemma KeptRowIsKeeper(t: Tables, group: set<Id>, rows: seq<Candidate>, keep: Id)
    requires group <= t.customers.Keys && Answers(t, group, rows)
    requires forall r :: r in rows && r.id != keep ==> !LiveRow(r)
    requires exists k :: k in rows && k.id == keep && (k.activeSubscriptions > 0 || k.payments > 0 || NoneNewer(rows, k))
    ensures IsKeeper(t, group, keep)
  {
    var kept :| kept in rows && kept.id == keep && (LiveRow(kept) || NoneNewer(rows, kept));
    forall j | j in group && j != keep
      ensures !HasLiveBilling(t, j) && (LiveRow(kept) || Older(t, j, keep))
    {
      var r :| r in rows && r.id == j;
      assert !LiveRow(r);
      assert LiveRow(kept) || Predates(r.createdAt, r.id, kept.createdAt, kept.id);
    }
  }

  lemma LosersHaveNoPayments(t: Tables, group: set<Id>, keep: Id)
    requires group <= t.customers.Keys && IsKeeper(t, group, keep)
    ensures MovePayments(t.payments, group - {keep}, keep) == t.payments
  {
    forall p | p in t.payments && t.payments[p].customerId.Some?
      ensures t.payments[p].customerId.value !in group - {keep}
    {
      assert t.payments[p].customerId.value in group ==> HasLiveBilling(t, t.payments[p].customerId.value);
    }
  }

  // ---- Why the order of the groups does not matter ----

  ghost predicate InUse(t: Tables, company: Id) {
    exists k :: k in t.customers && t.customers[k].companyId == Some(company)
  }

  /** The companies a group is collected from: those in use with this root, and the root. */
  ghost predicate CompaniesOf(cs: Companies, t: Tables, root: Id, companies: set<Id>) {
    forall c :: c in companies <==> c == root || (LiveRoot(cs, c) == Some(root) && InUse(t, c))
  }

  lemma RepairsNothingYet(cs: Companies, t: Tables)
    ensures RepairedUpTo(cs, t, {}) == t
  {
  }

  lemma RepairsEverything(cs: Companies, t: Tables, done: set<Id>)
    requires forall k :: k in t.customers && RootOf(cs, t, k).Some? ==> RootOf(cs, t, k).value in done
    ensures RepairedUpTo(cs, t, done) == Repaired(cs, t)
  {
  }

  lemma LosersAreIdle(cs: Companies, t: Tables, k: Id)
    requires Loses(cs, t, k)
    ensures !HasLiveBilling(t, k)
    ensures var group := Group(cs, t, RootOf(cs, t, k).value);
      k in group && !SeveralLive(t, group) && IsKeeper(t, group, Keeper(t, group))
  {
    assert k in Group(cs, t, RootOf(cs, t, k).value);
  }

  /** No active subscription ever moves. */
  lemma ActiveSubscriptionsStay(cs: Companies, t: Tables, b: Id)
    requires b in t.subscriptions && t.subscriptions[b].status in {"active", "trialing", "past_due"}
    ensures RepairedSubscription(cs, t, b) == t.subscriptions[b]
  {
    var k := t.subscriptions[b].customerId;
    if Loses(cs, t, k) { LosersAreIdle(cs, t, k); }
  }

  /** So no customer gains or loses live billing. */
  lemma LiveBillingStays(cs: Companies, t: Tables, done: set<Id>, k: Id)
    ensures HasLiveBilling(RepairedUpTo(cs, t, done), k) == HasLiveBilling(t, k)
  {
    var u := RepairedUpTo(cs, t, done);
    forall b | b in t.subscriptions && t.subscriptions[b].status in {"active", "trialing", "past_due"}
      ensures u.subscriptions[b] == t.subscriptions[b]
    {
      ActiveSubscriptionsStay(cs, t, b);
    }
    forall b | b in t.subscriptions && u.subscriptions[b].status in {"active", "trialing", "past_due"}
      ensures u.subscriptions[b] == t.subscriptions[b]
    {
      assert u.subscriptions[b].status == t.subscriptions[b].status;
    }
  }

  /** The tables when the group of `root` comes up, its contact-linked customers relinked. */
  ghost function Before(cs: Companies, t: Tables, done: set<Id>, root: Id, companies: set<Id>): Tables {
    var u := RepairedUpTo(cs, t, done);
    u.(customers := Relink(u.customers, companies, root))
  }

  /** A customer of the group has not been touched yet; one of another group is out of reach. */
  lemma GroupIsUntouched(cs: Companies, t: Tables, done: set<Id>, root: Id, companies: set<Id>, k: Id)
    requires root !in done && LiveRoot(cs, root) == Some(root) && CompaniesOf(cs, t, root, companies)
    requires k in t.customers
    ensures k in Owned(Before(cs, t, done, root, companies), companies) <==> k in Group(cs, t, root)
    ensures RootOf(cs, t, k) == Some(root) ==>
      Before(cs, t, done, root, companies).customers[k] ==
        if t.customers[k].contactId.Some? then t.customers[k].(companyId := Some(root)) else t.customers[k]
    ensures RootOf(cs, t, k) != Some(root) ==>
      Before(cs, t, done, root, companies).customers[k] == RepairedUpTo(cs, t, done).customers[k]
  {
    var c := t.customers[k].companyId;
    if c.Some? {
      assert InUse(t, c.value);
      if RootOf(cs, t, k).Some? { RootOfRoot(cs, c.value); }
    }
  }

  lemma GroupIsOwned(cs: Companies, t: Tables, done: set<Id>, root: Id, companies: set<Id>)
    requires root !in done && LiveRoot(cs, root) == Some(root) && CompaniesOf(cs, t, root, companies)
    ensures Owned(Before(cs, t, done, root, companies), companies) == Group(cs, t, root)
  {
    var v := Before(cs, t, done, root, companies);
    forall k ensures k in Owned(v, companies) <==> k in Group(cs, t, root) {
      if k in t.customers { GroupIsUntouched(cs, t, done, root, companies, k); }
    }
    SameSet(Owned(v, companies), Group(cs, t, root));
  }

  /** Earlier groups change nothing the plan for this group looks at. */
  lemma SamePlan(cs: Companies, t: Tables, done: set<Id>, root: Id, companies: set<Id>)
    requires root !in done && LiveRoot(cs, root) == Some(root) && CompaniesOf(cs, t, root, companies)
    ensures var v, group := Before(cs, t, done, root, companies), Group(cs, t, root);
      && SeveralLive(v, group) == SeveralLive(t, group)
      && (group != {} && !SeveralLive(t, group) ==> Keeper(v, group) == Keeper(t, group))
  {
    var v, group := Before(cs, t, done, root, companies), Group(cs, t, root);
    forall k | k in group
      ensures HasLiveBilling(v, k) == HasLiveBilling(t, k)
      ensures v.customers[k] == t.customers[k]
    {
      LiveBillingStays(cs, t, done, k);
      GroupIsUntouched(cs, t, done, root, companies, k);
    }
    if group != {} && !SeveralLive(t, group) {
      assert IsKeeper(v, group, Keeper(t, group));
      KeeperIsUnique(v, group, Keeper(v, group), Keeper(t, group));
    }
  }

  lemma NextGroupCustomer(cs: Companies, t: Tables, done: set<Id>, root: Id, companies: set<Id>, k: Id)
    requires root !in done && LiveRoot(cs, root) == Some(root) && CompaniesOf(cs, t, root, companies)
    requires k in t.customers
    ensures Coalesced(Before(cs, t, done, root, companies), Group(cs, t, root), root).customers[k]
      == RepairedUpTo(cs, t, done + {root}).customers[k]
  {
    GroupIsUntouched(cs, t, done, root, companies, k);
    SamePlan(cs, t, done, root, companies);
  }

  lemma NextGroupSubscription(cs: Companies, t: Tables, done: set<Id>, root: Id, companies: set<Id>, b: Id)
    requires root !in done && LiveRoot(cs, root) == Some(root) && CompaniesOf(cs, t, root, companies)
    requires b in t.subscriptions
    ensures Coalesced(Before(cs, t, done, root, companies), Group(cs, t, root), root).subscriptions[b]
      == RepairedUpTo(cs, t, done + {root}).subscriptions[b]
  {
    SamePlan(cs, t, done, root, companies);
    var k := t.subscriptions[b].customerId;
    if Loses(cs, t, k) {
      LosersAreIdle(cs, t, k);
    }
    LosesIffOusted(cs, t, root, k);
  }

  /** Within the group of a root, exactly the customers other than the keeper lose. */
  lemma LosesIffOusted(cs: Companies, t: Tables, root: Id, k: Id)
    ensures Loses(cs, t, k) && RootOf(cs, t, k) == Some(root) <==>
      var group := Group(cs, t, root);
      k in group && !SeveralLive(t, group) && k != Keeper(t, group)
  {
  }

  lemma NextGroup(cs: Companies, t: Tables, done: set<Id>, root: Id, companies: set<Id>)
    requires root !in done && LiveRoot(cs, root) == Some(root) && CompaniesOf(cs, t, root, companies)
    ensures var v := Before(cs, t, done, root, companies);
      Coalesced(v, Owned(v, companies), root) == RepairedUpTo(cs, t, done + {root})
  {
    var v, group := Before(cs, t, done, root, companies), Group(cs, t, root);
    GroupIsOwned(cs, t, done, root, companies);
    CoalescedKeepsRows(v, group, root);
    var w, goal := Coalesced(v, group, root), RepairedUpTo(cs, t, done + {root});
    forall k | k in t.customers { NextGroupCustomer(cs, t, done, root, companies, k); }
    forall b | b in t.subscriptions { NextGroupSubscription(cs, t, done, root, companies, b); }
    SameTables(w, goal);
  }

  lemma CoalescedKeepsRows(t: Tables, group: set<Id>, target: Id)
    requires group <= t.customers.Keys
    ensures var w := Coalesced(t, group, target);
      w.customers.Keys == t.customers.Keys && w.subscriptions.Keys == t.subscriptions.Keys
      && w.payments == t.payments
  {
  }

  lemma SameTables(t: Tables, u: Tables)
    requires t.customers.Keys == u.customers.Keys && t.subscriptions.Keys == u.subscriptions.Keys
    requires forall k :: k in t.customers ==> t.customers[k] == u.customers[k]
    requires forall b :: b in t.subscriptions ==> t.subscriptions[b] == u.subscriptions[b]
    requires t.payments == u.payments
    ensures t == u
  {
    SameMap(t.customers, u.customers);
    SameMap(t.subscriptions, u.subscriptions);
  }
}
