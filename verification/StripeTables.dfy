/** The billing tables the repair rewrites, and the plan it makes for one group of rows. */
module StripeTables {
  import opened Wrappers

  datatype Customer = Customer(companyId: Option<Id>, contactId: Option<Id>, createdAt: Option<int>)

  datatype Payment = Payment(customerId: Option<Id>)

  datatype Subscription = Subscription(customerId: Id, status: string)

  datatype Tables = Tables(
    customers: map<Id, Customer>,
    payments: map<Id, Payment>,
    subscriptions: map<Id, Subscription>)

  const ACTIVE_STATUSES: set<string> := {"active", "trialing", "past_due"}

  function ActiveSubscriptions(t: Tables, customer: Id): set<Id> {
    set b | b in t.subscriptions && t.subscriptions[b].customerId == customer
            && t.subscriptions[b].status in ACTIVE_STATUSES
  }

  function PaymentsOf(t: Tables, customer: Id): set<Id> {
    set p | p in t.payments && t.payments[p].customerId == Some(customer)
  }

  /** The customer has a payment, or a subscription that is active, trialing or past due. */
  ghost predicate HasLiveBilling(t: Tables, customer: Id) {
    || (exists b :: b in t.subscriptions && t.subscriptions[b].customerId == customer
          && (t.subscriptions[b].status == "active" || t.subscriptions[b].status == "trialing"
              || t.subscriptions[b].status == "past_due"))
    || (exists p :: p in t.payments && t.payments[p].customerId == Some(customer))
  }

  /** The two counts of the SELECT say whether a customer has live billing. */
  lemma CountsTellLiveBilling(t: Tables, customer: Id)
    ensures HasLiveBilling(t, customer) <==> |ActiveSubscriptions(t, customer)| > 0 || |PaymentsOf(t, customer)| > 0
  {
    var subscriptions, payments := ActiveSubscriptions(t, customer), PaymentsOf(t, customer);
    if b :| b in t.subscriptions && t.subscriptions[b].customerId == customer && t.subscriptions[b].status in ACTIVE_STATUSES {
      assert b in subscriptions;
    }
    if p :| p in t.payments && t.payments[p].customerId == Some(customer) { assert p in payments; }
    if subscriptions != {} { var b := Member(subscriptions); }
    if payments != {} { var p := Member(payments); }
  }

  /** A row of the SELECT that feeds the plan. */
  datatype Candidate = Candidate(id: Id, createdAt: Option<int>, activeSubscriptions: nat, payments: nat)
  {
    /** `_customer_recency_key`, compared as Python compares tuples: no date sorts first. */
    predicate OlderThan(other: Candidate) {
      if createdAt == other.createdAt then id < other.id
      else createdAt.None? || (other.createdAt.Some? && createdAt.value < other.createdAt.value)
    }
  }

  predicate Subscribed(row: Candidate) { row.activeSubscriptions > 0 }

  predicate Paid(row: Candidate) { row.payments > 0 }

  predicate LiveRow(row: Candidate) { Subscribed(row) || Paid(row) }

  datatype Plan =
    | NoCustomers
    | Contested
    | Coalesce(keep: Id, losers: seq<Id>)

  /** `id` is the primary key of the rows. */
  ghost predicate Keyed(rows: seq<Candidate>) {
    forall i, j :: 0 <= i < j < |rows| ==> rows[i].id != rows[j].id
  }

  /** A list comprehension: the rows that pass `test`, in their order. */
  function Where(rows: seq<Candidate>, test: Candidate -> bool): (kept: seq<Candidate>)
    requires Keyed(rows)
    ensures forall r :: r in kept <==> r in rows && test(r)
    ensures Keyed(kept)
  {
    if rows == [] then []
    else
      var rest := Where(rows[1..], test);
      assert forall r :: r in rows <==> r == rows[0] || r in rows[1..];
      assert forall i :: 0 <= i < |rest| ==> rest[i] in rows[1..];
      if test(rows[0]) then [rows[0]] + rest else rest
  }

  /** `max(rows, key=_customer_recency_key)`. */
  function Newest(rows: seq<Candidate>): (newest: Candidate)
    requires rows != [] && Keyed(rows)
    ensures newest in rows
    ensures forall r :: r in rows && r.id != newest.id ==>
      Predates(r.createdAt, r.id, newest.createdAt, newest.id)
  {
    if |rows| == 1 then rows[0]
    else
      var rest := Newest(rows[1..]);
      assert forall r :: r in rows <==> r == rows[0] || r in rows[1..];
      if rows[0].OlderThan(rest) then rest else rows[0]
  }

  function Ids(rows: seq<Candidate>): (ids: seq<Id>)
    ensures forall k :: k in ids <==> exists r :: r in rows && r.id == k
  {
    if rows == [] then []
    else
      assert forall r :: r in rows <==> r == rows[0] || r in rows[1..];
      [rows[0].id] + Ids(rows[1..])
  }

  function Without(ids: seq<Id>, keep: Id): (rest: seq<Id>)
    ensures forall k :: k in rest <==> k in ids && k != keep
  {
    if ids == [] then []
    else
      assert forall k :: k in ids <==> k == ids[0] || k in ids[1..];
      (if ids[0] != keep then [ids[0]] else []) + Without(ids[1..], keep)
  }

  /** `_company_customer_coalesce_plan`. */
  function CoalescePlan(rows: seq<Candidate>): Plan
    requires Keyed(rows)
  {
    if rows == [] then NoCustomers
    else if |Where(rows, LiveRow)| > 1 then Contested
    else
      var subscribed := Where(rows, Subscribed);
      var paid := Where(rows, Paid);
      var keep := if subscribed != [] then Newest(subscribed)
                  else Newest(if paid != [] then paid else rows);
      Coalesce(keep.id, Without(Ids(rows), keep.id))
  }

  ghost predicate NoneNewer(rows: seq<Candidate>, row: Candidate) {
    forall r :: r in rows && r.id != row.id ==> Predates(r.createdAt, r.id, row.createdAt, row.id)
  }

  /** No date against one, an earlier date against a later one, or the lower id when the dates are the same. */
  ghost predicate Predates(date: Option<int>, id: Id, otherDate: Option<int>, otherId: Id) {
    || (date.None? && otherDate.Some?)
    || (date.Some? && otherDate.Some? && date.value < otherDate.value)
    || (date == otherDate && id < otherId)
  }

  /**
   * What the plan is for: it gives up exactly when two rows have live billing, and otherwise no
   * loser has any; the row it keeps is the one with live billing, or else the newest: every other
   * row has no date where it has one, or an earlier one, or the same one and a lower id.
   */
  lemma PlanIsSafe(rows: seq<Candidate>)
    requires Keyed(rows)
    ensures CoalescePlan(rows).NoCustomers? <==> rows == []
    ensures CoalescePlan(rows).Contested? <==>
      exists r, q :: r in rows && q in rows && r.id != q.id && LiveRow(r) && LiveRow(q)
    ensures CoalescePlan(rows).Coalesce? ==>
      var Coalesce(keep, losers) := CoalescePlan(rows);
      && (forall k :: k in losers <==> k != keep && exists r :: r in rows && r.id == k)
      && (forall r :: r in rows && r.id != keep ==> !LiveRow(r))
      && (exists k :: k in rows && k.id == keep && (k.activeSubscriptions > 0 || k.payments > 0 || NoneNewer(rows, k)))
  {
    var live := Where(rows, LiveRow);
    if |live| > 1 {
      assert live[0] in live && live[1] in live && live[0].id != live[1].id;
    } else {
      forall r, q | r in rows && q in rows && LiveRow(r) && LiveRow(q) ensures r == q {
        assert r in live && q in live;
      }
    }
  }
}
