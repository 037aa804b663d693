/** What a whole `upgrade` guarantees, read off its outcome `Repaired`. */
module StripeGuarantees {
  import opened Wrappers
  import opened MergeChains
  import opened StripeTables
  import opened StripeRepair

  /** A customer resolves as before, unless it lost its place and is detached. */
  lemma RootAfterwards(cs: Companies, t: Tables, k: Id)
    ensures RootOf(cs, Repaired(cs, t), k) == if Loses(cs, t, k) then None else RootOf(cs, t, k)
  {
    if RootOf(cs, t, k).Some? { RootOfRoot(cs, t.customers[k].companyId.value); }
  }

  /** Payments and subscriptions go on resolving to the company they belonged to. */
  lemma BillingKeepsItsRoot(cs: Companies, t: Tables)
    ensures var u := Repaired(cs, t);
      && (forall p :: p in t.payments && t.payments[p].customerId.Some? ==>
            u.payments[p] == t.payments[p]
            && RootOf(cs, u, u.payments[p].customerId.value) == RootOf(cs, t, t.payments[p].customerId.value))
      && (forall b :: b in t.subscriptions ==>
            RootOf(cs, u, u.subscriptions[b].customerId) == RootOf(cs, t, t.subscriptions[b].customerId))
  {
    var u := Repaired(cs, t);
    forall p | p in t.payments && t.payments[p].customerId.Some?
      ensures RootOf(cs, u, u.payments[p].customerId.value) == RootOf(cs, t, t.payments[p].customerId.value)
    {
      var k := t.payments[p].customerId.value;
      RootAfterwards(cs, t, k);
      assert HasLiveBilling(t, k);
      if Loses(cs, t, k) { LosersAreIdle(cs, t, k); }
    }
    forall b | b in t.subscriptions
      ensures RootOf(cs, u, u.subscriptions[b].customerId) == RootOf(cs, t, t.subscriptions[b].customerId)
    {
      var k := t.subscriptions[b].customerId;
      RootAfterwards(cs, t, k);
      if Loses(cs, t, k) {
        LosersAreIdle(cs, t, k);
        RootAfterwards(cs, t, u.subscriptions[b].customerId);
      }
    }
  }

  /** Nothing is left behind on a detached customer, and nothing active was moved to get there. */
  lemma NoBillingOnDetached(cs: Companies, t: Tables)
    ensures var u := Repaired(cs, t);
      && (forall p :: p in u.payments && u.payments[p].customerId.Some? ==>
            !Loses(cs, t, u.payments[p].customerId.value))
      && (forall b :: b in u.subscriptions ==> !Loses(cs, t, u.subscriptions[b].customerId))
      && (forall b :: b in t.subscriptions && t.subscriptions[b].status in {"active", "trialing", "past_due"} ==>
            u.subscriptions[b] == t.subscriptions[b])
  {
    var u := Repaired(cs, t);
    forall p | p in u.payments && u.payments[p].customerId.Some?
      ensures !Loses(cs, t, u.payments[p].customerId.value)
    {
      var k := u.payments[p].customerId.value;
      assert HasLiveBilling(t, k);
      if Loses(cs, t, k) { LosersAreIdle(cs, t, k); }
    }
    forall b | b in t.subscriptions
      ensures !Loses(cs, t, u.subscriptions[b].customerId)
      ensures t.subscriptions[b].status in {"active", "trialing", "past_due"} ==> u.subscriptions[b] == t.subscriptions[b]
    {
      var k := t.subscriptions[b].customerId;
      if Loses(cs, t, k) { LosersAreIdle(cs, t, k); }
      if t.subscriptions[b].status in {"active", "trialing", "past_due"} { ActiveSubscriptionsStay(cs, t, b); }
    }
  }

  /** Every customer whose company resolved ends on its live root, or detached as a loser. */
  lemma CustomersEndOnLiveRoots(cs: Companies, t: Tables, k: Id)
    requires RootOf(cs, t, k).Some?
    ensures var after := Repaired(cs, t).customers[k];
      if Loses(cs, t, k) then after.companyId.None? && after.contactId.None?
      else after.companyId == RootOf(cs, t, k) && Live(cs, after.companyId.value)
           && after.contactId == t.customers[k].contactId
  {
    RootOfRoot(cs, t.customers[k].companyId.value);
  }

  /** A root is left with two company-owned customers only if several had live billing. */
  lemma OneOwnerPerRoot(cs: Companies, t: Tables, root: Id, k: Id, j: Id)
    requires k in Group(cs, Repaired(cs, t), root) && j in Group(cs, Repaired(cs, t), root)
    ensures k == j || SeveralLive(t, Group(cs, t, root))
  {
    RootAfterwards(cs, t, k);
    RootAfterwards(cs, t, j);
    assert k in Group(cs, t, root) && j in Group(cs, t, root);
  }

  /**
   * Who stays: of the company-owned customers of a root the one with live billing, or without any
   * the newest, and all of them if several have live billing.
   */
  lemma WhoStays(cs: Companies, t: Tables, root: Id, k: Id)
    requires k in Group(cs, t, root)
    ensures !Loses(cs, t, k) <==>
      || SeveralLive(t, Group(cs, t, root))
      || (forall j :: j in Group(cs, t, root) && j != k ==>
            && !HasLiveBilling(t, j)
            && (HasLiveBilling(t, k)
                || (t.customers[j].createdAt.None? && t.customers[k].createdAt.Some?)
                || (t.customers[j].createdAt.Some? && t.customers[k].createdAt.Some?
                    && t.customers[j].createdAt.value < t.customers[k].createdAt.value)
                || (t.customers[j].createdAt == t.customers[k].createdAt && j < k)))
  {
    var group := Group(cs, t, root);
    if !SeveralLive(t, group) {
      var keep := Keeper(t, group);
      if IsKeeper(t, group, k) { KeeperIsUnique(t, group, k, keep); }
      assert Loses(cs, t, k) <==> k != keep;
    }
  }

  /** After the repair no group has a loser left. */
  lemma NobodyLosesTwice(cs: Companies, t: Tables, k: Id)
    ensures !Loses(cs, Repaired(cs, t), k)
  {
    var u := Repaired(cs, t);
    if Loses(cs, u, k) {
      var root := RootOf(cs, u, k).value;
      LosersAreIdle(cs, u, k);
      var keep := Keeper(u, Group(cs, u, root));
      OneOwnerPerRoot(cs, t, root, k, keep);
      var a, b :| a in Group(cs, t, root) && b in Group(cs, t, root) && a != b
                  && HasLiveBilling(t, a) && HasLiveBilling(t, b);
      RootAfterwards(cs, t, a);
      RootAfterwards(cs, t, b);
      SameLiveBilling(cs, t, a);
      SameLiveBilling(cs, t, b);
      assert false;
    }
  }

  lemma SameLiveBilling(cs: Companies, t: Tables, k: Id)
    ensures HasLiveBilling(Repaired(cs, t), k) == HasLiveBilling(t, k)
  {
    var done := set c | c in t.customers && RootOf(cs, t, c).Some? :: RootOf(cs, t, c).value;
    RepairsEverything(cs, t, done);
    LiveBillingStays(cs, t, done, k);
  }

  /** A second run changes nothing. */
  lemma UpgradeIsIdempotent(cs: Companies, t: Tables)
    ensures Repaired(cs, Repaired(cs, t)) == Repaired(cs, t)
  {
    var u := Repaired(cs, t);
    var v := Repaired(cs, u);
    forall k | k in u.customers ensures v.customers[k] == u.customers[k] {
      NobodyLosesTwice(cs, t, k);
      RootAfterwards(cs, t, k);
    }
    forall b | b in u.subscriptions ensures v.subscriptions[b] == u.subscriptions[b] {
      NobodyLosesTwice(cs, t, u.subscriptions[b].customerId);
    }
    SameTables(u, v);
  }
}
