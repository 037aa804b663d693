/** The daily job's expiring-soon alerts: two channels, each with a cooldown of its own. */
module ContractAlerts {
  import opened Wrappers

  const DAY := 86_400_000_000
  const WINDOW_DAYS := 30

  /** `datetime.date`, for a time in microseconds. */
  function Date(now: int): int {
    now / DAY
  }

  /** `expiring_notified_at` and `expiring_email_notified_at`. */
  datatype Stamps = Stamps(inApp: Option<int>, email: Option<int>)

  /** How the other contracts of a run fare with the one session they share. */
  datatype Rest = Clean | FailedBefore | FailsLater

  /**
   * What the job finds about a contract when it runs, and how its calls go. `dbError` says that
   * the database fails in the course of the visit, raised or swallowed; `rest` tells of the others.
   */
  datatype Visit = Visit(
    now: int, active: bool, endDate: Option<int>, hasOwner: bool,
    gateFails: bool, inAppAllowed: bool, inAppFails: bool,
    emailAllowed: bool, ownerHasEmail: bool, emailFails: bool, dbError: bool, rest: Rest)
  {
    function Floor(): int { now - WINDOW_DAYS * DAY }

    /** The part of the candidate query that looks at the contract's dates. */
    predicate InWindow() {
      active && endDate.Some? && endDate.value <= Date(now) + WINDOW_DAYS && endDate.value >= Date(now)
    }
  }

  /** `_is_overdue`. */
  predicate Overdue(stamp: Option<int>, floor: int) {
    stamp.None? || stamp.value < floor
  }

  /** The candidate query. */
  predicate Candidate(s: Stamps, v: Visit) {
    v.InWindow()
    && (s.inApp.None? || s.inApp.value < v.Floor() || s.email.None? || s.email.value < v.Floor())
  }

  datatype Outcome = Outcome(stamps: Stamps, inAppSent: bool, emailSent: bool, raised: bool)

  /** `_notify_owner`; an exception by itself keeps what was stamped before it. */
  function NotifyOwner(s: Stamps, v: Visit): Outcome {
    if !v.hasOwner then Outcome(s, false, false, false)
    else if v.gateFails then Outcome(s, false, false, true)
    else
      var fireInApp := Overdue(s.inApp, v.Floor()) && v.inAppAllowed;
      var fireEmail := Overdue(s.email, v.Floor()) && v.emailAllowed;
      if fireInApp && v.inAppFails then Outcome(s, false, false, true)
      else
        var s1 := if fireInApp then s.(inApp := Some(v.now)) else s;
        if !fireEmail || !v.ownerHasEmail then Outcome(s1, fireInApp, false, false)
        else if v.emailFails then Outcome(s1, fireInApp, false, true)
        else Outcome(s1.(email := Some(v.now)), fireInApp, true, false)
  }

  function Alert(s: Stamps, v: Visit): Outcome {
    if Candidate(s, v) then NotifyOwner(s, v) else Outcome(s, false, false, false)
  }

  /** More than 30 days since the last time, or never yet. */
  ghost predicate LongAgo(stamp: Option<int>, now: int) {
    stamp.None? || now - stamp.value > 2_592_000_000_000
  }

  /** The contract is active and ends today or within the next 30 days, and somebody owns it. */
  ghost predicate ExpiresSoon(v: Visit) {
    && v.active && v.endDate.Some? && v.hasOwner
    && v.now / 86_400_000_000 <= v.endDate.value <= v.now / 86_400_000_000 + 30
  }

  /** When each channel fires, and what is stamped, in plain terms. */
  lemma VisitDelivers(s: Stamps, v: Visit)
    ensures var o := Alert(s, v);
      var visited := ExpiresSoon(v) && !v.gateFails;
      && (o.inAppSent <==> visited && v.inAppAllowed && LongAgo(s.inApp, v.now) && !v.inAppFails)
      && (o.emailSent <==>
            && visited && v.emailAllowed && LongAgo(s.email, v.now) && v.ownerHasEmail && !v.emailFails
            && !(v.inAppAllowed && LongAgo(s.inApp, v.now) && v.inAppFails))
      && o.stamps == Stamps(if o.inAppSent then Some(v.now) else s.inApp, if o.emailSent then Some(v.now) else s.email)
      && (o.raised <==>
            && ExpiresSoon(v) && (LongAgo(s.inApp, v.now) || LongAgo(s.email, v.now))
            && (v.gateFails || (v.inAppAllowed && LongAgo(s.inApp, v.now) && v.inAppFails)
                || (v.emailAllowed && LongAgo(s.email, v.now) && v.ownerHasEmail && v.emailFails)))
  {
  }

  /** A database error in the visit spoils the session for the whole run. */
  predicate Poisons(s: Stamps, v: Visit) {
    Candidate(s, v) && v.hasOwner && v.dbError
  }

  predicate Commits(s: Stamps, v: Visit) {
    v.rest == Clean && !Poisons(s, v)
  }

  /**
   * What is left of a visit when the run is over. After a database error nothing more is delivered,
   * and all stamps and notifications of the run are rolled back; an e-mail that has left is not.
   */
  function Round(s: Stamps, v: Visit): Outcome {
    var o := Alert(s, v);
    if v.rest == FailedBefore then Outcome(s, false, false, true)
    else if Commits(s, v) then o
    else Outcome(s, false, o.emailSent, o.raised)
  }

  type StampTable = map<Id, Stamps>

  /** What the job makes of the contracts in `done`, as long as the database does not fail. */
  ghost predicate Alerted(before: StampTable, after: StampTable, visits: map<Id, Visit>, done: set<Id>) {
    && after.Keys == before.Keys <= visits.Keys
    && (forall id :: id in done && id in before ==> after[id] == Alert(before[id], visits[id]).stamps)
    && (forall id :: id !in done && id in before ==> after[id] == before[id])
  }

  ghost predicate NonePoisons(before: StampTable, visits: map<Id, Visit>, done: set<Id>)
    requires before.Keys <= visits.Keys
  {
    forall id :: id in done && id in before ==> !Poisons(before[id], visits[id])
  }

  lemma AllListed(before: StampTable, visits: map<Id, Visit>, candidates: set<Id>, contracts: seq<Id>, done: set<Id>)
    requires before.Keys <= visits.Keys && Lists(contracts, candidates)
    requires candidates == set id | id in before && Candidate(before[id], visits[id])
    requires forall id :: id in done <==> id in contracts
    ensures forall id :: id in before && Candidate(before[id], visits[id]) ==> id in done
  {
  }

  ghost function Notified(before: StampTable, visits: map<Id, Visit>, done: set<Id>): set<Id>
    requires before.Keys <= visits.Keys
  {
    set id | id in done && id in before
      && (Alert(before[id], visits[id]).inAppSent || Alert(before[id], visits[id]).emailSent)
      && !Alert(before[id], visits[id]).raised
  }

  /** The contracts in `done` whose e-mail has left. */
  ghost function Emailed(before: StampTable, visits: map<Id, Visit>, done: set<Id>): set<Id>
    requires before.Keys <= visits.Keys
  {
    set id | id in done && id in before && Alert(before[id], visits[id]).emailSent
  }

  lemma OneMoreAlert(before: StampTable, after: StampTable, visits: map<Id, Visit>, done: set<Id>, id: Id)
    requires Alerted(before, after, visits, done) && id in before && id !in done
    requires Candidate(before[id], visits[id])
    ensures after[id] == before[id]
    ensures var o := NotifyOwner(after[id], visits[id]);
      && Alerted(before, after[id := o.stamps], visits, done + {id})
      && Notified(before, visits, done + {id}) == Notified(before, visits, done) + (if Counts(o) then {id} else {})
      && Emailed(before, visits, done + {id}) == Emailed(before, visits, done) + (if o.emailSent then {id} else {})
  {
    var o := NotifyOwner(after[id], visits[id]);
    SameSet(Notified(before, visits, done + {id}), Notified(before, visits, done) + (if Counts(o) then {id} else {}));
    SameSet(Emailed(before, visits, done + {id}), Emailed(before, visits, done) + (if o.emailSent then {id} else {}));
  }

  lemma OthersAreNotAlerted(before: StampTable, after: StampTable, visits: map<Id, Visit>, done: set<Id>)
    requires Alerted(before, after, visits, done)
    requires forall id :: id in before && Candidate(before[id], visits[id]) ==> id in done
    ensures Alerted(before, after, visits, before.Keys)
    ensures Notified(before, visits, done) == Notified(before, visits, before.Keys)
    ensures Emailed(before, visits, done) == Emailed(before, visits, before.Keys)
    ensures NonePoisons(before, visits, done) <==> NonePoisons(before, visits, before.Keys)
  {
    SameSet(Notified(before, visits, done), Notified(before, visits, before.Keys));
    SameSet(Emailed(before, visits, done), Emailed(before, visits, before.Keys));
  }

  /** The contract's part in the run is a round as the theorems below know them. */
  ghost predicate IsRound(before: Stamps, v: Visit, after: Stamps, emailSent: bool) {
    exists rest: Rest :: Round(before, v.(rest := rest)).stamps == after
      && Round(before, v.(rest := rest)).emailSent == emailSent
  }

  /** The run as a whole: either everything is kept, or only the e-mails that had left. */
  ghost predicate RunEnds(before: StampTable, after: StampTable, visits: map<Id, Visit>, emailed: set<Id>, committed: bool)
    requires before.Keys <= visits.Keys
  {
    && (committed <==> NonePoisons(before, visits, before.Keys))
    && (committed ==> Alerted(before, after, visits, before.Keys) && emailed == Emailed(before, visits, before.Keys))
    && (!committed ==> after == before && emailed <= Emailed(before, visits, before.Keys))
  }

  /** The run so far, with no database error yet. */
  ghost predicate Runs(
    before: StampTable, after: StampTable, visits: map<Id, Visit>, done: set<Id>, notified: nat, emailed: set<Id>)
  {
    && Alerted(before, after, visits, done) && NonePoisons(before, visits, done)
    && notified == |Notified(before, visits, done)| && emailed == Emailed(before, visits, done)
  }

  lemma RunsOn(
    before: StampTable, after: StampTable, visits: map<Id, Visit>, contracts: seq<Id>, i: nat, notified: nat, emailed: set<Id>)
    requires i < |contracts| && Distinct(contracts) && contracts[i] in before
    requires Runs(before, after, visits, ToSet(contracts[..i]), notified, emailed)
    requires Candidate(before[contracts[i]], visits[contracts[i]])
    ensures after[contracts[i]] == before[contracts[i]]
    ensures var id := contracts[i];
      var o := NotifyOwner(after[id], visits[id]);
      var mails := emailed + (if o.emailSent then {id} else {});
      if Poisons(after[id], visits[id]) then RunEnds(before, before, visits, mails, false)
      else Runs(before, after[id := o.stamps], visits, ToSet(contracts[..i + 1]), notified + (if Counts(o) then 1 else 0), mails)
  {
    var id := contracts[i];
    SameSet(ToSet(contracts[..i + 1]), ToSet(contracts[..i]) + {id});
    OneMoreAlert(before, after, visits, ToSet(contracts[..i]), id);
  }

  lemma RunsThrough(
    before: StampTable, after: StampTable, visits: map<Id, Visit>, candidates: set<Id>, contracts: seq<Id>,
    notified: nat, emailed: set<Id>)
    requires Runs(before, after, visits, ToSet(contracts), notified, emailed) && Lists(contracts, candidates)
    requires candidates == set id | id in before && Candidate(before[id], visits[id])
    ensures RunEnds(before, after, visits, emailed, true) && notified == |Notified(before, visits, before.Keys)|
  {
    AllListed(before, visits, candidates, contracts, ToSet(contracts));
    OthersAreNotAlerted(before, after, visits, ToSet(contracts));
  }

  lemma RunsAreRounds(before: StampTable, after: StampTable, visits: map<Id, Visit>, emailed: set<Id>, committed: bool)
    requires before.Keys <= visits.Keys && RunEnds(before, after, visits, emailed, committed)
    ensures forall id :: id in before ==>
      id in after && IsRound(before[id], visits[id], after[id], id in emailed)
  {
    forall id | id in before ensures id in after && IsRound(before[id], visits[id], after[id], id in emailed) {
      var v := visits[id];
      var rest := if committed then Clean else if id in emailed then FailsLater else FailedBefore;
      assert Round(before[id], v.(rest := rest)).stamps == after[id];
      assert Round(before[id], v.(rest := rest)).emailSent == (id in emailed);
    }
  }

  /** The loop over the candidates; a database error ends it with the stamps it began with. */
  method AlertCandidates(before: StampTable, visits: map<Id, Visit>)
    returns (after: StampTable, notified: nat, emailed: set<Id>, committed: bool)
    requires before.Keys <= visits.Keys
    ensures RunEnds(before, after, visits, emailed, committed)
    ensures committed ==> notified == |Notified(before, visits, before.Keys)|
  {
    var candidates: set<Id> := set id | id in before && Candidate(before[id], visits[id]);
    var contracts: seq<Id> := Rows(candidates);
    after, notified, emailed, committed := before, 0, {}, true;
    for i := 0 to |contracts|
      invariant Runs(before, after, visits, ToSet(contracts[..i]), notified, emailed)
    {
      var id := contracts[i];
      assert id in contracts && id in candidates;
      RunsOn(before, after, visits, contracts, i, notified, emailed);
      var v := visits[id];
      var outcome, poisoned := NotifyOwner(after[id], v), Poisons(after[id], v);
      emailed := emailed + if outcome.emailSent then {id} else {};
      if poisoned {
        return before, notified, emailed, false;
      }
      after := after[id := outcome.stamps];
      notified := notified + if Counts(outcome) then 1 else 0;
    }
    assert contracts[..|contracts|] == contracts;
    RunsThrough(before, after, visits, candidates, contracts, notified, emailed);
  }

  /** `_alert_expiring_soon`, over all contracts, with the commit of the job that runs it. */
  class LifecycleJob {
    var stamps: StampTable

    method AlertExpiringSoon(visits: map<Id, Visit>) returns (notified: nat, emailed: set<Id>, committed: bool)
      requires stamps.Keys <= visits.Keys
      modifies this
      ensures RunEnds(old(stamps), stamps, visits, emailed, committed)
      ensures committed ==> notified == |Notified(old(stamps), visits, old(stamps.Keys))|
    {
      var after;
      after, notified, emailed, committed := AlertCandidates(stamps, visits);
      stamps := after;
    }
  }

  /** The caller counts a contract if a channel delivered and nothing was raised. */
  predicate Counts(o: Outcome) {
    (o.inAppSent || o.emailSent) && !o.raised
  }

  // ---- One contract over any number of runs ----

  datatype Channel = InApp | Email

  function StampOf(s: Stamps, channel: Channel): Option<int> {
    match channel case InApp => s.inApp case Email => s.email
  }

  function Delivered(o: Outcome, channel: Channel): bool {
    match channel case InApp => o.inAppSent case Email => o.emailSent
  }

  function After(s: Stamps, visits: seq<Visit>): Stamps {
    if visits == [] then s
    else Round(After(s, visits[..|visits| - 1]), visits[|visits| - 1]).stamps
  }

  /** When a channel delivered. */
  function Deliveries(s: Stamps, visits: seq<Visit>, channel: Channel): seq<int> {
    if visits == [] then []
    else
      var rest, v := visits[..|visits| - 1], visits[|visits| - 1];
      Deliveries(s, rest, channel) + (if Delivered(Round(After(s, rest), v), channel) then [v.now] else [])
  }

  /** Every delivery of the channel was in a run that committed. */
  ghost predicate Kept(s: Stamps, visits: seq<Visit>, channel: Channel) {
    visits != [] ==>
      var rest, v := visits[..|visits| - 1], visits[|visits| - 1];
      Kept(s, rest, channel) && (Delivered(Round(After(s, rest), v), channel) ==> Commits(After(s, rest), v))
  }

  /** A notification is a row of the same transaction, so the in-app channel needs no assumption. */
  lemma {:induction false} InAppIsKept(s: Stamps, visits: seq<Visit>)
    ensures Kept(s, visits, InApp)
  {
    if visits != [] { InAppIsKept(s, visits[..|visits| - 1]); }
  }

  /** The channel's stamp is its last delivery. */
  lemma {:induction false} StampIsLastDelivery(s: Stamps, visits: seq<Visit>, channel: Channel)
    requires Kept(s, visits, channel)
    ensures var ds := Deliveries(s, visits, channel);
      StampOf(After(s, visits), channel) == if ds == [] then StampOf(s, channel) else Some(ds[|ds| - 1])
  {
    if visits != [] { StampIsLastDelivery(s, visits[..|visits| - 1], channel); }
  }

  /** What a delivery takes: the channel was overdue and the contract in its window. */
  lemma DeliveryIsDue(s: Stamps, v: Visit, channel: Channel)
    requires Delivered(Round(s, v), channel)
    ensures v.InWindow() && Overdue(StampOf(s, channel), v.Floor())
  {
  }

  /** Deliveries come in order, each more than 30 days after the last one, or after the first stamp. */
  ghost predicate Spaced(start: Option<int>, ds: seq<int>) {
    && (forall i :: 0 < i < |ds| ==> ds[i] - ds[i - 1] > 2_592_000_000_000)
    && (ds != [] && start.Some? ==> ds[0] - start.value > 2_592_000_000_000)
  }

  /** The cooldown, for a channel whose deliveries so far were kept; the last one need not be. */
  lemma {:induction false} CooldownHolds(s: Stamps, visits: seq<Visit>, channel: Channel)
    requires visits != [] ==> Kept(s, visits[..|visits| - 1], channel)
    ensures Spaced(StampOf(s, channel), Deliveries(s, visits, channel))
  {
    if visits != [] {
      var rest, v := visits[..|visits| - 1], visits[|visits| - 1];
      CooldownHolds(s, rest, channel);
      StampIsLastDelivery(s, rest, channel);
      if Delivered(Round(After(s, rest), v), channel) {
        DeliveryIsDue(After(s, rest), v, channel);
      }
    }
  }

  /** So in-app deliveries are always apart, also when runs roll back. */
  lemma InAppCooldownHolds(s: Stamps, visits: seq<Visit>)
    ensures Spaced(s.inApp, Deliveries(s, visits, InApp))
  {
    if visits != [] { InAppIsKept(s, visits[..|visits| - 1]); }
    CooldownHolds(s, visits, InApp);
  }

  /** A delivery starts a cooldown that nothing can break if and only if its run commits. */
  lemma CooldownStartsIffKept(s: Stamps, v: Visit, channel: Channel)
    requires Delivered(Round(s, v), channel)
    ensures Commits(s, v) <==>
      forall w: Visit :: w.now <= v.now + 2_592_000_000_000 ==> !Delivered(Round(Round(s, v).stamps, w), channel)
  {
    if Commits(s, v) {
      forall w: Visit | w.now <= v.now + 2_592_000_000_000
        ensures !Delivered(Round(Round(s, v).stamps, w), channel)
      {
      }
    } else {
      assert Round(s, v).stamps == s && Delivered(Round(Round(s, v).stamps, v), channel);
    }
  }

  /** An e-mail leaves, the database fails, and the next day's run sends the same e-mail again. */
  lemma EmailIsRepeatedAfterRollback()
    ensures
      var v := Visit(0, true, Some(20), true, false, true, false, true, true, false, true, Clean);
      var w := v.(now := DAY, dbError := false);
      && Deliveries(Stamps(None, None), [v, w], Email) == [0, DAY]
      && Deliveries(Stamps(None, None), [v, w], InApp) == [DAY]
  {
    var v := Visit(0, true, Some(20), true, false, true, false, true, true, false, true, Clean);
    var w := v.(now := DAY, dbError := false);
    var s := Stamps(None, None);
    assert [v, w][..1] == [v] && [v][..0] == [];
    assert After(s, [v]) == s;
    assert Deliveries(s, [v], Email) == [0] && Deliveries(s, [v], InApp) == [];
  }

  ghost predicate VisitedInWindow(visits: seq<Visit>, now: int) {
    exists v :: v in visits && v.now == now && v.InWindow()
  }

  lemma {:induction false} DeliveriesAreInWindow(s: Stamps, visits: seq<Visit>, channel: Channel, d: int)
    requires d in Deliveries(s, visits, channel)
    ensures VisitedInWindow(visits, d)
  {
    var rest, v := visits[..|visits| - 1], visits[|visits| - 1];
    assert forall w :: w in visits <==> w in rest || w == v;
    if d in Deliveries(s, rest, channel) {
      DeliveriesAreInWindow(s, rest, channel, d);
    } else {
      DeliveryIsDue(After(s, rest), v, channel);
    }
  }

  /** While the end date stays, a channel whose deliveries are kept delivers at most twice. */
  lemma AtMostTwicePerEndDate(s: Stamps, visits: seq<Visit>, channel: Channel, endDate: int)
    requires forall v :: v in visits ==> v.endDate == Some(endDate)
    requires channel == Email && visits != [] ==> Kept(s, visits[..|visits| - 1], Email)
    ensures |Deliveries(s, visits, channel)| <= 2
  {
    if channel == InApp { InAppCooldownHolds(s, visits); } else { CooldownHolds(s, visits, channel); }
    var ds := Deliveries(s, visits, channel);
    if |ds| > 2 {
      assert ds[1] - ds[0] > 2_592_000_000_000 && ds[2] - ds[1] > 2_592_000_000_000;
      DeliveriesAreInWindow(s, visits, channel, ds[0]);
      DeliveriesAreInWindow(s, visits, channel, ds[2]);
    }
  }

  // ---- Neither channel interferes with the other ----

  /** The visits agree on everything but the in-app channel. */
  ghost predicate SameForEmail(v: Visit, w: Visit) {
    v == w.(inAppAllowed := v.inAppAllowed, inAppFails := v.inAppFails)
  }

  /** The visits agree on everything but the e-mail channel. */
  ghost predicate SameForInApp(v: Visit, w: Visit) {
    v == w.(emailAllowed := v.emailAllowed, ownerHasEmail := v.ownerHasEmail, emailFails := v.emailFails)
  }

  lemma InAppStepIgnoresEmail(s: Stamps, t: Stamps, v: Visit, w: Visit)
    requires s.inApp == t.inApp && SameForInApp(v, w)
    ensures Round(s, v).stamps.inApp == Round(t, w).stamps.inApp && Round(s, v).inAppSent == Round(t, w).inAppSent
  {
  }

  /**
   * The in-app channel cannot tell how the e-mail channel fares, not even when that raises, as long
   * as the database fails in the same visits.
   */
  lemma {:induction false} InAppIgnoresEmail(s: Stamps, t: Stamps, visits: seq<Visit>, others: seq<Visit>)
    requires s.inApp == t.inApp && |visits| == |others|
    requires forall i :: 0 <= i < |visits| ==> SameForInApp(visits[i], others[i])
    ensures After(s, visits).inApp == After(t, others).inApp
    ensures Deliveries(s, visits, InApp) == Deliveries(t, others, InApp)
  {
    if visits != [] {
      var n := |visits| - 1;
      InAppIgnoresEmail(s, t, visits[..n], others[..n]);
      assert visits[n].now == others[n].now;
      InAppStepIgnoresEmail(After(s, visits[..n]), After(t, others[..n]), visits[n], others[n]);
    }
  }

  /** A notification that was created is lost if and only if the database fails somewhere in the run. */
  lemma InAppIsLostIff(s: Stamps, v: Visit)
    requires Alert(s, v).inAppSent
    ensures Round(s, v).inAppSent <==> v.rest == Clean && !v.dbError
    ensures !Round(s, v).inAppSent ==> Round(s, v).stamps.inApp == s.inApp
  {
  }

  /** So a database error while the e-mail is queued takes the notification with it. */
  lemma EmailErrorLosesNotification()
    ensures
      var v := Visit(0, true, Some(20), true, false, true, false, true, true, true, true, Clean);
      Alert(Stamps(None, None), v).inAppSent && Round(Stamps(None, None), v) == Outcome(Stamps(None, None), false, false, true)
  {
  }

  lemma EmailStepIgnoresInApp(s: Stamps, t: Stamps, v: Visit, w: Visit)
    requires s.email == t.email && SameForEmail(v, w) && !v.inAppFails && !w.inAppFails
    ensures Round(s, v).stamps.email == Round(t, w).stamps.email && Round(s, v).emailSent == Round(t, w).emailSent
  {
  }

  /** Nor the e-mail channel the in-app one, as long as creating the notification does not raise either. */
  lemma {:induction false} EmailIgnoresInApp(s: Stamps, t: Stamps, visits: seq<Visit>, others: seq<Visit>)
    requires s.email == t.email && |visits| == |others|
    requires forall i :: 0 <= i < |visits| ==> SameForEmail(visits[i], others[i])
    requires forall i :: 0 <= i < |visits| ==> !visits[i].inAppFails && !others[i].inAppFails
    ensures After(s, visits).email == After(t, others).email
    ensures Deliveries(s, visits, Email) == Deliveries(t, others, Email)
  {
    if visits != [] {
      var n := |visits| - 1;
      EmailIgnoresInApp(s, t, visits[..n], others[..n]);
      assert visits[n].now == others[n].now;
      EmailStepIgnoresInApp(After(s, visits[..n]), After(t, others[..n]), visits[n], others[n]);
    }
  }

  /** If it does raise, the e-mail that was due is lost exactly when the in-app alert was due too. */
  lemma InAppFailureBlocksEmail(s: Stamps, v: Visit)
    requires v.inAppFails && Round(s, v.(inAppFails := false)).emailSent
    ensures Round(s, v).emailSent <==> !(LongAgo(s.inApp, v.now) && v.inAppAllowed)
  {
  }

  lemma FailedNotificationLosesEmail()
    ensures
      var v := Visit(0, true, Some(20), true, false, true, false, true, true, false, false, Clean);
      && Round(Stamps(None, None), v).emailSent
      && !Round(Stamps(None, None), v.(inAppFails := true)).emailSent
      && Round(Stamps(Some(0), None), v.(inAppFails := true)).emailSent
  {
  }
}
