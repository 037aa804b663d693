/** How a campaign runs: started by hand, then step by step from the daily tick. */
module CampaignRuns {
  import opened Wrappers

  const DAY := 86_400_000_000

  datatype Step = Step(id: Id, delayDays: int)

  datatype Status = Planned | Active | Paused | Completed

  datatype Campaign = Campaign(status: Status, isExecuting: bool, currentStep: nat, nextStepAt: Option<int>)

  /**
   * A step that went out: its index, the steps it was taken from, when, and whether the progress was
   * kept, rather than taken back by an exception after the mails had left or by a rolled-back tick.
   */
  datatype Sent = Sent(index: nat, among: seq<Step>, at: int, kept: bool)
  {
    predicate InRange() { index < |among| }

    function TheStep(): Step
      requires InRange()
    {
      among[index]
    }
  }

  /** `_advance_to_next_step`. */
  function Advanced(c: Campaign, steps: seq<Step>, now: int): Campaign {
    if c.currentStep >= |steps| then c.(status := Completed, isExecuting := false, nextStepAt := None)
    else c.(nextStepAt := Some(now + steps[c.currentStep].delayDays * DAY))
  }

  /** How the first send goes: done, refused with a provider or configuration error, or anything else raised. */
  datatype FirstSend = Done | ProviderError | Raised

  /** `execute_campaign`: sends the first step; a provider error leaves the campaign paused. */
  function Executed(c: Campaign, steps: seq<Step>, send: FirstSend, later: int): Campaign {
    if c.isExecuting || steps == [] then c
    else
      match send
      case Done => Advanced(c.(status := Active, isExecuting := true, currentStep := 1), steps, later)
      case ProviderError => c.(status := Paused, isExecuting := false, currentStep := 0)
      case Raised => c.(status := Active, isExecuting := false, currentStep := 0)
  }

  /**
   * One tick: when it looked, the steps it found, whether the send went through, whether its
   * progress was kept, and the time after.
   */
  datatype Tick = Tick(now: int, steps: seq<Step>, sendOk: bool, kept: bool, later: int)

  predicate Due(c: Campaign, now: int) {
    c.isExecuting && c.nextStepAt.Some? && c.nextStepAt.value <= now
  }

  /** `_execute_campaign_step` for a due campaign; an exception of the send leaves it as it was. */
  function Ticked(c: Campaign, t: Tick): Campaign {
    if !Due(c, t.now) || !t.kept then c
    else if c.currentStep >= |t.steps| then Advanced(c, t.steps, t.later)
    else if !t.sendOk then c
    else Advanced(c.(currentStep := c.currentStep + 1), t.steps, t.later)
  }

  function SentBy(c: Campaign, t: Tick): seq<Sent> {
    if Due(c, t.now) && c.currentStep < |t.steps| && t.sendOk then [Sent(c.currentStep, t.steps, t.now, t.kept)]
    else []
  }

  class CampaignTable {
    var campaigns: map<Id, Campaign>

    /**
     * `execute_campaign`, with its `finally` that takes the flag back unless the send succeeded.
     * `committed` says whether the transaction of the request survives; it does not if this raises.
     */
    method Execute(id: Id, steps: seq<Step>, send: FirstSend, later: int, committed: bool) returns (sent: bool)
      requires id in campaigns
      modifies this
      ensures campaigns == if committed then old(campaigns)[id := Executed(old(campaigns)[id], steps, send, later)]
                           else old(campaigns)
      ensures sent <==> !old(campaigns)[id].isExecuting && steps != [] && send.Done?
    {
      var c := campaigns[id];
      sent := false;
      if !c.isExecuting && steps != [] {
        c := c.(status := Active, isExecuting := true, currentStep := 0);
        match send {
          case Done =>
            c := c.(currentStep := 1);
            c := Advanced(c, steps, later);
            sent := true;
          case ProviderError =>
            c := c.(status := Paused);
            c := c.(isExecuting := false);
          case Raised =>
            c := c.(isExecuting := false);
        }
      }
      if committed {
        campaigns := campaigns[id := c];
      }
    }

    /** `process_due_campaign_steps`: every due campaign once; one whose send raises stops no other. */
    method ProcessDue(now: int, ticks: map<Id, Tick>)
      requires campaigns.Keys <= ticks.Keys && forall id :: id in ticks ==> ticks[id].now == now
      modifies this
      ensures campaigns.Keys == old(campaigns.Keys)
      ensures forall id :: id in campaigns ==> campaigns[id] == Ticked(old(campaigns)[id], ticks[id])
    {
      ghost var before := campaigns;
      var dueIds: set<Id> := set id | id in campaigns && Due(campaigns[id], now);
      var due: seq<Id> := Rows(dueIds);
      for i := 0 to |due|
        invariant campaigns.Keys == before.Keys
        invariant forall id :: id in before ==>
          campaigns[id] == if id in due[..i] then Ticked(before[id], ticks[id]) else before[id]
      {
        var id := due[i];
        assert id in due && id in dueIds;
        assert forall k :: k in due[..i + 1] <==> k in due[..i] || k == id;
        var c, t := campaigns[id], ticks[id];
        if !t.kept {
          continue;
        }
        if c.currentStep >= |t.steps| {
          c := Advanced(c, t.steps, t.later);
        } else if t.sendOk {
          c := c.(currentStep := c.currentStep + 1);
          c := Advanced(c, t.steps, t.later);
        }
        campaigns := campaigns[id := c];
      }
      assert due[..|due|] == due;
      assert forall id :: id in before && id !in due ==> id !in dueIds;
    }
  }

  // ---- How a start and a tick can go ----

  /** A failed start leaves the campaign idle, paused only if the provider refused; so it can be started again. */
  lemma FailedStartCanBeRepeated(c: Campaign, steps: seq<Step>, later: int)
    requires !c.isExecuting && steps != []
    ensures Executed(c, steps, ProviderError, later) == Campaign(Paused, false, 0, c.nextStepAt)
    ensures Executed(c, steps, Raised, later) == Campaign(Active, false, 0, c.nextStepAt)
    ensures forall failed :: failed in {ProviderError, Raised} ==>
      && !Due(Executed(c, steps, failed, later), later)
      && Executed(Executed(c, steps, failed, later), steps, Done, later) == Executed(c, steps, Done, later)
  {
  }

  /** A successful start; one that finds the campaign running, or without steps, does nothing. */
  lemma StartSchedulesTheSecondStep(c: Campaign, steps: seq<Step>, send: FirstSend, later: int)
    ensures c.isExecuting || steps == [] ==> Executed(c, steps, send, later) == c
    ensures !c.isExecuting && |steps| == 1 ==> Executed(c, steps, Done, later) == Campaign(Completed, false, 1, None)
    ensures !c.isExecuting && |steps| > 1 ==>
      Executed(c, steps, Done, later) == Campaign(Active, true, 1, Some(later + steps[1].delayDays * 86_400_000_000))
  {
  }

  /** A tick sends the step at the cursor exactly when its time has come, and schedules the next one from then. */
  lemma TickSendsWhatIsDue(c: Campaign, t: Tick)
    requires Steady(c)
    ensures SentBy(c, t) ==
      if c.isExecuting && c.nextStepAt.value <= t.now && c.currentStep < |t.steps| && t.sendOk
      then [Sent(c.currentStep, t.steps, t.now, t.kept)] else []
    ensures var k := c.currentStep + 1;
      SentBy(c, t) != [] && t.kept ==>
        Ticked(c, t) == if k < |t.steps| then Campaign(Active, true, k, Some(t.later + t.steps[k].delayDays * 86_400_000_000))
                        else Campaign(Completed, false, k, None)
    ensures c.isExecuting && c.nextStepAt.value <= t.now && t.kept && c.currentStep >= |t.steps| ==>
      Ticked(c, t) == Campaign(Completed, false, c.currentStep, None)
    ensures !c.isExecuting || t.now < c.nextStepAt.value || !t.kept || (c.currentStep < |t.steps| && !t.sendOk) ==>
      Ticked(c, t) == c
  {
  }

  // ---- A whole run ----

  function Run(start: Campaign, ticks: seq<Tick>): Campaign {
    if ticks == [] then start else Ticked(Run(start, ticks[..|ticks| - 1]), ticks[|ticks| - 1])
  }

  /** The steps that went out, in the order they did. */
  function Sends(start: Campaign, ticks: seq<Tick>): seq<Sent> {
    if ticks == [] then []
    else
      var rest := ticks[..|ticks| - 1];
      Sends(start, rest) + SentBy(Run(start, rest), ticks[|ticks| - 1])
  }

  /** The same after the first one, which goes out from `execute_campaign`. */
  function Log(steps: seq<Step>, sentAt: int, start: Campaign, ticks: seq<Tick>): seq<Sent> {
    [Sent(0, steps, sentAt, true)] + Sends(start, ticks)
  }

  /** The clock does not run backwards while a tick is at work. */
  ghost predicate Timely(ticks: seq<Tick>) {
    forall t :: t in ticks ==> t.now <= t.later
  }

  /** Between ticks: the cursor is where the next step is, or everything is over. */
  ghost predicate Steady(c: Campaign) {
    && c.currentStep >= 1
    && (c.isExecuting <==> c.nextStepAt.Some?)
    && (c.status == if c.isExecuting then Active else Completed)
  }

  /** Each send is of a step of its list, and of the next index unless the last one was not kept. */
  ghost predicate InOrder(log: seq<Sent>) {
    && log != [] && log[0].index == 0
    && (forall e :: e in log ==> e.InRange())
    && (forall i :: 0 < i < |log| ==> log[i].index == log[i - 1].index + if log[i - 1].kept then 1 else 0)
  }

  function Cursor(log: seq<Sent>): nat
    requires log != []
  {
    log[|log| - 1].index + if log[|log| - 1].kept then 1 else 0
  }

  /**
   * Whatever is done to the steps in between (edited, deleted, added), the indices go out as 0, 1, 2
   * and so on, none is read beyond the end of its list, and one is repeated exactly after a send
   * whose progress was not kept.
   */
  lemma {:induction false} StepsGoOutInOrder(c: Campaign, steps: seq<Step>, sentAt: int, later: int, ticks: seq<Tick>)
    requires !c.isExecuting && steps != []
    ensures var start := Executed(c, steps, Done, later);
      var end, log := Run(start, ticks), Log(steps, sentAt, start, ticks);
      Steady(end) && InOrder(log) && Cursor(log) == end.currentStep
  {
    if ticks != [] {
      var rest := ticks[..|ticks| - 1];
      StepsGoOutInOrder(c, steps, sentAt, later, rest);
      var start := Executed(c, steps, Done, later);
      LogGrows(steps, sentAt, start, ticks);
    }
  }

  lemma LogGrows(steps: seq<Step>, sentAt: int, start: Campaign, ticks: seq<Tick>)
    requires ticks != []
    ensures Log(steps, sentAt, start, ticks)
      == Log(steps, sentAt, start, ticks[..|ticks| - 1]) + SentBy(Run(start, ticks[..|ticks| - 1]), ticks[|ticks| - 1])
  {
  }

  /** With the steps left alone, each goes out no earlier than its delay after the one before. */
  ghost predicate Delayed(steps: seq<Step>, log: seq<Sent>) {
    && (forall e :: e in log ==> e.among == steps && e.InRange())
    && (forall i, j :: 0 <= i < j < |log| && log[i].kept && log[j].index == log[i].index + 1 ==>
          log[j].at >= log[i].at + steps[log[j].index].delayDays * 86_400_000_000)
  }

  ghost predicate OnlySteps(ticks: seq<Tick>, steps: seq<Step>) {
    forall t :: t in ticks ==> t.steps == steps
  }

  /** The next step is set for its delay after the last one that was kept. */
  ghost predicate NextIsDelayed(steps: seq<Step>, log: seq<Sent>, c: Campaign) {
    && 0 < c.currentStep < |steps| && c.nextStepAt.Some?
    && (forall e :: e in log && e.kept && e.index + 1 == c.currentStep ==>
          c.nextStepAt.value >= e.at + steps[c.currentStep].delayDays * 86_400_000_000)
  }

  /** Whatever was kept is behind the cursor, and only the step at the cursor may have been tried in vain. */
  ghost predicate Reaches(log: seq<Sent>, cursor: nat) {
    forall e :: e in log ==> e.index < cursor || (e.index == cursor && !e.kept)
  }

  lemma {:induction false} FixedStepsAreDelayed(c: Campaign, steps: seq<Step>, sentAt: int, later: int, ticks: seq<Tick>)
    requires !c.isExecuting && steps != [] && sentAt <= later
    requires Timely(ticks) && OnlySteps(ticks, steps)
    ensures var start := Executed(c, steps, Done, later);
      var end, log := Run(start, ticks), Log(steps, sentAt, start, ticks);
      && Delayed(steps, log) && Reaches(log, end.currentStep)
      && (end.isExecuting <==> end.currentStep < |steps|)
      && (end.isExecuting ==> NextIsDelayed(steps, log, end))
  {
    var start := Executed(c, steps, Done, later);
    if ticks == [] {
      assert Log(steps, sentAt, start, ticks) == [Sent(0, steps, sentAt, true)];
    } else {
      var rest, t := ticks[..|ticks| - 1], ticks[|ticks| - 1];
      FixedStepsAreDelayed(c, steps, sentAt, later, rest);
      StepsGoOutInOrder(c, steps, sentAt, later, rest);
      LogGrows(steps, sentAt, start, ticks);
      assert t in ticks;
      TickKeepsDelays(steps, Log(steps, sentAt, start, rest), Run(start, rest), t);
    }
  }

  lemma TickKeepsDelays(steps: seq<Step>, log: seq<Sent>, c: Campaign, t: Tick)
    requires t.steps == steps && t.now <= t.later && Steady(c)
    requires Delayed(steps, log) && Reaches(log, c.currentStep)
    requires c.isExecuting <==> c.currentStep < |steps|
    requires c.isExecuting ==> NextIsDelayed(steps, log, c)
    ensures var next, end := log + SentBy(c, t), Ticked(c, t);
      && Delayed(steps, next) && Reaches(next, end.currentStep)
      && (end.isExecuting <==> end.currentStep < |steps|)
      && (end.isExecuting ==> NextIsDelayed(steps, next, end))
  {
    var next := log + SentBy(c, t);
    if SentBy(c, t) == [] {
      assert next == log;
    } else {
      forall i | 0 <= i < |log| && log[i].kept && log[i].index + 1 == c.currentStep
        ensures t.now >= log[i].at + steps[c.currentStep].delayDays * 86_400_000_000
      {
        assert log[i] in log;
      }
    }
  }

  function SuccessfulTicks(start: Campaign, ticks: seq<Tick>): nat {
    if ticks == [] then 0
    else
      var rest, t := ticks[..|ticks| - 1], ticks[|ticks| - 1];
      SuccessfulTicks(start, rest) + if Due(Run(start, rest), t.now) && t.sendOk && t.kept then 1 else 0
  }

  /** A started campaign of n steps is completed, with every step sent, after n - 1 successful ticks. */
  lemma {:induction false} CompletedAfterAllSteps(
    c: Campaign, steps: seq<Step>, sentAt: int, later: int, ticks: seq<Tick>)
    requires !c.isExecuting && steps != []
    requires OnlySteps(ticks, steps)
    ensures var start := Executed(c, steps, Done, later);
      && SuccessfulTicks(start, ticks) == Run(start, ticks).currentStep - 1 < |steps|
      && (Run(start, ticks).status == Completed <==> SuccessfulTicks(start, ticks) == |steps| - 1)
  {
    if ticks != [] {
      var rest, t := ticks[..|ticks| - 1], ticks[|ticks| - 1];
      CompletedAfterAllSteps(c, steps, sentAt, later, rest);
      StepsGoOutInOrder(c, steps, sentAt, later, rest);
      assert t in ticks;
    }
  }

  // ---- What an edit of the steps does to a campaign that is running ----

  function IdsOf(steps: seq<Step>): set<Id> {
    set i | 0 <= i < |steps| :: steps[i].id
  }

  ghost predicate DistinctIds(steps: seq<Step>) {
    forall i, j :: 0 <= i < j < |steps| ==> steps[i].id != steps[j].id
  }

  ghost predicate AllKept(ticks: seq<Tick>) {
    forall t :: t in ticks ==> t.kept
  }

  ghost predicate SentIn(log: seq<Sent>, id: Id) {
    exists e :: e in log && e.InRange() && e.TheStep().id == id
  }

  /** From a cursor on, with the steps left alone: what goes out is every step from there up to where it is now. */
  lemma {:induction false} SendsFollowTheCursor(start: Campaign, steps: seq<Step>, ticks: seq<Tick>)
    requires OnlySteps(ticks, steps) && AllKept(ticks)
    ensures var end, log := Run(start, ticks), Sends(start, ticks);
      && |log| == end.currentStep - start.currentStep
      && (forall i :: 0 <= i < |log| ==>
            log[i].among == steps && log[i].InRange() && log[i].index == start.currentStep + i)
      && (start.isExecuting && !end.isExecuting ==> end.currentStep >= |steps|)
  {
    if ticks != [] {
      SendsFollowTheCursor(start, steps, ticks[..|ticks| - 1]);
      assert ticks[|ticks| - 1] in ticks;
    }
  }

  /** The part of an edited list that the cursor has passed already. */
  function Passed(edited: seq<Step>, cursor: nat): nat {
    if cursor <= |edited| then cursor else |edited|
  }

  lemma SentInIff(start: Campaign, steps: seq<Step>, ticks: seq<Tick>, id: Id)
    requires OnlySteps(ticks, steps) && AllKept(ticks)
    requires start.isExecuting && !Run(start, ticks).isExecuting
    ensures SentIn(Sends(start, ticks), id) <==> id in IdsOf(steps[Passed(steps, start.currentStep)..])
  {
    SendsFollowTheCursor(start, steps, ticks);
    var log := Sends(start, ticks);
    if log != [] {
      assert log[|log| - 1].InRange() && log[|log| - 1].index == start.currentStep + |log| - 1;
    }
    SentInSlice(log, steps, start.currentStep, id);
  }

  /** What is in a log of consecutive sends. */
  lemma SentInSlice(log: seq<Sent>, steps: seq<Step>, from: nat, id: Id)
    requires log == [] || from + |log| <= |steps|
    requires forall i :: 0 <= i < |log| ==> log[i].among == steps && log[i].index == from + i
    ensures var ids := IdsOf(if log == [] then [] else steps[from..from + |log|]);
      SentIn(log, id) <==> id in ids
  {
    if log != [] {
      var part := steps[from..from + |log|];
      if id in IdsOf(part) {
        var i :| 0 <= i < |part| && part[i].id == id;
        assert log[i] in log && log[i].TheStep() == part[i];
      }
      if SentIn(log, id) {
        var i := IndexOf(log, id);
        assert part[i] == log[i].TheStep();
      }
    }
  }

  lemma IndexOf(log: seq<Sent>, id: Id) returns (i: nat)
    requires SentIn(log, id)
    ensures i < |log| && log[i].InRange() && log[i].TheStep().id == id
  {
    var e :| e in log && e.InRange() && e.TheStep().id == id;
    i :| 0 <= i < |log| && log[i] == e;
  }

  lemma LogFollowsTheCursor(c: Campaign, steps: seq<Step>, sentAt: int, later: int, ticks: seq<Tick>)
    requires !c.isExecuting && steps != [] && OnlySteps(ticks, steps) && AllKept(ticks)
    ensures var start := Executed(c, steps, Done, later);
      var log := Log(steps, sentAt, start, ticks);
      && |log| == Run(start, ticks).currentStep <= |steps|
      && (forall i :: 0 <= i < |log| ==> log[i].among == steps && log[i].InRange() && log[i].index == i)
  {
    var start := Executed(c, steps, Done, later);
    var log := Log(steps, sentAt, start, ticks);
    SendsFollowTheCursor(start, steps, ticks);
    assert log[|log| - 1].InRange();
  }

  lemma FirstSendsIff(c: Campaign, steps: seq<Step>, sentAt: int, later: int, ticks: seq<Tick>, id: Id)
    requires !c.isExecuting && steps != [] && OnlySteps(ticks, steps) && AllKept(ticks)
    ensures var start := Executed(c, steps, Done, later);
      var k := Run(start, ticks).currentStep;
      k <= |steps| && (SentIn(Log(steps, sentAt, start, ticks), id) <==> id in IdsOf(steps[..k]))
  {
    var start := Executed(c, steps, Done, later);
    var log, k := Log(steps, sentAt, start, ticks), Run(start, ticks).currentStep;
    LogFollowsTheCursor(c, steps, sentAt, later, ticks);
    SentInSlice(log, steps, 0, id);
    assert steps[0..k] == steps[..k];
  }

  /**
   * The steps are edited while the campaign runs, and left alone until it is completed. Every step
   * of the edited list goes out at some time if and only if the edit puts only steps that were sent
   * before the cursor; and no step goes out twice if and only if it puts none of them behind it.
   */
  lemma EditIsSafeIff(
    c: Campaign, steps: seq<Step>, sentAt: int, later: int, ticks: seq<Tick>, edited: seq<Step>, more: seq<Tick>)
    requires !c.isExecuting && steps != [] && DistinctIds(edited)
    requires OnlySteps(ticks, steps) && OnlySteps(more, edited) && AllKept(ticks) && AllKept(more)
    requires var mid := Run(Executed(c, steps, Done, later), ticks);
      mid.isExecuting && !Run(mid, more).isExecuting
    ensures var start := Executed(c, steps, Done, later);
      var mid := Run(start, ticks);
      var sent, again := Log(steps, sentAt, start, ticks), Sends(mid, more);
      var k := mid.currentStep;
      && k <= |steps|
      && ((forall id :: id in IdsOf(edited) ==> SentIn(sent, id) || SentIn(again, id)) <==>
            IdsOf(edited[..Passed(edited, k)]) <= IdsOf(steps[..k]))
      && ((forall id :: !(SentIn(sent, id) && SentIn(again, id))) <==>
            IdsOf(edited[Passed(edited, k)..]) !! IdsOf(steps[..k]))
  {
    var start := Executed(c, steps, Done, later);
    var mid := Run(start, ticks);
    var k, p := mid.currentStep, Passed(edited, mid.currentStep);
    forall id
      ensures k <= |steps| && (SentIn(Log(steps, sentAt, start, ticks), id) <==> id in IdsOf(steps[..k]))
      ensures SentIn(Sends(mid, more), id) <==> id in IdsOf(edited[p..])
    {
      FirstSendsIff(c, steps, sentAt, later, ticks, id);
      SentInIff(mid, edited, more, id);
    }
    SplitsAt(edited, p);
  }

  lemma SplitsAt(steps: seq<Step>, p: nat)
    requires p <= |steps| && DistinctIds(steps)
    ensures IdsOf(steps) == IdsOf(steps[..p]) + IdsOf(steps[p..]) && IdsOf(steps[..p]) !! IdsOf(steps[p..])
  {
    forall id ensures id in IdsOf(steps) <==> id in IdsOf(steps[..p]) + IdsOf(steps[p..]) {
      if id in IdsOf(steps) {
        var i :| 0 <= i < |steps| && steps[i].id == id;
        if i < p { assert steps[..p][i].id == id; } else { assert steps[p..][i - p].id == id; }
      }
    }
    SameSet(IdsOf(steps), IdsOf(steps[..p]) + IdsOf(steps[p..]));
    forall id | id in IdsOf(steps[..p]) ensures id !in IdsOf(steps[p..]) {
      var i :| 0 <= i < p && steps[..p][i].id == id;
    }
  }

  /** Of steps 1, 2, 3, the first is sent and then deleted: 3 goes out next, the campaign is completed, 2 is lost. */
  lemma DeletingASentStepLosesTheNext(c: Campaign)
    requires !c.isExecuting
    ensures var s1, s2, s3 := Step(1, 0), Step(2, 0), Step(3, 0);
      var start, t := Executed(c, [s1, s2, s3], Done, 0), Tick(0, [s2, s3], true, true, 0);
      && Log([s1, s2, s3], 0, start, [t]) == [Sent(0, [s1, s2, s3], 0, true), Sent(1, [s2, s3], 0, true)]
      && Run(start, [t]).status == Completed && !SentIn(Log([s1, s2, s3], 0, start, [t]), 2)
  {
    var s1, s2, s3 := Step(1, 0), Step(2, 0), Step(3, 0);
    var start, t := Executed(c, [s1, s2, s3], Done, 0), Tick(0, [s2, s3], true, true, 0);
    assert [t][..0] == [] && Run(start, []) == start && Sends(start, []) == [];
    assert Sends(start, [t]) == [Sent(1, [s2, s3], 0, true)];
  }
}
