/** The admin dashboard's roll-up of audit rows, work sessions and activities. */
module AdminSummary {
  import opened Wrappers

  datatype AuditRow = AuditRow(userId: Option<Id>, entityType: string, entityId: Id, timestamp: int)

  datatype SessionRow = SessionRow(
    userId: Option<Id>, entityType: string, entityId: Id, duration: int, lastSeenAt: int)

  datatype ActivityRow = ActivityRow(
    ownerId: Option<Id>, assignedToId: Option<Id>, kind: string, callMinutes: Option<int>,
    entityType: string, entityId: Id, createdAt: int)
  {
    /** `owner_id or assigned_to_id`: an owner id of 0 counts as none. */
    function Actor(): Option<Id> {
      if ownerId.Some? && ownerId.value != 0 then ownerId else assignedToId
    }
  }

  /** `canonical_singular` and `canonical_plural`. */
  datatype Names = Names(singular: string -> string, plural: string -> string)

  datatype Stats = Stats(
    activeSeconds: int, auditEvents: nat, calls: nat, callMinutes: int, emails: nat,
    proposals: set<Id>, opportunities: set<Id>, lastActiveAt: Option<int>)
  {
    /** `_user_stats_has_activity`. */
    predicate HasActivity() {
      activeSeconds != 0 || auditEvents != 0 || calls != 0 || emails != 0 || lastActiveAt.Some?
    }

    function Get(figure: Figure): int {
      match figure case Seconds => activeSeconds case Calls => calls case Emails => emails
    }

    function WithAudit(names: Names, row: AuditRow): Stats {
      var kind := names.singular(row.entityType);
      this.(auditEvents := auditEvents + 1, lastActiveAt := Latest(lastActiveAt, row.timestamp),
            proposals := if kind == "proposal" then proposals + {row.entityId} else proposals,
            opportunities := if kind == "opportunity" then opportunities + {row.entityId} else opportunities)
    }

    function WithSession(row: SessionRow): Stats {
      this.(activeSeconds := activeSeconds + row.duration, lastActiveAt := Latest(lastActiveAt, row.lastSeenAt))
    }

    function WithActivity(row: ActivityRow): Stats {
      this.(calls := if row.kind == "call" then calls + 1 else calls,
            callMinutes := if row.kind == "call" && row.callMinutes.Some? then callMinutes + row.callMinutes.value
                           else callMinutes,
            emails := if row.kind == "email" then emails + 1 else emails,
            lastActiveAt := Latest(lastActiveAt, row.createdAt))
    }
  }

  const NEW_STATS := Stats(0, 0, 0, 0, 0, {}, {}, None)

  /** `_max_dt`. */
  function Latest(current: Option<int>, candidate: int): Option<int> {
    if current.Some? && candidate <= current.value then current else Some(candidate)
  }

  /** The figures the dashboard totals. */
  datatype Figure = Seconds | Calls | Emails

  datatype Contribution<K> = Contribution(actor: Option<K>, amount: int)

  type UserStats = map<Id, Stats>

  /** Reading a `defaultdict`. */
  function StatsOf(stats: UserStats, id: Id): Stats {
    if id in stats then stats[id] else NEW_STATS
  }

  // ---- What one user's statistics are, source by source ----

  function Audited(names: Names, rows: seq<AuditRow>, id: Id): Stats {
    if rows == [] then NEW_STATS
    else
      var rest, row := Audited(names, rows[..|rows| - 1], id), rows[|rows| - 1];
      if row.userId == Some(id) then rest.WithAudit(names, row) else rest
  }

  function Worked(start: Stats, rows: seq<SessionRow>, id: Id): Stats {
    if rows == [] then start
    else
      var rest, row := Worked(start, rows[..|rows| - 1], id), rows[|rows| - 1];
      if row.userId == Some(id) then rest.WithSession(row) else rest
  }

  function Acted(start: Stats, rows: seq<ActivityRow>, id: Id): Stats {
    if rows == [] then start
    else
      var rest, row := Acted(start, rows[..|rows| - 1], id), rows[|rows| - 1];
      if row.Actor() == Some(id) then rest.WithActivity(row) else rest
  }

  datatype Sources = Sources(
    names: Names, audits: seq<AuditRow>, sessions: seq<SessionRow>, activities: seq<ActivityRow>)
  {
    function BeforeActivities(id: Id): Stats {
      Worked(Audited(names, audits, id), sessions, id)
    }

    function UserStats(id: Id): Stats {
      Acted(BeforeActivities(id), activities, id)
    }

    /** What each session and activity adds to a figure, and for whom. */
    function Contributions(figure: Figure): seq<Contribution<Id>> {
      SessionContributions(sessions, figure) + ActivityContributions(activities, figure)
    }
  }

  function SessionContributions(rows: seq<SessionRow>, figure: Figure): seq<Contribution<Id>> {
    seq(|rows|, i requires 0 <= i < |rows| =>
      Contribution(rows[i].userId, if figure == Seconds then rows[i].duration else 0))
  }

  function ActivityContributions(rows: seq<ActivityRow>, figure: Figure): seq<Contribution<Id>> {
    seq(|rows|, i requires 0 <= i < |rows| =>
      Contribution(rows[i].Actor(),
        if (figure == Calls && rows[i].kind == "call") || (figure == Emails && rows[i].kind == "email") then 1 else 0))
  }

  /** Whoever has statistics has been seen. */
  ghost predicate AllSeen(stats: UserStats) {
    forall id :: id in stats ==> stats[id].lastActiveAt.Some?
  }

  method CollectAudits(sources: Sources) returns (stats: UserStats)
    ensures forall id :: StatsOf(stats, id) == Audited(sources.names, sources.audits, id)
    ensures AllSeen(stats)
  {
    stats := map[];
    var audits := sources.audits;
    for i := 0 to |audits|
      invariant forall id :: StatsOf(stats, id) == Audited(sources.names, audits[..i], id)
      invariant AllSeen(stats)
    {
      assert audits[..i + 1][..i] == audits[..i];
      var row := audits[i];
      if row.userId.Some? {
        stats := stats[row.userId.value := StatsOf(stats, row.userId.value).WithAudit(sources.names, row)];
      }
    }
    assert audits[..|audits|] == audits;
  }

  method CollectSessions(sources: Sources, before: UserStats) returns (stats: UserStats)
    requires forall id :: StatsOf(before, id) == Audited(sources.names, sources.audits, id)
    requires AllSeen(before)
    ensures forall id :: StatsOf(stats, id) == sources.BeforeActivities(id)
    ensures AllSeen(stats)
  {
    stats := before;
    var sessions := sources.sessions;
    for i := 0 to |sessions|
      invariant forall id :: StatsOf(stats, id) == Worked(Audited(sources.names, sources.audits, id), sessions[..i], id)
      invariant AllSeen(stats)
    {
      assert sessions[..i + 1][..i] == sessions[..i];
      var row := sessions[i];
      if row.userId.Some? {
        stats := stats[row.userId.value := StatsOf(stats, row.userId.value).WithSession(row)];
      }
    }
    assert sessions[..|sessions|] == sessions;
  }

  method CollectActivities(sources: Sources, before: UserStats) returns (stats: UserStats)
    requires forall id :: StatsOf(before, id) == sources.BeforeActivities(id)
    requires AllSeen(before)
    ensures forall id :: StatsOf(stats, id) == sources.UserStats(id)
    ensures AllSeen(stats)
  {
    stats := before;
    var activities := sources.activities;
    assert activities[..0] == [];
    for i := 0 to |activities|
      invariant forall id :: StatsOf(stats, id) == Acted(sources.BeforeActivities(id), activities[..i], id)
      invariant AllSeen(stats)
    {
      assert activities[..i + 1][..i] == activities[..i];
      var row := activities[i];
      if row.Actor().Some? {
        stats := stats[row.Actor().value := StatsOf(stats, row.Actor().value).WithActivity(row)];
      }
    }
    assert activities[..|activities|] == activities;
  }

  /** The three loops that fill `user_stats`. */
  method CollectUserStats(sources: Sources) returns (stats: UserStats)
    ensures forall id :: StatsOf(stats, id) == sources.UserStats(id)
    ensures forall id :: id in stats <==> sources.UserStats(id).lastActiveAt.Some?
  {
    stats := CollectAudits(sources);
    stats := CollectSessions(sources, stats);
    stats := CollectActivities(sources, stats);
    forall id ensures id in stats <==> sources.UserStats(id).lastActiveAt.Some? {
      assert StatsOf(stats, id) == sources.UserStats(id);
    }
  }

  // ---- The summaries ----

  datatype User = User(isActive: bool)

  datatype Summary = Summary(userId: Id, stats: Stats)

  predicate Wanted<K(==)>(filter: Option<K>, id: K) {
    filter.None? || filter == Some(id)
  }

  function Total(summaries: seq<Summary>, figure: Figure): int {
    if summaries == [] then 0
    else Total(summaries[..|summaries| - 1], figure) + summaries[|summaries| - 1].stats.Get(figure)
  }

  /** What one user contributed. */
  function Share<K(==)>(cs: seq<Contribution<K>>, id: K): int {
    if cs == [] then 0
    else
      var c := cs[|cs| - 1];
      Share(cs[..|cs| - 1], id) + (if c.actor == Some(id) then c.amount else 0)
  }

  /** What the wanted users among `ids` contributed. */
  function Shares<K(==)>(cs: seq<Contribution<K>>, filter: Option<K>, ids: seq<K>): int {
    if ids == [] then 0
    else
      var id := ids[|ids| - 1];
      Shares(cs, filter, ids[..|ids| - 1]) + (if Wanted(filter, id) then Share(cs, id) else 0)
  }

  /** Every contribution, once, that has a wanted actor. */
  function Credited<K(==)>(cs: seq<Contribution<K>>, filter: Option<K>): int {
    if cs == [] then 0
    else
      var c := cs[|cs| - 1];
      Credited(cs[..|cs| - 1], filter)
      + (if c.actor.Some? && Wanted(filter, c.actor.value) then c.amount else 0)
  }

  lemma ShareOfOneMore<K>(cs: seq<Contribution<K>>, c: Contribution<K>, id: K)
    ensures Share(cs + [c], id) == Share(cs, id) + if c.actor == Some(id) then c.amount else 0
  {
    assert (cs + [c])[..|cs|] == cs;
  }

  lemma {:induction false} SharesOfOneMore<K(!new)>(cs: seq<Contribution<K>>, c: Contribution<K>, filter: Option<K>, ids: seq<K>)
    requires Distinct(ids)
    ensures Shares(cs + [c], filter, ids) == Shares(cs, filter, ids) +
      if c.actor.Some? && c.actor.value in ids && Wanted(filter, c.actor.value) then c.amount else 0
  {
    if ids != [] {
      var rest, id := ids[..|ids| - 1], ids[|ids| - 1];
      SharesOfOneMore(cs, c, filter, rest);
      ShareOfOneMore(cs, c, id);
      assert forall k :: k in ids <==> k in rest || k == id;
      assert id !in rest;
    }
  }

  lemma {:induction false} NoContributions<K>(filter: Option<K>, ids: seq<K>)
    ensures Shares<K>([], filter, ids) == 0
  {
    if ids != [] { NoContributions(filter, ids[..|ids| - 1]); }
  }

  /** Summing user by user counts every contribution once, if no user is missing or listed twice. */
  lemma {:induction false} SharesAreCredited<K(!new)>(cs: seq<Contribution<K>>, filter: Option<K>, ids: seq<K>)
    requires Distinct(ids)
    requires forall c :: c in cs && c.actor.Some? ==> c.actor.value in ids
    ensures Shares(cs, filter, ids) == Credited(cs, filter)
  {
    if cs == [] {
      NoContributions(filter, ids);
    } else {
      var rest, c := cs[..|cs| - 1], cs[|cs| - 1];
      assert cs == rest + [c];
      SharesOfOneMore(rest, c, filter, ids);
      SharesAreCredited(rest, filter, ids);
    }
  }

  // ---- A user's figures are what the user contributed ----

  lemma {:induction false} AuditsAddNothing(names: Names, rows: seq<AuditRow>, id: Id, figure: Figure)
    ensures Audited(names, rows, id).Get(figure) == 0
  {
    if rows != [] { AuditsAddNothing(names, rows[..|rows| - 1], id, figure); }
  }

  lemma {:induction false} WorkedFigures(start: Stats, rows: seq<SessionRow>, id: Id, figure: Figure)
    ensures Worked(start, rows, id).Get(figure) ==
      start.Get(figure) + Share(SessionContributions(rows, figure), id)
  {
    if rows != [] {
      var rest, cs := rows[..|rows| - 1], SessionContributions(rows, figure);
      assert cs[..|rest|] == SessionContributions(rest, figure);
      WorkedFigures(start, rest, id, figure);
    }
  }

  lemma {:induction false} ActedFigures(start: Stats, rows: seq<ActivityRow>, id: Id, figure: Figure)
    ensures Acted(start, rows, id).Get(figure) ==
      start.Get(figure) + Share(ActivityContributions(rows, figure), id)
  {
    if rows != [] {
      var rest, cs := rows[..|rows| - 1], ActivityContributions(rows, figure);
      assert cs[..|rest|] == ActivityContributions(rest, figure);
      ActedFigures(start, rest, id, figure);
    }
  }

  lemma {:induction false} ShareOfBoth(cs: seq<Contribution<Id>>, ds: seq<Contribution<Id>>, id: Id)
    ensures Share(cs + ds, id) == Share(cs, id) + Share(ds, id)
  {
    if ds == [] {
      assert cs + ds == cs;
    } else {
      var rest, d := ds[..|ds| - 1], ds[|ds| - 1];
      ShareOfBoth(cs, rest, id);
      ShareOfOneMore(cs + rest, d, id);
      assert cs + ds == cs + rest + [d];
    }
  }

  lemma FiguresAreShares(sources: Sources, id: Id, figure: Figure)
    ensures sources.UserStats(id).Get(figure) == Share(sources.Contributions(figure), id)
  {
    var audited := Audited(sources.names, sources.audits, id);
    AuditsAddNothing(sources.names, sources.audits, id, figure);
    WorkedFigures(audited, sources.sessions, id, figure);
    ActedFigures(Worked(audited, sources.sessions, id), sources.activities, id, figure);
    ShareOfBoth(SessionContributions(sources.sessions, figure), ActivityContributions(sources.activities, figure), id);
  }

  // ---- The other columns of a user's statistics ----

  /** Who did an activity: its owner, or whom it is assigned to if it has none. */
  lemma WhoActed(row: ActivityRow)
    ensures row.ownerId.Some? && row.ownerId.value > 0 ==> row.Actor() == row.ownerId
    ensures row.ownerId.None? || row.ownerId == Some(0) ==> row.Actor() == row.assignedToId
  {
  }

  function AuditsBy(rows: seq<AuditRow>, id: Id): nat {
    if rows == [] then 0
    else AuditsBy(rows[..|rows| - 1], id) + if rows[|rows| - 1].userId == Some(id) then 1 else 0
  }

  /** The minutes of the user's calls. */
  function MinutesBy(rows: seq<ActivityRow>, id: Id): int {
    if rows == [] then 0
    else
      var row := rows[|rows| - 1];
      MinutesBy(rows[..|rows| - 1], id)
      + if row.Actor() == Some(id) && row.kind == "call" && row.callMinutes.Some? then row.callMinutes.value else 0
  }

  /** The user has an audit row for this entity, under a name for the kind. */
  ghost predicate Touched(names: Names, rows: seq<AuditRow>, id: Id, kind: string, entity: Id) {
    exists i :: 0 <= i < |rows|
      && rows[i].userId == Some(id) && names.singular(rows[i].entityType) == kind && rows[i].entityId == entity
  }

  lemma TouchedByOneMore(names: Names, rows: seq<AuditRow>, row: AuditRow, id: Id, kind: string, entity: Id)
    ensures Touched(names, rows + [row], id, kind, entity) <==>
      || Touched(names, rows, id, kind, entity)
      || (row.userId == Some(id) && names.singular(row.entityType) == kind && row.entityId == entity)
  {
    var more := rows + [row];
    if Touched(names, rows, id, kind, entity) {
      var i :| 0 <= i < |rows| && rows[i].userId == Some(id) && names.singular(rows[i].entityType) == kind
               && rows[i].entityId == entity;
      assert more[i] == rows[i];
    }
    assert more[|rows|] == row;
  }

  /** Audit counts and the entities touched, from the audit rows alone. */
  lemma {:induction false} AuditColumns(names: Names, rows: seq<AuditRow>, id: Id)
    ensures var stats := Audited(names, rows, id);
      && stats.auditEvents == AuditsBy(rows, id) && stats.callMinutes == 0
      && (forall e :: e in stats.proposals <==> Touched(names, rows, id, "proposal", e))
      && (forall e :: e in stats.opportunities <==> Touched(names, rows, id, "opportunity", e))
  {
    if rows != [] {
      var rest, row := rows[..|rows| - 1], rows[|rows| - 1];
      assert rows == rest + [row];
      AuditColumns(names, rest, id);
      forall kind, e
        ensures Touched(names, rows, id, kind, e) <==>
          || Touched(names, rest, id, kind, e)
          || (row.userId == Some(id) && names.singular(row.entityType) == kind && row.entityId == e)
      {
        TouchedByOneMore(names, rest, row, id, kind, e);
      }
    }
  }

  lemma {:induction false} SessionsKeepColumns(start: Stats, rows: seq<SessionRow>, id: Id)
    ensures var stats := Worked(start, rows, id);
      stats.auditEvents == start.auditEvents && stats.callMinutes == start.callMinutes
      && stats.proposals == start.proposals && stats.opportunities == start.opportunities
  {
    if rows != [] { SessionsKeepColumns(start, rows[..|rows| - 1], id); }
  }

  lemma {:induction false} ActivitiesAddMinutes(start: Stats, rows: seq<ActivityRow>, id: Id)
    ensures var stats := Acted(start, rows, id);
      stats.auditEvents == start.auditEvents && stats.callMinutes == start.callMinutes + MinutesBy(rows, id)
      && stats.proposals == start.proposals && stats.opportunities == start.opportunities
  {
    if rows != [] { ActivitiesAddMinutes(start, rows[..|rows| - 1], id); }
  }

  /** A user's audit count, call minutes, and the proposals and opportunities touched. */
  lemma UserColumns(sources: Sources, id: Id)
    ensures var stats := sources.UserStats(id);
      && stats.auditEvents == AuditsBy(sources.audits, id)
      && stats.callMinutes == MinutesBy(sources.activities, id)
      && (forall e :: e in stats.proposals <==> Touched(sources.names, sources.audits, id, "proposal", e))
      && (forall e :: e in stats.opportunities <==> Touched(sources.names, sources.audits, id, "opportunity", e))
  {
    AuditColumns(sources.names, sources.audits, id);
    SessionsKeepColumns(Audited(sources.names, sources.audits, id), sources.sessions, id);
    ActivitiesAddMinutes(sources.BeforeActivities(id), sources.activities, id);
  }

  /** The user did something at that time: an audit row, a session last seen or an activity. */
  ghost predicate SeenAt(sources: Sources, id: Id, time: int) {
    || (exists i :: 0 <= i < |sources.audits|
          && sources.audits[i].userId == Some(id) && sources.audits[i].timestamp == time)
    || (exists i :: 0 <= i < |sources.sessions|
          && sources.sessions[i].userId == Some(id) && sources.sessions[i].lastSeenAt == time)
    || (exists i :: 0 <= i < |sources.activities|
          && sources.activities[i].Actor() == Some(id) && sources.activities[i].createdAt == time)
  }

  /** `latest` is the greatest of the times, and nothing if there are none. */
  ghost predicate IsLatest(latest: Option<int>, times: int -> bool) {
    if latest.Some? then times(latest.value) && forall t :: times(t) ==> t <= latest.value
    else forall t :: !times(t)
  }

  lemma LatestOfOneMore(latest: Option<int>, times: int -> bool, time: int, more: int -> bool)
    requires IsLatest(latest, times) && forall t :: more(t) <==> times(t) || t == time
    ensures IsLatest(Latest(latest, time), more)
  {
  }

  ghost function AuditTimes(rows: seq<AuditRow>, id: Id): int -> bool {
    t => exists i :: 0 <= i < |rows| && rows[i].userId == Some(id) && rows[i].timestamp == t
  }

  ghost function SessionTimes(times: int -> bool, rows: seq<SessionRow>, id: Id): int -> bool {
    t => times(t) || exists i :: 0 <= i < |rows| && rows[i].userId == Some(id) && rows[i].lastSeenAt == t
  }

  ghost function ActivityTimes(times: int -> bool, rows: seq<ActivityRow>, id: Id): int -> bool {
    t => times(t) || exists i :: 0 <= i < |rows| && rows[i].Actor() == Some(id) && rows[i].createdAt == t
  }

  lemma {:induction false} LatestAudit(names: Names, rows: seq<AuditRow>, id: Id)
    ensures IsLatest(Audited(names, rows, id).lastActiveAt, AuditTimes(rows, id))
  {
    if rows != [] {
      var n := |rows| - 1;
      LatestAudit(names, rows[..n], id);
      var times, more := AuditTimes(rows[..n], id), AuditTimes(rows, id);
      forall t ensures more(t) <==> times(t) || (rows[n].userId == Some(id) && t == rows[n].timestamp) {
        if times(t) {
          var i :| 0 <= i < n && rows[..n][i].userId == Some(id) && rows[..n][i].timestamp == t;
          assert rows[i] == rows[..n][i];
        }
      }
      if rows[n].userId == Some(id) {
        LatestOfOneMore(Audited(names, rows[..n], id).lastActiveAt, times, rows[n].timestamp, more);
      }
    }
  }

  lemma {:induction false} LatestSession(start: Stats, times: int -> bool, rows: seq<SessionRow>, id: Id)
    requires IsLatest(start.lastActiveAt, times)
    ensures IsLatest(Worked(start, rows, id).lastActiveAt, SessionTimes(times, rows, id))
  {
    if rows != [] {
      var n := |rows| - 1;
      LatestSession(start, times, rows[..n], id);
      var less, more := SessionTimes(times, rows[..n], id), SessionTimes(times, rows, id);
      forall t ensures more(t) <==> less(t) || (rows[n].userId == Some(id) && t == rows[n].lastSeenAt) {
        if i :| 0 <= i < n && rows[..n][i].userId == Some(id) && rows[..n][i].lastSeenAt == t {
          assert rows[i] == rows[..n][i];
        }
      }
      if rows[n].userId == Some(id) {
        LatestOfOneMore(Worked(start, rows[..n], id).lastActiveAt, less, rows[n].lastSeenAt, more);
      }
    }
  }

  lemma {:induction false} LatestActivity(start: Stats, times: int -> bool, rows: seq<ActivityRow>, id: Id)
    requires IsLatest(start.lastActiveAt, times)
    ensures IsLatest(Acted(start, rows, id).lastActiveAt, ActivityTimes(times, rows, id))
  {
    if rows != [] {
      var n := |rows| - 1;
      LatestActivity(start, times, rows[..n], id);
      var less, more := ActivityTimes(times, rows[..n], id), ActivityTimes(times, rows, id);
      forall t ensures more(t) <==> less(t) || (rows[n].Actor() == Some(id) && t == rows[n].createdAt) {
        if i :| 0 <= i < n && rows[..n][i].Actor() == Some(id) && rows[..n][i].createdAt == t {
          assert rows[i] == rows[..n][i];
        }
      }
      if rows[n].Actor() == Some(id) {
        LatestOfOneMore(Acted(start, rows[..n], id).lastActiveAt, less, rows[n].createdAt, more);
      }
    }
  }

  /** A user was last active at the latest of all these times, and never if there are none. */
  lemma LastActiveIsLatest(sources: Sources, id: Id)
    ensures var latest := sources.UserStats(id).lastActiveAt;
      && (latest.Some? ==> SeenAt(sources, id, latest.value))
      && (forall t :: SeenAt(sources, id, t) ==> latest.Some? && t <= latest.value)
  {
    var audited, worked := Audited(sources.names, sources.audits, id), sources.BeforeActivities(id);
    LatestAudit(sources.names, sources.audits, id);
    LatestSession(audited, AuditTimes(sources.audits, id), sources.sessions, id);
    var times := SessionTimes(AuditTimes(sources.audits, id), sources.sessions, id);
    LatestActivity(worked, times, sources.activities, id);
    forall t ensures SeenAt(sources, id, t) <==> ActivityTimes(times, sources.activities, id)(t) {}
  }

  /** A user counts as active exactly if there is anything at all of the user's. */
  lemma ActiveIffSeen(sources: Sources, id: Id)
    ensures sources.UserStats(id).HasActivity() <==> exists t :: SeenAt(sources, id, t)
  {
    LastActiveIsLatest(sources, id);
    var stats := sources.UserStats(id);
    if stats.lastActiveAt.None? {
      NothingSeenNothingCounted(sources, id);
    }
  }

  lemma NothingSeenNothingCounted(sources: Sources, id: Id)
    requires forall t :: !SeenAt(sources, id, t)
    ensures !sources.UserStats(id).HasActivity()
  {
    forall i | 0 <= i < |sources.audits| ensures sources.audits[i].userId != Some(id) {
      assert sources.audits[i].userId == Some(id) ==> SeenAt(sources, id, sources.audits[i].timestamp);
    }
    forall i | 0 <= i < |sources.sessions| ensures sources.sessions[i].userId != Some(id) {
      assert sources.sessions[i].userId == Some(id) ==> SeenAt(sources, id, sources.sessions[i].lastSeenAt);
    }
    forall i | 0 <= i < |sources.activities| ensures sources.activities[i].Actor() != Some(id) {
      assert sources.activities[i].Actor() == Some(id) ==> SeenAt(sources, id, sources.activities[i].createdAt);
    }
    NoAudits(sources.names, sources.audits, id);
    NoSessions(NEW_STATS, sources.sessions, id);
    NoActivities(NEW_STATS, sources.activities, id);
  }

  lemma {:induction false} NoAudits(names: Names, rows: seq<AuditRow>, id: Id)
    requires forall i :: 0 <= i < |rows| ==> rows[i].userId != Some(id)
    ensures Audited(names, rows, id) == NEW_STATS
  {
    if rows != [] { NoAudits(names, rows[..|rows| - 1], id); }
  }

  lemma {:induction false} NoSessions(start: Stats, rows: seq<SessionRow>, id: Id)
    requires forall i :: 0 <= i < |rows| ==> rows[i].userId != Some(id)
    ensures Worked(start, rows, id) == start
  {
    if rows != [] { NoSessions(start, rows[..|rows| - 1], id); }
  }

  lemma {:induction false} NoActivities(start: Stats, rows: seq<ActivityRow>, id: Id)
    requires forall i :: 0 <= i < |rows| ==> rows[i].Actor() != Some(id)
    ensures Acted(start, rows, id) == start
  {
    if rows != [] { NoActivities(start, rows[..|rows| - 1], id); }
  }

  // ---- The two passes ----

  /** The summary of a user that is listed, or nothing. */
  function Listed(sources: Sources, id: Id, listed: bool): seq<Summary> {
    if listed then [Summary(id, sources.UserStats(id))] else []
  }

  /** The summaries hold everything the users `ids` account for. */
  ghost predicate Accounts(sources: Sources, filter: Option<Id>, summaries: seq<Summary>, ids: seq<Id>) {
    && (forall figure :: Total(summaries, figure) == Shares(sources.Contributions(figure), filter, ids))
    && (forall s :: s in summaries ==>
          Wanted(filter, s.userId) && s.userId in ids && s.stats == sources.UserStats(s.userId))
  }

  /** Leaving out a user is safe if the user is not wanted or has no activity at all. */
  lemma OneMoreUser(
    sources: Sources, filter: Option<Id>, summaries: seq<Summary>, ids: seq<Id>, id: Id, listed: bool)
    requires Accounts(sources, filter, summaries, ids)
    requires listed ==> Wanted(filter, id)
    requires !listed ==> !Wanted(filter, id) || !sources.UserStats(id).HasActivity()
    ensures Accounts(sources, filter, summaries + Listed(sources, id, listed), ids + [id])
  {
    var next := summaries + Listed(sources, id, listed);
    assert (ids + [id])[..|ids|] == ids;
    forall figure ensures Total(next, figure) == Shares(sources.Contributions(figure), filter, ids + [id]) {
      FiguresAreShares(sources, id, figure);
      if listed { assert next[..|summaries|] == summaries; } else { assert next == summaries; }
    }
  }

  /** The user has a summary. */
  ghost predicate IsListed(summaries: seq<Summary>, id: Id) {
    exists i :: 0 <= i < |summaries| && summaries[i].userId == id
  }

  ghost predicate ListedOnce(summaries: seq<Summary>) {
    forall i, j :: 0 <= i < j < |summaries| ==> summaries[i].userId != summaries[j].userId
  }

  lemma ListsOneMore(summaries: seq<Summary>, s: Summary)
    requires ListedOnce(summaries) && !IsListed(summaries, s.userId)
    ensures ListedOnce(summaries + [s])
    ensures forall id :: IsListed(summaries + [s], id) <==> IsListed(summaries, id) || id == s.userId
  {
    var more := summaries + [s];
    assert more[|summaries|] == s;
    forall id | IsListed(summaries, id) ensures IsListed(more, id) {
      var i :| 0 <= i < |summaries| && summaries[i].userId == id;
      assert more[i].userId == id;
    }
  }

  /** Users with a row: inactive ones only if they did something. */
  method SummarizeKnown(sources: Sources, filter: Option<Id>, users: map<Id, User>, stats: UserStats, known: seq<Id>)
    returns (summaries: seq<Summary>)
    requires forall id :: StatsOf(stats, id) == sources.UserStats(id)
    requires Distinct(known) && forall id :: id in known ==> id in users
    ensures Accounts(sources, filter, summaries, known)
    ensures ListedOnce(summaries)
    ensures forall id :: IsListed(summaries, id) <==>
      id in known && Wanted(filter, id) && (users[id].isActive || sources.UserStats(id).HasActivity())
  {
    summaries := [];
    for i := 0 to |known|
      invariant Accounts(sources, filter, summaries, known[..i])
      invariant ListedOnce(summaries)
      invariant forall id :: IsListed(summaries, id) <==>
        id in known[..i] && Wanted(filter, id) && (users[id].isActive || sources.UserStats(id).HasActivity())
    {
      var id := known[i];
      var listed := Wanted(filter, id) && (users[id].isActive || StatsOf(stats, id).HasActivity());
      OneMoreUser(sources, filter, summaries, known[..i], id, listed);
      assert known[..i + 1] == known[..i] + [id];
      if listed {
        ListsOneMore(summaries, Summary(id, StatsOf(stats, id)));
        summaries := summaries + [Summary(id, StatsOf(stats, id))];
      } else {
        assert summaries + [] == summaries;
      }
    }
    assert known[..|known|] == known;
  }

  /** Users that no longer have a row. */
  method SummarizeDeleted(
    sources: Sources, filter: Option<Id>, stats: UserStats, known: seq<Id>, deleted: seq<Id>, before: seq<Summary>)
    returns (summaries: seq<Summary>)
    requires forall id :: StatsOf(stats, id) == sources.UserStats(id)
    requires Accounts(sources, filter, before, known)
    requires ListedOnce(before) && Distinct(deleted) && forall id :: id in deleted ==> !IsListed(before, id)
    ensures Accounts(sources, filter, summaries, known + deleted)
    ensures ListedOnce(summaries)
    ensures forall id :: IsListed(summaries, id) <==> IsListed(before, id) || (id in deleted && Wanted(filter, id))
  {
    summaries := before;
    assert known + deleted[..0] == known;
    for i := 0 to |deleted|
      invariant Accounts(sources, filter, summaries, known + deleted[..i])
      invariant ListedOnce(summaries)
      invariant forall id :: IsListed(summaries, id) <==> IsListed(before, id) || (id in deleted[..i] && Wanted(filter, id))
    {
      var id := deleted[i];
      OneMoreUser(sources, filter, summaries, known + deleted[..i], id, Wanted(filter, id));
      assert known + deleted[..i + 1] == known + deleted[..i] + [id];
      if Wanted(filter, id) {
        ListsOneMore(summaries, Summary(id, StatsOf(stats, id)));
        summaries := summaries + [Summary(id, StatsOf(stats, id))];
      } else {
        assert summaries + [] == summaries;
      }
    }
    assert deleted[..|deleted|] == deleted;
  }

  method Sum(summaries: seq<Summary>, figure: Figure) returns (sum: int)
    ensures sum == Total(summaries, figure)
  {
    sum := 0;
    for i := 0 to |summaries|
      invariant sum == Total(summaries[..i], figure)
    {
      assert summaries[..i + 1][..i] == summaries[..i];
      sum := sum + summaries[i].stats.Get(figure);
    }
    assert summaries[..|summaries|] == summaries;
  }

  /**
   * `get_admin_summary`: every figure the dashboard totals is the sum over the sessions and
   * activities whose actor is wanted. No user is lost for being inactive or deleted, none counts
   * twice: each has one summary, except those who are inactive or deleted and did nothing.
   */
  method Summarize(sources: Sources, filter: Option<Id>, users: map<Id, User>)
    returns (summaries: seq<Summary>, seconds: int, calls: int, emails: int)
    ensures forall s :: s in summaries ==> Wanted(filter, s.userId) && s.stats == sources.UserStats(s.userId)
    ensures ListedOnce(summaries)
    ensures forall id :: IsListed(summaries, id) <==>
      Wanted(filter, id)
      && if id in users then users[id].isActive || sources.UserStats(id).HasActivity()
         else sources.UserStats(id).lastActiveAt.Some?
    ensures seconds == Credited(sources.Contributions(Seconds), filter)
    ensures calls == Credited(sources.Contributions(Calls), filter)
    ensures emails == Credited(sources.Contributions(Emails), filter)
  {
    var stats := CollectUserStats(sources);
    var known := Rows(users.Keys);
    var deleted := Rows(stats.Keys - users.Keys);
    EveryActorHasStats(sources, stats);
    summaries := SummarizeKnown(sources, filter, users, stats, known);
    summaries := SummarizeDeleted(sources, filter, stats, known, deleted, summaries);
    seconds := Sum(summaries, Seconds);
    calls := Sum(summaries, Calls);
    emails := Sum(summaries, Emails);
    ghost var ids := known + deleted;
    DistinctTogether(known, deleted);
    forall figure ensures Shares(sources.Contributions(figure), filter, ids) == Credited(sources.Contributions(figure), filter) {
      EveryActorIsListed(sources, ids, figure);
      SharesAreCredited(sources.Contributions(figure), filter, ids);
    }
  }

  lemma EveryActorHasStats(sources: Sources, stats: UserStats)
    requires forall id :: id in stats <==> sources.UserStats(id).lastActiveAt.Some?
    ensures forall row :: row in sources.sessions && row.userId.Some? ==> row.userId.value in stats
    ensures forall row :: row in sources.activities && row.Actor().Some? ==> row.Actor().value in stats
  {
    forall row | row in sources.sessions && row.userId.Some? ensures row.userId.value in stats {
      var i :| 0 <= i < |sources.sessions| && sources.sessions[i] == row;
      LastActiveIsLatest(sources, row.userId.value);
      assert SeenAt(sources, row.userId.value, row.lastSeenAt);
    }
    forall row | row in sources.activities && row.Actor().Some? ensures row.Actor().value in stats {
      var i :| 0 <= i < |sources.activities| && sources.activities[i] == row;
      LastActiveIsLatest(sources, row.Actor().value);
      assert SeenAt(sources, row.Actor().value, row.createdAt);
    }
  }

  lemma EveryActorIsListed(sources: Sources, ids: seq<Id>, figure: Figure)
    requires forall row :: row in sources.sessions && row.userId.Some? ==> row.userId.value in ids
    requires forall row :: row in sources.activities && row.Actor().Some? ==> row.Actor().value in ids
    ensures forall c :: c in sources.Contributions(figure) && c.actor.Some? ==> c.actor.value in ids
  {
    var cs, n := sources.Contributions(figure), |sources.sessions|;
    forall c | c in cs && c.actor.Some? ensures c.actor.value in ids {
      var i :| 0 <= i < |cs| && cs[i] == c;
      if i < n {
        assert sources.sessions[i] in sources.sessions;
      } else {
        assert sources.activities[i - n] in sources.activities;
      }
    }
  }

  lemma DistinctTogether<T(!new)>(a: seq<T>, b: seq<T>)
    requires Distinct(a) && Distinct(b) && forall x :: x in a ==> x !in b
    ensures Distinct(a + b)
  {
    forall i, j | 0 <= i < j < |a + b| ensures (a + b)[i] != (a + b)[j] {
      if i < |a| <= j { assert a[i] in a && b[j - |a|] in b; }
    }
  }

  // ---- With a user filter ----

  function CountOf(rows: seq<ActivityRow>, kind: string): int {
    if rows == [] then 0
    else CountOf(rows[..|rows| - 1], kind) + if rows[|rows| - 1].kind == kind then 1 else 0
  }

  /** The activity query's filter: the user owns the activity or it is assigned to the user. */
  ghost predicate SelectedFor(rows: seq<ActivityRow>, user: Id) {
    forall row :: row in rows ==> row.ownerId == Some(user) || row.assignedToId == Some(user)
  }

  /**
   * Filtered to one user, the query also finds activities that another user owns and this one is
   * assigned. Those belong to the owner, so the total has every call found exactly when none of
   * them is of that kind.
   */
  lemma {:induction false} FilteredCallsAreComplete(rows: seq<ActivityRow>, user: Id)
    requires SelectedFor(rows, user)
    ensures Credited(ActivityContributions(rows, Calls), Some(user)) <= CountOf(rows, "call")
    ensures Credited(ActivityContributions(rows, Calls), Some(user)) == CountOf(rows, "call") <==>
      forall row :: row in rows && row.kind == "call" ==> row.Actor() == Some(user)
  {
    if rows != [] {
      var rest, row := rows[..|rows| - 1], rows[|rows| - 1];
      assert ActivityContributions(rows, Calls)[..|rest|] == ActivityContributions(rest, Calls);
      assert forall r :: r in rows <==> r in rest || r == row;
      FilteredCallsAreComplete(rest, user);
    }
  }

  /** A call that user 1 owns and user 2 is assigned is found for user 2, and not counted. */
  lemma AssignedCallIsNotCounted(row: ActivityRow)
    requires row.kind == "call" && row.ownerId == Some(1) && row.assignedToId == Some(2)
    ensures SelectedFor([row], 2) && CountOf([row], "call") == 1
    ensures Credited(ActivityContributions([row], Calls), Some(2)) == 0
  {
    assert [row][..0] == [];
    assert ActivityContributions([row], Calls)[..0] == [];
  }

  // ---- Per entity ----

  type EntityKey = (string, Id)

  /** `_entity_key`. */
  function KeyOf(names: Names, row: SessionRow): EntityKey {
    (names.plural(row.entityType), row.entityId)
  }

  function EntityContributions(names: Names, rows: seq<SessionRow>): seq<Contribution<EntityKey>> {
    seq(|rows|, i requires 0 <= i < |rows| => Contribution(Some(KeyOf(names, rows[i])), rows[i].duration))
  }

  function AllSeconds(rows: seq<SessionRow>): int {
    if rows == [] then 0 else AllSeconds(rows[..|rows| - 1]) + rows[|rows| - 1].duration
  }

  function SecondsOf(stats: map<EntityKey, int>, key: EntityKey): int {
    if key in stats then stats[key] else 0
  }

  /** The active seconds of `entity_stats`, and their sum over the entity summaries before truncation. */
  method EntitySeconds(names: Names, rows: seq<SessionRow>) returns (stats: map<EntityKey, int>, sum: int)
    ensures forall key :: SecondsOf(stats, key) == Share(EntityContributions(names, rows), key)
    ensures sum == AllSeconds(rows)
  {
    ghost var cs := EntityContributions(names, rows);
    stats := map[];
    assert cs[..0] == [];
    for i := 0 to |rows|
      invariant forall key :: SecondsOf(stats, key) == Share(cs[..i], key)
      invariant forall j :: 0 <= j < i ==> KeyOf(names, rows[j]) in stats
    {
      var key := KeyOf(names, rows[i]);
      forall k { ShareOfOneMore(cs[..i], cs[i], k); }
      assert cs[..i + 1] == cs[..i] + [cs[i]];
      stats := stats[key := SecondsOf(stats, key) + rows[i].duration];
    }
    assert cs[..|rows|] == cs;
    var keys := Rows(stats.Keys);
    sum := 0;
    for i := 0 to |keys|
      invariant sum == Shares(cs, None, keys[..i])
    {
      assert keys[..i + 1][..i] == keys[..i];
      sum := sum + stats[keys[i]];
    }
    assert keys[..|keys|] == keys;
    SharesAreCredited(cs, None, keys);
    EverySecondCounts(names, rows);
  }

  /** The seconds of the sessions on one entity. */
  function SecondsOn(names: Names, rows: seq<SessionRow>, kind: string, entity: Id): int {
    if rows == [] then 0
    else
      var row := rows[|rows| - 1];
      SecondsOn(names, rows[..|rows| - 1], kind, entity)
      + if names.plural(row.entityType) == kind && row.entityId == entity then row.duration else 0
  }

  /** An entity's share is the seconds of its own sessions. */
  lemma {:induction false} EntityShareIsItsSeconds(names: Names, rows: seq<SessionRow>, kind: string, entity: Id)
    ensures Share(EntityContributions(names, rows), (kind, entity)) == SecondsOn(names, rows, kind, entity)
  {
    if rows != [] {
      var rest := rows[..|rows| - 1];
      assert EntityContributions(names, rows)[..|rest|] == EntityContributions(names, rest);
      EntityShareIsItsSeconds(names, rest, kind, entity);
    }
  }

  lemma {:induction false} EverySecondCounts(names: Names, rows: seq<SessionRow>)
    ensures Credited(EntityContributions(names, rows), None) == AllSeconds(rows)
  {
    if rows != [] {
      var rest := rows[..|rows| - 1];
      assert EntityContributions(names, rows)[..|rest|] == EntityContributions(names, rest);
      EverySecondCounts(names, rest);
    }
  }
}
