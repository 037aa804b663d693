/** Heartbeats merged into work sessions. Times are microseconds, as in a Python datetime. */
module WorkSessions {
  import opened Wrappers

  const SECOND := 1_000_000
  const IDLE_TIMEOUT := 300 * SECOND

  datatype Key = Key(userId: Id, entityType: string, entityId: Id, source: string)

  /** A row of `work_sessions`; its id is its position in the table. */
  datatype Session = Session(
    key: Key, startedAt: int, lastSeenAt: int, endedAt: Option<int>, duration: int, metadata: Option<string>)

  type Table = seq<Session>

  /** The whole seconds from one time to another, none if it is not later. */
  ghost predicate WholeSeconds(seconds: int, from: int, to: int) {
    if to <= from then seconds == 0
    else seconds * 1_000_000 <= to - from < (seconds + 1) * 1_000_000
  }

  lemma WholeSecondsAreUnique(a: int, b: int, from: int, to: int)
    requires WholeSeconds(a, from, to) && WholeSeconds(b, from, to)
    ensures a == b
  {
  }

  /** `_duration_seconds`. */
  function Duration(startedAt: int, endedAt: int): (seconds: int)
    ensures WholeSeconds(seconds, startedAt, endedAt)
  {
    if endedAt <= startedAt then 0 else (endedAt - startedAt) / SECOND
  }

  predicate OpenAt(rows: Table, key: Key, i: int) {
    0 <= i < |rows| && rows[i].key == key && rows[i].endedAt.None?
  }

  /** The partial unique index of migration 044. */
  ghost predicate OneOpen(rows: Table) {
    forall k, i, j :: OpenAt(rows, k, i) && OpenAt(rows, k, j) ==> i == j
  }

  /** SELECT the open row of a key, latest first. */
  function OpenRow(rows: Table, key: Key): (row: Option<nat>)
    ensures row.Some? ==> OpenAt(rows, key, row.value)
    ensures row.None? ==> forall i :: !OpenAt(rows, key, i)
  {
    if rows == [] then None
    else
      var last := |rows| - 1;
      var rest := OpenRow(rows[..last], key);
      assert forall i :: OpenAt(rows, key, i) <==> OpenAt(rows[..last], key, i) || (i == last && OpenAt(rows, key, i));
      if OpenAt(rows, key, last) && (rest.Some? ==> rows[rest.value].lastSeenAt <= rows[last].lastSeenAt)
      then Some(last) else rest
  }

  /** Should there be several, it is the one last seen, and the newest of those. */
  lemma {:induction false} OpenRowIsLatest(rows: Table, key: Key, i: nat)
    requires OpenAt(rows, key, i)
    ensures OpenRow(rows, key).Some?
    ensures var row := OpenRow(rows, key).value;
      rows[i].lastSeenAt < rows[row].lastSeenAt || (rows[i].lastSeenAt == rows[row].lastSeenAt && i <= row)
    decreases |rows|
  {
    var last := |rows| - 1;
    if i < last { OpenRowIsLatest(rows[..last], key, i); }
  }

  /** What a heartbeat has made up its mind to do from the row it read. */
  datatype Decision =
    | Extend(id: nat, read: Session)
    | Reopen(id: nat, read: Session)
    | Insert

  function Decide(rows: Table, key: Key, seenAt: int): Decision {
    match OpenRow(rows, key)
    case None => Insert
    case Some(i) =>
      if 0 <= seenAt - rows[i].lastSeenAt <= IDLE_TIMEOUT then Extend(i, rows[i]) else Reopen(i, rows[i])
  }

  /** What an ORM flush leaves in a column: only a value that differs from the one read is written. */
  function Column<T(==)>(current: T, read: T, written: T): T {
    if written != read then written else current
  }

  datatype Beat = Beat(key: Key, seenAt: int, metadata: Option<string>)
  {
    function NewRow(): Session {
      Session(key, seenAt, seenAt, None, 0, metadata)
    }

    /** The UPDATE that moves the end of the session that was `read` to this heartbeat. */
    function Touch(row: Session, read: Session): Session {
      row.(lastSeenAt := Column(row.lastSeenAt, read.lastSeenAt, seenAt),
           duration := Column(row.duration, read.duration, Duration(read.startedAt, seenAt)),
           metadata := if metadata.Some? then Column(row.metadata, read.metadata, metadata) else row.metadata)
    }
  }

  /** The UPDATE that closes the session that was `read`; it was open then, so its end is always written. */
  function Close(row: Session, read: Session): Session {
    row.(endedAt := Some(read.lastSeenAt),
         duration := Column(row.duration, read.duration, Duration(read.startedAt, read.lastSeenAt)))
  }

  /** The decision was made from a table that `rows` has grown out of. */
  predicate Applies(rows: Table, key: Key, d: Decision) {
    d.Insert? || (d.id < |rows| && rows[d.id].key == key == d.read.key && rows[d.id].startedAt == d.read.startedAt)
  }

  /** The transaction's own view when its INSERT runs: an UPDATE of the same flush goes first. */
  function Pending(rows: Table, d: Decision): Table
    requires d.Reopen? ==> d.id < |rows|
  {
    if d.Reopen? then rows[d.id := Close(rows[d.id], d.read)] else rows
  }

  /**
   * The table once the flush commits, whatever was committed since the row was read. No result
   * means that the unique index refuses the INSERT: another open row of the key is there, the
   * IntegrityError rolls the transaction back, and nothing has changed.
   */
  function Flushed(rows: Table, beat: Beat, d: Decision): Option<Table>
    requires Applies(rows, beat.key, d)
  {
    if d.Extend? then Some(rows[d.id := beat.Touch(rows[d.id], d.read)])
    else if OpenRow(Pending(rows, d), beat.key).None? then Some(Pending(rows, d) + [beat.NewRow()])
    else None
  }

  class WorkSessionTable {
    var rows: Table

    /** The first SELECT of `heartbeat`, and what it makes of the row. */
    method Read(key: Key, seenAt: int) returns (d: Decision)
      ensures d == Decide(rows, key, seenAt) && Applies(rows, key, d)
    {
      var session := OpenRow(rows, key);
      if session.Some? {
        var read := rows[session.value];
        var gap := seenAt - read.lastSeenAt;
        if 0 <= gap <= IDLE_TIMEOUT {
          return Extend(session.value, read);
        }
        return Reopen(session.value, read);
      }
      return Insert;
    }

    /** The flush; an IntegrityError takes everything back. */
    method Flush(beat: Beat, d: Decision) returns (refused: bool)
      requires Applies(rows, beat.key, d)
      modifies this
      ensures refused <==> Flushed(old(rows), beat, d).None?
      ensures rows == if refused then old(rows) else Flushed(old(rows), beat, d).value
    {
      var pending := rows;
      match d {
        case Extend(id, read) =>
          rows := rows[id := beat.Touch(rows[id], read)];
          return false;
        case Reopen(id, read) =>
          pending := pending[id := Close(pending[id], read)];
        case Insert =>
      }
      refused := OpenRow(pending, beat.key).Some?;
      if !refused {
        rows := pending + [beat.NewRow()];
      }
    }

    /** `heartbeat` with nothing committed in between, down to the row it retries with. */
    method Heartbeat(beat: Beat)
      modifies this
      ensures rows == Beaten(old(rows), beat)
    {
      var d := Read(beat.key, beat.seenAt);
      var refused := Flush(beat, d);
      if refused {
        var existing := OpenRow(rows, beat.key);
        if existing.Some? {
          refused := Flush(beat, Extend(existing.value, rows[existing.value]));
        }
      }
    }
  }

  /** A heartbeat that nothing competes with. */
  function Beaten(rows: Table, beat: Beat): Table {
    match Flushed(rows, beat, Decide(rows, beat.key, beat.seenAt))
    case Some(after) => after
    case None =>
      match OpenRow(rows, beat.key)
      case None => rows
      case Some(i) => rows[i := beat.Touch(rows[i], rows[i])]
  }

  // ---- What one flush keeps, however stale its decision ----

  /** The table after a flush that may have been refused. */
  function Outcome(rows: Table, beat: Beat, d: Decision): Table
    requires Applies(rows, beat.key, d)
  {
    match Flushed(rows, beat, d) case Some(after) => after case None => rows
  }

  /** `after` opens no row of `rows` that was closed. */
  ghost predicate OpensNone(rows: Table, after: Table) {
    forall key, i :: OpenAt(after, key, i) ==> OpenAt(rows, key, i)
  }

  lemma UpdateOpensNone(rows: Table, id: nat, row: Session)
    requires id < |rows| && row.key == rows[id].key
    requires row.endedAt.None? ==> rows[id].endedAt.None?
    ensures OpensNone(rows, rows[id := row])
  {
    forall key, i | OpenAt(rows[id := row], key, i) ensures OpenAt(rows, key, i) {
      assert rows[id := row][i] == if i == id then row else rows[i];
    }
  }

  lemma InsertKeepsOneOpen(rows: Table, row: Session)
    requires OneOpen(rows) && OpenRow(rows, row.key).None?
    ensures OneOpen(rows + [row])
  {
    forall key, i | OpenAt(rows + [row], key, i)
      ensures OpenAt(rows, key, i) || (i == |rows| && key == row.key)
    {
    }
  }

  /** No flush, however stale what it read, leaves two open rows of a key. */
  lemma FlushKeepsOneOpen(rows: Table, beat: Beat, d: Decision)
    requires OneOpen(rows) && Applies(rows, beat.key, d)
    ensures OneOpen(Outcome(rows, beat, d))
  {
    match d {
      case Extend(id, read) =>
        UpdateOpensNone(rows, id, beat.Touch(rows[id], read));
      case Reopen(id, read) =>
        UpdateOpensNone(rows, id, Close(rows[id], read));
        if OpenRow(Pending(rows, d), beat.key).None? { InsertKeepsOneOpen(Pending(rows, d), beat.NewRow()); }
      case Insert =>
        if OpenRow(rows, beat.key).None? { InsertKeepsOneOpen(rows, beat.NewRow()); }
    }
  }

  /** Every key that has a session has an open one. */
  ghost predicate NoneAbandoned(rows: Table) {
    forall i :: 0 <= i < |rows| ==> OpenRow(rows, rows[i].key).Some?
  }

  /** Rows of other keys stay as they were, and no row's key or start ever changes. */
  ghost predicate OnlyTouches(rows: Table, after: Table, key: Key) {
    && |rows| <= |after| <= |rows| + 1
    && (forall i :: 0 <= i < |rows| ==>
          && after[i].key == rows[i].key && after[i].startedAt == rows[i].startedAt
          && (rows[i].key != key ==> after[i] == rows[i]))
    && (|after| > |rows| ==> after[|rows|].key == key)
  }

  lemma FlushOnlyTouches(rows: Table, beat: Beat, d: Decision)
    requires Applies(rows, beat.key, d)
    ensures OnlyTouches(rows, Outcome(rows, beat, d), beat.key)
  {
  }

  /** A refused INSERT has met an open row of its key, also before its own UPDATE. */
  lemma RefusalMeetsOpenRow(rows: Table, beat: Beat, d: Decision)
    requires Applies(rows, beat.key, d) && Flushed(rows, beat, d).None?
    ensures OpenRow(rows, beat.key).Some?
  {
    var open := OpenRow(Pending(rows, d), beat.key).value;
    assert OpenAt(rows, beat.key, open) by {
      if d.Reopen? { UpdateOpensNone(rows, d.id, Close(rows[d.id], d.read)); }
    }
  }

  /** A flush leaves an open row for its key, its own or the one that refused it, and abandons no other key. */
  lemma FlushAbandonsNone(rows: Table, beat: Beat, d: Decision)
    requires NoneAbandoned(rows) && Applies(rows, beat.key, d)
    ensures OpenRow(Outcome(rows, beat, d), beat.key).Some? && NoneAbandoned(Outcome(rows, beat, d))
  {
    FlushOnlyTouches(rows, beat, d);
    var after := Outcome(rows, beat, d);
    assert exists i :: OpenAt(after, beat.key, i) by {
      if |after| > |rows| {
        assert OpenAt(after, beat.key, |rows|);
      } else if d.Extend? {
        assert rows[d.id].key == beat.key;
        assert OpenAt(after, beat.key, OpenRow(rows, beat.key).value);
      } else {
        RefusalMeetsOpenRow(rows, beat, d);
        assert OpenAt(after, beat.key, OpenRow(rows, beat.key).value);
      }
    }
    forall i | 0 <= i < |after| ensures OpenRow(after, after[i].key).Some? {
      if i < |rows| && rows[i].key != beat.key {
        assert OpenAt(after, rows[i].key, OpenRow(rows, rows[i].key).value);
      }
    }
  }

  // ---- Any number of clients; each SELECT and each flush is a step of its own ----

  /** A client about to flush what it decided, or rolled back and about to SELECT again. */
  datatype Client = Flushing(beat: Beat, d: Decision) | Retrying(beat: Beat)

  datatype World = World(rows: Table, clients: map<nat, Client>, raised: bool)

  datatype Step = Begin(client: nat, beat: Beat) | Proceed(client: nat)

  const EMPTY := World([], map[], false)

  /** What a client has read still fits the table. */
  ghost predicate Fits(rows: Table, c: Client) {
    match c
    case Flushing(beat, d) => Applies(rows, beat.key, d)
    case Retrying(beat) => OpenRow(rows, beat.key).Some?
  }

  ghost predicate Sound(w: World) {
    && OneOpen(w.rows) && NoneAbandoned(w.rows) && !w.raised
    && forall c :: c in w.clients ==> Fits(w.rows, w.clients[c])
  }

  function Next(w: World, step: Step): World {
    match step
    case Begin(c, beat) => w.(clients := w.clients[c := Flushing(beat, Decide(w.rows, beat.key, beat.seenAt))])
    case Proceed(c) => if c in w.clients then Proceeds(w, c, w.clients[c]) else w
  }

  /** A flush, or the SELECT after a refused one; finding no row there lets the IntegrityError escape. */
  function Proceeds(w: World, c: nat, client: Client): World {
    match client
    case Flushing(beat, d) =>
      if !Applies(w.rows, beat.key, d) then w
      else if Flushed(w.rows, beat, d).None? then w.(clients := w.clients[c := Retrying(beat)])
      else w.(rows := Outcome(w.rows, beat, d), clients := w.clients - {c})
    case Retrying(beat) =>
      match OpenRow(w.rows, beat.key)
      case None => w.(clients := w.clients - {c}, raised := true)
      case Some(i) => w.(clients := w.clients[c := Flushing(beat, Extend(i, w.rows[i]))])
  }

  function After(w: World, steps: seq<Step>): World {
    if steps == [] then w else Next(After(w, steps[..|steps| - 1]), steps[|steps| - 1])
  }

  /** What another client has read goes on fitting after a flush. */
  lemma FlushKeepsFit(rows: Table, beat: Beat, d: Decision, other: Client)
    requires NoneAbandoned(rows) && Applies(rows, beat.key, d) && Fits(rows, other)
    ensures Fits(Outcome(rows, beat, d), other)
  {
    FlushOnlyTouches(rows, beat, d);
    FlushAbandonsNone(rows, beat, d);
    if other.Retrying? {
      var i := OpenRow(rows, other.beat.key).value;
      assert Outcome(rows, beat, d)[i].key == other.beat.key;
    }
  }

  lemma StepKeepsSound(w: World, step: Step)
    requires Sound(w)
    ensures Sound(Next(w, step))
  {
    if step.Proceed? && step.client in w.clients && w.clients[step.client].Flushing? {
      var Flushing(beat, d) := w.clients[step.client];
      assert Fits(w.rows, w.clients[step.client]);
      FlushKeepsOneOpen(w.rows, beat, d);
      FlushAbandonsNone(w.rows, beat, d);
      if Flushed(w.rows, beat, d).None? {
        RefusalMeetsOpenRow(w.rows, beat, d);
      } else {
        forall c | c in w.clients - {step.client} ensures Fits(Outcome(w.rows, beat, d), w.clients[c]) {
          FlushKeepsFit(w.rows, beat, d, w.clients[c]);
        }
      }
    }
  }

  /** Whatever the interleaving: one open row per key that was ever seen, and no heartbeat fails. */
  lemma {:induction false} EveryInterleavingIsSound(steps: seq<Step>)
    ensures Sound(After(EMPTY, steps))
  {
    if steps != [] {
      EveryInterleavingIsSound(steps[..|steps| - 1]);
      StepKeepsSound(After(EMPTY, steps[..|steps| - 1]), steps[|steps| - 1]);
    }
  }

  // ---- What staleness can spoil, and exactly when ----

  ghost predicate Frozen(rows: Table, after: Table) {
    |rows| <= |after| && forall i :: 0 <= i < |rows| && rows[i].endedAt.Some? ==> after[i] == rows[i]
  }

  /** An extension whose row a competitor has closed since it was read; a retry ends in one, too. */
  predicate Overtaken(rows: Table, d: Decision) {
    d.Extend? && d.id < |rows| && rows[d.id].endedAt.Some?
  }

  /** A close goes through exactly when the session is still open; otherwise the INSERT is refused. */
  lemma ReopenNeedsOpenRow(rows: Table, beat: Beat, d: Decision)
    requires OneOpen(rows) && NoneAbandoned(rows) && Applies(rows, beat.key, d) && d.Reopen?
    ensures Flushed(rows, beat, d).Some? <==> rows[d.id].endedAt.None?
  {
    var pending := Pending(rows, d);
    if rows[d.id].endedAt.Some? {
      assert OpenAt(pending, beat.key, OpenRow(rows, rows[d.id].key).value);
    } else {
      assert OpenAt(rows, beat.key, d.id);
      UpdateOpensNone(rows, d.id, Close(rows[d.id], d.read));
    }
  }

  /** A closed row is edited exactly by an extension that was overtaken and has something new to write. */
  lemma ClosedRowsAreFrozen(rows: Table, beat: Beat, d: Decision)
    requires OneOpen(rows) && NoneAbandoned(rows) && Applies(rows, beat.key, d)
    ensures Frozen(rows, Outcome(rows, beat, d)) <==>
      !Overtaken(rows, d) || beat.Touch(rows[d.id], d.read) == rows[d.id]
  {
    if d.Reopen? { ReopenNeedsOpenRow(rows, beat, d); }
    if Overtaken(rows, d) { assert Outcome(rows, beat, d)[d.id] == beat.Touch(rows[d.id], d.read); }
  }

  /** `duration_seconds` is what the two stamps of the row say. */
  ghost predicate Matches(row: Session) {
    WholeSeconds(row.duration, row.startedAt, row.lastSeenAt)
  }

  ghost predicate Consistent(rows: Table) {
    forall i :: 0 <= i < |rows| ==> Matches(rows[i])
  }

  /**
   * An extension that moves the last-seen stamp within the second it was read in, so that it leaves
   * the duration alone, while the duration has moved to another second since.
   */
  ghost predicate Torn(rows: Table, beat: Beat, d: Decision) {
    && d.Extend? && d.id < |rows| && beat.seenAt != d.read.lastSeenAt
    && WholeSeconds(d.read.duration, d.read.startedAt, beat.seenAt) && rows[d.id].duration != d.read.duration
  }

  /** Durations stop matching their stamps exactly when a torn extension goes through. */
  lemma DurationsStayConsistent(rows: Table, beat: Beat, d: Decision)
    requires Consistent(rows) && Applies(rows, beat.key, d) && (d.Insert? || Matches(d.read))
    ensures Consistent(Outcome(rows, beat, d)) <==> !Torn(rows, beat, d)
  {
    if !d.Insert? {
      var read, row := d.read, rows[d.id];
      WholeSecondsAreUnique(read.duration, Duration(read.startedAt, read.lastSeenAt), read.startedAt, read.lastSeenAt);
      WholeSecondsAreUnique(row.duration, Duration(row.startedAt, row.lastSeenAt), row.startedAt, row.lastSeenAt);
    }
    if d.Extend? && WholeSeconds(d.read.duration, d.read.startedAt, beat.seenAt) {
      WholeSecondsAreUnique(d.read.duration, Duration(d.read.startedAt, beat.seenAt), d.read.startedAt, beat.seenAt);
    }
    if Torn(rows, beat, d) {
      var row := Outcome(rows, beat, d)[d.id];
      assert row.lastSeenAt == beat.seenAt && row.duration == rows[d.id].duration;
      if Matches(row) {
        WholeSecondsAreUnique(row.duration, Duration(row.startedAt, row.lastSeenAt), row.startedAt, row.lastSeenAt);
      }
      assert !Matches(row);
    }
  }

  ghost predicate TornAt(w: World, step: Step) {
    && step.Proceed? && step.client in w.clients && w.clients[step.client].Flushing?
    && Torn(w.rows, w.clients[step.client].beat, w.clients[step.client].d)
  }

  ghost predicate NeverTorn(steps: seq<Step>) {
    steps != [] ==>
      NeverTorn(steps[..|steps| - 1]) && !TornAt(After(EMPTY, steps[..|steps| - 1]), steps[|steps| - 1])
  }

  ghost predicate Faithful(c: Client) {
    c.Flushing? && !c.d.Insert? ==> Matches(c.d.read)
  }

  lemma {:induction false} UntornRunsAreConsistent(steps: seq<Step>)
    requires NeverTorn(steps)
    ensures var w := After(EMPTY, steps);
      Consistent(w.rows) && forall c :: c in w.clients ==> Faithful(w.clients[c])
  {
    if steps != [] {
      var w, step := After(EMPTY, steps[..|steps| - 1]), steps[|steps| - 1];
      EveryInterleavingIsSound(steps[..|steps| - 1]);
      UntornRunsAreConsistent(steps[..|steps| - 1]);
      if step.Proceed? && step.client in w.clients && w.clients[step.client].Flushing? {
        var c := w.clients[step.client];
        assert Fits(w.rows, c) && Faithful(c);
        DurationsStayConsistent(w.rows, c.beat, c.d);
      }
    }
  }

  /** Over whole runs: the durations of a table are first spoiled by a torn extension, and by any such. */
  lemma TearingSpoilsDurations(steps: seq<Step>, step: Step)
    requires NeverTorn(steps)
    ensures Consistent(After(EMPTY, steps + [step]).rows) <==> !TornAt(After(EMPTY, steps), step)
  {
    var w := After(EMPTY, steps);
    assert (steps + [step])[..|steps|] == steps;
    UntornRunsAreConsistent(steps);
    EveryInterleavingIsSound(steps);
    if step.Proceed? && step.client in w.clients && w.clients[step.client].Flushing? {
      var c := w.clients[step.client];
      assert Fits(w.rows, c) && Faithful(c);
      DurationsStayConsistent(w.rows, c.beat, c.d);
    }
  }

  /** Closed rows end where they were last seen. */
  ghost predicate EndsWhereSeen(rows: Table) {
    forall i :: 0 <= i < |rows| && rows[i].endedAt.Some? ==> rows[i].endedAt.value == rows[i].lastSeenAt
  }

  /** A close that misses an extension made since it read, or an extension of a row closed elsewhere. */
  predicate EndsElsewhere(rows: Table, beat: Beat, d: Decision) {
    || (d.Reopen? && d.id < |rows| && rows[d.id].endedAt.None? && rows[d.id].lastSeenAt != d.read.lastSeenAt)
    || (Overtaken(rows, d) && beat.seenAt != d.read.lastSeenAt && beat.seenAt != rows[d.id].lastSeenAt)
  }

  /** A closed row stops ending where it was last seen exactly then. */
  lemma EndsStayWhereSeen(rows: Table, beat: Beat, d: Decision)
    requires OneOpen(rows) && NoneAbandoned(rows) && EndsWhereSeen(rows) && Applies(rows, beat.key, d)
    ensures EndsWhereSeen(Outcome(rows, beat, d)) <==> !EndsElsewhere(rows, beat, d)
  {
    if d.Reopen? { ReopenNeedsOpenRow(rows, beat, d); }
    if EndsElsewhere(rows, beat, d) {
      var row := Outcome(rows, beat, d)[d.id];
      assert row.endedAt.Some? && row.endedAt.value != row.lastSeenAt;
    }
  }

  /** With nothing committed in between, none of this can happen. */
  lemma FreshDecisionsAreSafe(rows: Table, beat: Beat)
    requires Consistent(rows)
    ensures var d := Decide(rows, beat.key, beat.seenAt);
      Applies(rows, beat.key, d) && !Overtaken(rows, d) && !Torn(rows, beat, d) && !EndsElsewhere(rows, beat, d)
  {
  }

  // ---- And all of it does happen ----

  lemma OnlyRow(row: Session)
    ensures OpenRow([row], row.key) == if row.endedAt.None? then Some(0) else None
  {
    assert [row][..0] == [];
  }

  /** The table when client 0 has opened a session at time 0. */
  function Begun(key: Key): World {
    Next(Next(EMPTY, Begin(0, Beat(key, 0, None))), Proceed(0))
  }

  lemma BegunHasOneRow(key: Key)
    ensures Begun(key) == World([Beat(key, 0, None).NewRow()], map[], false)
  {
    var begun := Next(EMPTY, Begin(0, Beat(key, 0, None)));
    assert begun.clients[0] == Flushing(Beat(key, 0, None), Insert);
    assert begun.clients - {0} == map[];
  }

  /** A client that reads `row` within the timeout means to extend it. */
  lemma BeginsToExtend(w: World, c: nat, beat: Beat, row: Session)
    requires w.rows == [row] && row.key == beat.key && row.endedAt.None?
    requires 0 <= beat.seenAt - row.lastSeenAt <= IDLE_TIMEOUT
    ensures Next(w, Begin(c, beat)) == w.(clients := w.clients[c := Flushing(beat, Extend(0, row))])
  {
    OnlyRow(row);
  }

  lemma ExtendsOnly(w: World, c: nat, beat: Beat, row: Session, read: Session)
    requires w.rows == [row] && c in w.clients && w.clients[c] == Flushing(beat, Extend(0, read))
    requires row.key == beat.key == read.key && row.startedAt == read.startedAt
    ensures Next(w, Proceed(c)) == w.(rows := [beat.Touch(row, read)], clients := w.clients - {c})
  {
    assert [row][0 := beat.Touch(row, read)] == [beat.Touch(row, read)];
  }

  lemma ReopensOnly(w: World, c: nat, beat: Beat, row: Session, read: Session)
    requires w.rows == [row] && row.endedAt.None? && c in w.clients && w.clients[c] == Flushing(beat, Reopen(0, read))
    requires row.key == beat.key == read.key && row.startedAt == read.startedAt
    ensures Next(w, Proceed(c)) == w.(rows := [Close(row, read), beat.NewRow()], clients := w.clients - {c})
  {
    OnlyRow(Close(row, read));
    assert [row][0 := Close(row, read)] == [Close(row, read)];
    assert [Close(row, read)] + [beat.NewRow()] == [Close(row, read), beat.NewRow()];
  }

  /** While client 1 waits to extend the session, client 2 finds it idle and closes it. */
  lemma OvertakenIsReachable(key: Key)
    ensures var steps := [Begin(1, Beat(key, 100 * SECOND, None)), Begin(2, Beat(key, 400 * SECOND, None)), Proceed(2)];
      var w := Next(Next(Next(Begun(key), steps[0]), steps[1]), steps[2]);
      1 in w.clients && w.clients[1].Flushing? && Overtaken(w.rows, w.clients[1].d)
  {
    var soon, late, row := Beat(key, 100 * SECOND, None), Beat(key, 400 * SECOND, None), Beat(key, 0, None).NewRow();
    BegunHasOneRow(key);
    BeginsToExtend(Begun(key), 1, soon, row);
    var w := Next(Begun(key), Begin(1, soon));
    OnlyRow(row);
    ReopensOnly(Next(w, Begin(2, late)), 2, late, row, row);
  }

  lemma InsertsFirst(w: World, c: nat, beat: Beat)
    requires w.rows == [] && c in w.clients && w.clients[c] == Flushing(beat, Insert)
    ensures Next(w, Proceed(c)) == w.(rows := [beat.NewRow()], clients := w.clients - {c})
  {
    assert [] + [beat.NewRow()] == [beat.NewRow()];
  }

  /** A client whose INSERT is refused goes on to extend the row that is in its way. */
  lemma RefusedFindsRow(w: World, c: nat, beat: Beat, row: Session)
    requires w.rows == [row] && row.key == beat.key && row.endedAt.None?
    requires c in w.clients && w.clients[c] == Flushing(beat, Insert)
    ensures Next(Next(w, Proceed(c)), Proceed(c)) == w.(clients := w.clients[c := Flushing(beat, Extend(0, row))])
  {
    OnlyRow(row);
    assert Next(w, Proceed(c)) == w.(clients := w.clients[c := Retrying(beat)]);
    assert w.clients[c := Retrying(beat)][c := Flushing(beat, Extend(0, row))]
      == w.clients[c := Flushing(beat, Extend(0, row))];
  }

  /**
   * The same to a retry: clients 1 and 2 both find no session; 1 inserts, 2 is refused and finds
   * the row of 1; before it writes, client 3 closes that row.
   */
  lemma OvertakenRetryIsReachable(key: Key)
    ensures var none := Next(Next(EMPTY, Begin(1, Beat(key, 0, None))), Begin(2, Beat(key, SECOND, None)));
      var found := Next(Next(Next(none, Proceed(1)), Proceed(2)), Proceed(2));
      var w := Next(Next(found, Begin(3, Beat(key, 400 * SECOND, None))), Proceed(3));
      2 in w.clients && w.clients[2].Flushing? && Overtaken(w.rows, w.clients[2].d)
  {
    var first, second, late := Beat(key, 0, None), Beat(key, SECOND, None), Beat(key, 400 * SECOND, None);
    var row := first.NewRow();
    var none := Next(Next(EMPTY, Begin(1, first)), Begin(2, second));
    InsertsFirst(none, 1, first);
    var inserted := Next(none, Proceed(1));
    RefusedFindsRow(inserted, 2, second, row);
    var found := Next(Next(inserted, Proceed(2)), Proceed(2));
    OnlyRow(row);
    ReopensOnly(Next(found, Begin(3, late)), 3, late, row, row);
  }

  /**
   * Client 2 reads a session last seen at 100 s; client 3 extends it to 200 s; then client 2 writes
   * 100.4 s, and leaves the duration at 200.
   */
  lemma TornIsReachable(key: Key)
    ensures var read := Next(Next(Begun(key), Begin(1, Beat(key, 100 * SECOND, None))), Proceed(1));
      var both := Next(Next(read, Begin(2, Beat(key, 100_400_000, None))), Begin(3, Beat(key, 200 * SECOND, None)));
      var w := Next(Next(both, Proceed(3)), Proceed(2));
      w.rows == [Session(key, 0, 100_400_000, None, 200, None)] && !Consistent(w.rows)
  {
    var b1, b2, b3 := Beat(key, 100 * SECOND, None), Beat(key, 100_400_000, None), Beat(key, 200 * SECOND, None);
    var row := Beat(key, 0, None).NewRow();
    BegunHasOneRow(key);
    BeginsToExtend(Begun(key), 1, b1, row);
    ExtendsOnly(Next(Begun(key), Begin(1, b1)), 1, b1, row, row);
    var read := Next(Next(Begun(key), Begin(1, b1)), Proceed(1));
    var seen := Session(key, 0, 100 * SECOND, None, 100, None);
    assert read.rows == [seen];
    BeginsToExtend(read, 2, b2, seen);
    BeginsToExtend(Next(read, Begin(2, b2)), 3, b3, seen);
    var both := Next(Next(read, Begin(2, b2)), Begin(3, b3));
    ExtendsOnly(both, 3, b3, seen, seen);
    var extended := Session(key, 0, 200 * SECOND, None, 200, None);
    assert Duration(0, 200 * SECOND) == 200 && b3.Touch(seen, seen) == extended;
    var last := Next(both, Proceed(3));
    ExtendsOnly(last, 2, b2, extended, seen);
    assert Duration(0, 100_400_000) == 100 && b2.Touch(extended, seen) == Session(key, 0, 100_400_000, None, 200, None);
    assert !WholeSeconds(200, 0, 100_400_000);
    assert !Matches(Next(last, Proceed(2)).rows[0]);
  }

  /**
   * Client 1, with a beat from before the last one, means to close the session; client 2 extends
   * it; the session then ends a second before it was last seen.
   */
  lemma EndsElsewhereIsReachable(key: Key)
    ensures var both := Next(Next(Begun(key), Begin(1, Beat(key, -SECOND, None))), Begin(2, Beat(key, SECOND, None)));
      var w := Next(Next(both, Proceed(2)), Proceed(1));
      w.rows == [Session(key, 0, SECOND, Some(0), 1, None), Beat(key, -SECOND, None).NewRow()] && !EndsWhereSeen(w.rows)
  {
    var early, later, row := Beat(key, -SECOND, None), Beat(key, SECOND, None), Beat(key, 0, None).NewRow();
    BegunHasOneRow(key);
    OnlyRow(row);
    var w := Next(Begun(key), Begin(1, early));
    assert w.clients[1] == Flushing(early, Reopen(0, row));
    BeginsToExtend(w, 2, later, row);
    var both := Next(w, Begin(2, later));
    ExtendsOnly(both, 2, later, row, row);
    var extended := Session(key, 0, SECOND, None, 1, None);
    assert Next(both, Proceed(2)).rows == [extended];
    ReopensOnly(Next(both, Proceed(2)), 1, early, extended, row);
    assert [Close(extended, row), early.NewRow()][0] == Session(key, 0, SECOND, Some(0), 1, None);
  }
}
