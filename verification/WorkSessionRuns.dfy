/** What a whole run of heartbeats adds up to. */
module WorkSessionRuns {
  import opened Wrappers
  import opened WorkSessions

  /** The table after a sequence of heartbeats of any keys, each one read and written at once. */
  function Run(beats: seq<Beat>): Table {
    if beats == [] then [] else Beaten(Run(beats[..|beats| - 1]), beats[|beats| - 1])
  }

  /** When the beats of one key came. */
  function Times(beats: seq<Beat>, key: Key): seq<int> {
    if beats == [] then []
    else
      var last := beats[|beats| - 1];
      Times(beats[..|beats| - 1], key) + (if last.key == key then [last.seenAt] else [])
  }

  ghost predicate Ascending(ts: seq<int>) {
    forall i, j :: 0 <= i < j < |ts| ==> ts[i] <= ts[j]
  }

  /** The active time: the gaps between consecutive beats that are no longer than 300 seconds. */
  function ShortGaps(ts: seq<int>): int {
    if |ts| < 2 then 0
    else
      var gap := ts[|ts| - 1] - ts[|ts| - 2];
      ShortGaps(ts[..|ts| - 1]) + (if gap <= 300_000_000 then gap else 0)
  }

  /** The time between the two stamps of all sessions of a key. */
  function Spans(rows: Table, key: Key): int {
    if rows == [] then 0
    else
      var last := rows[|rows| - 1];
      Spans(rows[..|rows| - 1], key) + (if last.key == key then last.lastSeenAt - last.startedAt else 0)
  }

  function TotalSeconds(rows: Table, key: Key): int {
    if rows == [] then 0
    else
      var last := rows[|rows| - 1];
      TotalSeconds(rows[..|rows| - 1], key) + (if last.key == key then last.duration else 0)
  }

  // ---- One beat ----

  /** The three ways a beat that nothing competes with can go. */
  lemma BeatenCases(rows: Table, beat: Beat)
    requires OneOpen(rows)
    ensures OneOpen(Beaten(rows, beat))
    ensures match OpenRow(rows, beat.key)
      case None => Beaten(rows, beat) == rows + [beat.NewRow()]
      case Some(i) =>
        Beaten(rows, beat) ==
          if 0 <= beat.seenAt - rows[i].lastSeenAt <= IDLE_TIMEOUT
          then rows[i := beat.Touch(rows[i], rows[i])]
          else rows[i := Close(rows[i], rows[i])] + [beat.NewRow()]
  {
    var d := Decide(rows, beat.key, beat.seenAt);
    FlushKeepsOneOpen(rows, beat, d);
    if d.Reopen? {
      UpdateOpensNone(rows, d.id, Close(rows[d.id], d.read));
    }
  }

  /** And what they write, column by column. */
  lemma BeatenColumns(rows: Table, beat: Beat)
    requires OneOpen(rows)
    ensures var Beat(key, seenAt, metadata), after := beat, Beaten(rows, beat);
      match OpenRow(rows, key)
      case None => after == rows + [Session(key, seenAt, seenAt, None, 0, metadata)]
      case Some(i) =>
        var Session(_, startedAt, lastSeenAt, _, _, noted) := rows[i];
        if 0 <= seenAt - lastSeenAt <= 300_000_000 then
          exists seconds :: WholeSeconds(seconds, startedAt, seenAt) && after == rows[i :=
            Session(key, startedAt, seenAt, None, seconds, if metadata.Some? then metadata else noted)]
        else
          exists seconds :: WholeSeconds(seconds, startedAt, lastSeenAt) && after == rows[i :=
            Session(key, startedAt, lastSeenAt, Some(lastSeenAt), seconds, noted)]
            + [Session(key, seenAt, seenAt, None, 0, metadata)]
  {
    BeatenCases(rows, beat);
    if OpenRow(rows, beat.key).Some? {
      var row := rows[OpenRow(rows, beat.key).value];
      assert WholeSeconds(Duration(row.startedAt, beat.seenAt), row.startedAt, beat.seenAt);
      assert WholeSeconds(Duration(row.startedAt, row.lastSeenAt), row.startedAt, row.lastSeenAt);
    }
  }

  lemma SpansAppend(rows: Table, row: Session, key: Key)
    ensures Spans(rows + [row], key) ==
      Spans(rows, key) + if row.key == key then row.lastSeenAt - row.startedAt else 0
  {
    assert (rows + [row])[..|rows|] == rows;
  }

  lemma {:induction false} SpansUpdate(rows: Table, i: nat, row: Session, key: Key)
    requires i < |rows| && row.key == rows[i].key && row.startedAt == rows[i].startedAt
    ensures Spans(rows[i := row], key) ==
      Spans(rows, key) + if row.key == key then row.lastSeenAt - rows[i].lastSeenAt else 0
    decreases |rows|
  {
    var last := |rows| - 1;
    if i == last {
      assert rows[i := row][..last] == rows[..last];
    } else {
      SpansUpdate(rows[..last], i, row, key);
      assert rows[i := row][..last] == rows[..last][i := row];
    }
  }

  // ---- What the sessions of a key say about its beats ----

  /** The sessions of `key`, after beats at the times `ts`. */
  ghost predicate Tracks(rows: Table, key: Key, ts: seq<int>) {
    && OneOpen(rows)
    && (ts == [] ==> forall i :: 0 <= i < |rows| ==> rows[i].key != key)
    && (ts != [] ==> OpenRow(rows, key).Some? && rows[OpenRow(rows, key).value].lastSeenAt == ts[|ts| - 1])
    && (forall i :: 0 <= i < |rows| && rows[i].key == key ==> Records(rows[i], ts))
    && Separated(rows, key)
    && Spans(rows, key) == ShortGaps(ts)
  }

  ghost predicate Records(row: Session, ts: seq<int>) {
    && row.startedAt in ts && row.lastSeenAt in ts && row.startedAt <= row.lastSeenAt
    && row.duration * 1_000_000 <= row.lastSeenAt - row.startedAt < (row.duration + 1) * 1_000_000
    && (row.endedAt.Some? ==> row.endedAt.value == row.lastSeenAt)
  }

  /** In table order the sessions are closed, apart from the last, and more than 300 seconds apart. */
  ghost predicate Separated(rows: Table, key: Key) {
    forall i, j :: 0 <= i < j < |rows| && rows[i].key == key && rows[j].key == key ==>
      rows[i].endedAt.Some? && rows[i].lastSeenAt + 300_000_000 < rows[j].startedAt
  }

  /** The rows of `key` are the same, at the same positions. */
  ghost predicate SameFor(rows: Table, after: Table, key: Key) {
    && |rows| <= |after|
    && (forall i :: 0 <= i < |rows| && (rows[i].key == key || after[i].key == key) ==> after[i] == rows[i])
    && (forall i :: |rows| <= i < |after| ==> after[i].key != key)
  }

  lemma SameRowsTrack(rows: Table, after: Table, key: Key, ts: seq<int>)
    requires Tracks(rows, key, ts) && SameFor(rows, after, key)
    requires OneOpen(after) && Spans(after, key) == Spans(rows, key)
    ensures Tracks(after, key, ts)
  {
    if ts != [] {
      assert OpenAt(after, key, OpenRow(rows, key).value);
    }
  }

  lemma OtherKeysBeat(rows: Table, beat: Beat, key: Key, ts: seq<int>)
    requires Tracks(rows, key, ts) && beat.key != key
    ensures Tracks(Beaten(rows, beat), key, ts)
  {
    BeatenCases(rows, beat);
    var after := Beaten(rows, beat);
    match OpenRow(rows, beat.key) {
      case None =>
        SpansAppend(rows, beat.NewRow(), key);
      case Some(i) =>
        if 0 <= beat.seenAt - rows[i].lastSeenAt <= IDLE_TIMEOUT {
          SpansUpdate(rows, i, beat.Touch(rows[i], rows[i]), key);
        } else {
          var closed := rows[i := Close(rows[i], rows[i])];
          SpansUpdate(rows, i, Close(rows[i], rows[i]), key);
          SpansAppend(closed, beat.NewRow(), key);
        }
    }
    assert SameFor(rows, after, key);
    SameRowsTrack(rows, after, key, ts);
  }

  lemma FirstBeat(rows: Table, beat: Beat)
    requires Tracks(rows, beat.key, [])
    ensures Tracks(Beaten(rows, beat), beat.key, [beat.seenAt])
  {
    BeatenCases(rows, beat);
    SpansAppend(rows, beat.NewRow(), beat.key);
    assert OpenAt(Beaten(rows, beat), beat.key, |rows|);
    assert [beat.seenAt][0] in [beat.seenAt];
  }

  /** The open row is the last of its key, and its last beat is the last there was. */
  lemma OpenRowIsLast(rows: Table, key: Key, ts: seq<int>) returns (i: nat)
    requires Tracks(rows, key, ts) && ts != []
    ensures OpenRow(rows, key) == Some(i) && rows[i].lastSeenAt == ts[|ts| - 1]
    ensures forall j :: 0 <= j < |rows| && rows[j].key == key ==> j <= i
  {
    i := OpenRow(rows, key).value;
  }

  lemma RecordsGrow(row: Session, ts: seq<int>, t: int)
    requires Records(row, ts)
    ensures Records(row, ts + [t])
  {
  }

  lemma TouchingKeepsRecords(row: Session, beat: Beat, ts: seq<int>)
    requires Records(row, ts) && row.endedAt.None? && row.startedAt <= beat.seenAt
    ensures Records(beat.Touch(row, row), ts + [beat.seenAt])
  {
    assert (ts + [beat.seenAt])[|ts|] == beat.seenAt;
    var seconds := Duration(row.startedAt, beat.seenAt);
    assert WholeSeconds(seconds, row.startedAt, beat.seenAt);
    assert beat.Touch(row, row).duration == seconds;
  }

  /** All rows of the key but one are untouched, so they stay on record. */
  ghost predicate RestRecorded(after: Table, key: Key, ts: seq<int>, i: nat) {
    forall j :: 0 <= j < |after| && j != i && after[j].key == key ==> Records(after[j], ts)
  }

  lemma OthersStayRecorded(rows: Table, key: Key, ts: seq<int>, t: int, i: nat, row: Session)
    requires i < |rows| && forall j :: 0 <= j < |rows| && rows[j].key == key ==> Records(rows[j], ts)
    ensures RestRecorded(rows[i := row], key, ts + [t], i)
  {
    forall j | 0 <= j < |rows| && j != i && rows[j].key == key ensures Records(rows[j], ts + [t]) {
      RecordsGrow(rows[j], ts, t);
    }
  }

  lemma TouchingKeepsApart(rows: Table, beat: Beat, i: nat)
    requires i < |rows| && rows[i].key == beat.key && rows[i].endedAt.None? && Separated(rows, beat.key)
    ensures Separated(rows[i := beat.Touch(rows[i], rows[i])], beat.key)
  {
  }

  /** A beat within 300 seconds lengthens the open session by the gap. */
  lemma ExtendingBeat(rows: Table, beat: Beat, ts: seq<int>)
    requires Tracks(rows, beat.key, ts) && ts != [] && 0 <= beat.seenAt - ts[|ts| - 1] <= 300_000_000
    ensures Tracks(Beaten(rows, beat), beat.key, ts + [beat.seenAt])
  {
    BeatenCases(rows, beat);
    var key, times := beat.key, ts + [beat.seenAt];
    var i := OpenRowIsLast(rows, key, ts);
    var row := beat.Touch(rows[i], rows[i]);
    var after := rows[i := row];
    assert Records(rows[i], ts);
    SpansUpdate(rows, i, row, key);
    assert times[..|ts|] == ts;
    TouchingKeepsRecords(rows[i], beat, ts);
    OthersStayRecorded(rows, key, ts, beat.seenAt, i, row);
    forall j | 0 <= j < |after| && after[j].key == key ensures Records(after[j], times) {
      if j == i { assert after[j] == row; }
    }
    TouchingKeepsApart(rows, beat, i);
    assert OpenAt(after, key, i);
  }

  lemma ClosingKeepsRecords(row: Session, ts: seq<int>, t: int)
    requires Records(row, ts) && row.endedAt.None?
    ensures Records(Close(row, row), ts + [t])
  {
    WholeSecondsAreUnique(row.duration, Duration(row.startedAt, row.lastSeenAt), row.startedAt, row.lastSeenAt);
  }

  lemma NewRowRecords(beat: Beat, ts: seq<int>)
    ensures Records(beat.NewRow(), ts + [beat.seenAt])
  {
    assert (ts + [beat.seenAt])[|ts|] == beat.seenAt;
  }

  lemma ReopeningSeparates(rows: Table, beat: Beat, i: nat)
    requires i < |rows| && rows[i].key == beat.key && Separated(rows, beat.key)
    requires forall j :: 0 <= j < |rows| && rows[j].key == beat.key ==> j <= i
    requires rows[i].startedAt <= rows[i].lastSeenAt && rows[i].lastSeenAt + 300_000_000 < beat.seenAt
    ensures Separated(rows[i := Close(rows[i], rows[i])] + [beat.NewRow()], beat.key)
  {
    var after := rows[i := Close(rows[i], rows[i])] + [beat.NewRow()];
    forall j | 0 <= j < |rows| && rows[j].key == beat.key
      ensures after[j].endedAt.Some? && after[j].lastSeenAt + 300_000_000 < beat.seenAt
    {
    }
  }

  /** A later beat closes the session where it was last seen and starts the next one. */
  lemma ReopeningBeat(rows: Table, beat: Beat, ts: seq<int>)
    requires Tracks(rows, beat.key, ts) && ts != [] && 300_000_000 < beat.seenAt - ts[|ts| - 1]
    ensures Tracks(Beaten(rows, beat), beat.key, ts + [beat.seenAt])
  {
    BeatenCases(rows, beat);
    var key, times := beat.key, ts + [beat.seenAt];
    var i := OpenRowIsLast(rows, key, ts);
    var closed := rows[i := Close(rows[i], rows[i])];
    var after := closed + [beat.NewRow()];
    SpansUpdate(rows, i, Close(rows[i], rows[i]), key);
    SpansAppend(closed, beat.NewRow(), key);
    assert times[..|ts|] == ts;
    NewRowRecords(beat, ts);
    ClosingKeepsRecords(rows[i], ts, beat.seenAt);
    OthersStayRecorded(rows, key, ts, beat.seenAt, i, Close(rows[i], rows[i]));
    forall j | 0 <= j < |after| && after[j].key == key ensures Records(after[j], times) {
      if j < |rows| && j != i { assert after[j] == closed[j]; }
    }
    ReopeningSeparates(rows, beat, i);
    assert OpenAt(after, key, |rows|);
  }

  /** A whole run leaves the sessions of every key in step with its beats. */
  lemma {:induction false} RunTracks(beats: seq<Beat>, key: Key)
    requires forall k :: Ascending(Times(beats, k))
    ensures Tracks(Run(beats), key, Times(beats, key))
  {
    if beats != [] {
      var rest, beat := beats[..|beats| - 1], beats[|beats| - 1];
      forall k ensures Ascending(Times(rest, k)) {
        assert Times(beats, k)[..|Times(rest, k)|] == Times(rest, k);
        assert Ascending(Times(beats, k));
      }
      RunTracks(rest, key);
      var ts := Times(rest, key);
      assert Ascending(Times(beats, key));
      if beat.key != key {
        OtherKeysBeat(Run(rest), beat, key, ts);
        assert Times(beats, key) == ts;
      } else if ts == [] {
        FirstBeat(Run(rest), beat);
        assert Times(beats, key) == [beat.seenAt];
      } else {
        assert ts[|ts| - 1] == Times(beats, key)[|ts| - 1] <= Times(beats, key)[|ts|];
        if beat.seenAt - ts[|ts| - 1] <= IDLE_TIMEOUT {
          ExtendingBeat(Run(rest), beat, ts);
        } else {
          ReopeningBeat(Run(rest), beat, ts);
        }
      }
    }
  }

  // ---- The totals ----

  lemma {:induction false} ShortGapsAreBounded(ts: seq<int>)
    requires Ascending(ts)
    ensures 0 <= ShortGaps(ts)
    ensures ts != [] ==> ShortGaps(ts) <= ts[|ts| - 1] - ts[0]
  {
    if |ts| >= 2 { ShortGapsAreBounded(ts[..|ts| - 1]); }
  }

  /** The sessions of a key. */
  function SessionCount(rows: Table, key: Key): nat {
    if rows == [] then 0
    else SessionCount(rows[..|rows| - 1], key) + if rows[|rows| - 1].key == key then 1 else 0
  }

  /** Truncating each duration to seconds loses less than one second a session, and nothing on whole seconds. */
  lemma {:induction false} SecondsOfSpans(rows: Table, key: Key, ts: seq<int>)
    requires forall i :: 0 <= i < |rows| && rows[i].key == key ==> Records(rows[i], ts)
    ensures TotalSeconds(rows, key) * 1_000_000 <= Spans(rows, key)
    ensures Spans(rows, key) <= TotalSeconds(rows, key) * 1_000_000 + SessionCount(rows, key) * 999_999
    ensures (forall t :: t in ts ==> t % 1_000_000 == 0) ==> TotalSeconds(rows, key) * 1_000_000 == Spans(rows, key)
  {
    if rows != [] {
      SecondsOfSpans(rows[..|rows| - 1], key, ts);
    }
  }

  /** Every row of a run says how many whole seconds lie between its stamps. */
  lemma DurationsAreWholeSeconds(beats: seq<Beat>, i: nat)
    requires (forall k :: Ascending(Times(beats, k))) && i < |Run(beats)|
    ensures var row := Run(beats)[i];
      && 0 <= row.duration && row.duration * 1_000_000 <= row.lastSeenAt - row.startedAt < (row.duration + 1) * 1_000_000
      && (row.endedAt.Some? ==> row.endedAt.value == row.lastSeenAt)
  {
    RunTracks(beats, Run(beats)[i].key);
    assert Records(Run(beats)[i], Times(beats, Run(beats)[i].key));
  }

  /**
   * For every key of any run: its sessions are more than 300 seconds apart; their durations add up
   * to the gaps of at most 300 seconds, exactly so for whole seconds and otherwise short of them by
   * less than one second a session; and never to more than the time from the first beat to the last.
   */
  lemma ActiveTimeIsShortGaps(beats: seq<Beat>, key: Key)
    requires forall k :: Ascending(Times(beats, k))
    ensures var rows, ts := Run(beats), Times(beats, key);
      var total, sessions := TotalSeconds(rows, key), SessionCount(rows, key);
      && Separated(rows, key)
      && Spans(rows, key) == ShortGaps(ts)
      && total * 1_000_000 <= ShortGaps(ts)
      && ShortGaps(ts) <= total * 1_000_000 + sessions * 999_999
      && ((forall t :: t in ts ==> t % 1_000_000 == 0) ==> total * 1_000_000 == ShortGaps(ts))
      && (ts != [] ==> total * 1_000_000 <= ts[|ts| - 1] - ts[0])
  {
    var rows, ts := Run(beats), Times(beats, key);
    RunTracks(beats, key);
    SecondsOfSpans(rows, key, ts);
    assert Ascending(ts);
    ShortGapsAreBounded(ts);
  }
}
