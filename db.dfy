/** The session and segment store (db/mod.rs), modelled as in-memory tables:
    the SQL statements become operations on sequences of rows. */
module Db {
  import opened Wrappers

  /** A row of the `sessions` table. */
  datatype Session = Session(
    id: string,
    title: string,
    mode: string,
    audioPath: Option<string>,
    createdAt: string,
    durationSecs: Option<real>,
    summaryJson: Option<string>)

  /** A row of the `segments` table. */
  datatype Segment = Segment(
    id: int,
    sessionId: string,
    text: string,
    startTime: real,
    endTime: real,
    speaker: Option<string>,
    isDiarized: bool)

  /** The errors the store reports: no row for `get_session`, and a primary
      key clash on `create_session`. */
  datatype DbError = NotFound | UniqueViolation

  // ---------------------------------------------------------------------------
  // Selecting rows

  /** The rows of `s` satisfying `p`, in their original order (a `WHERE`). */
  function Filter<T(!new)>(s: seq<T>, p: T -> bool): (r: seq<T>)
    ensures |r| <= |s|
    ensures forall x :: x in r <==> x in s && p(x)
  {
    if s == [] then [] else Filter(s[..|s| - 1], p) + (if p(s[|s| - 1]) then [s[|s| - 1]] else [])
  }

  lemma {:induction false} FilterAppend<T(!new)>(a: seq<T>, b: seq<T>, p: T -> bool)
    ensures Filter(a + b, p) == Filter(a, p) + Filter(b, p)
  {
    if b == [] {
      assert a + b == a;
    } else {
      var b' := b[..|b| - 1];
      assert (a + b)[..|a + b| - 1] == a + b';
      FilterAppend(a, b', p);
    }
  }

  /** Two conditions that agree on the rows select the same rows. */
  lemma {:induction false} FilterCongruent<T(!new)>(s: seq<T>, p: T -> bool, q: T -> bool)
    requires forall x :: x in s ==> p(x) == q(x)
    ensures Filter(s, p) == Filter(s, q)
  {
    if s != [] {
      assert forall x :: x in s[..|s| - 1] ==> x in s;
      FilterCongruent(s[..|s| - 1], p, q);
    }
  }

  /** A condition that holds of no row selects nothing. */
  lemma {:induction false} FilterNone<T(!new)>(s: seq<T>, p: T -> bool)
    requires forall x :: x in s ==> !p(x)
    ensures Filter(s, p) == []
  {
    if s != [] {
      assert forall x :: x in s[..|s| - 1] ==> x in s;
      FilterNone(s[..|s| - 1], p);
    }
  }

  /** Selecting twice is selecting by both conditions. */
  lemma {:induction false} FilterFilter<T(!new)>(s: seq<T>, p: T -> bool, q: T -> bool, pq: T -> bool)
    requires forall x :: pq(x) == (p(x) && q(x))
    ensures Filter(Filter(s, p), q) == Filter(s, pq)
  {
    if s != [] {
      var s' := s[..|s| - 1];
      var x := s[|s| - 1];
      FilterFilter(s', p, q, pq);
      FilterAppend(Filter(s', p), if p(x) then [x] else [], q);
      if p(x) {
        assert [x][..0] == [];
      }
    }
  }

  // ---------------------------------------------------------------------------
  // `ORDER BY start_time ASC`

  predicate SortedByStart(s: seq<Segment>)
  {
    forall i, j :: 0 <= i < j < |s| ==> s[i].startTime <= s[j].startTime
  }

  function InsertByStart(x: Segment, s: seq<Segment>): (r: seq<Segment>)
    requires SortedByStart(s)
    ensures SortedByStart(r)
    ensures multiset(r) == multiset(s) + multiset{x}
    ensures |r| == |s| + 1 && (r[0] == x || (s != [] && r[0] == s[0]))
  {
    if s == [] then [x]
    else if x.startTime <= s[0].startTime then
      SortedCons(x, s);
      [x] + s
    else
      var rest := InsertByStart(x, s[1..]);
      assert s == [s[0]] + s[1..];
      SortedCons(s[0], rest);
      [s[0]] + rest
  }

  /** A row no later than the head of a sorted run extends it. */
  lemma SortedCons(y: Segment, r: seq<Segment>)
    requires SortedByStart(r)
    requires r != [] ==> y.startTime <= r[0].startTime
    ensures SortedByStart([y] + r)
  {
    var t := [y] + r;
    forall i, j | 0 <= i < j < |t| ensures t[i].startTime <= t[j].startTime {
      assert t[j] == r[j - 1];
      if i > 0 {
        assert t[i] == r[i - 1];
      } else if j > 1 {
        assert r[0].startTime <= r[j - 1].startTime;
      }
    }
  }

  /** An ordering of the rows by non-decreasing start time; rows with equal
      start times may come in any order. */
  function SortByStart(s: seq<Segment>): (r: seq<Segment>)
    ensures SortedByStart(r)
    ensures multiset(r) == multiset(s)
  {
    if s == [] then []
    else
      assert s == s[..|s| - 1] + [s[|s| - 1]];
      InsertByStart(s[|s| - 1], SortByStart(s[..|s| - 1]))
  }

  // ---------------------------------------------------------------------------
  // `ORDER BY created_at DESC`: text compares character by character

  /** SQLite's ordering of text values: lexicographic on code points. */
  predicate TextLeq(a: string, b: string)
  {
    a == [] || (b != [] && (a[0] < b[0] || (a[0] == b[0] && TextLeq(a[1..], b[1..]))))
  }

  lemma {:induction false} TextLeqTotal(a: string, b: string)
    ensures TextLeq(a, b) || TextLeq(b, a)
  {
    if a != [] && b != [] && a[0] == b[0] {
      TextLeqTotal(a[1..], b[1..]);
    }
  }

  lemma {:induction false} TextLeqTrans(a: string, b: string, c: string)
    requires TextLeq(a, b) && TextLeq(b, c)
    ensures TextLeq(a, c)
  {
    if a != [] && b != [] && c != [] && a[0] == b[0] && b[0] == c[0] {
      TextLeqTrans(a[1..], b[1..], c[1..]);
    }
  }

  predicate NewestFirst(s: seq<Session>)
  {
    forall i, j :: 0 <= i < j < |s| ==> TextLeq(s[j].createdAt, s[i].createdAt)
  }

  function InsertNewestFirst(x: Session, s: seq<Session>): (r: seq<Session>)
    requires NewestFirst(s)
    ensures NewestFirst(r)
    ensures multiset(r) == multiset(s) + multiset{x}
    ensures |r| == |s| + 1 && (r[0] == x || (s != [] && r[0] == s[0]))
  {
    if s == [] then [x]
    else if TextLeq(s[0].createdAt, x.createdAt) then
      NewestCons(x, s);
      [x] + s
    else
      TextLeqTotal(s[0].createdAt, x.createdAt);
      var rest := InsertNewestFirst(x, s[1..]);
      assert s == [s[0]] + s[1..];
      assert TextLeq(rest[0].createdAt, s[0].createdAt);
      NewestCons(s[0], rest);
      [s[0]] + rest
  }

  /** A session no older than the head of a newest-first run extends it. */
  lemma NewestCons(y: Session, r: seq<Session>)
    requires NewestFirst(r)
    requires r != [] ==> TextLeq(r[0].createdAt, y.createdAt)
    ensures NewestFirst([y] + r)
  {
    var t := [y] + r;
    forall i, j | 0 <= i < j < |t| ensures TextLeq(t[j].createdAt, t[i].createdAt) {
      assert t[j] == r[j - 1];
      if i > 0 {
        assert t[i] == r[i - 1];
      } else if j > 1 {
        TextLeqTrans(r[j - 1].createdAt, r[0].createdAt, y.createdAt);
      }
    }
  }

  /** An ordering of the sessions from the latest creation stamp to the earliest. */
  function SortNewestFirst(s: seq<Session>): (r: seq<Session>)
    ensures NewestFirst(r)
    ensures multiset(r) == multiset(s)
  {
    if s == [] then []
    else
      assert s == s[..|s| - 1] + [s[|s| - 1]];
      InsertNewestFirst(s[|s| - 1], SortNewestFirst(s[..|s| - 1]))
  }

  // ---------------------------------------------------------------------------
  // Session rows

  /** The session row with primary key `id`, if any. */
  function FindSession(ss: seq<Session>, id: string): (r: Option<Session>)
    ensures r.Some? ==> r.value in ss && r.value.id == id
    ensures r.None? <==> forall s :: s in ss ==> s.id != id
  {
    if ss == [] then None
    else if ss[|ss| - 1].id == id then Some(ss[|ss| - 1])
    else
      assert ss == ss[..|ss| - 1] + [ss[|ss| - 1]];
      FindSession(ss[..|ss| - 1], id)
  }

  predicate UniqueSessionIds(ss: seq<Session>)
  {
    forall i, j :: 0 <= i < j < |ss| ==> ss[i].id != ss[j].id
  }

  /** The row `create_session` inserts: only the four given columns are set. */
  function NewSession(id: string, title: string, mode: string, createdAt: string): Session
  {
    Session(id, title, mode, None, createdAt, None, None)
  }

  /** A created session is retrievable with exactly the values it was created with. */
  lemma CreatedIsRetrievable(ss: seq<Session>, id: string, title: string, mode: string, createdAt: string)
    requires FindSession(ss, id).None?
    ensures var r := FindSession(ss + [NewSession(id, title, mode, createdAt)], id);
            r.Some? && r.value.title == title && r.value.mode == mode && r.value.createdAt == createdAt
            && r.value.audioPath.None? && r.value.durationSecs.None? && r.value.summaryJson.None?
  {
  }

  /** The single column an `UPDATE sessions SET ... WHERE id = ?` writes. */
  datatype SessionField =
    | Title(title: string)
    | AudioPath(path: string)
    | Duration(secs: real)
    | SummaryJson(json: string)

  function SetField(s: Session, f: SessionField): Session
  {
    match f
    case Title(t) => s.(title := t)
    case AudioPath(p) => s.(audioPath := Some(p))
    case Duration(d) => s.(durationSecs := Some(d))
    case SummaryJson(j) => s.(summaryJson := Some(j))
  }

  /** The effect of one `UPDATE sessions ... WHERE id = ?`. */
  function UpdateSessions(ss: seq<Session>, id: string, f: SessionField): (r: seq<Session>)
    ensures |r| == |ss|
  {
    seq(|ss|, i requires 0 <= i < |ss| => if ss[i].id == id then SetField(ss[i], f) else ss[i])
  }

  /** An update changes the named column of the named session and nothing else:
      every other session reads back as before, the named one (if it exists)
      reads back with only that column replaced, every other column kept. */
  lemma {:induction false} UpdateThenFind(ss: seq<Session>, id: string, f: SessionField, other: string)
    ensures FindSession(UpdateSessions(ss, id, f), id)
            == (match FindSession(ss, id) case Some(s) => Some(SetField(s, f)) case None => None)
    ensures other != id ==> FindSession(UpdateSessions(ss, id, f), other) == FindSession(ss, other)
  {
    if ss != [] {
      var ss' := ss[..|ss| - 1];
      assert UpdateSessions(ss, id, f)[..|ss| - 1] == UpdateSessions(ss', id, f);
      UpdateThenFind(ss', id, f, other);
    }
  }

  /** Which columns each update writes. */
  lemma SetFieldColumns(s: Session, f: SessionField)
    ensures SetField(s, f).id == s.id && SetField(s, f).mode == s.mode && SetField(s, f).createdAt == s.createdAt
    ensures f.Title? ==> SetField(s, f).title == f.title
    ensures f.AudioPath? ==> SetField(s, f).audioPath == Some(f.path)
    ensures f.Duration? ==> SetField(s, f).durationSecs == Some(f.secs)
    ensures f.SummaryJson? ==> SetField(s, f).summaryJson == Some(f.json)
    ensures !f.Title? ==> SetField(s, f).title == s.title
    ensures !f.AudioPath? ==> SetField(s, f).audioPath == s.audioPath
    ensures !f.Duration? ==> SetField(s, f).durationSecs == s.durationSecs
    ensures !f.SummaryJson? ==> SetField(s, f).summaryJson == s.summaryJson
  {
  }

  /** An unknown id is not an error for an update: it matches no row. */
  lemma UpdateUnknownId(ss: seq<Session>, id: string, f: SessionField)
    requires FindSession(ss, id).None?
    ensures UpdateSessions(ss, id, f) == ss
  {
  }

  lemma {:induction false} UpdateKeepsIds(ss: seq<Session>, id: string, f: SessionField)
    requires UniqueSessionIds(ss)
    ensures UniqueSessionIds(UpdateSessions(ss, id, f))
  {
  }

  // ---------------------------------------------------------------------------
  // Segment rows

  predicate InSession(s: Segment, sid: string) { s.sessionId == sid }

  /** `SELECT ... FROM segments WHERE session_id = ?` before ordering. */
  function RowsOf(segs: seq<Segment>, sid: string): (r: seq<Segment>)
    ensures forall x :: x in r <==> x in segs && x.sessionId == sid
  {
    Filter(segs, s => InSession(s, sid))
  }

  /** Which rows of a session a clearing statement deletes. */
  datatype ClearScope =
    | AllRows       // `clear_segments(sid, false)`
    | DiarizedRows  // `clear_segments(sid, true)`
    | LiveRows      // `clear_live_segments(sid)`, see README

  predicate Deletes(scope: ClearScope, s: Segment, sid: string)
  {
    s.sessionId == sid
    && match scope
       case AllRows => true
       case DiarizedRows => s.isDiarized
       case LiveRows => !s.isDiarized
  }

  /** The table after `DELETE FROM segments WHERE session_id = ? [AND is_diarized = ?]`. */
  function Cleared(segs: seq<Segment>, sid: string, scope: ClearScope): (r: seq<Segment>)
    ensures forall x :: x in r <==> x in segs && !Deletes(scope, x, sid)
  {
    Filter(segs, s => !Deletes(scope, s, sid))
  }

  /** Clearing all rows leaves the session without segments. */
  lemma ClearedAll(segs: seq<Segment>, sid: string)
    ensures RowsOf(Cleared(segs, sid, AllRows), sid) == []
  {
    FilterNone(Cleared(segs, sid, AllRows), (s: Segment) => InSession(s, sid));
  }

  /** Clearing the diarized rows leaves exactly the live rows of the session,
      in their original order. */
  lemma ClearedDiarized(segs: seq<Segment>, sid: string)
    ensures RowsOf(Cleared(segs, sid, DiarizedRows), sid) == Filter(RowsOf(segs, sid), (s: Segment) => !s.isDiarized)
  {
    var keep := (s: Segment) => !Deletes(DiarizedRows, s, sid);
    var mine := (s: Segment) => InSession(s, sid);
    var live := (s: Segment) => !s.isDiarized;
    var both := (s: Segment) => InSession(s, sid) && !s.isDiarized;
    FilterFilter(segs, keep, mine, both);
    FilterFilter(segs, mine, live, both);
  }

  /** Clearing the live rows leaves exactly the diarized rows of the session,
      in their original order. */
  lemma ClearedLive(segs: seq<Segment>, sid: string)
    ensures RowsOf(Cleared(segs, sid, LiveRows), sid) == Filter(RowsOf(segs, sid), (s: Segment) => s.isDiarized)
  {
    var keep := (s: Segment) => !Deletes(LiveRows, s, sid);
    var mine := (s: Segment) => InSession(s, sid);
    var diarized := (s: Segment) => s.isDiarized;
    var both := (s: Segment) => InSession(s, sid) && s.isDiarized;
    FilterFilter(segs, keep, mine, both);
    FilterFilter(segs, mine, diarized, both);
  }

  /** No clearing touches another session's segments. */
  lemma ClearedOther(segs: seq<Segment>, sid: string, scope: ClearScope, other: string)
    requires other != sid
    ensures RowsOf(Cleared(segs, sid, scope), other) == RowsOf(segs, other)
  {
    var keep := (s: Segment) => !Deletes(scope, s, sid);
    var theirs := (s: Segment) => InSession(s, other);
    FilterFilter(segs, keep, theirs, theirs);
  }

  /** Rows appended to the table are read back after the earlier ones. */
  lemma RowsOfAppend(a: seq<Segment>, b: seq<Segment>, sid: string)
    ensures RowsOf(a + b, sid) == RowsOf(a, sid) + RowsOf(b, sid)
  {
    FilterAppend(a, b, s => InSession(s, sid));
  }

  /** A condition that holds of every row selects them all. */
  lemma {:induction false} FilterAll<T(!new)>(s: seq<T>, p: T -> bool)
    requires forall x :: x in s ==> p(x)
    ensures Filter(s, p) == s
  {
    if s != [] {
      var s' := s[..|s| - 1];
      var x := s[|s| - 1];
      assert x in s;
      assert forall y :: y in s' ==> y in s;
      FilterAll(s', p);
      assert Filter(s, p) == s' + [x];
      assert s' + [x] == s;
    }
  }

  /** Rows that all belong to `sid` are all of its rows and none of another's. */
  lemma RowsOfOwn(segs: seq<Segment>, sid: string, other: string)
    requires forall x :: x in segs ==> x.sessionId == sid
    ensures RowsOf(segs, sid) == segs
    ensures other != sid ==> RowsOf(segs, other) == []
  {
    FilterAll(segs, s => InSession(s, sid));
    if other != sid {
      FilterNone(segs, s => InSession(s, other));
    }
  }

  predicate SpeakerIs(s: Segment, sid: string, name: string)
  {
    s.sessionId == sid && s.speaker == Some(name)
  }

  /** The table after `UPDATE segments SET speaker = ? WHERE session_id = ? AND speaker = ?`. */
  function Renamed(segs: seq<Segment>, sid: string, oldName: string, newName: string): (r: seq<Segment>)
    ensures |r| == |segs|
  {
    seq(|segs|, i requires 0 <= i < |segs| =>
      if SpeakerIs(segs[i], sid, oldName) then segs[i].(speaker := Some(newName)) else segs[i])
  }

  /** The number of rows that statement changes. */
  function RenameCount(segs: seq<Segment>, sid: string, oldName: string): nat
  {
    |Filter(segs, s => SpeakerIs(s, sid, oldName))|
  }

  /** `rename_speaker` rewrites exactly the rows of the session whose speaker
      is the old name, only in their speaker column. */
  lemma RenameEffect(segs: seq<Segment>, sid: string, oldName: string, newName: string, i: int)
    requires 0 <= i < |segs|
    ensures var r := Renamed(segs, sid, oldName, newName);
            r[i].id == segs[i].id && r[i].sessionId == segs[i].sessionId && r[i].text == segs[i].text
            && r[i].startTime == segs[i].startTime && r[i].endTime == segs[i].endTime
            && r[i].isDiarized == segs[i].isDiarized
            && (SpeakerIs(segs[i], sid, oldName) ==> r[i].speaker == Some(newName))
            && (!SpeakerIs(segs[i], sid, oldName) ==> r[i] == segs[i])
  {
  }

  /** After a rename to a different name no row carries the old name in that
      session, so repeating the rename changes nothing and counts zero. */
  lemma {:induction false} RenameTwice(segs: seq<Segment>, sid: string, oldName: string, newName: string)
    requires oldName != newName
    ensures RenameCount(Renamed(segs, sid, oldName, newName), sid, oldName) == 0
    ensures Renamed(Renamed(segs, sid, oldName, newName), sid, oldName, newName) == Renamed(segs, sid, oldName, newName)
  {
    var r := Renamed(segs, sid, oldName, newName);
    assert forall x :: x in r ==> !SpeakerIs(x, sid, oldName);
    FilterNone(r, s => SpeakerIs(s, sid, oldName));
  }

  /** The rows of a session that a full-text query finds, through the index:
      the join with `segments_fts` on the row id, the `MATCH` on the indexed
      text, and the optional session filter. */
  function Hits(segs: seq<Segment>, fts: map<int, string>, query: string, sid: Option<string>,
                matches: (string, string) -> bool): seq<Segment>
  {
    Filter(segs, (s: Segment) => s.id in fts && matches(query, fts[s.id]) && (sid.None? || s.sessionId == sid.value))
  }

  /** The condition on a row's own text that the index lookup amounts to. */
  predicate FoundBy(s: Segment, query: string, sid: Option<string>, matches: (string, string) -> bool)
  {
    matches(query, s.text) && (sid.None? || s.sessionId == sid.value)
  }

  /** Every present row is indexed under its own id with its own text. */
  predicate IndexCovers(segs: seq<Segment>, fts: map<int, string>)
  {
    forall s :: s in segs ==> s.id in fts && fts[s.id] == s.text
  }

  /** Although deletions leave stale index entries behind, a search through
      the index returns exactly the present rows whose text matches. */
  lemma HitsByText(segs: seq<Segment>, fts: map<int, string>, query: string, sid: Option<string>,
                   matches: (string, string) -> bool)
    requires IndexCovers(segs, fts)
    ensures Hits(segs, fts, query, sid, matches) == Filter(segs, s => FoundBy(s, query, sid, matches))
  {
    FilterCongruent(segs, (s: Segment) => s.id in fts && matches(query, fts[s.id]) && (sid.None? || s.sessionId == sid.value),
                    (s: Segment) => FoundBy(s, query, sid, matches));
  }

  /** Ids increase along the table and never exceed the counter. */
  predicate IdsIncreasing(segs: seq<Segment>, last: nat)
  {
    (forall i, j :: 0 <= i < j < |segs| ==> segs[i].id < segs[j].id)
    && (forall i :: 0 <= i < |segs| ==> 1 <= segs[i].id <= last)
  }

  // ---------------------------------------------------------------------------
  // The store

  /** `Database`: the three tables, the full-text index and the
      AUTOINCREMENT counter of `segments`. */
  class Database {
    var sessions: seq<Session>
    var segments: seq<Segment>
    /** The largest segment id ever handed out (`sqlite_sequence`). */
    var lastSegmentId: nat
    /** `segments_fts`: row id to indexed text, filled by the insert trigger only. */
    var fts: map<int, string>
    var settings: map<string, string>

    predicate Valid()
      reads this
    {
      UniqueSessionIds(sessions)
      && IdsIncreasing(segments, lastSegmentId)
      && IndexCovers(segments, fts)
      && (forall k :: k in fts ==> 1 <= k <= lastSegmentId)
    }

    /** `new_in_memory`: a fresh schema with empty tables. */
    constructor ()
      ensures Valid()
      ensures sessions == [] && segments == [] && lastSegmentId == 0 && fts == map[] && settings == map[]
    {
      sessions := [];
      segments := [];
      lastSegmentId := 0;
      fts := map[];
      settings := map[];
    }

    /** `create_session` with the generated id and clock reading passed in:
        inserts the row, or fails on an id already present. */
    method CreateSession(id: string, title: string, mode: string, createdAt: string)
      returns (r: Result<string, DbError>)
      requires Valid()
      modifies this
      ensures Valid()
      ensures old(FindSession(sessions, id)).Some? ==> r == Err(UniqueViolation) && sessions == old(sessions)
      ensures old(FindSession(sessions, id)).None? ==>
                r == Ok(id) && sessions == old(sessions) + [NewSession(id, title, mode, createdAt)]
      ensures segments == old(segments) && lastSegmentId == old(lastSegmentId)
      ensures fts == old(fts) && settings == old(settings)
    {
      if FindSession(sessions, id).Some? {
        return Err(UniqueViolation);
      }
      sessions := sessions + [NewSession(id, title, mode, createdAt)];
      r := Ok(id);
    }

    /** `get_session`. */
    function GetSession(id: string): (r: Result<Session, DbError>)
      reads this
      ensures r.Ok? ==> r.value in sessions && r.value.id == id
      ensures r.Err? <==> forall s :: s in sessions ==> s.id != id
      ensures r.Err? ==> r.error == NotFound
    {
      match FindSession(sessions, id)
      case Some(s) => Ok(s)
      case None => Err(NotFound)
    }

    /** `list_sessions`: every session once, newest first. */
    function ListSessions(): (r: seq<Session>)
      reads this
      ensures multiset(r) == multiset(sessions)
      ensures |r| == |sessions|
      ensures NewestFirst(r)
    {
      SortNewestFirst(sessions)
    }

    method UpdateSession(id: string, f: SessionField)
      requires Valid()
      modifies this
      ensures Valid()
      ensures sessions == UpdateSessions(old(sessions), id, f)
      ensures segments == old(segments) && lastSegmentId == old(lastSegmentId)
      ensures fts == old(fts) && settings == old(settings)
    {
      UpdateKeepsIds(sessions, id, f);
      sessions := UpdateSessions(sessions, id, f);
    }

    /** `update_session_duration`. */
    method UpdateSessionDuration(id: string, secs: real)
      requires Valid()
      modifies this
      ensures Valid()
      ensures sessions == UpdateSessions(old(sessions), id, Duration(secs))
      ensures segments == old(segments) && lastSegmentId == old(lastSegmentId)
      ensures fts == old(fts) && settings == old(settings)
    {
      UpdateSession(id, Duration(secs));
    }

    /** `update_session_audio_path`. */
    method UpdateSessionAudioPath(id: string, path: string)
      requires Valid()
      modifies this
      ensures Valid()
      ensures sessions == UpdateSessions(old(sessions), id, AudioPath(path))
      ensures segments == old(segments) && lastSegmentId == old(lastSegmentId)
      ensures fts == old(fts) && settings == old(settings)
    {
      UpdateSession(id, AudioPath(path));
    }

    /** `update_session_title`. */
    method UpdateSessionTitle(id: string, title: string)
      requires Valid()
      modifies this
      ensures Valid()
      ensures sessions == UpdateSessions(old(sessions), id, Title(title))
      ensures segments == old(segments) && lastSegmentId == old(lastSegmentId)
      ensures fts == old(fts) && settings == old(settings)
    {
      UpdateSession(id, Title(title));
    }

    /** `save_summary`. */
    method SaveSummary(id: string, json: string)
      requires Valid()
      modifies this
      ensures Valid()
      ensures sessions == UpdateSessions(old(sessions), id, SummaryJson(json))
      ensures segments == old(segments) && lastSegmentId == old(lastSegmentId)
      ensures fts == old(fts) && settings == old(settings)
    {
      UpdateSession(id, SummaryJson(json));
    }

    /** `save_segment`: appends a row under the next id and indexes its text.
        The session id is not checked against `sessions`. */
    method SaveSegment(sessionId: string, text: string, start: real, end: real,
                       speaker: Option<string>, isDiarized: bool)
      returns (id: int)
      requires Valid()
      modifies this
      ensures Valid()
      ensures id == old(lastSegmentId) + 1 && lastSegmentId == id
      ensures forall s :: s in old(segments) ==> s.id < id
      ensures segments == old(segments) + [Segment(id, sessionId, text, start, end, speaker, isDiarized)]
      ensures fts == old(fts)[id := text]
      ensures sessions == old(sessions) && settings == old(settings)
    {
      id := lastSegmentId + 1;
      segments := segments + [Segment(id, sessionId, text, start, end, speaker, isDiarized)];
      fts := fts[id := text];
      lastSegmentId := id;
    }

    /** `get_segments`: the rows of one session by start time. */
    function GetSegments(sessionId: string): (r: seq<Segment>)
      reads this
      ensures multiset(r) == multiset(RowsOf(segments, sessionId))
      ensures forall s :: s in r <==> s in segments && s.sessionId == sessionId
      ensures SortedByStart(r)
    {
      var rows := RowsOf(segments, sessionId);
      var r := SortByStart(rows);
      SameMembers(r, rows);
      r
    }

    /** The `DELETE FROM segments ...` statements. The index keeps the
        entries of deleted rows: there is no delete trigger. */
    method DeleteSegments(sessionId: string, scope: ClearScope)
      requires Valid()
      modifies this
      ensures Valid()
      ensures segments == Cleared(old(segments), sessionId, scope)
      ensures sessions == old(sessions) && lastSegmentId == old(lastSegmentId)
      ensures fts == old(fts) && settings == old(settings)
    {
      ClearedKeepsIds(segments, sessionId, scope, lastSegmentId);
      segments := Cleared(segments, sessionId, scope);
    }

    /** `clear_segments`: all rows of the session, or only its diarized ones. */
    method ClearSegments(sessionId: string, diarizedOnly: bool)
      requires Valid()
      modifies this
      ensures Valid()
      ensures segments == Cleared(old(segments), sessionId, if diarizedOnly then DiarizedRows else AllRows)
      ensures sessions == old(sessions) && lastSegmentId == old(lastSegmentId)
      ensures fts == old(fts) && settings == old(settings)
    {
      DeleteSegments(sessionId, if diarizedOnly then DiarizedRows else AllRows);
    }

    /** `clear_live_segments`, which the orchestration calls but the store does
        not define: taken to delete the session's non-diarized rows. */
    method ClearLiveSegments(sessionId: string)
      requires Valid()
      modifies this
      ensures Valid()
      ensures segments == Cleared(old(segments), sessionId, LiveRows)
      ensures sessions == old(sessions) && lastSegmentId == old(lastSegmentId)
      ensures fts == old(fts) && settings == old(settings)
    {
      DeleteSegments(sessionId, LiveRows);
    }

    /** `rename_speaker`, returning the number of rows changed. */
    method RenameSpeaker(sessionId: string, oldName: string, newName: string) returns (changed: nat)
      requires Valid()
      modifies this
      ensures Valid()
      ensures changed == RenameCount(old(segments), sessionId, oldName)
      ensures segments == Renamed(old(segments), sessionId, oldName, newName)
      ensures sessions == old(sessions) && lastSegmentId == old(lastSegmentId)
      ensures fts == old(fts) && settings == old(settings)
    {
      changed := RenameCount(segments, sessionId, oldName);
      segments := Renamed(segments, sessionId, oldName, newName);
    }

    /** `search_text`: the present rows whose text matches, by start time.
        The `MATCH` test is the parameter `matches`. */
    function SearchText(query: string, sessionId: Option<string>, matches: (string, string) -> bool): (r: seq<Segment>)
      requires Valid()
      reads this
      ensures SortedByStart(r)
      ensures multiset(r) == multiset(Filter(segments, s => FoundBy(s, query, sessionId, matches)))
      ensures forall s :: s in r <==> s in segments && matches(query, s.text)
                                      && (sessionId.Some? ==> s.sessionId == sessionId.value)
    {
      HitsByText(segments, fts, query, sessionId, matches);
      var hits := Hits(segments, fts, query, sessionId, matches);
      var r := SortByStart(hits);
      SameMembers(r, hits);
      r
    }

    /** `get_setting`. */
    function GetSetting(key: string): (r: Option<string>)
      reads this
      ensures r.Some? <==> key in settings
      ensures r.Some? ==> r.value == settings[key]
    {
      if key in settings then Some(settings[key]) else None
    }

    /** `set_setting`: insert, or replace the value on a key conflict. */
    method SetSetting(key: string, value: string)
      requires Valid()
      modifies this
      ensures Valid()
      ensures settings == old(settings)[key := value]
      ensures GetSetting(key) == Some(value)
      ensures forall k :: k != key ==> GetSetting(k) == old(GetSetting(k))
      ensures sessions == old(sessions) && segments == old(segments)
      ensures lastSegmentId == old(lastSegmentId) && fts == old(fts)
    {
      settings := settings[key := value];
    }
  }

  lemma ClearedKeepsIds(segs: seq<Segment>, sid: string, scope: ClearScope, last: nat)
    requires IdsIncreasing(segs, last)
    ensures IdsIncreasing(Cleared(segs, sid, scope), last)
  {
    FilterKeepsIds(segs, s => !Deletes(scope, s, sid), last);
  }

  /** Deleting rows keeps the ids increasing. */
  lemma {:induction false} FilterKeepsIds(segs: seq<Segment>, p: Segment -> bool, last: nat)
    requires IdsIncreasing(segs, last)
    ensures IdsIncreasing(Filter(segs, p), last)
  {
    if segs != [] {
      var s' := segs[..|segs| - 1];
      var x := segs[|segs| - 1];
      assert IdsIncreasing(s', last) by {
        forall i, j | 0 <= i < j < |s'| ensures s'[i].id < s'[j].id {
          assert s'[i] == segs[i] && s'[j] == segs[j];
        }
        forall i | 0 <= i < |s'| ensures 1 <= s'[i].id <= last {
          assert s'[i] == segs[i];
        }
      }
      FilterKeepsIds(s', p, last);
      var f := Filter(s', p);
      if p(x) {
        forall y | y in f ensures y.id < x.id {
          var k :| 0 <= k < |s'| && s'[k] == y;
          assert segs[k] == y;
        }
        assert 1 <= x.id <= last by { assert x == segs[|segs| - 1]; }
        IdsIncreasingSnoc(f, x, last);
        assert Filter(segs, p) == f + [x];
      } else {
        assert Filter(segs, p) == f;
      }
    }
  }

  /** A row whose id is above every earlier one keeps the ids increasing. */
  lemma IdsIncreasingSnoc(f: seq<Segment>, x: Segment, last: nat)
    requires IdsIncreasing(f, last)
    requires forall y :: y in f ==> y.id < x.id
    requires 1 <= x.id <= last
    ensures IdsIncreasing(f + [x], last)
  {
    var r := f + [x];
    forall i, j | 0 <= i < j < |r| ensures r[i].id < r[j].id {
      assert r[i] == f[i] && f[i] in f;
      if j < |f| {
        assert r[j] == f[j];
      }
    }
    forall i | 0 <= i < |r| ensures 1 <= r[i].id <= last {
      if i < |f| { assert r[i] == f[i]; }
    }
  }

  /** Two orderings of the same rows have the same members. */
  lemma SameMembers<T>(a: seq<T>, b: seq<T>)
    requires multiset(a) == multiset(b)
    ensures forall x :: x in a <==> x in b
  {
    forall x ensures x in a <==> x in b {
      assert x in a <==> x in multiset(a);
      assert x in b <==> x in multiset(b);
    }
  }

  /** The worked settings test on a fresh store: an absent key reads as
      None, a first write is read back, and a second write replaces it. */
  method SettingsTest() returns (before: Option<string>, first: Option<string>, last: Option<string>)
    ensures before == None
    ensures first == Some("test-key")
    ensures last == Some("new-key")
  {
    var db := new Database();
    before := db.GetSetting("api_key");
    db.SetSetting("api_key", "test-key");
    first := db.GetSetting("api_key");
    db.SetSetting("api_key", "new-key");
    last := db.GetSetting("api_key");
  }
}
