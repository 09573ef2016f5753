/** The `downloads` table as a piece of state (whether it exists, its columns,
    its rows keyed by `video_id` in insertion order), the effect of each
    operation of the history store on that state, and the class whose methods
    carry out those effects. Rows are keyed by the `video_id` exactly as
    given. */
module Storage {
  import opened Wrappers
  import opened PyText
  import opened Values
  import opened Paths
  import opened Types
  import opened History
  import opened HistoryImport

  /** The database as far as `downloads` is concerned. `present` is false until
      `CREATE TABLE` has run. */
  datatype Table = Table(present: bool, columns: set<Column>, rows: map<string, Row>, order: seq<string>)

  predicate Distinct(ks: seq<string>) {
    forall i, j :: 0 <= i < j < |ks| ==> ks[i] != ks[j]
  }

  /** `video_id` is the primary key, `order` is the rowid order of the keys, a
      missing table has no rows, and an existing table has at least the columns
      of the first schema. */
  predicate ValidTable(t: Table) {
    && (forall k :: k in t.rows ==> t.rows[k].videoId == k)
    && Distinct(t.order)
    && (forall k :: k in t.rows ==> k in t.order)
    && (forall k :: k in t.order ==> k in t.rows)
    && (!t.present ==> t.rows == map[] && t.columns == {})
    && (t.present ==> BaseColumns <= t.columns)
  }

  function RowsOf(rows: map<string, Row>, keys: seq<string>): (rs: seq<Row>)
    requires forall k :: k in keys ==> k in rows
    ensures |rs| == |keys|
    ensures forall i :: 0 <= i < |keys| ==> rs[i] == rows[keys[i]]
  {
    if keys == [] then [] else [rows[keys[0]]] + RowsOf(rows, keys[1..])
  }

  /** `SELECT * FROM downloads` in rowid order. */
  function Snapshot(t: Table): seq<Row>
    requires ValidTable(t)
  {
    RowsOf(t.rows, t.order)
  }

  /** The snapshot holds exactly the stored rows. */
  lemma {:induction false} SnapshotMembers(t: Table)
    requires ValidTable(t)
    ensures forall x :: x in Snapshot(t) <==> x.videoId in t.rows && t.rows[x.videoId] == x
  {
    var s := Snapshot(t);
    forall x ensures x in s <==> x.videoId in t.rows && t.rows[x.videoId] == x {
      if x in s {
        var i :| 0 <= i < |s| && s[i] == x;
        assert t.order[i] in t.rows;
      }
      if x.videoId in t.rows && t.rows[x.videoId] == x {
        var i :| 0 <= i < |t.order| && t.order[i] == x.videoId;
        assert s[i] == x;
      }
    }
  }

  lemma {:induction false} DistinctSize(ks: seq<string>, s: set<string>)
    requires Distinct(ks)
    requires forall k :: k in s <==> k in ks
    ensures |s| == |ks|
  {
    if ks != [] {
      var rest := s - {ks[0]};
      forall k ensures k in rest <==> k in ks[1..] {
        if k in ks[1..] {
          var j :| 0 <= j < |ks[1..]| && ks[1..][j] == k;
          assert ks[j + 1] == k;
        }
      }
      assert Distinct(ks[1..]) by {
        forall i, j | 0 <= i < j < |ks[1..]| ensures ks[1..][i] != ks[1..][j] {
          assert ks[1..][i] == ks[i + 1] && ks[1..][j] == ks[j + 1];
        }
      }
      DistinctSize(ks[1..], rest);
    }
  }

  // ---------------------------------------------------------------- ensure_schema

  /** A row of a table that lacked a column reads the column's default once the
      column is added: `retry_count` 0, `last_action` NULL. */
  function Migrate(r: Row, columns: set<Column>): Row {
    r.(retryCount := if RetryCountColumn in columns then r.retryCount else 0,
       lastAction := if LastActionColumn in columns then r.lastAction else None)
  }

  /** `ensure_schema()`: whether the table was created by this call, and the
      table afterwards. */
  function SchemaEnsured(t: Table): (res: (bool, Table))
    requires ValidTable(t)
    ensures res.0 <==> !t.present
    ensures ValidTable(res.1) && res.1.present
    ensures t.columns <= res.1.columns && AllColumns <= res.1.columns
    ensures res.1.columns - t.columns <= if t.present then AddedColumns else AllColumns
    ensures res.1.order == t.order && res.1.rows.Keys == t.rows.Keys
    ensures forall k :: k in t.rows ==>
              res.1.rows[k].(retryCount := t.rows[k].retryCount, lastAction := t.rows[k].lastAction) == t.rows[k]
    ensures t.present && AllColumns <= t.columns ==> res.1 == t
  {
    var rows := map k | k in t.rows :: Migrate(t.rows[k], t.columns);
    var t' := Table(true, t.columns + AllColumns, rows, t.order);
    assert t.present && AllColumns <= t.columns ==> rows == t.rows by {
      if t.present && AllColumns <= t.columns {
        assert forall k :: k in t.rows ==> Migrate(t.rows[k], t.columns) == t.rows[k];
      }
    }
    (!t.present, t')
  }

  /** A second `ensure_schema()` neither creates nor changes anything. */
  lemma {:induction false} SchemaIdempotent(t: Table)
    requires ValidTable(t)
    ensures SchemaEnsured(SchemaEnsured(t).1) == (false, SchemaEnsured(t).1)
  {
  }

  // ---------------------------------------------------------------- record_event

  /** The parameters `record_event` binds: the event's fields, the file path
      normalised as `str(Path(...))`, and the defaults of the two later columns
      for a row that is inserted. */
  function Payload(e: DownloadEvent): (p: Row)
    ensures p.videoId == e.videoId && p.retryCount == 0 && p.lastAction.None?
    ensures p.filePath.Some? <==> e.filePath.Some?
    ensures e.filePath.Some? ==> p.filePath == Some(Normalize(e.filePath.value))
  {
    Row(e.videoId, e.url, e.title, e.status, e.startedAt, e.finishedAt,
        if e.filePath.Some? then Some(Normalize(e.filePath.value)) else None,
        e.error, e.playlistId, e.playlistTitle, 0, None)
  }

  /** `ON CONFLICT(video_id) DO UPDATE SET ...` */
  function Merge(existing: Row, p: Row): Row {
    existing.(
      url := p.url,
      title := Coalesce(p.title, existing.title),
      status := p.status,
      startedAt := Coalesce(p.startedAt, existing.startedAt),
      finishedAt := Coalesce(p.finishedAt, existing.finishedAt),
      filePath := Coalesce(p.filePath, existing.filePath),
      error := Coalesce(p.error, existing.error),
      playlistId := Coalesce(p.playlistId, existing.playlistId),
      playlistTitle := Coalesce(p.playlistTitle, existing.playlistTitle))
  }

  /** The upsert itself, on a table that exists. */
  function Upsert(t: Table, p: Row): (r: Table)
    requires ValidTable(t) && t.present
    ensures ValidTable(r) && r.present && r.columns == t.columns
    ensures r.rows.Keys == t.rows.Keys + {p.videoId}
    ensures forall k :: k in t.rows && k != p.videoId ==> r.rows[k] == t.rows[k]
    ensures r.order == if p.videoId in t.rows then t.order else t.order + [p.videoId]
  {
    if p.videoId in t.rows then
      t.(rows := t.rows[p.videoId := Merge(t.rows[p.videoId], p)])
    else
      t.(rows := t.rows[p.videoId := p], order := t.order + [p.videoId])
  }

  /** `record_event(e)`: `ensure_schema()`, then the upsert. */
  function AfterRecord(t: Table, e: DownloadEvent): (r: Table)
    requires ValidTable(t)
    ensures ValidTable(r) && r.rows.Keys == t.rows.Keys + {e.videoId}
  {
    Upsert(SchemaEnsured(t).1, Payload(e))
  }

  /** What an upsert leaves in the row of the event's `video_id`: a fresh row
      when the key is new (with `retry_count` 0); on a known key the new `url`
      and `status`, every other incoming column where it is not NULL and the
      stored value where it is, and the stored `retry_count` and
      `last_action`. */
  lemma {:induction false} RecordUpsertsRow(t: Table, e: DownloadEvent)
    requires ValidTable(t)
    ensures var r := AfterRecord(t, e).rows[e.videoId];
      if e.videoId !in t.rows then
        && r.url == e.url && r.title == e.title && r.status == e.status
        && r.startedAt == e.startedAt && r.finishedAt == e.finishedAt && r.error == e.error
        && r.filePath == Payload(e).filePath
        && r.playlistId == e.playlistId && r.playlistTitle == e.playlistTitle
        && r.retryCount == 0 && r.lastAction.None?
      else
        var s := SchemaEnsured(t).1.rows[e.videoId];
        && r.videoId == e.videoId && r.url == e.url && r.status == e.status
        && (e.title.Some? ==> r.title == e.title) && (e.title.None? ==> r.title == s.title)
        && (e.startedAt.Some? ==> r.startedAt == e.startedAt) && (e.startedAt.None? ==> r.startedAt == s.startedAt)
        && (e.finishedAt.Some? ==> r.finishedAt == e.finishedAt) && (e.finishedAt.None? ==> r.finishedAt == s.finishedAt)
        && (e.filePath.Some? ==> r.filePath == Payload(e).filePath) && (e.filePath.None? ==> r.filePath == s.filePath)
        && (e.error.Some? ==> r.error == e.error) && (e.error.None? ==> r.error == s.error)
        && (e.playlistId.Some? ==> r.playlistId == e.playlistId) && (e.playlistId.None? ==> r.playlistId == s.playlistId)
        && (e.playlistTitle.Some? ==> r.playlistTitle == e.playlistTitle)
        && (e.playlistTitle.None? ==> r.playlistTitle == s.playlistTitle)
        && r.retryCount == s.retryCount && r.lastAction == s.lastAction
  {
  }

  /** `record_event` touches only the row of its own key; other rows differ at
      most by the defaults a migration fills in. */
  lemma {:induction false} RecordLeavesOthers(t: Table, e: DownloadEvent, k: string)
    requires ValidTable(t) && k in t.rows && k != e.videoId
    ensures AfterRecord(t, e).rows[k] == Migrate(t.rows[k], t.columns)
  {
  }

  /** After `record_event(e)`, `fetch_download(e.video_id)` returns the row the
      upsert produced. */
  lemma {:induction false} RecordThenFetch(t: Table, e: DownloadEvent)
    requires ValidTable(t) && e.videoId != ""
    ensures var r := AfterRecord(t, e);
      Fetch(Snapshot(r), Some(e.videoId), None) == Some(r.rows[e.videoId])
  {
    var r := AfterRecord(t, e);
    FetchStoredRow(r, e.videoId);
  }

  /** `fetch_download(k)` finds the stored row of a non-empty key `k`. */
  lemma FetchStoredRow(r: Table, k: string)
    requires ValidTable(r) && k in r.rows && k != ""
    ensures Fetch(Snapshot(r), Some(k), None) == Some(r.rows[k])
  {
    SnapshotMembers(r);
    var found := Fetch(Snapshot(r), Some(k), None);
    assert r.rows[k] in Snapshot(r);
    assert found.Some?;
  }

  // ---------------------------------------------------------------- update_download

  /** `SET status = ..., last_action = ..., retry_count = COALESCE(retry_count, 0) + 1`,
      each assignment present only when asked for. */
  function Apply(r: Row, status: Option<string>, increment: bool, lastAction: Option<string>): (r': Row)
    ensures r'.videoId == r.videoId && r'.url == r.url
  {
    r.(status := if status.Some? then status.value else r.status,
       lastAction := if lastAction.Some? then lastAction else r.lastAction,
       retryCount := if increment then r.retryCount + 1 else r.retryCount)
  }

  /** The `UPDATE ... WHERE video_id = :video_id OR url = :url` on every row. */
  function UpdateRows(rows: map<string, Row>, videoId: Option<string>, url: Option<string>,
                      status: Option<string>, increment: bool, lastAction: Option<string>): (r: map<string, Row>)
    ensures r.Keys == rows.Keys
    ensures forall k :: k in rows ==> r[k].videoId == rows[k].videoId
    ensures forall k :: k in rows && Matches(rows[k], videoId, url) ==> r[k] == Apply(rows[k], status, increment, lastAction)
    ensures forall k :: k in rows && !Matches(rows[k], videoId, url) ==> r[k] == rows[k]
  {
    map k | k in rows :: if Matches(rows[k], videoId, url) then Apply(rows[k], status, increment, lastAction) else rows[k]
  }

  /** `update_download(video_id, url, status=..., retry_increment=..., last_action=...)` */
  function AfterUpdate(t: Table, videoId: Option<string>, url: Option<string>,
                       status: Option<string>, increment: bool, lastAction: Option<string>): (r: Table)
    requires ValidTable(t)
    ensures ValidTable(r) && r.order == t.order && r.rows.Keys == t.rows.Keys
    ensures !Given(videoId) && !Given(url) ==> r == t
    ensures (Given(videoId) || Given(url)) && status.None? && lastAction.None? && !increment ==> r == SchemaEnsured(t).1
  {
    if !Given(videoId) && !Given(url) then t
    else
      var t1 := SchemaEnsured(t).1;
      if status.None? && lastAction.None? && !increment then t1
      else
        t1.(rows := UpdateRows(t1.rows, videoId, url, status, increment, lastAction))
  }

  /** With a key and at least one assignment, every row the key matches gets
      exactly the requested columns, and no other row or column changes. With
      no assignment only the schema is ensured. */
  lemma {:induction false} UpdateEffect(t: Table, videoId: Option<string>, url: Option<string>,
                     status: Option<string>, increment: bool, lastAction: Option<string>, k: string)
    requires ValidTable(t) && (Given(videoId) || Given(url)) && k in t.rows
    ensures var s := SchemaEnsured(t).1.rows[k];
      var r := AfterUpdate(t, videoId, url, status, increment, lastAction).rows[k];
      if Matches(s, videoId, url) && (status.Some? || lastAction.Some? || increment) then
        && r.(status := s.status, lastAction := s.lastAction, retryCount := s.retryCount) == s
        && r.status == (if status.Some? then status.value else s.status)
        && r.lastAction == (if lastAction.Some? then lastAction else s.lastAction)
        && r.retryCount == (if increment then s.retryCount + 1 else s.retryCount)
      else r == s
  {
    var t1 := SchemaEnsured(t).1;
    var after := AfterUpdate(t, videoId, url, status, increment, lastAction);
    if status.None? && lastAction.None? && !increment {
      assert after == t1;
    } else {
      assert after.rows == UpdateRows(t1.rows, videoId, url, status, increment, lastAction);
    }
  }

  /** Every row an update with a status matches carries that status
      afterwards. */
  lemma {:induction false} UpdatedRowsCarryStatus(t: Table, videoId: Option<string>, url: Option<string>,
                               status: string, increment: bool, lastAction: Option<string>)
    requires ValidTable(t) && (Given(videoId) || Given(url))
    ensures var r := AfterUpdate(t, videoId, url, Some(status), increment, lastAction);
      forall k :: k in r.rows && Matches(r.rows[k], videoId, url) ==>
        r.rows[k].status == status && (lastAction.Some? ==> r.rows[k].lastAction == lastAction)
  {
    var t1 := SchemaEnsured(t).1;
    AssignedRows(t, videoId, url, Some(status), increment, lastAction);
    var rows := UpdateRows(t1.rows, videoId, url, Some(status), increment, lastAction);
    forall k | k in rows && Matches(rows[k], videoId, url)
      ensures rows[k].status == status && (lastAction.Some? ==> rows[k].lastAction == lastAction)
    {
      assert Matches(t1.rows[k], videoId, url);
    }
  }

  /** With a key and an assignment, the rows after the update are the
      `UPDATE` applied to the rows after `ensure_schema()`. */
  lemma AssignedRows(t: Table, videoId: Option<string>, url: Option<string>,
                     status: Option<string>, increment: bool, lastAction: Option<string>)
    requires ValidTable(t) && (Given(videoId) || Given(url)) && (status.Some? || lastAction.Some? || increment)
    ensures AfterUpdate(t, videoId, url, status, increment, lastAction).rows
            == UpdateRows(SchemaEnsured(t).1.rows, videoId, url, status, increment, lastAction)
  {
  }

  /** After an update that sets a status, whatever `fetch_download` finds by
      the same keys carries that status. */
  lemma {:induction false} UpdateThenFetch(t: Table, videoId: Option<string>, url: Option<string>,
                        status: string, increment: bool, lastAction: Option<string>)
    requires ValidTable(t) && (Given(videoId) || Given(url))
    ensures var r := AfterUpdate(t, videoId, url, Some(status), increment, lastAction);
      var found := Fetch(Snapshot(r), videoId, url);
      found.Some? ==> found.value.status == status && (lastAction.Some? ==> found.value.lastAction == lastAction)
  {
    var r := AfterUpdate(t, videoId, url, Some(status), increment, lastAction);
    UpdatedRowsCarryStatus(t, videoId, url, status, increment, lastAction);
    SnapshotMembers(r);
    var found := Fetch(Snapshot(r), videoId, url);
    if found.Some? {
      assert r.rows[found.value.videoId] == found.value;
    }
  }

  /** An update never changes the keys a row is matched by, so whatever
      `fetch_download` found before an update it still finds afterwards. */
  lemma {:induction false} UpdateKeepsFound(t: Table, videoId: Option<string>, url: Option<string>,
                         status: Option<string>, increment: bool, lastAction: Option<string>)
    requires ValidTable(t) && Fetch(Snapshot(t), videoId, url).Some?
    ensures Fetch(Snapshot(AfterUpdate(t, videoId, url, status, increment, lastAction)), videoId, url).Some?
  {
    var x := Fetch(Snapshot(t), videoId, url).value;
    var k := x.videoId;
    SnapshotMembers(t);
    assert k in t.rows && t.rows[k] == x;
    var r := AfterUpdate(t, videoId, url, status, increment, lastAction);
    UpdateEffect(t, videoId, url, status, increment, lastAction, k);
    var s := SchemaEnsured(t).1.rows[k];
    assert s.videoId == x.videoId && s.url == x.url;
    assert r.rows[k].videoId == x.videoId && r.rows[k].url == x.url;
    FetchFindsMatch(r, k, videoId, url);
  }

  /** A stored row that matches the condition makes `fetch_download` find
      something. */
  lemma FetchFindsMatch(r: Table, k: string, videoId: Option<string>, url: Option<string>)
    requires ValidTable(r) && k in r.rows && Matches(r.rows[k], videoId, url)
    ensures Fetch(Snapshot(r), videoId, url).Some?
  {
    SnapshotMembers(r);
    assert r.rows[k] in Snapshot(r);
  }

  // ---------------------------------------------------------------- import_from_jsonl

  /** The `video_id`s of a batch of rows. */
  function IdSet(rs: seq<Row>): set<string> {
    if rs == [] then {} else IdSet(rs[..|rs| - 1]) + {rs[|rs| - 1].videoId}
  }

  lemma {:induction false} IdSetMembers(rs: seq<Row>)
    ensures forall i :: 0 <= i < |rs| ==> rs[i].videoId in IdSet(rs)
    ensures forall k :: k in IdSet(rs) ==> exists i :: 0 <= i < |rs| && rs[i].videoId == k
  {
    if rs != [] {
      var prefix := rs[..|rs| - 1];
      IdSetMembers(prefix);
      assert forall i :: 0 <= i < |prefix| ==> prefix[i] == rs[i];
    }
  }

  /** `INSERT ... ON CONFLICT(video_id) DO NOTHING` for each row in turn: a row
      whose key is already stored, or was inserted earlier in the batch, is
      ignored. */
  function InsertAll(t: Table, news: seq<Row>): (r: Table)
    requires ValidTable(t) && t.present
    ensures ValidTable(r) && r.present && r.columns == t.columns
    ensures t.order <= r.order
    ensures forall k :: k in r.rows <==> k in t.rows || k in IdSet(news)
    ensures forall k :: k in t.rows ==> r.rows[k] == t.rows[k]
  {
    if news == [] then t
    else
      var t0 := InsertAll(t, news[..|news| - 1]);
      var x := news[|news| - 1];
      if x.videoId in t0.rows then t0
      else Table(t0.present, t0.columns, t0.rows[x.videoId := x], t0.order + [x.videoId])
  }

  /** The first row of the batch with a given key is the one stored. */
  lemma {:induction false} InsertAllFirstWins(t: Table, news: seq<Row>, k: string)
    requires ValidTable(t) && t.present
    requires k in InsertAll(t, news).rows && k !in t.rows
    ensures FirstFor(news, k, InsertAll(t, news).rows[k])
  {
    assert news != [];
    var prefix := news[..|news| - 1];
    var x := news[|news| - 1];
    var t0 := InsertAll(t, prefix);
    var r := InsertAll(t, news);
    InsertAllLast(t, news);
    SplitLast(news);
    if k in t0.rows {
      InsertAllFirstWins(t, prefix, k);
      assert r.rows[k] == t0.rows[k];
      FirstForSnoc(prefix, x, k, r.rows[k]);
    } else {
      assert k == x.videoId && r.rows[k] == x;
      FirstForLast(prefix, x);
    }
  }

  /** A non-empty batch is the batch before its last row and then that row. */
  lemma InsertAllLast(t: Table, news: seq<Row>)
    requires ValidTable(t) && t.present && news != []
    ensures var t0 := InsertAll(t, news[..|news| - 1]); var x := news[|news| - 1];
      InsertAll(t, news)
      == if x.videoId in t0.rows then t0
         else Table(t0.present, t0.columns, t0.rows[x.videoId := x], t0.order + [x.videoId])
  {
  }

  /** A non-empty sequence is its front and then its last element. */
  lemma SplitLast<T>(xs: seq<T>)
    requires xs != []
    ensures xs == xs[..|xs| - 1] + [xs[|xs| - 1]]
  {
  }

  /** The batch up to row `i` is the batch before it and then that row. */
  lemma InsertAllStep(t: Table, news: seq<Row>, i: nat)
    requires ValidTable(t) && t.present && i < |news|
    ensures var t0 := InsertAll(t, news[..i]); var x := news[i];
      InsertAll(t, news[..i + 1])
      == if x.videoId in t0.rows then t0
         else Table(t0.present, t0.columns, t0.rows[x.videoId := x], t0.order + [x.videoId])
  {
    assert news[..i + 1][..i] == news[..i];
  }

  /** Row `row` is the first of `rs` with key `k`. */
  ghost predicate FirstFor(rs: seq<Row>, k: string, row: Row) {
    exists i :: 0 <= i < |rs| && rs[i] == row && forall j :: 0 <= j < i ==> rs[j].videoId != k
  }

  lemma FirstForSnoc(rs: seq<Row>, x: Row, k: string, row: Row)
    requires FirstFor(rs, k, row)
    ensures FirstFor(rs + [x], k, row)
  {
    var i :| 0 <= i < |rs| && rs[i] == row && forall j :: 0 <= j < i ==> rs[j].videoId != k;
    assert forall j :: 0 <= j < |rs| ==> (rs + [x])[j] == rs[j];
  }

  lemma FirstForLast(rs: seq<Row>, x: Row)
    requires x.videoId !in IdSet(rs)
    ensures FirstFor(rs + [x], x.videoId, x)
  {
    IdSetMembers(rs);
    assert (rs + [x])[|rs|] == x;
    assert forall j :: 0 <= j < |rs| ==> (rs + [x])[j] == rs[j];
  }

  /** A table without rows has an empty rowid order. */
  lemma EmptyOrder(t: Table)
    requires ValidTable(t) && t.rows == map[]
    ensures t.order == []
  {
    if t.order != [] {
      HeadIn(t.order);
      assert false;
    }
  }

  lemma HeadIn(ks: seq<string>)
    requires ks != []
    ensures ks[0] in ks
  {
  }

  /** `import_from_jsonl(path)`: the table afterwards and the number returned,
      or the exception raised. The checks run in the program's order: the file
      must exist, the probe query fails on a missing table, a table with any row
      is left alone, a read error gives 0. */
  function AfterImport(t: Table, file: SourceFile, ts: Value -> Option<string>): (res: (Table, Result<nat, PyError>))
    requires ValidTable(t)
    ensures ValidTable(res.0)
    ensures file.Missing? || (t.present && t.rows != map[]) ==> res == (t, Ok(0))
    ensures !file.Missing? && !t.present ==> res == (t, Err(OperationalError))
    ensures res.1.Err? || res.1 == Ok(0) ==> res.0 == t
    ensures res.1.Ok? ==> |res.0.order| == |t.order| + res.1.value
  {
    if file.Missing? then (t, Ok(0))
    else if !t.present then (t, Err(OperationalError))
    else if t.rows != map[] then (t, Ok(0))
    else if file.Unreadable? then (t, Ok(0))
    else
      EmptyOrder(t);
      AfterReading(t, DeriveAll(file.lines, ts))
  }

  /** The rest of the import once the lines are read from a file into an empty
      table: an exception propagates, no rows give 0, and otherwise the rows are
      inserted and the number of inserted rows (`total_changes` of the fresh
      connection) is returned. */
  function AfterReading(t: Table, derived: Result<seq<Row>, PyError>): (res: (Table, Result<nat, PyError>))
    requires ValidTable(t) && t.present && t.rows == map[]
    ensures ValidTable(res.0)
    ensures res.1.Err? || res.1 == Ok(0) ==> res.0 == t
    ensures res.1.Ok? ==> |res.0.order| == res.1.value
    ensures derived.Err? ==> res == (t, Err(derived.error))
  {
    EmptyOrder(t);
    if derived.Err? then (t, Err(derived.error))
    else if derived.value == [] then (t, Ok(0))
    else
      var t1 := InsertAll(t, derived.value);
      assert t1.order != [] by {
        IdSetMembers(derived.value);
        assert derived.value[0].videoId in t1.rows;
      }
      (t1, Ok(|t1.order|))
  }

  /** The last step of an import that inserts: the count is the growth of the
      rowid order. */
  lemma {:induction false} ImportInserts(t: Table, file: SourceFile, ts: Value -> Option<string>, t1: Table, added: int)
    requires ValidTable(t) && t.present && t.rows == map[] && file.Lines?
    requires DeriveAll(file.lines, ts).Ok? && DeriveAll(file.lines, ts).value != []
    requires t1 == InsertAll(t, DeriveAll(file.lines, ts).value) && added == |t1.order| - |t.order|
    ensures added >= 0 && AfterImport(t, file, ts) == (t1, Ok(added))
  {
    var d := DeriveAll(file.lines, ts);
    assert d == Ok(d.value);
    EmptyOrder(t);
    assert AfterImport(t, file, ts) == AfterReading(t, d);
  }

  /** On an empty table, an import that gets as far as inserting stores one row
      per distinct derived id, the first row derived for it, and returns how
      many there are. */
  lemma {:induction false} ImportCountsDistinctIds(t: Table, ls: seq<JsonLine>, ts: Value -> Option<string>)
    requires ValidTable(t) && t.present && t.rows == map[]
    requires DeriveAll(ls, ts).Ok?
    ensures var derived := DeriveAll(ls, ts).value;
      var (t1, res) := AfterImport(t, Lines(ls), ts);
      && res == Ok(|IdSet(derived)|)
      && t1.rows.Keys == IdSet(derived)
      && forall k :: k in t1.rows ==> FirstFor(derived, k, t1.rows[k])
  {
    var derived := DeriveAll(ls, ts).value;
    EmptyOrder(t);
    if derived != [] {
      var t1 := InsertAll(t, derived);
      DistinctSize(t1.order, t1.rows.Keys);
      assert t1.rows.Keys == IdSet(derived);
      ImportInserts(t, Lines(ls), ts, t1, |t1.order|);
      forall k | k in t1.rows
        ensures FirstFor(derived, k, t1.rows[k])
      {
        InsertAllFirstWins(t, derived, k);
      }
    }
  }

  /** Importing the same file again changes nothing, and returns 0 unless the
      first import raised, in which case it raises the same exception. */
  lemma {:induction false} ImportTwice(t: Table, file: SourceFile, ts: Value -> Option<string>)
    requires ValidTable(t)
    ensures var (t1, r1) := AfterImport(t, file, ts);
      AfterImport(t1, file, ts) == (t1, if r1.Err? then r1 else Ok(0))
  {
    var (t1, r1) := AfterImport(t, file, ts);
    if r1.Ok? && r1.value > 0 {
      assert t1.order != [];
      assert t1.order[0] in t1.rows;
    }
  }

  // ---------------------------------------------------------------- the store

  /** The history database of one process, after `init_db`. */
  class HistoryDb {
    var present: bool
    var columns: set<Column>
    var rows: map<string, Row>
    var order: seq<string>

    function State(): Table
      reads this
    {
      Table(present, columns, rows, order)
    }

    predicate Valid()
      reads this
    {
      ValidTable(State())
    }

    /** A database file without the table. */
    constructor ()
      ensures Valid() && State() == Table(false, {}, map[], [])
    {
      present, columns, rows, order := false, {}, map[], [];
    }

    /** A database file left by an earlier version, in any valid state. */
    constructor Opened(t: Table)
      requires ValidTable(t)
      ensures Valid() && State() == t
    {
      present, columns, rows, order := t.present, t.columns, t.rows, t.order;
    }

    method EnsureSchema() returns (created: bool)
      requires Valid()
      modifies this
      ensures Valid()
      ensures (created, State()) == SchemaEnsured(old(State()))
    {
      ghost var t := State();
      created := !present;
      if !present {
        assert SchemaEnsured(t).1.rows == map[] && t.columns + AllColumns == AllColumns;
        present := true;
        columns := AllColumns;
        return;
      }
      // ALTER TABLE ... ADD COLUMN for each of the later columns that is missing
      if !(AddedColumns <= columns) {
        rows := map k | k in rows :: Migrate(rows[k], columns);
        columns := columns + AddedColumns;
        assert columns == t.columns + AllColumns;
      } else {
        assert AllColumns <= columns;
      }
    }

    /** `record_event(e)`; appending the event's metadata to a file is not part
        of this model. */
    method RecordEvent(e: DownloadEvent)
      requires Valid()
      modifies this
      ensures Valid()
      ensures State() == AfterRecord(old(State()), e)
    {
      var _ := EnsureSchema();
      UpsertRow(Payload(e));
    }

    /** `INSERT ... ON CONFLICT(video_id) DO UPDATE SET ...` on a table that
        exists. */
    method UpsertRow(p: Row)
      requires Valid() && present
      modifies this
      ensures Valid()
      ensures State() == Upsert(old(State()), p)
    {
      if p.videoId in rows {
        rows := rows[p.videoId := Merge(rows[p.videoId], p)];
      } else {
        rows := rows[p.videoId := p];
        order := order + [p.videoId];
      }
    }

    /** `fetch_download(video_id, url)`, which ensures the schema first when it
        queries at all. */
    method FetchDownload(videoId: Option<string>, url: Option<string>) returns (r: Option<Row>)
      requires Valid()
      modifies this
      ensures Valid()
      ensures State() == if !Given(videoId) && !Given(url) then old(State()) else SchemaEnsured(old(State())).1
      ensures r == Fetch(Snapshot(State()), videoId, url)
    {
      if !Given(videoId) && !Given(url) {
        return None;
      }
      var _ := EnsureSchema();
      r := Fetch(Snapshot(State()), videoId, url);
    }

    method UpdateDownload(videoId: Option<string>, url: Option<string>,
                          status: Option<string>, increment: bool, lastAction: Option<string>)
      requires Valid()
      modifies this
      ensures Valid()
      ensures State() == AfterUpdate(old(State()), videoId, url, status, increment, lastAction)
    {
      if !Given(videoId) && !Given(url) {
        return;
      }
      var _ := EnsureSchema();
      ghost var t1 := State();
      if status.None? && lastAction.None? && !increment {
        return;
      }
      UpdateMatching(videoId, url, status, increment, lastAction);
    }

    /** The `UPDATE downloads SET ... WHERE ...` statement itself. */
    method UpdateMatching(videoId: Option<string>, url: Option<string>,
                          status: Option<string>, increment: bool, lastAction: Option<string>)
      requires Valid()
      modifies this
      ensures Valid()
      ensures State() == old(State()).(rows := UpdateRows(old(rows), videoId, url, status, increment, lastAction))
    {
      rows := UpdateRows(rows, videoId, url, status, increment, lastAction);
    }

    /** `list_downloads(...)` with its filters already normalised. */
    method ListDownloads(f: ListFilter) returns (rs: seq<Row>)
      requires Valid()
      modifies this
      ensures Valid()
      ensures State() == SchemaEnsured(old(State())).1
      ensures rs == List(Snapshot(State()), f)
    {
      var _ := EnsureSchema();
      rs := List(Snapshot(State()), f);
    }

    /** `import_from_jsonl(path)` over the file's lines as the reader delivers
        them. */
    method ImportFromJsonl(file: SourceFile, ts: Value -> Option<string>) returns (res: Result<nat, PyError>)
      requires Valid()
      modifies this
      ensures Valid()
      ensures (State(), res) == AfterImport(old(State()), file, ts)
    {
      if file.Missing? {
        return Ok(0);
      }
      if !present {
        return Err(OperationalError);
      }
      if rows != map[] {
        return Ok(0);
      }
      if file.Unreadable? {
        return Ok(0);
      }
      ghost var t := State();
      var derived := DeriveRows(file.lines, ts);
      if derived.Err? {
        return Err(derived.error);
      }
      if derived.value == [] {
        return Ok(0);
      }
      var before := |order|;
      InsertRows(derived.value);
      var added := |order| - before;
      ImportInserts(t, file, ts, State(), added);
      res := Ok(added);
    }

    /** The `executemany` of the import: one `INSERT ... DO NOTHING` per row. */
    method InsertRows(news: seq<Row>)
      requires Valid() && present
      modifies this
      ensures Valid()
      ensures State() == InsertAll(old(State()), news)
    {
      ghost var start := State();
      var i := 0;
      while i < |news|
        invariant 0 <= i <= |news|
        invariant State() == InsertAll(start, news[..i])
      {
        InsertAllStep(start, news, i);
        InsertIgnoringConflict(news[i]);
        i := i + 1;
      }
      assert news[..|news|] == news;
    }

    /** One `INSERT ... ON CONFLICT(video_id) DO NOTHING`. */
    method InsertIgnoringConflict(x: Row)
      modifies this
      ensures State() == if x.videoId in old(rows) then old(State())
                         else Table(old(present), old(columns), old(rows)[x.videoId := x], old(order) + [x.videoId])
    {
      if x.videoId !in rows {
        rows := rows[x.videoId := x];
        order := order + [x.videoId];
      }
    }
  }
}
