/** The `downloads` table of the history database: its rows, its schema, and the
    read-only queries `fetch_download` and `list_downloads` on a snapshot of its
    rows in insertion (rowid) order. */
module History {
  import opened Wrappers
  import opened PyText

  /** One row of `downloads`. Timestamps are ISO 8601 text. */
  datatype Row = Row(
    videoId: string,
    url: string,
    title: Option<string>,
    status: string,
    startedAt: Option<string>,
    finishedAt: Option<string>,
    filePath: Option<string>,
    error: Option<string>,
    playlistId: Option<string>,
    playlistTitle: Option<string>,
    retryCount: int,
    lastAction: Option<string>)

  /** The columns of `downloads`. */
  datatype Column =
    | VideoIdColumn | UrlColumn | TitleColumn | StatusColumn | StartedAtColumn | FinishedAtColumn
    | FilePathColumn | ErrorColumn | PlaylistIdColumn | PlaylistTitleColumn
    | RetryCountColumn | LastActionColumn

  function ColumnName(c: Column): string {
    match c
    case VideoIdColumn => "video_id"
    case UrlColumn => "url"
    case TitleColumn => "title"
    case StatusColumn => "status"
    case StartedAtColumn => "started_at"
    case FinishedAtColumn => "finished_at"
    case FilePathColumn => "file_path"
    case ErrorColumn => "error"
    case PlaylistIdColumn => "playlist_id"
    case PlaylistTitleColumn => "playlist_title"
    case RetryCountColumn => "retry_count"
    case LastActionColumn => "last_action"
  }

  /** The columns of the first schema version. */
  const BaseColumns: set<Column> := {
    VideoIdColumn, UrlColumn, TitleColumn, StatusColumn, StartedAtColumn, FinishedAtColumn,
    FilePathColumn, ErrorColumn, PlaylistIdColumn, PlaylistTitleColumn}

  /** The columns later versions add by migration. */
  const AddedColumns: set<Column> := {RetryCountColumn, LastActionColumn}

  const AllColumns: set<Column> := BaseColumns + AddedColumns

  /** SQL `COALESCE(a, b)` */
  function Coalesce<T>(a: Option<T>, b: Option<T>): (r: Option<T>)
    ensures r.Some? <==> a.Some? || b.Some?
    ensures a.Some? ==> r == a
    ensures a.None? ==> r == b
  {
    if a.Some? then a else b
  }

  /** An optional text that Python treats as true: given and not empty. */
  predicate Given(k: Option<string>) {
    k.Some? && k.value != ""
  }

  /** The `WHERE video_id = :video_id OR url = :url` condition, each side present
      only when its argument is given. */
  predicate Matches(r: Row, videoId: Option<string>, url: Option<string>) {
    (Given(videoId) && r.videoId == videoId.value) || (Given(url) && r.url == url.value)
  }

  /** `a` sorts strictly before `b` under `ORDER BY ... DESC NULLS LAST`: a NULL
      comes after every value. */
  predicate Later(a: Option<string>, b: Option<string>) {
    a.Some? && (b.None? || StrLt(b.value, a.value))
  }

  lemma LaterIrreflexive(a: Option<string>)
    ensures !Later(a, a)
  {
    if a.Some? {
      StrLtIrreflexive(a.value);
    }
  }

  lemma LaterTransitive(a: Option<string>, b: Option<string>, c: Option<string>)
    requires Later(a, b) && Later(b, c)
    ensures Later(a, c)
  {
    if c.Some? {
      StrLtTransitive(c.value, b.value, a.value);
    }
  }

  /** Not later means later or equal the other way round. */
  lemma LaterTotal(a: Option<string>, b: Option<string>)
    ensures a == b || Later(a, b) || Later(b, a)
  {
    if a.Some? && b.Some? {
      StrLtTotal(a.value, b.value);
    }
  }

  /** The matching row with the latest `finished_at` among `rs`, the earliest
      such row on a tie. */
  function Latest(rs: seq<Row>, videoId: Option<string>, url: Option<string>): (r: Option<Row>)
    ensures r.Some? ==> r.value in rs && Matches(r.value, videoId, url)
    ensures r.Some? ==> forall x :: x in rs && Matches(x, videoId, url) ==> !Later(x.finishedAt, r.value.finishedAt)
    ensures r.None? ==> forall x :: x in rs ==> !Matches(x, videoId, url)
  {
    if rs == [] then None
    else
      var rest := Latest(rs[1..], videoId, url);
      assert forall x :: x in rs ==> x == rs[0] || x in rs[1..];
      if !Matches(rs[0], videoId, url) then
        rest
      else if rest.Some? && Later(rest.value.finishedAt, rs[0].finishedAt) then
        forall x | x in rs && Matches(x, videoId, url)
          ensures !Later(x.finishedAt, rest.value.finishedAt)
        {
          if x == rs[0] {
            if Later(x.finishedAt, rest.value.finishedAt) {
              LaterTransitive(x.finishedAt, rest.value.finishedAt, x.finishedAt);
              LaterIrreflexive(x.finishedAt);
            }
          }
        }
        rest
      else
        forall x | x in rs && Matches(x, videoId, url)
          ensures !Later(x.finishedAt, rs[0].finishedAt)
        {
          if x == rs[0] {
            LaterIrreflexive(x.finishedAt);
          } else if Later(x.finishedAt, rs[0].finishedAt) {
            assert rest.Some?;
            LaterTotal(rest.value.finishedAt, rs[0].finishedAt);
            if rest.value.finishedAt == rs[0].finishedAt {
            } else {
              LaterTransitive(x.finishedAt, rs[0].finishedAt, rest.value.finishedAt);
            }
          }
        }
        Some(rs[0])
  }

  /** `fetch_download(video_id, url)` on the rows of the table: nothing when
      neither key is given, otherwise a row that matches one of them and that no
      other matching row finished after. */
  function Fetch(rs: seq<Row>, videoId: Option<string>, url: Option<string>): (r: Option<Row>)
    ensures !Given(videoId) && !Given(url) ==> r.None?
    ensures r.Some? ==> r.value in rs && Matches(r.value, videoId, url)
    ensures r.Some? ==> forall x :: x in rs && Matches(x, videoId, url) ==> !Later(x.finishedAt, r.value.finishedAt)
    ensures r.None? ==> forall x :: x in rs ==> !Matches(x, videoId, url)
  {
    if !Given(videoId) && !Given(url) then None else Latest(rs, videoId, url)
  }

  /** `COALESCE(finished_at, started_at)`, the key `list_downloads` filters
      and sorts on. */
  function ListKey(r: Row): Option<string> {
    Coalesce(r.finishedAt, r.startedAt)
  }

  /** `[item for item in statuses if item]` */
  function NonEmpty(ss: seq<string>): (r: seq<string>)
    ensures forall s :: s in r <==> s in ss && s != ""
  {
    if ss == [] then []
    else
      assert forall s :: s in ss <==> s == ss[0] || s in ss[1..];
      (if ss[0] != "" then [ss[0]] else []) + NonEmpty(ss[1..])
  }

  /** The filters of `list_downloads`, after normalisation. */
  datatype ListFilter = ListFilter(statuses: seq<string>, limit: Option<int>, since: Option<string>, playlistId: Option<string>)

  /** The `WHERE` clause: every filter that is present must hold. A row whose
      sort key is NULL never satisfies a `since` bound. */
  predicate Selected(r: Row, f: ListFilter) {
    var statuses := NonEmpty(f.statuses);
    && (statuses != [] ==> r.status in statuses)
    && (Given(f.since) ==> ListKey(r).Some? && !StrLt(ListKey(r).value, f.since.value))
    && (Given(f.playlistId) ==> r.playlistId == f.playlistId)
  }

  function Where(rs: seq<Row>, f: ListFilter): (r: seq<Row>)
    ensures multiset(r) <= multiset(rs)
    ensures forall x :: x in r <==> x in rs && Selected(x, f)
  {
    if rs == [] then []
    else
      assert forall x :: x in rs <==> x == rs[0] || x in rs[1..];
      assert rs == [rs[0]] + rs[1..];
      (if Selected(rs[0], f) then [rs[0]] else []) + Where(rs[1..], f)
  }

  /** Ordered by `COALESCE(finished_at, started_at) DESC`; SQLite sorts NULL
      below every value, so NULL keys come last. */
  predicate SortedDesc(rs: seq<Row>) {
    forall i, j :: 0 <= i < j < |rs| ==> !Later(ListKey(rs[j]), ListKey(rs[i]))
  }

  /** A row later than the first of a sorted sequence is later than all. */
  lemma LaterThanAll(x: Row, rs: seq<Row>)
    requires SortedDesc(rs) && rs != [] && Later(ListKey(x), ListKey(rs[0]))
    ensures forall j :: 0 <= j < |rs| ==> !Later(ListKey(rs[j]), ListKey(x))
  {
    forall j | 0 <= j < |rs|
      ensures !Later(ListKey(rs[j]), ListKey(x))
    {
      LaterTotal(ListKey(rs[j]), ListKey(rs[0]));
      if Later(ListKey(rs[j]), ListKey(x)) {
        LaterTransitive(ListKey(rs[j]), ListKey(x), ListKey(rs[0]));
        if j == 0 {
          LaterIrreflexive(ListKey(rs[0]));
        }
      }
    }
  }

  /** The first row of a sorted sequence is not earlier than any row of the
      rest with `x`, when `x` is not later than it. */
  lemma FirstNotEarlier(x: Row, rs: seq<Row>, tail: seq<Row>)
    requires SortedDesc(rs) && rs != [] && !Later(ListKey(x), ListKey(rs[0]))
    requires multiset(tail) == multiset(rs[1..]) + multiset{x}
    ensures forall j :: 0 <= j < |tail| ==> !Later(ListKey(tail[j]), ListKey(rs[0]))
  {
    forall j | 0 <= j < |tail|
      ensures !Later(ListKey(tail[j]), ListKey(rs[0]))
    {
      assert tail[j] in multiset(tail);
      assert tail[j] == x || tail[j] in multiset(rs[1..]);
      if tail[j] != x {
        var k :| 0 <= k < |rs[1..]| && rs[1..][k] == tail[j];
        assert rs[k + 1] == tail[j];
      }
    }
  }

  /** Insert `x` into a sorted sequence after every row that is not later than
      it. */
  function InsertDesc(x: Row, rs: seq<Row>): (r: seq<Row>)
    requires SortedDesc(rs)
    ensures SortedDesc(r)
    ensures multiset(r) == multiset(rs) + multiset{x}
  {
    if rs == [] then [x]
    else if Later(ListKey(x), ListKey(rs[0])) then
      LaterThanAll(x, rs);
      [x] + rs
    else
      var tail := InsertDesc(x, rs[1..]);
      assert rs == [rs[0]] + rs[1..];
      FirstNotEarlier(x, rs, tail);
      [rs[0]] + tail
  }

  /** A sort of `rs` by `ListKey`, latest first; SQL fixes no order among
      rows with equal keys, and neither does this one. */
  function SortByKeyDesc(rs: seq<Row>): (r: seq<Row>)
    ensures SortedDesc(r)
    ensures multiset(r) == multiset(rs)
  {
    if rs == [] then []
    else
      assert rs == [rs[0]] + rs[1..];
      InsertDesc(rs[0], SortByKeyDesc(rs[1..]))
  }

  /** `limit` is applied only when it is a positive number. */
  function Limit(rs: seq<Row>, limit: Option<int>): (r: seq<Row>)
    ensures limit.Some? && limit.value > 0 && limit.value < |rs| ==> r == rs[..limit.value]
    ensures !(limit.Some? && limit.value > 0 && limit.value < |rs|) ==> r == rs
  {
    if limit.Some? && limit.value > 0 && limit.value < |rs| then rs[..limit.value] else rs
  }

  lemma SortedPrefix(rs: seq<Row>, n: nat)
    requires SortedDesc(rs) && n <= |rs|
    ensures SortedDesc(rs[..n])
  {
    forall i, j | 0 <= i < j < n ensures !Later(ListKey(rs[..n][j]), ListKey(rs[..n][i])) {
      assert rs[..n][j] == rs[j] && rs[..n][i] == rs[i];
    }
  }

  /** What a prefix leaves of the multiset of a sequence is its suffix. */
  lemma PrefixRest(rs: seq<Row>, n: nat)
    requires n <= |rs|
    ensures multiset(rs[..n]) <= multiset(rs)
    ensures multiset(rs) - multiset(rs[..n]) == multiset(rs[n..])
  {
    assert rs == rs[..n] + rs[n..];
  }

  /** The rows a prefix of a sorted sequence leaves out are none of them
      later than a row it keeps. */
  lemma PrefixHoldsLatest(rs: seq<Row>, n: nat)
    requires SortedDesc(rs) && n <= |rs|
    ensures multiset(rs[..n]) <= multiset(rs)
    ensures forall x, y :: x in rs[..n] && y in multiset(rs) - multiset(rs[..n]) ==> !Later(ListKey(y), ListKey(x))
  {
    PrefixRest(rs, n);
    forall x, y | x in rs[..n] && y in rs[n..]
      ensures !Later(ListKey(y), ListKey(x))
    {
      var i :| 0 <= i < n && rs[..n][i] == x;
      var j :| 0 <= j < |rs| - n && rs[n..][j] == y;
      assert rs[i] == x && rs[n + j] == y;
    }
  }

  lemma MembersOfPermutation(a: seq<Row>, b: seq<Row>)
    requires multiset(a) == multiset(b)
    ensures forall x :: x in a <==> x in b
  {
    forall x ensures x in a <==> x in b {
      assert x in a <==> x in multiset(a);
      assert x in b <==> x in multiset(b);
    }
  }

  /** `list_downloads(...)` on the rows of the table. */
  function List(rs: seq<Row>, f: ListFilter): (r: seq<Row>)
    ensures SortedDesc(r)
    ensures forall x :: x in r ==> x in rs && Selected(x, f)
    ensures !(f.limit.Some? && f.limit.value > 0) ==> multiset(r) == multiset(Where(rs, f))
    ensures f.limit.Some? && f.limit.value > 0 ==>
              |r| == if f.limit.value < |Where(rs, f)| then f.limit.value else |Where(rs, f)|
    ensures multiset(r) <= multiset(Where(rs, f))
    ensures forall x, y :: x in r && y in multiset(Where(rs, f)) - multiset(r) ==> !Later(ListKey(y), ListKey(x))
  {
    var selected := Where(rs, f);
    var sorted := SortByKeyDesc(selected);
    MembersOfPermutation(sorted, selected);
    assert |sorted| == |selected| by {
      assert |multiset(sorted)| == |multiset(selected)|;
    }
    var r := Limit(sorted, f.limit);
    assert SortedDesc(r) && forall x :: x in r ==> x in sorted by {
      if r != sorted {
        SortedPrefix(sorted, f.limit.value);
      }
    }
    PrefixHoldsLatest(sorted, |r|);
    assert r == sorted[..|r|];
    r
  }
}
