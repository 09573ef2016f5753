/** How `import_from_jsonl` turns one decoded JSON object of a metadata file into
    a history row: `_as_str`, `_to_path`, the YYYYMMDD case of
    `_extract_timestamp` and the priority order of the keys each column is
    taken from. */
module HistoryImport {
  import opened Wrappers
  import opened PyText
  import opened Values
  import opened Paths
  import opened History

  /** `_as_str(v)`: `None` and `""` give `None`, anything else its `str()`. The
      test `v in {None, ""}` hashes `v`, so a list or a dict raises
      `TypeError`. */
  function AsStr(v: Value): (r: Result<Option<string>, PyError>)
    ensures r.Err? <==> v.VList? || v.VDict?
    ensures r == Ok(None) <==> v == VNone || v == VStr("")
    ensures v.VStr? ==> r == Ok(if v.s == "" then None else Some(v.s))
    ensures Scalar(v) && v != VNone && v != VStr("") ==> r == Ok(Some(Str(v)))
  {
    match v
    case VList(_) => Err(TypeError)
    case VDict(_) => Err(TypeError)
    case VNone => Ok(None)
    case VStr(s) => if s == "" then Ok(None) else Ok(Some(s))
    case _ =>
      assert v != VNone && v != VStr("");
      Ok(Some(Str(v)))
  }

  /** `_to_path(v)`: a path as it is, a string with non-blank content stripped,
      nothing for anything else. */
  function ToPath(v: Value): (r: Option<string>)
    ensures v.VStr? ==> (r.Some? <==> exists i :: 0 <= i < |v.s| && !IsSpace(v.s[i]))
    ensures v.VStr? && r.Some? ==> r.value == Strip(v.s)
    ensures !v.VStr? && !v.VPath? ==> r.None?
  {
    match v
    case VPath(p) => Some(p)
    case VStr(s) => if Strip(s) != "" then Some(Strip(s)) else None
    case _ => None
  }

  predicate IsLeap(y: int) {
    y % 4 == 0 && (y % 100 != 0 || y % 400 == 0)
  }

  function DaysInMonth(y: int, m: int): int
    requires 1 <= m <= 12
  {
    if m == 2 then (if IsLeap(y) then 29 else 28)
    else if m == 4 || m == 6 || m == 9 || m == 11 then 30
    else 31
  }

  predicate AllDigits(s: string) {
    forall i :: 0 <= i < |s| ==> IsDigit(s[i])
  }

  function Number(s: string): nat
    requires AllDigits(s)
  {
    DigitsValue(s)
  }

  /** `datetime.strptime(s, "%Y%m%d")` succeeds on eight ASCII digits exactly
      when they spell a date of year 1 or later: `%m` and `%d` only match two
      digits here, since a one-digit match would leave text unconverted. */
  predicate IsDate8(s: string) {
    && |s| == 8 && AllDigits(s)
    && Number(s[..4]) >= 1
    && 1 <= Number(s[4..6]) <= 12
    && 1 <= Number(s[6..]) <= DaysInMonth(Number(s[..4]), Number(s[4..6]))
  }

  /** `parsed.isoformat()` of that date: midnight, no fractional part. */
  function MidnightIso(s: string): (r: string)
    requires IsDate8(s)
    ensures |r| == 19 && r[..4] == s[..4] && r[5..7] == s[4..6] && r[8..10] == s[6..]
  {
    s[..4] + "-" + s[4..6] + "-" + s[6..] + "T00:00:00"
  }

  /** `_extract_timestamp(raw)`. `ts` stands for the conversions this model does
      not carry out (`datetime.fromtimestamp` of a number, `float()` and
      `fromisoformat` of a string, in the local time zone); it receives the
      number, or the stripped string. */
  function ExtractTimestamp(raw: Value, ts: Value -> Option<string>): (r: Result<Option<string>, PyError>)
    ensures r.Err? <==> raw.VList? || raw.VDict?
    ensures raw == VNone || raw.VPath? || raw.VObject? ==> r == Ok(None)
    ensures raw.VStr? && Strip(raw.s) == "" ==> r == Ok(None)
    ensures raw.VStr? && IsDate8(Strip(raw.s)) ==> r == Ok(Some(MidnightIso(Strip(raw.s))))
  {
    match raw
    case VInt(_) => Ok(ts(raw))
    case VFloat(_, _) => Ok(ts(raw))
    case VBool(_) => Ok(ts(raw))
    case VStr(s) =>
      var stripped := Strip(s);
      if stripped == "" then Ok(None)
      else if IsDate8(stripped) then Ok(Some(MidnightIso(stripped)))
      else Ok(ts(VStr(stripped)))
    case VList(_) => Err(TypeError)
    case VDict(_) => Err(TypeError)
    case _ => Ok(None)
  }

  /** A timestamp that stops the key search: given and not empty. */
  predicate Found(t: Option<string>) {
    t.Some? && t.value != ""
  }

  /** The `finished_at` loop over `keys`: the first key whose timestamp is
      found, or the timestamp of the last key tried. `last` is the value the
      loop variable had before. */
  function FirstTimestamp(d: seq<Field>, keys: seq<string>, last: Option<string>, ts: Value -> Option<string>)
    : (r: Result<Option<string>, PyError>)
    requires !Found(last)
    ensures keys == [] ==> r == Ok(last)
    ensures r.Ok? && Found(r.value) ==> exists i :: 0 <= i < |keys| && ExtractTimestamp(Get(d, keys[i]), ts) == r
  {
    if keys == [] then Ok(last)
    else
      var t := ExtractTimestamp(Get(d, keys[0]), ts);
      if t.Err? then Err(t.error)
      else if Found(t.value) then t
      else
        var r := FirstTimestamp(d, keys[1..], t.value, ts);
        assert r.Ok? && Found(r.value) ==> exists i :: 0 <= i < |keys| && ExtractTimestamp(Get(d, keys[i]), ts) == r by {
          if r.Ok? && Found(r.value) {
            var i :| 0 <= i < |keys| - 1 && ExtractTimestamp(Get(d, keys[1..][i]), ts) == r;
            assert keys[1..][i] == keys[i + 1];
          }
        }
        r
  }

  /** The search stops at the first key whose conversion raises or is found,
      and gives that conversion. */
  lemma {:induction false} FirstTimestampStops(d: seq<Field>, keys: seq<string>, last: Option<string>,
                                               ts: Value -> Option<string>, i: nat)
    requires !Found(last) && i < |keys|
    requires forall j :: 0 <= j < i ==>
      ExtractTimestamp(Get(d, keys[j]), ts).Ok? && !Found(ExtractTimestamp(Get(d, keys[j]), ts).value)
    requires ExtractTimestamp(Get(d, keys[i]), ts).Err? || Found(ExtractTimestamp(Get(d, keys[i]), ts).value)
    ensures FirstTimestamp(d, keys, last, ts) == ExtractTimestamp(Get(d, keys[i]), ts)
    decreases i
  {
    if i > 0 {
      var t := ExtractTimestamp(Get(d, keys[0]), ts);
      assert t.Ok? && !Found(t.value);
      forall j | 0 <= j < i - 1
        ensures ExtractTimestamp(Get(d, keys[1..][j]), ts).Ok? && !Found(ExtractTimestamp(Get(d, keys[1..][j]), ts).value)
      {
        assert keys[1..][j] == keys[j + 1];
      }
      assert keys[1..][i - 1] == keys[i];
      FirstTimestampStops(d, keys[1..], t.value, ts, i - 1);
    }
  }

  /** When no key raises or is found, the loop variable keeps the conversion
      of the last key. */
  lemma {:induction false} FirstTimestampNone(d: seq<Field>, keys: seq<string>, last: Option<string>,
                                              ts: Value -> Option<string>)
    requires !Found(last) && keys != []
    requires forall j :: 0 <= j < |keys| ==>
      ExtractTimestamp(Get(d, keys[j]), ts).Ok? && !Found(ExtractTimestamp(Get(d, keys[j]), ts).value)
    ensures FirstTimestamp(d, keys, last, ts) == ExtractTimestamp(Get(d, keys[|keys| - 1]), ts)
    decreases |keys|
  {
    var t := ExtractTimestamp(Get(d, keys[0]), ts);
    assert t.Ok? && !Found(t.value);
    assert FirstTimestamp(d, keys, last, ts) == FirstTimestamp(d, keys[1..], t.value, ts);
    if |keys| > 1 {
      forall j | 0 <= j < |keys| - 1
        ensures ExtractTimestamp(Get(d, keys[1..][j]), ts).Ok? && !Found(ExtractTimestamp(Get(d, keys[1..][j]), ts).value)
      {
        assert keys[1..][j] == keys[j + 1];
      }
      FirstTimestampNone(d, keys[1..], t.value, ts);
      assert keys[1..][|keys| - 2] == keys[|keys| - 1];
    } else {
      assert keys[1..] == [] && t == Ok(t.value);
    }
  }

  const TimestampKeys: seq<string> := ["epoch", "timestamp", "release_timestamp", "upload_date"]

  /** `data.get("filepath") or data.get("filename") or data.get("_filename")` */
  function FileField(d: seq<Field>): Value {
    Or([Get(d, "filepath"), Get(d, "filename"), Get(d, "_filename")])
  }

  /** The loop over `requested_downloads`: dict items in turn replace `current`
      with their own file field, and the loop stops at the first truthy one. */
  function ScanRequested(items: seq<Value>, current: Value): (r: Value)
    requires !Truthy(current)
    ensures Truthy(r) ==> exists i :: 0 <= i < |items| && items[i].VDict? && r == FileField(items[i].fields)
    ensures (exists i :: 0 <= i < |items| && items[i].VDict? && Truthy(FileField(items[i].fields))) ==> Truthy(r)
    ensures items == [] ==> r == current
    decreases |items|
  {
    if items == [] then current
    else
      var next := if items[0].VDict? then FileField(items[0].fields) else current;
      if items[0].VDict? && Truthy(next) then next
      else
        var r := ScanRequested(items[1..], next);
        assert forall i :: 0 < i < |items| ==> items[i] == items[1..][i - 1];
        assert items[1..] == [] ==> r == next && !Truthy(r);
        r
  }

  /** The first dict item with a truthy file field gives it. */
  lemma {:induction false} ScanRequestedFirst(items: seq<Value>, current: Value, i: nat)
    requires !Truthy(current) && i < |items| && items[i].VDict? && Truthy(FileField(items[i].fields))
    requires forall j :: 0 <= j < i ==> !(items[j].VDict? && Truthy(FileField(items[j].fields)))
    ensures ScanRequested(items, current) == FileField(items[i].fields)
    decreases i
  {
    if i > 0 {
      var next := if items[0].VDict? then FileField(items[0].fields) else current;
      assert !Truthy(next);
      forall j | 0 <= j < i - 1 ensures !(items[1..][j].VDict? && Truthy(FileField(items[1..][j].fields))) {
        assert items[1..][j] == items[j + 1];
      }
      assert items[1..][i - 1] == items[i];
      ScanRequestedFirst(items[1..], next, i - 1);
    }
  }

  /** The raw file path of an entry: its own file field, else the first
      `requested_downloads` item that has one. */
  function RawPath(d: seq<Field>): Value {
    var own := FileField(d);
    if Truthy(own) then own
    else
      var requested := Get(d, "requested_downloads");
      if requested.VList? then ScanRequested(requested.items, own) else own
  }

  /** `_normalize_path(_to_path(raw_path)) if raw_path else None` */
  function FilePathOf(raw: Value): (r: Option<string>)
    ensures r.Some? ==> Truthy(raw)
    ensures raw.VStr? && Truthy(raw) && r.Some? ==> r.value == Normalize(Strip(raw.s))
  {
    if !Truthy(raw) then None
    else
      match ToPath(raw)
      case None => None
      case Some(p) => Some(Normalize(p))
  }

  /** `id or video_id or display_id or url` */
  function IdSource(d: seq<Field>): Value {
    if Truthy(Get(d, "id")) then Get(d, "id") else if Truthy(Get(d, "video_id")) then Get(d, "video_id")
    else if Truthy(Get(d, "display_id")) then Get(d, "display_id") else Get(d, "url")
  }

  /** `webpage_url or original_url or url` */
  function UrlSource(d: seq<Field>): Value {
    if Truthy(Get(d, "webpage_url")) then Get(d, "webpage_url")
    else if Truthy(Get(d, "original_url")) then Get(d, "original_url") else Get(d, "url")
  }

  /** `key or playlist` */
  function PlaylistSource(d: seq<Field>, key: string): Value {
    if Truthy(Get(d, key)) then Get(d, key) else Get(d, "playlist")
  }

  /** The row `import_from_jsonl` builds for one decoded object, given the raw
      file path found for it: `None` when no id can be derived. */
  function RowFrom(d: seq<Field>, raw: Value, ts: Value -> Option<string>): (r: Result<Option<Row>, PyError>)
    ensures r.Ok? && r.value.Some? ==> var row := r.value.value;
      && row.videoId != "" && row.url != "" && row.status != ""
      && row.startedAt.None? && row.error.None?
      && row.retryCount == 0 && row.lastAction.None?
      && row.filePath == FilePathOf(raw)
  {
    var videoId :- AsStr(IdSource(d));
    if videoId.None? || videoId.value == "" then Ok(None)
    else
      var row :- RowWithId(d, videoId.value, raw, ts);
      Ok(Some(row))
  }

  /** The remaining columns of the row of an object whose id is `videoId`. */
  function RowWithId(d: seq<Field>, videoId: string, raw: Value, ts: Value -> Option<string>): (r: Result<Row, PyError>)
    requires videoId != ""
    ensures r.Ok? ==> && r.value.videoId == videoId && r.value.url != "" && r.value.status != ""
                      && r.value.startedAt.None? && r.value.error.None?
                      && r.value.retryCount == 0 && r.value.lastAction.None?
                      && r.value.filePath == FilePathOf(raw)
  {
    var url :- AsStr(UrlSource(d));
    var title :- AsStr(Get(d, "title"));
    var status :- AsStr(Get(d, "status"));
    var playlistId :- AsStr(PlaylistSource(d, "playlist_id"));
    var playlistTitle :- AsStr(PlaylistSource(d, "playlist_title"));
    var finishedAt :- FirstTimestamp(d, TimestampKeys, None, ts);
    Ok(Row(
      videoId := videoId,
      url := if url.None? || url.value == "" then videoId else url.value,
      title := title,
      status := if status.None? || status.value == "" then "finished" else status.value,
      startedAt := None,
      finishedAt := finishedAt,
      filePath := FilePathOf(raw),
      error := None,
      playlistId := playlistId,
      playlistTitle := playlistTitle,
      retryCount := 0,
      lastAction := None))
  }

  /** A value `_as_str` does not raise on. */
  predicate Scalar(v: Value) {
    !v.VList? && !v.VDict?
  }

  /** No key a row is read from holds a list or a dict. */
  predicate ScalarKeys(d: seq<Field>) {
    && Scalar(Get(d, "id")) && Scalar(Get(d, "video_id")) && Scalar(Get(d, "display_id")) && Scalar(Get(d, "url"))
    && Scalar(Get(d, "webpage_url")) && Scalar(Get(d, "original_url")) && Scalar(Get(d, "title"))
    && Scalar(Get(d, "status")) && Scalar(Get(d, "playlist_id")) && Scalar(Get(d, "playlist_title"))
    && Scalar(Get(d, "playlist"))
  }

  /** A value whose `_as_str` is falsy. */
  predicate NoText(v: Value) {
    v == VNone || Str(v) == ""
  }

  /** `_as_str` of a scalar is falsy exactly when the value has no text, and is
      its `str()` otherwise. */
  lemma AsStrText(v: Value)
    requires Scalar(v)
    ensures AsStr(v).Ok?
    ensures AsStr(v).value.None? || AsStr(v).value.value == "" <==> NoText(v)
    ensures !NoText(v) ==> AsStr(v) == Ok(Some(Str(v)))
  {
  }

  /** The columns of the row built from one object: the id from the first
      truthy of `id`, `video_id`, `display_id`, `url`, and no row when it has
      no text; the URL from `webpage_url`, `original_url`, `url`, else the id;
      the status, else `finished`; each playlist column from its own key, else
      `playlist`; the finish time from the timestamp search, whose exception
      propagates; the file path from the raw path. */
  lemma RowFromFields(d: seq<Field>, raw: Value, ts: Value -> Option<string>)
    requires ScalarKeys(d)
    ensures var r := RowFrom(d, raw, ts);
      var id := IdSource(d);
      var finished := FirstTimestamp(d, TimestampKeys, None, ts);
      && (NoText(id) ==> r == Ok(None))
      && (!NoText(id) && finished.Err? ==> r == Err(finished.error))
      && (!NoText(id) && finished.Ok? ==>
            && r.Ok? && r.value.Some?
            && r.value.value.videoId == Str(id)
            && r.value.value.url == (if NoText(UrlSource(d)) then Str(id) else Str(UrlSource(d)))
            && r.value.value.status == (if NoText(Get(d, "status")) then "finished" else Str(Get(d, "status")))
            && AsStr(Get(d, "title")) == Ok(r.value.value.title)
            && AsStr(PlaylistSource(d, "playlist_id")) == Ok(r.value.value.playlistId)
            && AsStr(PlaylistSource(d, "playlist_title")) == Ok(r.value.value.playlistTitle)
            && r.value.value.finishedAt == finished.value
            && r.value.value.filePath == FilePathOf(raw))
  {
    var id := IdSource(d);
    assert Scalar(id);
    AsStrText(id);
    if !NoText(id) {
      RowWithIdFields(d, Str(id), raw, ts);
      assert AsStr(id) == Ok(Some(Str(id)));
    }
  }

  /** The columns after the id, each from its key or its fall-back. */
  lemma RowWithIdFields(d: seq<Field>, videoId: string, raw: Value, ts: Value -> Option<string>)
    requires ScalarKeys(d) && videoId != ""
    ensures var r := RowWithId(d, videoId, raw, ts);
      var finished := FirstTimestamp(d, TimestampKeys, None, ts);
      && (finished.Err? ==> r == Err(finished.error))
      && (finished.Ok? ==>
            && r.Ok?
            && r.value.url == (if NoText(UrlSource(d)) then videoId else Str(UrlSource(d)))
            && r.value.status == (if NoText(Get(d, "status")) then "finished" else Str(Get(d, "status")))
            && AsStr(Get(d, "title")) == Ok(r.value.title)
            && AsStr(PlaylistSource(d, "playlist_id")) == Ok(r.value.playlistId)
            && AsStr(PlaylistSource(d, "playlist_title")) == Ok(r.value.playlistTitle)
            && r.value.finishedAt == finished.value)
  {
    var url, pid, ptitle := UrlSource(d), PlaylistSource(d, "playlist_id"), PlaylistSource(d, "playlist_title");
    assert Scalar(url) && Scalar(pid) && Scalar(ptitle);
    AsStrText(url);
    AsStrText(Get(d, "status"));
    AsStrText(Get(d, "title"));
    AsStrText(pid);
    AsStrText(ptitle);
  }

  /** One line of the metadata file, as reading and `json.loads` leave it. */
  datatype JsonLine =
    | Blank
    /** `json.loads` raised `JSONDecodeError`. */
    | Undecodable
    /** The bytes are not UTF-8: reading raises `UnicodeDecodeError`. */
    | BadEncoding
    | Decoded(value: Value)

  /** The metadata file: missing, failing with `OSError` when read, or its lines. */
  datatype SourceFile = Missing | Unreadable | Lines(lines: seq<JsonLine>)

  /** The row one line contributes: blank, undecodable and non-object lines
      contribute nothing. */
  function DeriveLine(line: JsonLine, ts: Value -> Option<string>): Result<Option<Row>, PyError> {
    match line
    case Blank => Ok(None)
    case Undecodable => Ok(None)
    case BadEncoding => Err(ValueError)
    case Decoded(v) => if v.VDict? then RowFrom(v.fields, RawPath(v.fields), ts) else Ok(None)
  }

  /** Blank and undecodable lines, values other than objects and objects
      without an id contribute nothing; bytes that are not UTF-8 raise. */
  lemma DeriveLineSkips(line: JsonLine, ts: Value -> Option<string>)
    ensures line.Blank? || line.Undecodable? || (line.Decoded? && !line.value.VDict?) ==> DeriveLine(line, ts) == Ok(None)
    ensures line.BadEncoding? ==> DeriveLine(line, ts) == Err(ValueError)
    ensures line.Decoded? && line.value.VDict? && ScalarKeys(line.value.fields)
            && !Truthy(Get(line.value.fields, "id")) && !Truthy(Get(line.value.fields, "video_id"))
            && !Truthy(Get(line.value.fields, "display_id")) && NoText(Get(line.value.fields, "url"))
            ==> DeriveLine(line, ts) == Ok(None)
  {
    if line.Decoded? && line.value.VDict? && ScalarKeys(line.value.fields) {
      RowFromFields(line.value.fields, RawPath(line.value.fields), ts);
    }
  }

  /** The `rows` list after reading `lines`, or the first exception. */
  function DeriveAll(lines: seq<JsonLine>, ts: Value -> Option<string>): (r: Result<seq<Row>, PyError>)
    ensures r.Ok? ==> |r.value| <= |lines|
    ensures r.Ok? ==> forall x :: x in r.value ==> x.retryCount == 0 && x.lastAction.None? && x.startedAt.None?
  {
    if lines == [] then Ok([])
    else
      var prefix :- DeriveAll(lines[..|lines| - 1], ts);
      var line :- DeriveLine(lines[|lines| - 1], ts);
      if line.None? then Ok(prefix)
      else
        assert forall x :: x in prefix + [line.value] ==> x in prefix || x == line.value;
        Ok(prefix + [line.value])
  }

  /** One more line that does not raise adds its row, if it gives one. */
  lemma DeriveAllStep(ls: seq<JsonLine>, n: nat, ts: Value -> Option<string>, rows: seq<Row>, derived: Option<Row>)
    requires n < |ls| && DeriveAll(ls[..n], ts) == Ok(rows) && DeriveLine(ls[n], ts) == Ok(derived)
    ensures DeriveAll(ls[..n + 1], ts) == Ok(if derived.Some? then rows + [derived.value] else rows)
  {
    SnocSlice(ls, n);
  }

  /** The first `n + 1` elements are the first `n` and then element `n`. */
  lemma SnocSlice<T>(xs: seq<T>, n: nat)
    requires n < |xs|
    ensures |xs[..n + 1]| == n + 1 && xs[..n + 1][..n] == xs[..n] && xs[..n + 1][n] == xs[n]
  {
  }

  /** Once a prefix of the lines raises, so does the whole file, with the same
      exception: reading stops at the first exception. */
  lemma {:induction false} DeriveErrorSticks(ls: seq<JsonLine>, n: nat, ts: Value -> Option<string>)
    requires 0 < n <= |ls|
    requires DeriveAll(ls[..n - 1], ts).Ok? && DeriveLine(ls[n - 1], ts).Err?
    ensures DeriveAll(ls, ts) == Err(DeriveLine(ls[n - 1], ts).error)
  {
    assert ls[..n][..n - 1] == ls[..n - 1] && ls[..n][n - 1] == ls[n - 1];
    assert DeriveAll(ls[..n], ts) == Err(DeriveLine(ls[n - 1], ts).error);
    DeriveErrorPrefix(ls, n, ts);
  }

  lemma {:induction false} DeriveErrorPrefix(ls: seq<JsonLine>, n: nat, ts: Value -> Option<string>)
    requires 0 < n <= |ls|
    requires DeriveAll(ls[..n], ts).Err?
    ensures DeriveAll(ls, ts) == DeriveAll(ls[..n], ts)
    decreases |ls| - n
  {
    if n < |ls| {
      assert ls[..n + 1][..n] == ls[..n];
      DeriveErrorPrefix(ls, n + 1, ts);
    } else {
      assert ls[..n] == ls;
    }
  }

  /** The reading loop of `import_from_jsonl`: the rows of the decoded lines in
      file order, or the first exception. */
  method DeriveRows(ls: seq<JsonLine>, ts: Value -> Option<string>) returns (r: Result<seq<Row>, PyError>)
    ensures r == DeriveAll(ls, ts)
  {
    var rows: seq<Row> := [];
    var n := 0;
    while n < |ls|
      invariant 0 <= n <= |ls|
      invariant DeriveAll(ls[..n], ts) == Ok(rows)
    {
      var read := ReadLine(ls[n], ts);
      if read.Err? {
        DeriveErrorSticks(ls, n + 1, ts);
        return Err(read.error);
      }
      var derived := read.value;
      DeriveAllStep(ls, n, ts, rows, derived);
      if derived.Some? {
        rows := rows + [derived.value];
      }
      n := n + 1;
    }
    assert ls[..|ls|] == ls;
    return Ok(rows);
  }

  /** One line of the file: its row, nothing, or the exception it raises. */
  method ReadLine(line: JsonLine, ts: Value -> Option<string>) returns (r: Result<Option<Row>, PyError>)
    ensures r == DeriveLine(line, ts)
  {
    if line.BadEncoding? {
      return Err(ValueError);
    }
    if line.Decoded? && line.value.VDict? {
      var raw := FindRawPath(line.value.fields);
      return RowFrom(line.value.fields, raw, ts);
    }
    return Ok(None);
  }

  /** The loop that finds the raw file path of a decoded object, stopping at the
      first `requested_downloads` item that has one. */
  method FindRawPath(d: seq<Field>) returns (raw: Value)
    ensures raw == RawPath(d)
  {
    raw := FileField(d);
    if Truthy(raw) {
      return;
    }
    var requested := Get(d, "requested_downloads");
    if !requested.VList? {
      return;
    }
    var items := requested.items;
    var i := 0;
    while i < |items|
      invariant 0 <= i <= |items|
      invariant !Truthy(raw)
      invariant ScanRequested(items[i..], raw) == RawPath(d)
    {
      assert items[i..][1..] == items[i + 1..];
      if items[i].VDict? {
        raw := FileField(items[i].fields);
        if Truthy(raw) {
          return;
        }
      }
      i := i + 1;
    }
  }

  lemma DigitsAreNotSpace(s: string)
    requires AllDigits(s)
    ensures forall i :: 0 <= i < |s| ==> !IsSpace(s[i])
  {
    forall i | 0 <= i < |s| ensures !IsSpace(s[i]) {
      assert IsDigit(s[i]);
    }
  }

  lemma Sample8IsDate()
    ensures IsDate8("20240511")
  {
    var s := "20240511";
    assert s[..4] == "2024" && s[4..6] == "05" && s[6..] == "11";
    assert DigitsValue("2024") == 2024 by {
      assert "2024"[..3] == "202" && "202"[..2] == "20" && "20"[..1] == "2" && "2"[..0] == "";
      assert DigitsValue("2") == 2;
      assert DigitsValue("20") == 20;
      assert DigitsValue("202") == 202;
    }
    assert DigitsValue("05") == 5 by {
      assert "05"[..1] == "0" && "0"[..0] == "";
      assert DigitsValue("0") == 0;
    }
    assert DigitsValue("11") == 11 by {
      assert "11"[..1] == "1" && "1"[..0] == "";
      assert DigitsValue("1") == 1;
    }
  }

  /** An eight-digit `upload_date` becomes midnight of that day, whatever the
      other conversions would do. */
  lemma UploadDateIsMidnight(ts: Value -> Option<string>)
    ensures ExtractTimestamp(VStr("20240511"), ts) == Ok(Some("2024-05-11T00:00:00"))
  {
    var s := "20240511";
    Sample8IsDate();
    DigitsAreNotSpace(s);
    StripOfNoSpace(s);
    assert MidnightIso(s) == "2024-05-11T00:00:00";
  }
}
