/** The downloader around yt-dlp: how an info dict becomes history events, how
    the options dict for yt-dlp is built, and the attempt loop of `download`.
    yt-dlp itself is an oracle: each attempt is given as the values its calls
    return or the exceptions they raise. */
module Downloads {
  import opened Wrappers
  import opened PyText
  import opened Values
  import opened Paths
  import opened Types
  import opened History
  import opened Storage
  import Retry

  // ---------------------------------------------------------------- _iter_entries

  /** The dict items of a list, in order. */
  function DictItems(xs: seq<Value>): (r: seq<seq<Field>>)
    ensures |r| <= |xs|
  {
    if xs == [] then []
    else (if xs[0].VDict? then [xs[0].fields] else []) + DictItems(xs[1..])
  }

  /** The dict items are exactly the dicts the list holds. */
  lemma {:induction false} DictItemsMembers(xs: seq<Value>)
    ensures forall fs :: fs in DictItems(xs) <==> VDict(fs) in xs
  {
    if xs != [] {
      DictItemsMembers(xs[1..]);
      assert forall v :: v in xs <==> v == xs[0] || v in xs[1..];
    }
  }

  /** A list whose items are all dicts keeps every item, in order. */
  lemma {:induction false} DictItemsOfDicts(xs: seq<Value>)
    requires forall i :: 0 <= i < |xs| ==> xs[i].VDict?
    ensures |DictItems(xs)| == |xs|
    ensures forall i :: 0 <= i < |xs| ==> DictItems(xs)[i] == xs[i].fields
  {
    if xs != [] {
      DictItemsOfDicts(xs[1..]);
    }
  }

  /** The dict items of `info["entries"]` when it is a list; a string or a dict
      is iterable too, but yields no dicts. */
  function EntryDicts(info: seq<Field>): seq<seq<Field>> {
    var entries := Get(info, "entries");
    if entries.VList? then DictItems(entries.items) else []
  }

  /** `_iter_entries(info)` as a value. */
  function EntriesOf(info: Value): seq<seq<Field>> {
    if !info.VDict? then []
    else if EntryDicts(info.fields) != [] then EntryDicts(info.fields)
    else if info.fields != [] then [info.fields]
    else []
  }

  /** `_iter_entries`: the dict entries of a playlist, or the info itself. */
  method IterEntries(info: Value) returns (entries: seq<seq<Field>>)
    ensures entries == EntriesOf(info)
  {
    if !info.VDict? {
      return [];
    }
    var raw := Get(info.fields, "entries");
    if raw.VList? {
      var normalized := DictFields(raw.items);
      if normalized != [] {
        return normalized;
      }
    }
    if info.fields != [] {
      return [info.fields];
    }
    return [];
  }

  /** The loop over `info["entries"]` that keeps the dicts. */
  method DictFields(items: seq<Value>) returns (normalized: seq<seq<Field>>)
    ensures normalized == DictItems(items)
  {
    normalized := [];
    var i := 0;
    while i < |items|
      invariant 0 <= i <= |items|
      invariant normalized + DictItems(items[i..]) == DictItems(items)
    {
      assert items[i..][1..] == items[i + 1..];
      if items[i].VDict? {
        normalized := normalized + [items[i].fields];
      }
      i := i + 1;
    }
  }

  /** Every entry is a dict the info lists, or the non-empty info itself; a
      non-empty dict always yields at least one entry. */
  lemma EntriesMeaning(info: Value)
    ensures forall e :: e in EntriesOf(info) ==>
              info.VDict? && (e == info.fields || VDict(e) in Get(info.fields, "entries").items)
    ensures info.VDict? && info.fields != [] ==> EntriesOf(info) != []
  {
    if info.VDict? && Get(info.fields, "entries").VList? {
      DictItemsMembers(Get(info.fields, "entries").items);
    }
  }

  // ---------------------------------------------------------------- _build_events

  /** What one call of `_record_history` records besides the info: the status,
      the two timestamps (ISO text), the files the download produced and the
      error message. `url` is `opts.url`. */
  datatype EventContext = EventContext(
    url: string, status: string, startedAt: Option<string>, finishedAt: Option<string>,
    filePaths: seq<string>, error: Option<string>)

  /** The playlist id and title of a container: taken only when the info has
      entries, the id from `id` then `playlist_id`, the title from `title`
      then `playlist_title`. */
  function PlaylistDefaults(info: Value): (Option<string>, Option<string>) {
    if info.VDict? && Truthy(Get(info.fields, "entries")) then
      var rawId := OrElse(Get(info.fields, "id"), Get(info.fields, "playlist_id"));
      var rawTitle := OrElse(Get(info.fields, "title"), Get(info.fields, "playlist_title"));
      (if Truthy(rawId) then Some(Str(rawId)) else None,
       if Truthy(rawTitle) then Some(Str(rawTitle)) else None)
    else (None, None)
  }

  /** Python's `a or b`. */
  function OrElse(a: Value, b: Value): Value {
    if Truthy(a) then a else b
  }

  /** The entry that stands for the requested URL when yt-dlp gave none. */
  function Placeholder(url: string): seq<Field> {
    [Field("id", VStr(url)), Field("title", VNone), Field("webpage_url", VStr(url))]
  }

  /** The entries the events are built from. */
  function EventEntries(info: Value, url: string): (es: seq<seq<Field>>)
    ensures es != []
  {
    if EntriesOf(info) == [] then [Placeholder(url)] else EntriesOf(info)
  }

  /** `entry.get(key) or fallback` stored as text. */
  function OrDefault(entry: seq<Field>, key: string, fallback: Option<string>): Option<string> {
    var v := Get(entry, key);
    if Truthy(v) then TextOf(v) else fallback
  }

  /** The event for the entry at position `idx`, `None` when no id can be
      derived for it. */
  function EventFor(entry: seq<Field>, idx: nat, ctx: EventContext, defaults: (Option<string>, Option<string>)): Option<DownloadEvent> {
    var videoId := OrElse(Get(entry, "id"), OrElse(Get(entry, "url"), VStr(ctx.url)));
    if !Truthy(videoId) then None
    else
      var url := OrElse(Get(entry, "webpage_url"), OrElse(Get(entry, "original_url"), OrElse(Get(entry, "url"), VStr(ctx.url))));
      Some(DownloadEvent(
        Str(videoId), Str(url), TextOf(Get(entry, "title")), ctx.status, ctx.startedAt, ctx.finishedAt,
        if idx < |ctx.filePaths| then Some(ctx.filePaths[idx]) else None,
        ctx.error, OrDefault(entry, "playlist_id", defaults.0), OrDefault(entry, "playlist_title", defaults.1),
        None, None))
  }

  /** The values `f` gives for the elements of `xs[from..]` and their
      positions, in order, skipping the positions where it gives none. */
  function Collected<T, U>(xs: seq<T>, from: nat, f: (T, nat) -> Option<U>): (out: seq<U>)
    requires from <= |xs|
    ensures |out| <= |xs| - from
    decreases |xs| - from
  {
    if from == |xs| then []
    else (if f(xs[from], from).Some? then [f(xs[from], from).value] else []) + Collected(xs, from + 1, f)
  }

  /** When `f` gives a value with property `p` at every position, there is one
      value per element, value `i` is the one of element `from + i`, and all
      have the property. */
  lemma {:induction false} CollectedEvery<T, U>(xs: seq<T>, from: nat, f: (T, nat) -> Option<U>, p: (U, nat) -> bool)
    requires from <= |xs|
    requires forall i :: from <= i < |xs| ==> f(xs[i], i).Some? && p(f(xs[i], i).value, i)
    ensures var out := Collected(xs, from, f);
      |out| == |xs| - from
      && forall i :: 0 <= i < |out| ==> Some(out[i]) == f(xs[from + i], from + i) && p(out[i], from + i)
    decreases |xs| - from
  {
    if from < |xs| {
      CollectedEvery(xs, from + 1, f, p);
      var out := Collected(xs, from, f);
      var rest := Collected(xs, from + 1, f);
      assert out == [f(xs[from], from).value] + rest;
      forall i | 0 <= i < |out|
        ensures Some(out[i]) == f(xs[from + i], from + i) && p(out[i], from + i)
      {
        if i > 0 {
          assert out[i] == rest[i - 1];
        }
      }
    }
  }

  /** The event of an entry at a position. */
  function EventMaker(ctx: EventContext, defaults: (Option<string>, Option<string>)): (seq<Field>, nat) -> Option<DownloadEvent> {
    (entry: seq<Field>, idx: nat) => EventFor(entry, idx, ctx, defaults)
  }

  /** The events of `entries[from..]`, numbered from `from`. */
  function EventsFrom(entries: seq<seq<Field>>, from: nat, ctx: EventContext, defaults: (Option<string>, Option<string>)): (out: seq<DownloadEvent>)
    requires from <= |entries|
  {
    Collected(entries, from, EventMaker(ctx, defaults))
  }

  /** `_build_events(info, opts, ...)` as a value. */
  function EventsOf(info: Value, ctx: EventContext): seq<DownloadEvent> {
    EventsFrom(EventEntries(info, ctx.url), 0, ctx, PlaylistDefaults(info))
  }

  /** `_build_events` */
  method BuildEvents(info: Value, ctx: EventContext) returns (out: seq<DownloadEvent>)
    ensures out == EventsOf(info, ctx)
  {
    var entries := IterEntries(info);
    var defaults := PlaylistDefaults(info);
    if entries == [] {
      entries := [Placeholder(ctx.url)];
    }
    out := EventsOfEntries(entries, ctx, defaults);
  }

  /** The loop of `_build_events` over the numbered entries. */
  method EventsOfEntries(entries: seq<seq<Field>>, ctx: EventContext, defaults: (Option<string>, Option<string>))
    returns (out: seq<DownloadEvent>)
    ensures out == EventsFrom(entries, 0, ctx, defaults)
  {
    out := [];
    var idx := 0;
    while idx < |entries|
      invariant 0 <= idx <= |entries|
      invariant out + EventsFrom(entries, idx, ctx, defaults) == EventsFrom(entries, 0, ctx, defaults)
    {
      var e := EventFor(entries[idx], idx, ctx, defaults);
      EventsFromStep(entries, idx, ctx, defaults, e, out);
      if e.Some? {
        out := out + [e.value];
      }
      idx := idx + 1;
    }
  }

  /** One turn of the loop of `_build_events`: the events before `idx`, the
      event of entry `idx` if any, and the events after it are all events. */
  lemma EventsFromStep(entries: seq<seq<Field>>, idx: nat, ctx: EventContext, defaults: (Option<string>, Option<string>),
                       e: Option<DownloadEvent>, out: seq<DownloadEvent>)
    requires idx < |entries| && e == EventFor(entries[idx], idx, ctx, defaults)
    ensures out + EventsFrom(entries, idx, ctx, defaults)
            == (if e.Some? then out + [e.value] else out) + EventsFrom(entries, idx + 1, ctx, defaults)
  {
    var rest := EventsFrom(entries, idx + 1, ctx, defaults);
    if e.Some? {
      assert out + [e.value] + rest == out + ([e.value] + rest);
    } else {
      assert [] + rest == rest;
    }
  }

  /** With a non-empty URL some id can always be derived. */
  lemma EventForSome(entry: seq<Field>, idx: nat, ctx: EventContext, defaults: (Option<string>, Option<string>))
    requires ctx.url != ""
    ensures EventFor(entry, idx, ctx, defaults).Some?
  {
    assert Truthy(VStr(ctx.url));
  }

  /** The fields of the event built from one entry: the id from `id`, then
      `url`, then the requested URL; the URL from `webpage_url`, then
      `original_url`, then `url`, then the requested URL; the file at the
      entry's position when there is one; the entry's own playlist id and
      title before the container's. */
  lemma EventFields(entry: seq<Field>, idx: nat, ctx: EventContext, defaults: (Option<string>, Option<string>))
    requires ctx.url != ""
    ensures var e := EventFor(entry, idx, ctx, defaults);
      && e.Some?
      && e.value.videoId == (if Truthy(Get(entry, "id")) then Str(Get(entry, "id"))
                             else if Truthy(Get(entry, "url")) then Str(Get(entry, "url")) else ctx.url)
      && e.value.url == (if Truthy(Get(entry, "webpage_url")) then Str(Get(entry, "webpage_url"))
                         else if Truthy(Get(entry, "original_url")) then Str(Get(entry, "original_url"))
                         else if Truthy(Get(entry, "url")) then Str(Get(entry, "url")) else ctx.url)
      && e.value.filePath == (if idx < |ctx.filePaths| then Some(ctx.filePaths[idx]) else None)
      && (Truthy(Get(entry, "playlist_id")) ==> e.value.playlistId == TextOf(Get(entry, "playlist_id")))
      && (!Truthy(Get(entry, "playlist_id")) ==> e.value.playlistId == defaults.0)
      && (Truthy(Get(entry, "playlist_title")) ==> e.value.playlistTitle == TextOf(Get(entry, "playlist_title")))
      && (!Truthy(Get(entry, "playlist_title")) ==> e.value.playlistTitle == defaults.1)
      && e.value.title == TextOf(Get(entry, "title"))
      && e.value.status == ctx.status && e.value.error == ctx.error
      && e.value.metadata.None? && e.value.metadataPath.None?
  {
    assert Truthy(VStr(ctx.url));
  }

  /** The keys of the placeholder entry. */
  lemma PlaceholderFields(url: string)
    ensures var p := Placeholder(url);
      Get(p, "id") == VStr(url) && Get(p, "webpage_url") == VStr(url) && Get(p, "title") == VNone
      && Get(p, "playlist_id") == VNone && Get(p, "playlist_title") == VNone
  {
    var p := Placeholder(url);
    assert p[..2][..1] == [p[0]];
    assert !HasKey(p, "playlist_id") && !HasKey(p, "playlist_title");
  }

  /** Without any entry, one event stands for the requested URL. */
  lemma PlaceholderEvent(info: Value, ctx: EventContext)
    requires EntriesOf(info) == [] && ctx.url != ""
    ensures var out := EventsOf(info, ctx);
      |out| == 1 && out[0].videoId == ctx.url && out[0].url == ctx.url && out[0].title.None?
      && out[0].playlistId.None? && out[0].playlistTitle.None?
  {
    assert PlaylistDefaults(info) == (None, None) by {
      if info.VDict? {
        assert info.fields == [];
      }
    }
    assert EventsOf(info, ctx) == EventsFrom([Placeholder(ctx.url)], 0, ctx, (None, None));
    PlaceholderOnly(ctx);
  }

  /** The one event built from the placeholder entry alone. */
  lemma PlaceholderOnly(ctx: EventContext)
    requires ctx.url != ""
    ensures var out := EventsFrom([Placeholder(ctx.url)], 0, ctx, (None, None));
      |out| == 1 && out[0].videoId == ctx.url && out[0].url == ctx.url && out[0].title.None?
      && out[0].playlistId.None? && out[0].playlistTitle.None?
  {
    var p := Placeholder(ctx.url);
    var out := EventsFrom([p], 0, ctx, (None, None));
    PlaceholderFields(ctx.url);
    EventsPerEntry([p], 0, ctx, (None, None));
    EventFields(p, 0, ctx, (None, None));
    var e := EventFor(p, 0, ctx, (None, None));
    assert out[0] == e.value;
    assert Truthy(Get(p, "id")) && Truthy(Get(p, "webpage_url"));
  }

  /** The container's playlist fields are used only when the info has
      entries. */
  lemma PlaylistOnlyWithEntries(info: Value)
    requires !info.VDict? || !Truthy(Get(info.fields, "entries"))
    ensures PlaylistDefaults(info) == (None, None)
  {
  }

  /** The event for entry `idx` carries the call's status, timestamps and
      error, and the file at its position. */
  predicate CarriesContext(ev: DownloadEvent, idx: nat, ctx: EventContext) {
    ev.status == ctx.status && ev.startedAt == ctx.startedAt && ev.finishedAt == ctx.finishedAt
    && ev.error == ctx.error && ev.filePath == (if idx < |ctx.filePaths| then Some(ctx.filePaths[idx]) else None)
  }

  /** With a non-empty URL the entry at `idx` yields an event carrying the
      call's context. */
  lemma EventInContext(entry: seq<Field>, idx: nat, ctx: EventContext, defaults: (Option<string>, Option<string>))
    requires ctx.url != ""
    ensures var e := EventFor(entry, idx, ctx, defaults); e.Some? && CarriesContext(e.value, idx, ctx)
  {
    assert Truthy(VStr(ctx.url));
  }

  /** With a non-empty URL every entry yields an event, event `i` comes from
      entry `from + i`, and all carry the call's context. */
  lemma EventsPerEntry(entries: seq<seq<Field>>, from: nat, ctx: EventContext, defaults: (Option<string>, Option<string>))
    requires from <= |entries| && ctx.url != ""
    ensures var out := EventsFrom(entries, from, ctx, defaults);
      |out| == |entries| - from
      && forall i :: 0 <= i < |out| ==>
           Some(out[i]) == EventFor(entries[from + i], from + i, ctx, defaults) && CarriesContext(out[i], from + i, ctx)
  {
    var f := EventMaker(ctx, defaults);
    var p := (ev: DownloadEvent, idx: nat) => CarriesContext(ev, idx, ctx);
    EntriesInContext(entries, from, ctx, defaults);
    CollectedEvery(entries, from, f, p);
  }

  /** Every entry from `from` on yields an event carrying the call's context. */
  lemma EntriesInContext(entries: seq<seq<Field>>, from: nat, ctx: EventContext, defaults: (Option<string>, Option<string>))
    requires ctx.url != ""
    ensures forall i :: from <= i < |entries| ==>
      EventMaker(ctx, defaults)(entries[i], i).Some? && CarriesContext(EventMaker(ctx, defaults)(entries[i], i).value, i, ctx)
  {
    forall i | from <= i < |entries|
      ensures EventMaker(ctx, defaults)(entries[i], i).Some? && CarriesContext(EventMaker(ctx, defaults)(entries[i], i).value, i, ctx)
    {
      EventInContext(entries[i], i, ctx, defaults);
    }
  }

  /** The events of one call share its context: one event per entry, each
      with the call's status, timestamps and error, and the file at its
      position. */
  lemma EventsCarryContext(info: Value, ctx: EventContext)
    requires ctx.url != ""
    ensures var out := EventsOf(info, ctx);
      |out| == |EventEntries(info, ctx.url)| && forall i :: 0 <= i < |out| ==> CarriesContext(out[i], i, ctx)
  {
    var entries := EventEntries(info, ctx.url);
    var out := EventsFrom(entries, 0, ctx, PlaylistDefaults(info));
    EventsPerEntry(entries, 0, ctx, PlaylistDefaults(info));
    forall i | 0 <= i < |out| ensures CarriesContext(out[i], i, ctx) {
      assert CarriesContext(out[i], 0 + i, ctx);
    }
    assert EventsOf(info, ctx) == out;
  }

  // ---------------------------------------------------------------- _record_history

  /** `record_event` of every event in turn; `fails(e)` says that the write of
      `e` raises (the transaction is rolled back, so the table is unchanged),
      which ends the loop. */
  function RecordUntil(t: Table, es: seq<DownloadEvent>, fails: DownloadEvent -> bool): (r: Table)
    requires ValidTable(t)
    ensures ValidTable(r)
    decreases |es|
  {
    if es == [] || fails(es[0]) then t
    else RecordUntil(AfterRecord(t, es[0]), es[1..], fails)
  }

  /** Every event written, none failing. */
  function RecordAll(t: Table, es: seq<DownloadEvent>): (r: Table)
    requires ValidTable(t)
    ensures ValidTable(r)
    decreases |es|
  {
    if es == [] then t else RecordAll(AfterRecord(t, es[0]), es[1..])
  }

  /** The ids of a sequence of events. */
  function Ids(es: seq<DownloadEvent>): set<string> {
    if es == [] then {} else {es[0].videoId} + Ids(es[1..])
  }

  /** An id is in `Ids(es)` exactly when some event carries it. */
  lemma {:induction false} IdsMembers(es: seq<DownloadEvent>)
    ensures forall k :: k in Ids(es) <==> exists i :: 0 <= i < |es| && es[i].videoId == k
  {
    if es != [] {
      IdsMembers(es[1..]);
      forall k ensures k in Ids(es) <==> exists i :: 0 <= i < |es| && es[i].videoId == k {
        if exists i :: 0 <= i < |es| && es[i].videoId == k {
          var i :| 0 <= i < |es| && es[i].videoId == k;
          if i > 0 {
            assert es[1..][i - 1].videoId == k;
          }
        }
        if k in Ids(es[1..]) {
          var i :| 0 <= i < |es[1..]| && es[1..][i].videoId == k;
          assert es[i + 1].videoId == k;
        }
      }
    }
  }

  /** Writing events adds exactly the rows of their ids. */
  lemma {:induction false} RecordAllKeys(t: Table, es: seq<DownloadEvent>)
    requires ValidTable(t)
    ensures RecordAll(t, es).rows.Keys == t.rows.Keys + Ids(es)
    decreases |es|
  {
    if es != [] {
      var t1 := AfterRecord(t, es[0]);
      RecordAllKeys(t1, es[1..]);
      RecordAllFirst(t, es);
    }
  }

  /** Writing events is writing the first, then the rest; their ids are the
      first one's and the rest's. */
  lemma RecordAllFirst(t: Table, es: seq<DownloadEvent>)
    requires ValidTable(t) && es != []
    ensures RecordAll(t, es) == RecordAll(AfterRecord(t, es[0]), es[1..])
    ensures Ids(es) == {es[0].videoId} + Ids(es[1..])
  {
  }

  /** The position of the first event whose write fails, `|es|` when none
      does. */
  function FirstFailure(es: seq<DownloadEvent>, fails: DownloadEvent -> bool): (n: nat)
    ensures n <= |es|
    ensures forall i :: 0 <= i < n ==> !fails(es[i])
    ensures n < |es| ==> fails(es[n])
  {
    if es == [] || fails(es[0]) then 0 else 1 + FirstFailure(es[1..], fails)
  }

  /** The tail of a non-empty prefix is a prefix of the tail. */
  lemma PrefixTail<T>(xs: seq<T>, n: nat)
    requires 1 <= n <= |xs|
    ensures xs[..n][0] == xs[0] && xs[..n][1..] == xs[1..][..n - 1]
  {
  }

  /** `_record_history` writes exactly the events before the first failing
      one, and none after it. */
  lemma {:induction false} RecordsPrefix(t: Table, es: seq<DownloadEvent>, fails: DownloadEvent -> bool)
    requires ValidTable(t)
    ensures RecordUntil(t, es, fails) == RecordAll(t, es[..FirstFailure(es, fails)])
    decreases |es|
  {
    if es != [] && !fails(es[0]) {
      var t1 := AfterRecord(t, es[0]);
      RecordsPrefix(t1, es[1..], fails);
      var n := FirstFailure(es, fails);
      var m := FirstFailure(es[1..], fails);
      assert n == 1 + m;
      var pre := es[..n];
      PrefixTail(es, n);
      assert RecordAll(t, pre) == RecordAll(t1, pre[1..]);
    }
  }

  /** When no write fails, every event's id has a row afterwards, and no other
      row is added. */
  lemma RecordsEveryId(t: Table, es: seq<DownloadEvent>, fails: DownloadEvent -> bool)
    requires ValidTable(t) && forall i :: 0 <= i < |es| ==> !fails(es[i])
    ensures RecordUntil(t, es, fails).rows.Keys == t.rows.Keys + Ids(es)
  {
    RecordsPrefix(t, es, fails);
    NoFailureIsAll(es, fails);
    RecordAllKeys(t, es);
  }

  /** When no write fails, the events written are all of them. */
  lemma NoFailureIsAll(es: seq<DownloadEvent>, fails: DownloadEvent -> bool)
    requires forall i :: 0 <= i < |es| ==> !fails(es[i])
    ensures es[..FirstFailure(es, fails)] == es
  {
    assert FirstFailure(es, fails) == |es|;
  }

  /** A row carries the status, and where they are given the error and the
      finish time, that a write stamps on it. */
  predicate Stamped(r: Row, status: string, error: Option<string>, finishedAt: Option<string>) {
    r.status == status && (error.Some? ==> r.error == error) && (finishedAt.Some? ==> r.finishedAt == finishedAt)
  }

  /** A write of another key keeps a row's stamp. */
  lemma StampKept(t: Table, e: DownloadEvent, k: string, status: string, error: Option<string>, finishedAt: Option<string>)
    requires ValidTable(t) && k in t.rows && k != e.videoId && Stamped(t.rows[k], status, error, finishedAt)
    ensures Stamped(AfterRecord(t, e).rows[k], status, error, finishedAt)
  {
    RecordLeavesOthers(t, e, k);
  }

  /** A write stamps its own row with its status, its error when it has one
      and its finish time when it has one. */
  lemma StampWritten(t: Table, e: DownloadEvent)
    requires ValidTable(t)
    ensures Stamped(AfterRecord(t, e).rows[e.videoId], e.status, e.error, e.finishedAt)
  {
    RecordUpsertsRow(t, e);
  }

  /** Every event carries the same status, error and finish time. */
  predicate Share(es: seq<DownloadEvent>, status: string, error: Option<string>, finishedAt: Option<string>) {
    forall i :: 0 <= i < |es| ==> es[i].status == status && es[i].error == error && es[i].finishedAt == finishedAt
  }

  lemma ShareTail(es: seq<DownloadEvent>, status: string, error: Option<string>, finishedAt: Option<string>)
    requires es != [] && Share(es, status, error, finishedAt)
    ensures Share(es[1..], status, error, finishedAt)
    ensures es[0].status == status && es[0].error == error && es[0].finishedAt == finishedAt
  {
    forall i | 0 <= i < |es| - 1
      ensures es[1..][i].status == status && es[1..][i].error == error && es[1..][i].finishedAt == finishedAt
    {
      assert es[1..][i] == es[i + 1];
    }
  }

  /** Writing events that share a status, an error and a finish time leaves
      every one of their ids with a row stamped with them. */
  lemma {:induction false} RecordAllStamps(t: Table, es: seq<DownloadEvent>, status: string, error: Option<string>,
                                           finishedAt: Option<string>)
    requires ValidTable(t) && Share(es, status, error, finishedAt)
    ensures var r := RecordAll(t, es);
      forall k :: k in Ids(es) ==> k in r.rows && Stamped(r.rows[k], status, error, finishedAt)
    decreases |es|
  {
    if es != [] {
      var t1 := AfterRecord(t, es[0]);
      ShareTail(es, status, error, finishedAt);
      RecordAllFirst(t, es);
      RecordAllStamps(t1, es[1..], status, error, finishedAt);
      var k0 := es[0].videoId;
      if k0 !in Ids(es[1..]) {
        StampWritten(t, es[0]);
        StampsOutside(t1, es[1..], k0, status, error, finishedAt);
      }
    }
  }

  /** Writing events whose ids miss `k` keeps the stamp of `k`'s row. */
  lemma {:induction false} StampsOutside(t: Table, es: seq<DownloadEvent>, k: string, status: string, error: Option<string>,
                                         finishedAt: Option<string>)
    requires ValidTable(t) && k in t.rows && k !in Ids(es) && Stamped(t.rows[k], status, error, finishedAt)
    ensures k in RecordAll(t, es).rows && Stamped(RecordAll(t, es).rows[k], status, error, finishedAt)
    decreases |es|
  {
    if es != [] {
      RecordAllFirst(t, es);
      StampKept(t, es[0], k, status, error, finishedAt);
      StampsOutside(AfterRecord(t, es[0]), es[1..], k, status, error, finishedAt);
    }
  }

  /** The same when the writes stop at the first failing one and none
      fails. */
  lemma RecordUntilStamps(t: Table, es: seq<DownloadEvent>, fails: DownloadEvent -> bool, status: string,
                          error: Option<string>, finishedAt: Option<string>)
    requires ValidTable(t) && Share(es, status, error, finishedAt)
    requires forall i :: 0 <= i < |es| ==> !fails(es[i])
    ensures var r := RecordUntil(t, es, fails);
      forall k :: k in Ids(es) ==> k in r.rows && Stamped(r.rows[k], status, error, finishedAt)
  {
    RecordsPrefix(t, es, fails);
    NoFailureIsAll(es, fails);
    RecordAllStamps(t, es, status, error, finishedAt);
  }

  /** The events of a call with a non-empty URL share its context and have
      some id. */
  lemma EventsShareContext(info: Value, ctx: EventContext)
    requires ctx.url != ""
    ensures Share(EventsOf(info, ctx), ctx.status, ctx.error, ctx.finishedAt)
    ensures Ids(EventsOf(info, ctx)) != {}
  {
    var es := EventsOf(info, ctx);
    EventsCarryContext(info, ctx);
    IdsMembers(es);
    assert es[0].videoId in Ids(es);
  }

  /** When no write fails, `_record_history` with a context leaves every
      event's id with a row stamped with the context's status, error and
      finish time; with a non-empty URL there is such an id. */
  lemma RecordedStamps(t: Table, info: Value, ctx: EventContext, fails: DownloadEvent -> bool)
    requires ValidTable(t) && ctx.url != ""
    requires forall e :: e in EventsOf(info, ctx) ==> !fails(e)
    ensures var r := Recorded(t, false, info, ctx, fails);
      Ids(EventsOf(info, ctx)) != {}
      && forall k :: k in Ids(EventsOf(info, ctx)) ==> k in r.rows && Stamped(r.rows[k], ctx.status, ctx.error, ctx.finishedAt)
  {
    var es := EventsOf(info, ctx);
    EventsShareContext(info, ctx);
    NoneFails(es, fails);
    RecordUntilStamps(t, es, fails, ctx.status, ctx.error, ctx.finishedAt);
  }

  lemma NoneFails(es: seq<DownloadEvent>, fails: DownloadEvent -> bool)
    requires forall e :: e in es ==> !fails(e)
    ensures forall i :: 0 <= i < |es| ==> !fails(es[i])
  {
    forall i | 0 <= i < |es| ensures !fails(es[i]) {
      assert es[i] in es;
    }
  }

  /** `_record_history` as a value: nothing in dry-run, else the events up to
      the first failing write. */
  function Recorded(t: Table, dryRun: bool, info: Value, ctx: EventContext, fails: DownloadEvent -> bool): (r: Table)
    requires ValidTable(t)
    ensures ValidTable(r)
    ensures dryRun ==> r == t
  {
    if dryRun then t else RecordUntil(t, EventsOf(info, ctx), fails)
  }

  /** `_record_history` only adds rows. */
  lemma RecordedKeepsRows(t: Table, dryRun: bool, info: Value, ctx: EventContext, fails: DownloadEvent -> bool)
    requires ValidTable(t)
    ensures t.rows.Keys <= Recorded(t, dryRun, info, ctx, fails).rows.Keys
  {
    if !dryRun {
      var es := EventsOf(info, ctx);
      RecordsPrefix(t, es, fails);
      RecordAllKeys(t, es[..FirstFailure(es, fails)]);
    }
  }

  /** `_record_history(info, opts, ...)`: a failing write is logged and ends the
      loop; no error leaves the method. */
  method RecordHistory(db: HistoryDb, dryRun: bool, info: Value, ctx: EventContext, fails: DownloadEvent -> bool)
    requires db.Valid()
    modifies db
    ensures db.Valid()
    ensures db.State() == Recorded(old(db.State()), dryRun, info, ctx, fails)
  {
    if dryRun {
      return;
    }
    var events := BuildEvents(info, ctx);
    RecordEach(db, events, fails);
  }

  /** The loop of `_record_history` over its events: `record_event` of each in
      turn, up to the first whose write fails. */
  method RecordEach(db: HistoryDb, events: seq<DownloadEvent>, fails: DownloadEvent -> bool)
    requires db.Valid()
    modifies db
    ensures db.Valid()
    ensures db.State() == RecordUntil(old(db.State()), events, fails)
  {
    ghost var target := RecordUntil(db.State(), events, fails);
    var i := 0;
    while i < |events|
      invariant 0 <= i <= |events| && db.Valid()
      invariant RecordUntil(db.State(), events[i..], fails) == target
    {
      if fails(events[i]) {
        break;
      }
      ghost var before := db.State();
      assert events[i..][1..] == events[i + 1..];
      assert RecordUntil(before, events[i..], fails) == RecordUntil(AfterRecord(before, events[i]), events[i + 1..], fails);
      db.RecordEvent(events[i]);
      i := i + 1;
    }
  }

  // ---------------------------------------------------------------- build_ydl_opts

  /** The extension placeholder of yt-dlp output templates. */
  const ExtPlaceholder := ".%(ext)s"

  /** The file name template: the prefix, then the template with the quality
      suffix put in front of the extension placeholder (or appended when the
      template has none). */
  function NameTemplate(opts: DownloadOptions): string {
    var base := opts.nameTemplate;
    var suffix := if Given(opts.qualitySuffix) then opts.qualitySuffix.value else "";
    (if Given(opts.filePrefix) then opts.filePrefix.value else "")
    + (if suffix == "" then base
       else if Contains(base, ExtPlaceholder) then Replace(base, ExtPlaceholder, "") + suffix + ExtPlaceholder
       else base + suffix)
  }

  /** A template that ends in the placeholder (and has no other dot) gets the
      suffix right before the extension, after the prefix; without a suffix
      it is used as it is. */
  lemma SuffixBeforeExtension(opts: DownloadOptions, stem: string)
    requires opts.nameTemplate == stem + ExtPlaceholder && '.' !in stem
    ensures var prefix := if Given(opts.filePrefix) then opts.filePrefix.value else "";
      NameTemplate(opts) == if Given(opts.qualitySuffix) then prefix + stem + opts.qualitySuffix.value + ExtPlaceholder
                            else prefix + opts.nameTemplate
  {
    assert OccursAt(opts.nameTemplate, ExtPlaceholder, |stem|);
    ReplaceTrailing(stem, ExtPlaceholder);
  }

  /** A template without the placeholder gets the suffix at its end. */
  lemma SuffixAppended(opts: DownloadOptions)
    requires !Contains(opts.nameTemplate, ExtPlaceholder) && Given(opts.qualitySuffix)
    ensures var prefix := if Given(opts.filePrefix) then opts.filePrefix.value else "";
      NameTemplate(opts) == prefix + opts.nameTemplate + opts.qualitySuffix.value
  {
  }

  /** `FFmpegExtractAudio` with its preferred codec and quality. */
  datatype Postprocessor = ExtractAudio(preferredCodec: string, preferredQuality: string)

  /** The height cap of a quality: `int("1080p".replace("p", ""))`, and no cap
      for any other name. */
  function MaxHeight(q: Quality): Option<nat> {
    if QualityName(q) == "1080p" then Some(1080)
    else if QualityName(q) == "720p" then Some(720)
    else None
  }

  /** The audio container that goes with a video container. */
  function AudioExtFor(v: VideoFormat): string {
    if VideoFormatName(v) == "mp4" then "m4a" else "webm"
  }

  /** `opts.audio_only or opts.quality == "audio"` */
  predicate AudioWanted(opts: DownloadOptions) {
    opts.audioOnly || QualityName(opts.quality) == "audio"
  }

  /** The height filter of a selector, empty without a cap. */
  function HeightFilter(cap: Option<nat>): string {
    if cap.Some? then "[height<=" + NatToString(cap.value) + "]" else ""
  }

  /** The best video in a container under a height filter. */
  function BestVideo(ext: string, h: string): string {
    "bestvideo" + h + "[ext=" + ext + "]"
  }

  /** The best audio in a container. */
  function BestAudio(ext: string): string {
    "bestaudio[ext=" + ext + "]"
  }

  /** The video format selector: the best video in the container (under the
      height filter) merged with the best audio of `audExt`, then the best
      single file in the container, then the best single file. */
  function VideoSelector(ext: string, audExt: string, h: string): string {
    BestVideo(ext, h) + "+" + BestAudio(audExt) + "/best" + h + "[ext=" + ext + "]" + "/best" + h
  }

  /** The `format` option and the `postprocessors` option (absent but for
      audio-only downloads). */
  function FormatFor(opts: DownloadOptions): (string, Option<seq<Postprocessor>>) {
    if Given(opts.customFormat) then (opts.customFormat.value, None)
    else if AudioWanted(opts) then
      var a := AudioFormatName(opts.audioFormat);
      (BestAudio(a) + "/bestaudio/best", Some([ExtractAudio(a, "0")]))
    else (VideoSelector(VideoFormatName(opts.videoFormat), AudioExtFor(opts.videoFormat), HeightFilter(MaxHeight(opts.quality))), None)
  }

  /** A custom format wins over everything; audio-only (by flag or by quality)
      comes next, asks first for the best audio in the requested container and
      is the only case with a postprocessor; otherwise the video selector, with
      a height filter for 1080p and 720p only. */
  lemma FormatPrecedence(opts: DownloadOptions)
    ensures Given(opts.customFormat) ==> FormatFor(opts) == (opts.customFormat.value, None)
    ensures !Given(opts.customFormat) && (opts.audioOnly || QualityName(opts.quality) == "audio") ==>
              FormatFor(opts).1 == Some([ExtractAudio(AudioFormatName(opts.audioFormat), "0")])
              && FormatFor(opts).0 == BestAudio(AudioFormatName(opts.audioFormat)) + "/bestaudio/best"
    ensures !Given(opts.customFormat) && !opts.audioOnly && QualityName(opts.quality) != "audio" ==>
              FormatFor(opts).1.None?
              && (HeightFilter(MaxHeight(opts.quality)) != "" <==> QualityName(opts.quality) in {"1080p", "720p"})
  {
  }

  /** Names outside the annotations are used as they are given: a quality
      other than 1080p and 720p puts no cap on the height. */
  lemma UnlistedQualityUncapped(opts: DownloadOptions)
    requires !Given(opts.customFormat) && !opts.audioOnly
    requires opts.quality == OtherQuality("480p") && opts.videoFormat == Mp4
    ensures FormatFor(opts).0 == "bestvideo[ext=mp4]+bestaudio[ext=m4a]/best[ext=mp4]/best"
  {
    VideoFormatOf(opts);
    Mp4Selector();
  }

  /** A video container other than mp4 is asked for by its own name, with
      webm audio. */
  lemma UnlistedContainerVerbatim(opts: DownloadOptions)
    requires !Given(opts.customFormat) && !opts.audioOnly
    requires opts.quality == Best && opts.videoFormat == OtherVideo("mkv")
    ensures FormatFor(opts).0 == "bestvideo[ext=mkv]+bestaudio[ext=webm]/best[ext=mkv]/best"
  {
    VideoFormatOf(opts);
    MkvSelector();
  }

  /** Any audio container is asked for, and converted to, by its own name. */
  lemma UnlistedAudioVerbatim(opts: DownloadOptions)
    requires !Given(opts.customFormat)
    requires opts.quality == AudioQuality && opts.audioFormat == OtherAudio("flac")
    ensures FormatFor(opts) == ("bestaudio[ext=flac]/bestaudio/best", Some([ExtractAudio("flac", "0")]))
  {
    assert AudioWanted(opts) && AudioFormatName(opts.audioFormat) == "flac";
    FlacSelector();
  }

  /** The format of a video download. */
  lemma VideoFormatOf(opts: DownloadOptions)
    requires !Given(opts.customFormat) && !AudioWanted(opts)
    ensures FormatFor(opts).0 == VideoSelector(VideoFormatName(opts.videoFormat), AudioExtFor(opts.videoFormat),
                                               HeightFilter(MaxHeight(opts.quality)))
  {
  }

  lemma Mp4Selector()
    ensures VideoSelector("mp4", AudioExtFor(Mp4), HeightFilter(MaxHeight(OtherQuality("480p"))))
         == "bestvideo[ext=mp4]+bestaudio[ext=m4a]/best[ext=mp4]/best"
  {
    assert HeightFilter(MaxHeight(OtherQuality("480p"))) == "" && AudioExtFor(Mp4) == "m4a";
    SelectorText("mp4", "m4a");
    assert "bestvideo[ext=" + "mp4" == "bestvideo[ext=mp4";
    assert "bestvideo[ext=mp4" + "]+bestaudio[ext=" == "bestvideo[ext=mp4]+bestaudio[ext=";
    assert "bestvideo[ext=mp4]+bestaudio[ext=" + "m4a" == "bestvideo[ext=mp4]+bestaudio[ext=m4a";
    assert "bestvideo[ext=mp4]+bestaudio[ext=m4a" + "]/best[ext=" == "bestvideo[ext=mp4]+bestaudio[ext=m4a]/best[ext=";
    assert "bestvideo[ext=mp4]+bestaudio[ext=m4a]/best[ext=" + "mp4" == "bestvideo[ext=mp4]+bestaudio[ext=m4a]/best[ext=mp4";
    assert "bestvideo[ext=mp4]+bestaudio[ext=m4a]/best[ext=mp4" + "]/best" == "bestvideo[ext=mp4]+bestaudio[ext=m4a]/best[ext=mp4]/best";
  }

  lemma MkvSelector()
    ensures VideoSelector("mkv", AudioExtFor(OtherVideo("mkv")), HeightFilter(MaxHeight(Best)))
         == "bestvideo[ext=mkv]+bestaudio[ext=webm]/best[ext=mkv]/best"
  {
    assert HeightFilter(MaxHeight(Best)) == "" && AudioExtFor(OtherVideo("mkv")) == "webm";
    SelectorText("mkv", "webm");
    assert "bestvideo[ext=" + "mkv" == "bestvideo[ext=mkv";
    assert "bestvideo[ext=mkv" + "]+bestaudio[ext=" == "bestvideo[ext=mkv]+bestaudio[ext=";
    assert "bestvideo[ext=mkv]+bestaudio[ext=" + "webm" == "bestvideo[ext=mkv]+bestaudio[ext=webm";
    assert "bestvideo[ext=mkv]+bestaudio[ext=webm" + "]/best[ext=" == "bestvideo[ext=mkv]+bestaudio[ext=webm]/best[ext=";
    assert "bestvideo[ext=mkv]+bestaudio[ext=webm]/best[ext=" + "mkv" == "bestvideo[ext=mkv]+bestaudio[ext=webm]/best[ext=mkv";
    assert "bestvideo[ext=mkv]+bestaudio[ext=webm]/best[ext=mkv" + "]/best" == "bestvideo[ext=mkv]+bestaudio[ext=webm]/best[ext=mkv]/best";
  }

  /** The uncapped selector spelled out. */
  lemma SelectorText(ext: string, audExt: string)
    ensures VideoSelector(ext, audExt, "") ==
            "bestvideo[ext=" + ext + "]+bestaudio[ext=" + audExt + "]/best[ext=" + ext + "]/best"
  {
    assert BestVideo(ext, "") == "bestvideo[ext=" + ext + "]";
  }

  lemma FlacSelector()
    ensures BestAudio("flac") + "/bestaudio/best" == "bestaudio[ext=flac]/bestaudio/best"
  {
    assert BestAudio("flac") == "bestaudio[ext=flac]";
  }

  /** The first choice of a video selector merges the video of the requested
      container with the audio that goes with it: `m4a` audio exactly for `mp4`
      video, `webm` audio otherwise. */
  lemma AudioMatchesContainer(opts: DownloadOptions)
    requires !Given(opts.customFormat) && !AudioWanted(opts)
    ensures var h := HeightFilter(MaxHeight(opts.quality));
      StartsWith(FormatFor(opts).0, BestVideo(VideoFormatName(opts.videoFormat), h) + "+" + BestAudio(AudioExtFor(opts.videoFormat)))
    ensures AudioExtFor(opts.videoFormat) == "m4a" <==> VideoFormatName(opts.videoFormat) == "mp4"
  {
    var h := HeightFilter(MaxHeight(opts.quality));
    var ext := VideoFormatName(opts.videoFormat);
    var t := BestVideo(ext, h) + "+" + BestAudio(AudioExtFor(opts.videoFormat));
    assert FormatFor(opts).0 == t + "/best" + h + "[ext=" + ext + "]" + "/best" + h;
  }

  /** The caps of the two capped qualities. */
  lemma CapFilters()
    ensures HeightFilter(MaxHeight(Q720p)) == "[height<=720]"
    ensures HeightFilter(MaxHeight(Q1080p)) == "[height<=1080]"
    ensures HeightFilter(MaxHeight(Best)) == ""
  {
    Numeral720();
    Numeral1080();
  }

  lemma Numeral720()
    ensures NatToString(720) == "720"
  {
    assert NatToString(7) == "7";
    assert NatToString(72) == "72";
  }

  lemma Numeral1080()
    ensures NatToString(1080) == "1080"
  {
    assert NatToString(10) == "10";
    assert NatToString(108) == "108";
  }

  /** A 720p mp4 download asks first for `bestvideo[height<=720][ext=mp4]`
      merged with `bestaudio[ext=m4a]`. */
  lemma Mp4At720(opts: DownloadOptions)
    requires !Given(opts.customFormat) && !opts.audioOnly && opts.quality == Q720p && opts.videoFormat == Mp4
    ensures StartsWith(FormatFor(opts).0, BestVideo("mp4", "[height<=720]") + "+" + BestAudio("m4a"))
  {
    AudioMatchesContainer(opts);
    CapFilters();
  }

  /** The options handed to yt-dlp. A key `build_ydl_opts` sets only under a
      condition is an `Option`, `None` when it is not set; the progress hook is
      the `ProgressHook` method of the downloader. */
  datatype YdlOpts = YdlOpts(
    outtmpl: string, noplaylist: bool, retries: int, concurrentFragmentDownloads: nat,
    overwrites: Option<bool>, playlistItems: Option<string>,
    quiet: bool, noWarnings: bool, noprogress: bool,
    proxy: Option<string>,
    writeSubtitles: bool, subtitleLangs: Option<seq<string>>, subtitlesFormat: Option<string>,
    ffmpegLocation: Option<string>,
    format: string, postprocessors: Option<seq<Postprocessor>>,
    skipDownload: Option<bool>, simulate: Option<bool>)

  /** What `build_ydl_opts` returns; `ffmpegDir` is what `find_ffmpeg()`
      found. */
  function YdlOptsFor(opts: DownloadOptions, verbose: bool, ffmpegDir: Option<string>): (o: YdlOpts)
    ensures o.outtmpl == JoinPath(opts.outputDir, NameTemplate(opts))
    ensures (o.format, o.postprocessors) == FormatFor(opts)
    ensures o.noplaylist == !opts.playlist && o.retries == opts.retry && o.concurrentFragmentDownloads == 1
    ensures o.quiet == !verbose && o.noWarnings == !verbose && !o.noprogress
    ensures o.writeSubtitles <==> opts.subtitles != []
    ensures o.subtitleLangs.Some? <==> opts.subtitles != []
    ensures o.subtitleLangs.Some? ==> o.subtitleLangs.value == opts.subtitles && o.subtitlesFormat == Some("srt")
    ensures o.overwrites == (if opts.overwrite then Some(true) else None)
    ensures o.proxy.Some? <==> Given(opts.proxy)
    ensures o.proxy.Some? ==> o.proxy == opts.proxy
    ensures o.playlistItems.Some? <==> Given(opts.playlistItems)
    ensures o.playlistItems.Some? ==> o.playlistItems == opts.playlistItems
    ensures o.ffmpegLocation == ffmpegDir
    ensures o.skipDownload == o.simulate && (o.skipDownload.Some? <==> opts.dryRun)
  {
    var subs := opts.subtitles != [];
    var fmt := FormatFor(opts);
    YdlOpts(
      JoinPath(opts.outputDir, NameTemplate(opts)), !opts.playlist, opts.retry, 1,
      if opts.overwrite then Some(true) else None,
      if Given(opts.playlistItems) then opts.playlistItems else None,
      !verbose, !verbose, false,
      if Given(opts.proxy) then opts.proxy else None,
      subs, if subs then Some(opts.subtitles) else None, if subs then Some("srt") else None,
      ffmpegDir,
      fmt.0, fmt.1,
      if opts.dryRun then Some(true) else None, if opts.dryRun then Some(true) else None)
  }

  /** The template part of `build_ydl_opts`: the name parts joined. */
  method FinalTemplate(opts: DownloadOptions) returns (finalTemplate: string)
    ensures finalTemplate == NameTemplate(opts)
  {
    var nameParts: seq<string> := [];
    if Given(opts.filePrefix) {
      nameParts := nameParts + [opts.filePrefix.value];
    }
    var base := opts.nameTemplate;
    if Given(opts.qualitySuffix) {
      if Contains(base, ExtPlaceholder) {
        var nameBase := Replace(base, ExtPlaceholder, "");
        nameParts := nameParts + [nameBase + opts.qualitySuffix.value + ExtPlaceholder];
      } else {
        nameParts := nameParts + [base + opts.qualitySuffix.value];
      }
    } else {
      nameParts := nameParts + [base];
    }
    finalTemplate := if |nameParts| == 2 then nameParts[0] + nameParts[1] else nameParts[0];
  }

  /** The format part of `build_ydl_opts`. */
  method Formats(opts: DownloadOptions) returns (format: string, postprocessors: Option<seq<Postprocessor>>)
    ensures (format, postprocessors) == FormatFor(opts)
  {
    postprocessors := None;
    if Given(opts.customFormat) {
      format := opts.customFormat.value;
    } else if opts.audioOnly || QualityName(opts.quality) == "audio" {
      var a := AudioFormatName(opts.audioFormat);
      format := BestAudio(a) + "/bestaudio/best";
      postprocessors := Some([ExtractAudio(a, "0")]);
    } else {
      var ext := VideoFormatName(opts.videoFormat);
      var maxH := MaxHeight(opts.quality);
      var audExt := if ext == "mp4" then "m4a" else "webm";
      format := VideoSelector(ext, audExt, HeightFilter(maxH));
    }
  }

  /** `build_ydl_opts(opts)`: the keys filled in one by one. */
  method BuildYdlOpts(opts: DownloadOptions, verbose: bool, ffmpegDir: Option<string>) returns (o: YdlOpts)
    ensures o == YdlOptsFor(opts, verbose, ffmpegDir)
  {
    var finalTemplate := FinalTemplate(opts);
    var outtmpl := JoinPath(opts.outputDir, finalTemplate);
    var overwrites: Option<bool> := None;
    if opts.overwrite {
      overwrites := Some(true);
    }
    var playlistItems: Option<string> := None;
    if Given(opts.playlistItems) {
      playlistItems := opts.playlistItems;
    }
    var quiet, noWarnings, noprogress;
    if verbose {
      quiet, noWarnings, noprogress := false, false, false;
    } else {
      quiet, noWarnings, noprogress := true, true, false;
    }
    var proxy: Option<string> := None;
    if Given(opts.proxy) {
      proxy := opts.proxy;
    }
    var writeSubtitles := false;
    var subtitleLangs: Option<seq<string>> := None;
    var subtitlesFormat: Option<string> := None;
    if opts.subtitles != [] {
      writeSubtitles, subtitleLangs, subtitlesFormat := true, Some(opts.subtitles), Some("srt");
    }
    var ffmpegLocation: Option<string> := None;
    if ffmpegDir.Some? {
      ffmpegLocation := ffmpegDir;
    }
    var format, postprocessors := Formats(opts);
    var skipDownload: Option<bool> := None;
    var simulate: Option<bool> := None;
    if opts.dryRun {
      skipDownload, simulate := Some(true), Some(true);
    }
    o := YdlOpts(outtmpl, !opts.playlist, opts.retry, 1, overwrites, playlistItems, quiet, noWarnings, noprogress,
                 proxy, writeSubtitles, subtitleLangs, subtitlesFormat, ffmpegLocation, format, postprocessors,
                 skipDownload, simulate);
  }

  // ---------------------------------------------------------------- download

  /** The `status` of a progress dict: `downloading`, `finished`, `error`,
      or anything else (including none). */
  datatype HookStatus = Downloading | Finished | Errored | OtherStatus

  /** One call of the progress hook: the `status` and `filename` of the dict
      yt-dlp passes. */
  datatype Progress = Progress(status: HookStatus, filename: Option<string>)

  /** The files the hook records for a sequence of calls: `Path(filename)` of
      each `finished` call with a non-empty name. */
  function HookFiles(ps: seq<Progress>): (fs: seq<string>)
    ensures |fs| <= |ps|
  {
    if ps == [] then []
    else HookFile(ps[0]) + HookFiles(ps[1..])
  }

  /** The file one hook call records: a `finished` call that names a file. */
  function HookFile(p: Progress): (fs: seq<string>)
    ensures |fs| <= 1
  {
    if Reports(p) then [Normalize(p.filename.value)] else []
  }

  /** The hook calls of two stretches record the files of the first, then
      those of the second. */
  lemma {:induction false} HookFilesAppend(xs: seq<Progress>, ys: seq<Progress>)
    ensures HookFiles(xs + ys) == HookFiles(xs) + HookFiles(ys)
    decreases |xs|
  {
    if xs == [] {
      assert xs + ys == ys;
    } else {
      assert (xs + ys)[1..] == xs[1..] + ys;
      HookFilesAppend(xs[1..], ys);
    }
  }

  /** The files of one more hook call. */
  lemma HookFilesNext(ps: seq<Progress>, j: nat)
    requires j < |ps|
    ensures HookFiles(ps[..j + 1]) == HookFiles(ps[..j]) + HookFile(ps[j])
  {
    HookFilesAppend(ps[..j], [ps[j]]);
    assert ps[..j] + [ps[j]] == ps[..j + 1];
    assert HookFiles([ps[j]]) == HookFile(ps[j]) + HookFiles([]);
  }

  /** A `finished` hook call that names its file. */
  predicate Reports(p: Progress)
  {
    p.status == Finished && Given(p.filename)
  }

  /** The result of a call into yt-dlp: a value, or an exception and its
      message. */
  datatype Fetched = Returned(info: Value) | Raised(message: string)

  /** What yt-dlp does in one attempt: the preview `extract_info(url,
      download=False)`, the progress hook calls during the real
      `extract_info`, its result, what `prepare_filename(info)` gives (`None`
      when it raises), and the clock readings of `datetime.utcnow()` for the
      start and the end. */
  datatype Attempt = Attempt(
    preview: Fetched, progress: seq<Progress>, result: Fetched, prepared: Option<string>,
    startedAt: string, finishedAt: string)

  /** The exception an attempt ends with, `None` when it succeeds; in dry-run
      there is no preview. */
  function AttemptError(dryRun: bool, a: Attempt): Option<string> {
    if !dryRun && a.preview.Raised? then Some(a.preview.message)
    else if a.result.Raised? then Some(a.result.message)
    else None
  }

  /** The info the events of an attempt are built from, before the real
      `extract_info` returns: the preview when it is a dict. */
  function PreviewInfo(dryRun: bool, a: Attempt): Value {
    if !dryRun && a.preview.Returned? && a.preview.info.VDict? then a.preview.info else VNone
  }

  /** The contexts of the three kinds of event a download records. */
  function InProgress(url: string, a: Attempt): EventContext {
    EventContext(url, "in_progress", Some(a.startedAt), None, [], None)
  }

  function Succeeded(url: string, a: Attempt, files: seq<string>): EventContext {
    EventContext(url, "success", None, Some(a.finishedAt), files, None)
  }

  function Failed(url: string, a: Attempt, message: string): EventContext {
    EventContext(url, "failed", None, Some(a.finishedAt), [], Some(message))
  }

  /** The state after one attempt and how it ends. */
  datatype Step = Step(table: Table, files: seq<string>, outcome: Result<seq<string>, string>)

  /** The history after a preview that returned: an `in_progress` record
      (none in dry-run, where there is no preview). */
  function AfterPreview(t: Table, opts: DownloadOptions, a: Attempt, fails: DownloadEvent -> bool): (r: Table)
    requires ValidTable(t)
    ensures ValidTable(r)
  {
    Recorded(t, opts.dryRun, PreviewInfo(opts.dryRun, a), InProgress(opts.url, a), fails)
  }

  /** The rest of the attempt once the download ran, from the history after
      the preview and the finished files including the hook's: a `failed`
      record when `extract_info` raised, else (but in dry-run) the file that
      `prepare_filename` names when no hook reported one, and a `success`
      record with the files. */
  function Finish(t1: Table, files1: seq<string>, opts: DownloadOptions, a: Attempt,
                  fails: DownloadEvent -> bool): (s: Step)
    requires ValidTable(t1)
    ensures ValidTable(s.table)
  {
    var info0 := PreviewInfo(opts.dryRun, a);
    match a.result
    case Raised(m) => Step(Recorded(t1, opts.dryRun, info0, Failed(opts.url, a, m), fails), files1, Err(m))
    case Returned(info) =>
      if opts.dryRun then Step(t1, files1, Ok([]))
      else
        var info1 := if info.VDict? then info else info0;
        var files2 := if files1 == [] && Truthy(info) && Given(a.prepared) then [Normalize(a.prepared.value)] else files1;
        Step(Recorded(t1, false, info1, Succeeded(opts.url, a, files2), fails), files2, Ok(files2))
  }

  /** One pass of the `try` block of `download` and its `except` handler,
      from the history table and the finished files before it. */
  function AttemptStep(t: Table, files: seq<string>, opts: DownloadOptions, a: Attempt,
                       fails: DownloadEvent -> bool): (s: Step)
    requires ValidTable(t)
    ensures ValidTable(s.table)
    ensures s.outcome.Err? <==> AttemptError(opts.dryRun, a).Some?
    ensures s.outcome.Err? ==> s.outcome.error == AttemptError(opts.dryRun, a).value
    ensures opts.dryRun ==> s.table == t && (s.outcome.Ok? ==> s.outcome.value == [])
    ensures !opts.dryRun && s.outcome.Ok? ==> s.outcome.value == s.files
  {
    if !opts.dryRun && a.preview.Raised? then
      Step(Recorded(t, false, VNone, Failed(opts.url, a, a.preview.message), fails), files, Err(a.preview.message))
    else Finish(AfterPreview(t, opts, a, fails), files + HookFiles(a.progress), opts, a, fails)
  }

  /** The events the `except` handler records for an attempt that raised
      `message`: built from the preview's info. */
  function FailedEvents(opts: DownloadOptions, a: Attempt, message: string): seq<DownloadEvent> {
    EventsOf(PreviewInfo(opts.dryRun, a), Failed(opts.url, a, message))
  }

  /** The info the `success` record is built from: the download's result when
      it is a dict, else the preview's. */
  function SuccessInfo(opts: DownloadOptions, a: Attempt): Value {
    match a.result
    case Returned(info) => if info.VDict? then info else PreviewInfo(opts.dryRun, a)
    case Raised(_) => VNone
  }

  /** The events of the `success` record of an attempt that finished `files`. */
  function SucceededEvents(opts: DownloadOptions, a: Attempt, files: seq<string>): seq<DownloadEvent> {
    EventsOf(SuccessInfo(opts, a), Succeeded(opts.url, a, files))
  }

  /** Outside dry-run, and for a non-empty URL, the state `s` an attempt `a`
      leaves records how it ended, provided none of the writes of that record
      fails: after a raise every id of the failed events has a row with status
      `failed`, the exception's message as error and the attempt's end time;
      after a success every id of the success events has a row with status
      `success` and that end time. There is at least one such id. */
  ghost predicate RecordsOutcome(opts: DownloadOptions, a: Attempt, fails: DownloadEvent -> bool, s: Step) {
    !opts.dryRun && opts.url != "" ==> FailureRecorded(opts, a, fails, s) && SuccessRecorded(opts, a, fails, s)
  }

  ghost predicate FailureRecorded(opts: DownloadOptions, a: Attempt, fails: DownloadEvent -> bool, s: Step) {
    s.outcome.Err? && (forall e :: e in FailedEvents(opts, a, s.outcome.error) ==> !fails(e)) ==>
      var ids := Ids(FailedEvents(opts, a, s.outcome.error));
      ids != {} && forall k :: k in ids ==>
        k in s.table.rows && s.table.rows[k].status == "failed"
        && s.table.rows[k].error == Some(s.outcome.error) && s.table.rows[k].finishedAt == Some(a.finishedAt)
  }

  ghost predicate SuccessRecorded(opts: DownloadOptions, a: Attempt, fails: DownloadEvent -> bool, s: Step) {
    s.outcome.Ok? && (forall e :: e in SucceededEvents(opts, a, s.files) ==> !fails(e)) ==>
      var ids := Ids(SucceededEvents(opts, a, s.files));
      ids != {} && forall k :: k in ids ==>
        k in s.table.rows && s.table.rows[k].status == "success" && s.table.rows[k].finishedAt == Some(a.finishedAt)
  }

  /** One attempt records its outcome: `_record_history(..., status="failed",
      error=str(exc))` in the `except` handler, `status="success"` with the
      files after a download that returned. */
  lemma AttemptRecordsOutcome(t: Table, files: seq<string>, opts: DownloadOptions, a: Attempt, fails: DownloadEvent -> bool)
    requires ValidTable(t)
    ensures RecordsOutcome(opts, a, fails, AttemptStep(t, files, opts, a, fails))
  {
    if !opts.dryRun && opts.url != "" {
      var s := AttemptStep(t, files, opts, a, fails);
      if a.preview.Raised? {
        var ctx := Failed(opts.url, a, a.preview.message);
        assert FailedEvents(opts, a, s.outcome.error) == EventsOf(VNone, ctx);
        if forall e :: e in EventsOf(VNone, ctx) ==> !fails(e) {
          RecordedStamps(t, VNone, ctx, fails);
        }
      } else {
        FinishRecordsOutcome(AfterPreview(t, opts, a, fails), files + HookFiles(a.progress), opts, a, fails);
      }
    }
  }

  /** The part of an attempt after a preview that returned records its
      outcome. */
  lemma FinishRecordsOutcome(t1: Table, files1: seq<string>, opts: DownloadOptions, a: Attempt, fails: DownloadEvent -> bool)
    requires ValidTable(t1) && !opts.dryRun && opts.url != ""
    ensures RecordsOutcome(opts, a, fails, Finish(t1, files1, opts, a, fails))
  {
    if a.result.Raised? {
      FinishRaisedRecords(t1, files1, opts, a, fails);
    } else {
      FinishReturnedRecords(t1, files1, opts, a, fails);
    }
  }

  lemma FinishRaisedRecords(t1: Table, files1: seq<string>, opts: DownloadOptions, a: Attempt, fails: DownloadEvent -> bool)
    requires ValidTable(t1) && !opts.dryRun && opts.url != "" && a.result.Raised?
    ensures FailureRecorded(opts, a, fails, Finish(t1, files1, opts, a, fails))
    ensures SuccessRecorded(opts, a, fails, Finish(t1, files1, opts, a, fails))
  {
    var info0 := PreviewInfo(opts.dryRun, a);
    var ctx := Failed(opts.url, a, a.result.message);
    if forall e :: e in EventsOf(info0, ctx) ==> !fails(e) {
      RecordedStamps(t1, info0, ctx, fails);
    }
  }

  lemma FinishReturnedRecords(t1: Table, files1: seq<string>, opts: DownloadOptions, a: Attempt, fails: DownloadEvent -> bool)
    requires ValidTable(t1) && !opts.dryRun && opts.url != "" && a.result.Returned?
    ensures FailureRecorded(opts, a, fails, Finish(t1, files1, opts, a, fails))
    ensures SuccessRecorded(opts, a, fails, Finish(t1, files1, opts, a, fails))
  {
    var s := Finish(t1, files1, opts, a, fails);
    var info := a.result.info;
    var files2 := if files1 == [] && Truthy(info) && Given(a.prepared) then [Normalize(a.prepared.value)] else files1;
    var ctx := Succeeded(opts.url, a, files2);
    assert s.files == files2;
    if forall e :: e in EventsOf(SuccessInfo(opts, a), ctx) ==> !fails(e) {
      RecordedStamps(t1, SuccessInfo(opts, a), ctx, fails);
    }
  }

  /** `max(1, int(opts.retry))` */
  function Retries(opts: DownloadOptions): (n: nat)
    ensures n >= 1 && n >= opts.retry
  {
    if opts.retry > 1 then opts.retry else 1
  }

  /** `max(0.0, float(opts.retry_delay))` */
  function FirstDelay(opts: DownloadOptions): (d: real)
    ensures d >= 0.0 && d >= opts.retryDelay
  {
    if opts.retryDelay > 0.0 then opts.retryDelay else 0.0
  }

  /** Attempt `k` of the retry loop, from the state the attempt before left;
      `ytdlp(o, k)` is what yt-dlp does in attempt `k` under options `o`.
      Every state the loop reaches has a well-formed history table; the
      other states are left as they are. */
  function Attempter(opts: DownloadOptions, o: YdlOpts, ytdlp: (YdlOpts, nat) -> Attempt,
                     fails: DownloadEvent -> bool): (Step, nat) -> Step
  {
    (s: Step, k: nat) => if ValidTable(s.table) then AttemptStep(s.table, s.files, opts, ytdlp(o, k), fails) else s
  }

  /** The attempt that left `s` raised. */
  predicate Unsuccessful(s: Step)
  {
    s.outcome.Err?
  }

  /** `attempt` makes attempt `k` from every state with a well-formed
      history as `AttemptStep` does; the quantifier only fires on a mention of
      `AttemptStep`, which keeps what one attempt does out of the reasoning
      about the loop. */
  ghost predicate IsAttempter(attempt: (Step, nat) -> Step, opts: DownloadOptions, o: YdlOpts,
                              ytdlp: (YdlOpts, nat) -> Attempt, fails: DownloadEvent -> bool)
  {
    forall s: Step, k: nat {:trigger AttemptStep(s.table, s.files, opts, ytdlp(o, k), fails)} ::
      ValidTable(s.table) ==> attempt(s, k) == AttemptStep(s.table, s.files, opts, ytdlp(o, k), fails)
  }

  lemma AttempterIs(opts: DownloadOptions, o: YdlOpts, ytdlp: (YdlOpts, nat) -> Attempt, fails: DownloadEvent -> bool)
    ensures IsAttempter(Attempter(opts, o, ytdlp, fails), opts, o, ytdlp, fails)
  {
  }

  /** The retry loop of `download` from history `t` and finished files
      `files`, attempt `k` made by `attempt`: the state the last attempt leaves (history, files, and the
      files returned or the message of the exception re-raised), the number
      of attempts and the pauses slept between them. */
  function Run(t: Table, files: seq<string>, opts: DownloadOptions, attempt: (Step, nat) -> Step): Retry.Ran<Step>
  {
    Retry.Run<Step>(Step(t, files, Ok([])), attempt, Unsuccessful, Retries(opts), FirstDelay(opts), 0)
  }


  /** An attempt keeps the files found before it (a failed attempt keeps
      those its hook reported) and only adds rows to the history. */
  lemma StepKeeps(t: Table, files: seq<string>, opts: DownloadOptions, a: Attempt, fails: DownloadEvent -> bool)
    requires ValidTable(t)
    ensures var s := AttemptStep(t, files, opts, a, fails);
      files <= s.files && t.rows.Keys <= s.table.rows.Keys
  {
    if !opts.dryRun && a.preview.Raised? {
      RecordedKeepsRows(t, false, VNone, Failed(opts.url, a, a.preview.message), fails);
    } else {
      var t1 := AfterPreview(t, opts, a, fails);
      var files1 := files + HookFiles(a.progress);
      RecordedKeepsRows(t, opts.dryRun, PreviewInfo(opts.dryRun, a), InProgress(opts.url, a), fails);
      var info0 := PreviewInfo(opts.dryRun, a);
      match a.result
      case Raised(m) =>
        RecordedKeepsRows(t1, opts.dryRun, info0, Failed(opts.url, a, m), fails);
      case Returned(info) =>
        if !opts.dryRun {
          var info1 := if info.VDict? then info else info0;
          var files2 := if files1 == [] && Truthy(info) && Given(a.prepared) then [Normalize(a.prepared.value)] else files1;
          RecordedKeepsRows(t1, false, info1, Succeeded(opts.url, a, files2), fails);
        }
    }
  }

  /** What attempt `j` promises of the state `s` it leaves: it raised exactly
      when yt-dlp raised in it (in the preview outside dry-run, or in the
      download), with that exception's message; otherwise it returns no
      files in dry-run and the files found so far outside it. */
  ghost predicate Promised(opts: DownloadOptions, o: YdlOpts, ytdlp: (YdlOpts, nat) -> Attempt, j: nat, s: Step)
  {
    (s.outcome.Err? <==> AttemptError(opts.dryRun, ytdlp(o, j)).Some?)
    && (s.outcome.Err? ==> AttemptError(opts.dryRun, ytdlp(o, j)) == Some(s.outcome.error))
    && (opts.dryRun && s.outcome.Ok? ==> s.outcome.value == [])
    && (!opts.dryRun && s.outcome.Ok? ==> s.outcome.value == s.files)
  }

  /** Attempt `k` from a well-formed history keeps its promise and a
      well-formed history, keeps the files found before it, only adds rows to
      the history, and in dry-run leaves the history as it was. */
  lemma AttempterStep(opts: DownloadOptions, o: YdlOpts, ytdlp: (YdlOpts, nat) -> Attempt,
                      fails: DownloadEvent -> bool, attempt: (Step, nat) -> Step, s: Step, k: nat)
    requires IsAttempter(attempt, opts, o, ytdlp, fails) && ValidTable(s.table)
    ensures var next := attempt(s, k);
      Promised(opts, o, ytdlp, k, next) && ValidTable(next.table)
      && s.files <= next.files && s.table.rows.Keys <= next.table.rows.Keys
      && (opts.dryRun ==> next.table == s.table)
  {
    StepKeeps(s.table, s.files, opts, ytdlp(o, k), fails);
  }

  /** How a download ends: after at most `max(1, retry)` attempts, at the
      first one that raises nothing, or after the last permitted one. */
  lemma DownloadEnds(t: Table, files: seq<string>, opts: DownloadOptions, o: YdlOpts,
                     ytdlp: (YdlOpts, nat) -> Attempt, fails: DownloadEvent -> bool, attempt: (Step, nat) -> Step)
    requires ValidTable(t) && IsAttempter(attempt, opts, o, ytdlp, fails)
    ensures var r := Run(t, files, opts, attempt);
      1 <= r.attempts <= Retries(opts)
      && (forall j :: 0 <= j < r.attempts - 1 ==> AttemptError(opts.dryRun, ytdlp(o, j)).Some?)
      && (r.last.outcome.Ok? <==> AttemptError(opts.dryRun, ytdlp(o, r.attempts - 1)).None?)
      && (r.last.outcome.Err? ==> r.attempts == Retries(opts))
  {
    var start := Step(t, files, Ok([]));
    var valid := (s: Step) => ValidTable(s.table);
    var raised := (j: nat) => AttemptError(opts.dryRun, ytdlp(o, j)).Some?;
    forall s: Step, j: nat | valid(s)
      ensures valid(attempt(s, j)) && Unsuccessful(attempt(s, j)) == raised(j)
    {
      AttempterStep(opts, o, ytdlp, fails, attempt, s, j);
    }
    Retry.RunEnds<Step>(start, attempt, Unsuccessful, raised, Retries(opts), FirstDelay(opts), 0, valid);
    var r := Run(t, files, opts, attempt);
    forall j | 0 <= j < r.attempts - 1
      ensures AttemptError(opts.dryRun, ytdlp(o, j)).Some?
    {
      assert raised(j);
    }
  }

  /** A download that fails re-raises the exception of its last attempt. */
  lemma DownloadRaisesLast(t: Table, files: seq<string>, opts: DownloadOptions, o: YdlOpts,
                           ytdlp: (YdlOpts, nat) -> Attempt, fails: DownloadEvent -> bool, attempt: (Step, nat) -> Step)
    requires ValidTable(t) && IsAttempter(attempt, opts, o, ytdlp, fails)
    ensures var r := Run(t, files, opts, attempt);
      r.last.outcome.Err? ==> AttemptError(opts.dryRun, ytdlp(o, r.attempts - 1)) == Some(r.last.outcome.error)
  {
    var start := Step(t, files, Ok([]));
    var valid := (s: Step) => ValidTable(s.table);
    var reraises := (j: nat, s: Step) => s.outcome.Err? ==> AttemptError(opts.dryRun, ytdlp(o, j)) == Some(s.outcome.error);
    forall s: Step, j: nat | valid(s)
      ensures valid(attempt(s, j)) && reraises(j, attempt(s, j))
    {
      AttempterStep(opts, o, ytdlp, fails, attempt, s, j);
    }
    Retry.RunKeeps<Step>(start, attempt, Unsuccessful, Retries(opts), FirstDelay(opts), 0, valid, reraises);
  }

  /** What a download leaves in the history: its last attempt's outcome, a
      `failed` record with the re-raised message or a `success` record with
      the returned files, as `RecordsOutcome` says. */
  lemma DownloadRecordsOutcome(t: Table, files: seq<string>, opts: DownloadOptions, o: YdlOpts,
                               ytdlp: (YdlOpts, nat) -> Attempt, fails: DownloadEvent -> bool, attempt: (Step, nat) -> Step)
    requires ValidTable(t) && IsAttempter(attempt, opts, o, ytdlp, fails)
    ensures var r := Run(t, files, opts, attempt);
      RecordsOutcome(opts, ytdlp(o, r.attempts - 1), fails, r.last)
  {
    var prev := DownloadLast(t, files, opts, o, ytdlp, fails, attempt);
    var r := Run(t, files, opts, attempt);
    AttempterRecords(opts, o, ytdlp, fails, attempt, prev, r.attempts - 1);
  }

  /** The state a download ends in is what its last attempt made of a
      well-formed history. */
  lemma DownloadLast(t: Table, files: seq<string>, opts: DownloadOptions, o: YdlOpts,
                     ytdlp: (YdlOpts, nat) -> Attempt, fails: DownloadEvent -> bool, attempt: (Step, nat) -> Step)
      returns (prev: Step)
    requires ValidTable(t) && IsAttempter(attempt, opts, o, ytdlp, fails)
    ensures var r := Run(t, files, opts, attempt);
      ValidTable(prev.table) && r.last == attempt(prev, r.attempts - 1)
  {
    var start := Step(t, files, Ok([]));
    var valid := (s: Step) => ValidTable(s.table);
    forall s: Step, j: nat | valid(s)
      ensures valid(attempt(s, j))
    {
      AttempterRecords(opts, o, ytdlp, fails, attempt, s, j);
    }
    prev := Retry.RunLast<Step>(start, attempt, Unsuccessful, Retries(opts), FirstDelay(opts), 0, valid);
  }

  /** Attempt `k` from a well-formed history records its outcome. */
  lemma AttempterRecords(opts: DownloadOptions, o: YdlOpts, ytdlp: (YdlOpts, nat) -> Attempt,
                         fails: DownloadEvent -> bool, attempt: (Step, nat) -> Step, s: Step, k: nat)
    requires IsAttempter(attempt, opts, o, ytdlp, fails) && ValidTable(s.table)
    ensures ValidTable(attempt(s, k).table) && RecordsOutcome(opts, ytdlp(o, k), fails, attempt(s, k))
  {
    var next := AttemptStep(s.table, s.files, opts, ytdlp(o, k), fails);
    assert attempt(s, k) == next;
    AttemptRecordsOutcome(s.table, s.files, opts, ytdlp(o, k), fails);
  }

  /** The pauses of a download: one after every failed attempt but the last,
      the first delay times `2^i` for the `i`-th, or none at all when the
      delay is 0. */
  lemma DownloadWaits(t: Table, files: seq<string>, opts: DownloadOptions, attempt: (Step, nat) -> Step)
    ensures var r := Run(t, files, opts, attempt);
      (FirstDelay(opts) > 0.0 ==>
         |r.waits| == r.attempts - 1
         && forall i :: 0 <= i < |r.waits| ==> r.waits[i] == FirstDelay(opts) * Retry.Pow2(i))
      && (FirstDelay(opts) == 0.0 ==> r.waits == [])
  {
    Retry.WaitsDouble<Step>(Step(t, files, Ok([])), attempt, Unsuccessful,
                            Retries(opts), FirstDelay(opts));
  }

  /** In dry-run a download leaves the history untouched and returns no
      files; otherwise a download that succeeds returns its finished files.
      Either way it keeps the files it started with and only adds rows. */
  lemma DownloadKeeps(t: Table, files: seq<string>, opts: DownloadOptions, o: YdlOpts,
                      ytdlp: (YdlOpts, nat) -> Attempt, fails: DownloadEvent -> bool, attempt: (Step, nat) -> Step)
    requires ValidTable(t) && IsAttempter(attempt, opts, o, ytdlp, fails)
    ensures var r := Run(t, files, opts, attempt);
      files <= r.last.files && t.rows.Keys <= r.last.table.rows.Keys
      && (opts.dryRun ==> r.last.table == t && (r.last.outcome.Ok? ==> r.last.outcome.value == []))
      && (!opts.dryRun && r.last.outcome.Ok? ==> r.last.outcome.value == r.last.files)
  {
    var start := Step(t, files, Ok([]));
    var keeps := (s: Step) =>
      ValidTable(s.table) && files <= s.files && t.rows.Keys <= s.table.rows.Keys && (opts.dryRun ==> s.table == t);
    var promised := (j: nat, s: Step) => Promised(opts, o, ytdlp, j, s);
    forall s: Step, j: nat | keeps(s)
      ensures keeps(attempt(s, j)) && promised(j, attempt(s, j))
    {
      AttempterStep(opts, o, ytdlp, fails, attempt, s, j);
    }
    Retry.RunKeeps<Step>(start, attempt, Unsuccessful, Retries(opts), FirstDelay(opts), 0, keeps, promised);
  }

  class Downloader {
    const verbose: bool
    var finishedFiles: seq<string>

    constructor(verbose: bool)
      ensures this.verbose == verbose && finishedFiles == []
    {
      this.verbose := verbose;
      finishedFiles := [];
    }

    /** `_progress_hook(d)`: a `finished` call with a file name records the
        file; the other statuses only log. */
    method ProgressHook(p: Progress)
      modifies this
      ensures finishedFiles == old(finishedFiles) + HookFile(p)
    {
      if Reports(p) {
        finishedFiles := finishedFiles + [Normalize(p.filename.value)];
      }
    }

    /** The progress hook calls of one real `extract_info`. */
    method RunHooks(ps: seq<Progress>)
      modifies this
      ensures finishedFiles == old(finishedFiles) + HookFiles(ps)
    {
      var j := 0;
      while j < |ps|
        invariant 0 <= j <= |ps|
        invariant finishedFiles == old(finishedFiles) + HookFiles(ps[..j])
      {
        HookFilesNext(ps, j);
        ProgressHook(ps[j]);
        j := j + 1;
      }
      assert ps[..j] == ps;
    }

    /** One attempt of `download`: the `try` block and its `except` handler
        up to the decision to retry. An exception of the preview ends the
        `try` block at once with a `failed` record. */
    method TryOnce(db: HistoryDb, opts: DownloadOptions, a: Attempt, fails: DownloadEvent -> bool)
      returns (outcome: Result<seq<string>, string>)
      requires db.Valid()
      modifies this, db
      ensures db.Valid()
      ensures Step(db.State(), finishedFiles, outcome) == AttemptStep(old(db.State()), old(finishedFiles), opts, a, fails)
    {
      if !opts.dryRun && a.preview.Raised? {
        RecordHistory(db, opts.dryRun, VNone, Failed(opts.url, a, a.preview.message), fails);
        return Err(a.preview.message);
      }
      var historyInfo := PreviewInfo(opts.dryRun, a);
      RecordHistory(db, opts.dryRun, historyInfo, InProgress(opts.url, a), fails);
      RunHooks(a.progress);
      outcome := FinishAttempt(db, opts, a, fails);
    }

    /** The `try` block after the preview, and the `except` handler of an
        exception from the real `extract_info`. */
    method FinishAttempt(db: HistoryDb, opts: DownloadOptions, a: Attempt, fails: DownloadEvent -> bool)
      returns (outcome: Result<seq<string>, string>)
      requires db.Valid()
      modifies this, db
      ensures db.Valid()
      ensures Step(db.State(), finishedFiles, outcome) == Finish(old(db.State()), old(finishedFiles), opts, a, fails)
    {
      var historyInfo := PreviewInfo(opts.dryRun, a);
      match a.result {
        case Raised(m) =>
          RecordHistory(db, opts.dryRun, historyInfo, Failed(opts.url, a, m), fails);
          return Err(m);
        case Returned(info) =>
          if opts.dryRun {
            return Ok([]);
          }
          if info.VDict? {
            historyInfo := info;
          }
          ghost var files2 := if old(finishedFiles) == [] && Truthy(info) && Given(a.prepared) then [Normalize(a.prepared.value)] else old(finishedFiles);
          if finishedFiles == [] && Truthy(info) && Given(a.prepared) {
            finishedFiles := finishedFiles + [Normalize(a.prepared.value)];
          }
          assert finishedFiles == files2;
          assert historyInfo == if info.VDict? then info else PreviewInfo(opts.dryRun, a);
          ghost var t1 := db.State();
          RecordHistory(db, opts.dryRun, historyInfo, Succeeded(opts.url, a, finishedFiles), fails);
          assert db.State() == Recorded(t1, false, historyInfo, Succeeded(opts.url, a, files2), fails);
          assert Finish(t1, old(finishedFiles), opts, a, fails) == Step(db.State(), files2, Ok(files2));
          return Ok(finishedFiles);
      }
    }

    /** `download(opts)`: up to `max(1, retry)` attempts, the pause doubling
        after each failure; the last failure is re-raised. */
    method Download(db: HistoryDb, opts: DownloadOptions, ffmpegDir: Option<string>,
                    ytdlp: (YdlOpts, nat) -> Attempt, fails: DownloadEvent -> bool)
      returns (r: Result<seq<string>, string>, attempts: nat, waits: seq<real>)
      requires db.Valid()
      modifies this, db
      ensures db.Valid()
      ensures var run := Run(old(db.State()), [], opts, Attempter(opts, YdlOptsFor(opts, verbose, ffmpegDir), ytdlp, fails));
        db.State() == run.last.table && finishedFiles == run.last.files && r == run.last.outcome
        && attempts == run.attempts && waits == run.waits
    {
      var o := BuildYdlOpts(opts, verbose, ffmpegDir);
      finishedFiles := [];
      AttempterIs(opts, o, ytdlp, fails);
      r, attempts, waits := Attempts(db, opts, o, ytdlp, fails, Attempter(opts, o, ytdlp, fails));
    }

    /** Attempt `k` of the retry loop of `download`, from state `cur`. */
    method AttemptOnce(db: HistoryDb, opts: DownloadOptions, o: YdlOpts, ytdlp: (YdlOpts, nat) -> Attempt,
                       fails: DownloadEvent -> bool, k: nat, ghost attempt: (Step, nat) -> Step, ghost cur: Step)
      returns (r: Result<seq<string>, string>)
      requires db.Valid() && IsAttempter(attempt, opts, o, ytdlp, fails)
      requires cur.table == db.State() && cur.files == finishedFiles
      modifies this, db
      ensures db.Valid()
      ensures db.State() == attempt(cur, k).table && finishedFiles == attempt(cur, k).files
        && r == attempt(cur, k).outcome
    {
      r := TryOnce(db, opts, ytdlp(o, k), fails);
    }

    /** The retry loop of `download`, from the first attempt on. */
    method Attempts(db: HistoryDb, opts: DownloadOptions, o: YdlOpts,
                    ytdlp: (YdlOpts, nat) -> Attempt, fails: DownloadEvent -> bool,
                    ghost attempt: (Step, nat) -> Step)
      returns (r: Result<seq<string>, string>, attempts: nat, waits: seq<real>)
      requires db.Valid() && IsAttempter(attempt, opts, o, ytdlp, fails)
      modifies this, db
      ensures db.Valid()
      ensures var run := Retry.Run<Step>(Step(old(db.State()), old(finishedFiles), Ok([])), attempt, Unsuccessful,
                                         Retries(opts), FirstDelay(opts), 0);
        db.State() == run.last.table && finishedFiles == run.last.files && r == run.last.outcome
        && attempts == run.attempts && waits == run.waits
    {
      attempts := 0;
      var delay := FirstDelay(opts);
      waits := [];
      ghost var n, first := Retries(opts), FirstDelay(opts);
      ghost var cur := Step(db.State(), finishedFiles, Ok([]));
      ghost var whole := Retry.Run<Step>(cur, attempt, Unsuccessful, n, first, 0);
      Retry.RemainingAtStart<Step>(cur, attempt, Unsuccessful, n, first);
      while attempts < Retries(opts)
        invariant db.Valid() && attempts < n && delay == Retry.Pause(first, attempts)
        invariant cur.table == db.State() && cur.files == finishedFiles
        invariant Retry.Remaining<Step>(cur, attempt, Unsuccessful, n, first, attempts, waits, whole)
        decreases n - attempts
      {
        ghost var k := attempts;
        r := AttemptOnce(db, opts, o, ytdlp, fails, attempts, attempt, cur);
        attempts := attempts + 1;
        if r.Ok? || attempts >= Retries(opts) {
          Retry.RemainingAtEnd<Step>(cur, attempt, Unsuccessful, n, first, k, waits, whole);
          return;
        }
        ghost var st, slept, pause := cur, waits, delay;
        waits := waits + Retry.Slept(delay);
        delay := delay * 2.0;
        cur := attempt(cur, k);
        Retry.RemainingNext<Step>(st, attempt, Unsuccessful, n, first, k, slept, whole, pause, cur, attempts, waits, delay);
      }
      assert false;
    }
  }
}
