# ytd: download history, decisions and option building

This project models the core of `ytd`, a command-line front end to yt-dlp. It
proves properties of the model. The core covered is:

- **The download-history store** (`ytd/history/storage.py`). This is the SQLite
  table `downloads`, keyed by `video_id`.
  - `Storage.HistoryDb` is a class whose state is a `Storage.Table` value. The
    value holds whether the table exists, its columns, its rows as a map from
    `video_id` to `History.Row`, and the insertion order.
  - Every method ties the new state to a function of the old one:
    `ensure_schema`, `record_event`, `fetch_download`, `update_download`,
    `list_downloads` and `import_from_jsonl`.
  - Lemmas about those functions state what the SQL promises: field-level
    COALESCE on upsert, OR-matched lookups and updates, ordering by
    `finished_at` descending with NULLs last, filters combined with AND, and the
    one-time import with `ON CONFLICT(video_id) DO NOTHING`.
- **The field derivation of the import** (`HistoryImport`). This covers
  `_as_str` and `_to_path`, and the eight-digit `upload_date` branch of
  `_extract_timestamp`. It also covers the priority of keys for every column,
  and the way reading stops at the first exception.
- **The history decision of the CLI** (`Cli`):
  - the if/elif ladder of `prompt_history_decision` and its write-back through
    `update_download`;
  - `_extract_video_id`, `_collect_history_filters`, `_truncate_text`,
    `_history_value` and `_sanitize_console_text`;
  - the lookup fallback of `history show`.
- **The downloader** (`Downloads`):
  - `_iter_entries`, `_build_events` and `_record_history`;
  - the name template and format choice of `build_ydl_opts`, and the whole
    option dict;
  - the progress hook, which appends to the `_finished_files` field of the
    class `Downloads.Downloader`;
  - the attempt loop of `download`. It is built on the generic retry loop in
    `Retry`, with yt-dlp as an oracle that gives the outcome of each attempt.
- **The interactive helpers** (`Interactive`):
  - the playlist selection-mask parser;
  - the height collection and the quality menu;
  - the resume choice and the manual selection prompt;
  - the existing/missing partition of a playlist;
  - `get_entry_url`.
- **The utilities** (`Utils`): the Windows-safe file name sanitiser, the
  econom/rich height matching, the quality-suffix extractor and the JSON
  cleaner.
- **The configuration layering** (`Config`). The defaults, the YAML file, the
  environment and the command line are given as explicit maps.
- **The record types** (`Types`), with their defaults.

Python's values and built-ins are modelled in the supporting modules:

- `Values`: dynamic values, `dict.get`, truthiness and `or`.
- `PyText`: `strip`, `split`, `replace`, `int()`, `str()` and string order.
- `Paths`: `str(Path(s))`, `.name`, `.suffix` and `.stem` on POSIX paths, and `str(Path(dir) / rel)`, which keeps the root of `dir` (one slash, or exactly two) and joins the parts of both, an absolute `rel` replacing `dir`.
- `Wrappers`: `Option` and `Result`.

Some things are parameters of the model rather than part of it:

- the user's typed answers, as strings;
- the environment and the loaded YAML file, as maps;
- yt-dlp, epoch and ISO timestamp conversion, `float()`, and the lookup of
  files already on disk, as functions.

A Python exception is an `Err` of a `Result`, carrying the exception class.

## Model

| member | source | states |
|---|---|---|
| Storage.SchemaEnsured | ytd/history/storage.py:48-90 | Returns true exactly when the table did not exist. The migration only adds columns: the missing `retry_count`/`last_action`, or every column for a new table. Rows, keys and order are untouched except for the two new columns. A complete table is left as it is. |
| Storage.SchemaIdempotent | ytd/history/storage.py:48-90 | A second `ensure_schema` changes nothing and reports that the table already existed. |
| Storage.Payload | ytd/history/storage.py:110-121 | The row bound from an event has the event's fields, `retry_count` 0 and no `last_action`. |
| Storage.Upsert | ytd/history/storage.py:124-145 | Upsert on `video_id`: the key set grows by that id only, every other row is unchanged, and a new id is appended to the insertion order. |
| Storage.RecordUpsertsRow | ytd/history/storage.py:100-142 | For a new id the row is the payload, with the file path normalised. For a known id, `url` and `status` are overwritten. The seven nullable columns, including the normalised file path, are overwritten only by a non-NULL value. `retry_count` and `last_action` are kept. |
| Storage.RecordLeavesOthers | ytd/history/storage.py:124-145 | `record_event` changes no row under another key, apart from migrating it. |
| Storage.RecordThenFetch | ytd/history/storage.py:107-146 | After recording an event, fetching by its id finds a row with that id, keeps the row's url and status, and never returns NULL. |
| Storage.FetchStoredRow | ytd/history/storage.py:329-355 | Fetching by the key of a stored row returns a row that matches that key. |
| Storage.Apply | ytd/history/storage.py:376-385 | An update sets only the given `status` and `last_action`, and adds 1 to `COALESCE(retry_count, 0)` when asked. Every other column is kept. |
| Storage.UpdateRows | ytd/history/storage.py:390-400 | Every row matched by `video_id` OR `url` gets the update, every other row stays the same, and the key set is unchanged. |
| Storage.AfterUpdate | ytd/history/storage.py:358-401 | With no key the table is unchanged. With a key but nothing to set, only the schema is ensured (`ensure_schema` runs before the `if not updates` return). In every case the keys and the row order are kept. |
| Storage.UpdateEffect | ytd/history/storage.py:368-401 | A matched row carries exactly the requested status, action and retry count. An unmatched row is equal to its old self. |
| Storage.UpdatedRowsCarryStatus | ytd/history/storage.py:376-400 | Every matched row has the new status after an update that sets one. |
| Storage.UpdateThenFetch | ytd/history/storage.py:358-401 | After an update that sets a status, the row `fetch_download` returns for the same keys carries that status. |
| Storage.UpdateKeepsFound | ytd/history/storage.py:390-400 | An update never makes a fetch that found a row come back empty. |
| Storage.FetchFindsMatch | ytd/history/storage.py:337-350 | A fetch finds a row whenever some row matches the keys. |
| Storage.InsertAll | ytd/history/storage.py:303-316 | `ON CONFLICT(video_id) DO NOTHING` over a batch keeps every old row as it was, and its keys are the old keys plus the ids of the batch. |
| Storage.InsertAllFirstWins | ytd/history/storage.py:303-316 | For a new id, the stored row is the first row of the batch with that id. |
| Storage.AfterImport | ytd/history/storage.py:203-320 | A missing file or a table that already has rows gives `(table, 0)`. A missing table raises an `OperationalError`. Otherwise the count is the growth of the insertion order. |
| Storage.AfterReading | ytd/history/storage.py:219-320 | An exception while reading propagates and leaves the table unchanged. `OSError` on opening ends the import with 0. No derived rows give 0. |
| Storage.ImportInserts | ytd/history/storage.py:300-320 | A successful import into an empty table has exactly the ids of the derived rows as keys. |
| Storage.ImportCountsDistinctIds | ytd/history/storage.py:303-318 | The count returned is the number of distinct ids among the derived rows: conflicting ids are not counted. |
| Storage.ImportTwice | ytd/history/storage.py:214-217 | A second import of the same file returns 0 and changes nothing. |
| Storage.HistoryDb.EnsureSchema | ytd/history/storage.py:48-90 | The state becomes `SchemaEnsured` of the old state, and the result tells whether the table was created. |
| Storage.HistoryDb.RecordEvent | ytd/history/storage.py:107-146 | The state becomes the upsert of the event's payload into the migrated old state. |
| Storage.HistoryDb.UpsertRow | ytd/history/storage.py:123-146 | One `INSERT ... ON CONFLICT DO UPDATE`: the state becomes `Upsert` of the old state. |
| Storage.HistoryDb.FetchDownload | ytd/history/storage.py:329-355 | Returns `History.Fetch` of the rows after the migration. |
| Storage.HistoryDb.UpdateDownload | ytd/history/storage.py:358-401 | The state becomes `AfterUpdate` of the old state. |
| Storage.HistoryDb.UpdateMatching | ytd/history/storage.py:398-401 | One `UPDATE … WHERE video_id = ? OR url = ?`: the rows become `UpdateRows` of the old rows, and the rest of the state is kept. |
| Storage.HistoryDb.ListDownloads | ytd/history/storage.py:404-447 | Returns `History.List` of the rows after the migration. |
| Storage.HistoryDb.ImportFromJsonl | ytd/history/storage.py:203-320 | The state and the count are `AfterImport` of the old state and the file. |
| Storage.HistoryDb.InsertRows | ytd/history/storage.py:303-317 | The `executemany` loop leaves `InsertAll` of the old state. |
| Storage.HistoryDb.InsertIgnoringConflict | ytd/history/storage.py:304-316 | One insert that ignores a conflict: a known id changes nothing, and a new id adds the row at the end of the order. |
| History.Coalesce | ytd/history/storage.py:135-141 | `COALESCE(excluded.x, x)`: the new value when one is given, else the old one. |
| History.LaterTotal | ytd/history/storage.py:347 | `ORDER BY finished_at DESC NULLS LAST` orders any two rows whose keys differ. A NULL sorts after every value. |
| History.Latest | ytd/history/storage.py:337-350 | With no key the result is NULL. Otherwise the result is a matching member of the rows and no matching row is strictly later. NULL means that no row matches. |
| History.Fetch | ytd/history/storage.py:329-355 | `fetch_download`: empty or missing keys give None. A result matches the id or the url, and no matching row has a later `finished_at`. |
| History.NonEmpty | ytd/history/storage.py:415 | The status filter keeps exactly the non-empty strings, in order. |
| History.Where | ytd/history/storage.py:418-437 | The `WHERE` clause keeps, in order, exactly the rows that pass every given filter. This is a sub-multiset of the rows. |
| History.SortByKeyDesc | ytd/history/storage.py:439 | `ORDER BY COALESCE(finished_at, started_at) DESC`: sorted descending with NULLs last, and a permutation of its input. |
| History.SortedPrefix | ytd/history/storage.py:441-443 | A `LIMIT` prefix of a sorted list is sorted. |
| History.List | ytd/history/storage.py:404-447 | The rows returned are drawn from the filtered rows, sorted latest first. Without a limit they are a permutation of the filtered rows. With a positive limit there are `min(limit, count)` of them, and no filtered row left out is later than a row returned, so these are the latest rows. |
| HistoryImport.AsStr | ytd/history/storage.py:24-27 | `None` and `""` give None, a list or dict raises `TypeError`, a string is itself, and any other scalar gives `Some` of its `str()`. |
| HistoryImport.AsStrText | ytd/history/storage.py:24-27 | For a scalar, `_as_str` is falsy exactly when the value has no text, and is its `str()` otherwise. |
| HistoryImport.ToPath | ytd/history/storage.py:16-21 | A string with a non-blank character gives its stripped text, a blank string gives None, and a value that is neither a string nor a path gives None. |
| HistoryImport.MidnightIso | ytd/history/storage.py:177-184 | An eight-digit date `YYYYMMDD` becomes `YYYY-MM-DDT00:00:00`. |
| HistoryImport.ExtractTimestamp | ytd/history/storage.py:156-200 | `None` and `""` give None, and a list or dict raises `TypeError`. An eight-digit string that is a calendar date becomes midnight of that day. Every other value goes to the conversion oracle. |
| HistoryImport.UploadDateIsMidnight | ytd/history/storage.py:177-184 | `upload_date` `20240511` becomes `2024-05-11T00:00:00`, whatever the other conversions do. |
| HistoryImport.FirstTimestamp | ytd/history/storage.py:278-282 | A found `finished_at` is the conversion of one of the keys tried, and no keys leave the starting value. |
| HistoryImport.FirstTimestampStops | ytd/history/storage.py:278-282 | The first key whose conversion raises or finds a time decides the result: that conversion is what the loop gives. |
| HistoryImport.FirstTimestampNone | ytd/history/storage.py:278-282 | When no key raises or finds a time, `finished_at` is the conversion of the last key, `upload_date`. |
| HistoryImport.ScanRequested | ytd/history/storage.py:262-274 | A truthy result is the file field of some dict item, and some dict item with a truthy file field makes the result truthy. No items leave the starting value. |
| HistoryImport.ScanRequestedFirst | ytd/history/storage.py:262-274 | The first dict item of `requested_downloads` with a truthy file field gives that field. |
| HistoryImport.FilePathOf | ytd/history/storage.py:276 | The file path of a row is `_to_path` of the raw path found. |
| HistoryImport.FindRawPath | ytd/history/storage.py:257-274 | This loop is the search `RawPath` defines: `filepath`, then `filename`, then `_filename`, then the first requested download that has a path. |
| HistoryImport.RowFrom | ytd/history/storage.py:234-295 | A derived row has a non-empty id, url and status, and no start time and no error. Its `retry_count` is 0, it has no action, and its file path comes from the raw path. |
| HistoryImport.RowWithId | ytd/history/storage.py:243-295 | With an id given, a row carries that id, a non-empty url and status, the null columns, and the file path of the raw path. |
| HistoryImport.RowFromFields | ytd/history/storage.py:234-295 | When no key read holds a list or dict: no id text gives no row, and a raising timestamp conversion raises. Otherwise the id is the first truthy of `id`, `video_id`, `display_id`, `url`. The url is the first truthy of `webpage_url`, `original_url`, `url`, else the id. The status is `status`, else `finished`. The title and both playlist columns are `_as_str` of their key, with `playlist` as the fall-back. `finished_at` is the timestamp loop's result. |
| HistoryImport.RowWithIdFields | ytd/history/storage.py:243-295 | The same derivation for the columns after the id. |
| HistoryImport.DeriveAll | ytd/history/storage.py:221-296 | Reading yields at most one row per line, each with `retry_count` 0, no action and no start time. |
| HistoryImport.DeriveAllStep | ytd/history/storage.py:222-295 | One more line appends exactly the row it derives, or nothing. |
| HistoryImport.DeriveLineSkips | ytd/history/storage.py:223-241 | Blank, undecodable and non-object lines give no row. Bytes that are not UTF-8 raise `ValueError`. An object with no text under any of the id keys gives no row. |
| HistoryImport.DeriveErrorSticks | ytd/history/storage.py:221-298 | Once a line has raised, no later line changes the outcome. |
| HistoryImport.DeriveRows | ytd/history/storage.py:219-298 | The reading loop computes `DeriveAll` of the file's lines. |
| HistoryImport.ReadLine | ytd/history/storage.py:223-296 | One step of the loop appends exactly the row the line derives. |
| Cli.Dashes | ytd/cli.py:55 | Each box-drawing double or heavy line becomes `-`, and every other character is kept in place. |
| Cli.SanitizeConsoleText | ytd/cli.py:51-57 | The loop of replacements computes the table order in which it is written. |
| Cli.SanitizeRemovesSymbols | ytd/cli.py:33-57 | Whatever the order of the table, no symbol of the table is left in the result. |
| Cli.WarnEmojiKeepsSelector | ytd/cli.py:33-57 | As written, `⚠️` becomes `[WARN]` followed by a stray U+FE0F, because the bare `⚠` entry comes first. |
| Cli.WarnEmojiReplacedWhole | ytd/cli.py:33-57 | With the longer entry first, `⚠️` becomes `[WARN]`. |
| Cli.DecisionConsistent | ytd/cli.py:548-629 | Every decision has an action. It stops exactly on a skip. Overwrite and retry both imply proceeding, and a new output directory comes exactly with a download elsewhere. The retry counter grows exactly when a three-way menu proceeds. |
| Cli.DecideByAction | ytd/cli.py:568-629 | The decision ladder is the menu chosen by the lower-cased status, followed by the table of the trimmed choice and then the table of the action. |
| Cli.ActionNamesDistinct | ytd/cli.py:568-629 | The action names stored in `last_action` tell the actions apart. |
| Cli.WriteBack | ytd/cli.py:631-639 | The write-back sets `last_action` to the action and `retry_increment` to the decision's flag. Its status is `in_progress` only when the decision proceeds. |
| Cli.WriteBackMarksProgress | ytd/cli.py:631-639 | The status written back is `in_progress` exactly when the decision proceeds, and NULL otherwise. |
| Cli.AfterPrompt | ytd/cli.py:548-641 | If history is unavailable, the table is unchanged and the decision is to proceed. If the lookup raises, or no record is found, only the migration runs and the decision is to proceed, with no write-back. If the write-back raises, the decision on the found record stands and the table is left as the lookup left it. |
| Cli.PromptHistoryDecision | ytd/cli.py:548-641 | The store and the decision are `AfterPrompt` of the old store, the faults of the lookup and of the write-back, and the typed choice. |
| Cli.PromptThenFetch | ytd/cli.py:568-639 | After a decision that proceeds, the record found for the same keys is `in_progress` with the decision's action. |
| Cli.SkipKeepsStatus | ytd/cli.py:568-639 | A skip leaves the stored status of every row as it was. |
| Cli.FirstHit | ytd/cli.py:120-125 | None exactly when no pattern matches. Otherwise the token captured by the first pattern that matches. |
| Cli.ExtractVideoId | ytd/cli.py:120-125 | The loop over the patterns computes `VideoIdOf`: patterns are tried in order and the first match wins. |
| Cli.VideoIdIsToken | ytd/cli.py:113-125 | An extracted id is an 11-character `[A-Za-z0-9_-]` token that occurs in the input. |
| Cli.ShortLinkId | ytd/cli.py:113-125 | `https://youtu.be/` followed by a token gives that token. |
| Cli.WatchLinkId | ytd/cli.py:113-125 | `https://www.youtube.com/watch?v=` followed by a token gives that token. |
| Cli.MatchAtMeaning | ytd/cli.py:113-118 | A pattern matches at a position exactly when one of its lead-ins occurs there followed by a token, and it captures that token. |
| Cli.SearchFromMeaning | ytd/cli.py:113-118 | `re.search` finds nothing exactly when no position matches, and otherwise the match at the leftmost position that matches. |
| Cli.Filters | ytd/cli.py:164-187 | The statuses key is kept exactly when a non-empty status remains, and then holds those statuses. The limit is kept exactly when it is positive. The playlist is kept, trimmed, exactly when it is not blank. `since` is kept exactly when it parses to a non-empty value, and then holds that value. An unparsable `since` raises `typer.BadParameter`, which nothing in the history callback catches. |
| Cli.CollectHistoryFilters | ytd/cli.py:164-187 | The dict filled step by step is `Filters` of the options. |
| Cli.FiltersListSame | ytd/cli.py:164-187 | Listing with the collected filters selects the same rows as listing with the raw options. |
| Cli.TruncateText | ytd/cli.py:199-204 | For a limit of at least 0, the result is never longer than the limit, and a text that fits is returned unchanged. Past a limit above 1, the result is the prefix of `limit - 1` characters plus `…`. |
| Cli.TruncateIdempotent | ytd/cli.py:199-204 | Truncating twice is truncating once. |
| Cli.HistoryValue | ytd/cli.py:207-216 | A column shows its text, or an em dash for NULL and `""`. The finish time shows the start time when it is NULL or empty, and an em dash when both are. The playlist shows its title, else its id, else an em dash. The text is never empty. |
| Cli.ShownDateIsSortKey | ytd/cli.py:207-216 | For a row whose `finished_at` is not the empty string, the date shown is the key the list is ordered by. |
| Cli.ShowCandidate | ytd/cli.py:320 | The lookup key is the extracted id, or the raw argument when no id is extracted. |
| Cli.ShowLookup | ytd/cli.py:320-327 | A result is a stored row that has the candidate id, or the argument as url when the candidate differs from the argument. None means there is no such row. |
| Cli.HistoryShow | ytd/cli.py:310-331 | The store is migrated unless the key is empty, and the entry is `ShowLookup` of its rows. |
| Config.EnvName | ytd/config.py:14-29 | Every field of `AppConfig` except `history_db` has an environment variable. |
| Config.EnvNamesDistinct | ytd/config.py:14-29 | No two fields share a variable. |
| Config.ParseBool | ytd/config.py:32-33 | True exactly when the stripped, lower-cased value is one of `1`, `true`, `yes`, `y`, `on`. |
| Config.ParseBoolAccepts | ytd/config.py:32-33 | Each of `1`, `true`, `yes`, `y`, `on` reads as true. |
| Config.ParseBoolOfPlain | ytd/config.py:32-33 | A lower-case value without blanks reads as true exactly when it is one of the five words. |
| Config.ParseBoolIgnoresPadding | ytd/config.py:32-33 | Surrounding whitespace does not change the answer. |
| Config.ParseBoolIgnoresCase | ytd/config.py:32-33 | Lower-casing the value first does not change the answer. |
| Config.NormalizeTypes | ytd/config.py:84-91 | Only string values of `output` and `save_metadata` become paths. Every other key is copied unchanged, and no key is added or dropped. |
| Config.NormalizeTypesIdempotent | ytd/config.py:84-91 | Normalising twice is normalising once. |
| Config.Replace | ytd/config.py:53 | `dataclasses.replace`: each field takes the update under its name, else its old value. |
| Config.ReplaceNothing | ytd/config.py:79-80 | Replacing nothing gives back the configuration. |
| Config.FileValue | ytd/config.py:49-52 | A file key counts exactly when it names a field and its value is not `None`. |
| Config.CollectUpdates | ytd/config.py:49-52 | The `updates` dict filled in the loop holds exactly the fields that have a value. |
| Config.ApplyFileOverrides | ytd/config.py:46-53 | An empty file gives back the base. Each field with a non-`None` file value takes it, normalised, and every other field keeps its base value. |
| Config.SubtitleList | ytd/config.py:64 | `YTD_SUBTITLES` gives parts that are non-empty and hold no comma. |
| Config.SubtitlesRoundTrip | ytd/config.py:64 | Reading back a comma-joined list of non-blank names gives the names. |
| Config.EnvOverride | ytd/config.py:56-78 | Only a set variable overrides, and it converts as that variable's field requires. |
| Config.ApplyEnvOverrides | ytd/config.py:56-81 | Each field whose variable is set and converts takes that value, normalised, and every other field keeps its base value. |
| Config.PauseAsWritten | ytd/config.py:78 | `YTD_PAUSE_BETWEEN_VIDEOS` is kept as raw text, so any non-empty value, `false` included, turns the pause on. |
| Config.PauseCorrected | ytd/config.py:75-76 | Read through `_parse_bool`, the pause is a boolean, and it is on exactly when the value is one of the five words. |
| Config.ConfigFile | ytd/config.py:118-123 | The file read is the path given, else the non-empty `YTD_CONFIG`, else `ytd.config.yaml`. |
| Config.LoadConfig | ytd/config.py:109-129 | Each field comes from the environment when its variable is set and converts, else from the file, else from the defaults. |
| Config.Given | ytd/config.py:139 | Exactly the command-line options that are not `None` are applied. |
| Config.MergeCliOverrides | ytd/config.py:132-142 | No overrides give back the config. A non-`None` option that names no field raises `TypeError`. Otherwise each given option replaces its field, normalised, and the other fields are kept. |
| Downloads.DictItems | ytd/downloader.py:33-36 | Keeps exactly the dict entries, in order. |
| Downloads.DictFields | ytd/downloader.py:33-38 | The loop over the entries computes `DictItems`. |
| Downloads.IterEntries | ytd/downloader.py:26-42 | `_iter_entries` computes `EntriesOf`. |
| Downloads.EntriesMeaning | ytd/downloader.py:26-42 | Every entry is a dict of the input, and a non-empty dict always gives some entry. |
| Downloads.BuildEvents | ytd/downloader.py:44-111 | The loop computes `EventsOf` of the info and the context. |
| Downloads.EventFields | ytd/downloader.py:69-96 | Event `video_id` comes from `id`, then `url`, then the options' url. Event `url` comes from `webpage_url`, then `original_url`, then `url`, then the options' url. The entry's playlist fields win over the container's. Event `i` gets file path `i` when there is one, and None otherwise. |
| Downloads.PlaceholderEvent | ytd/downloader.py:69-76 | Without entries, one event is built, with the options' url as its id and url and no playlist. |
| Downloads.PlaylistOnlyWithEntries | ytd/downloader.py:59-67 | The container's playlist values are defaults only when it has entries. |
| Downloads.EventsPerEntry | ytd/downloader.py:78-111 | One event per entry, each carrying the status, error, timestamps and file path of the call. |
| Downloads.EventsCarryContext | ytd/downloader.py:44-111 | Every event built carries the call's status, error and file path for its index. |
| Downloads.RecordsPrefix | ytd/downloader.py:126-144 | Recording stops at the first failing `record_event`: the store holds exactly the events before it. |
| Downloads.RecordsEveryId | ytd/downloader.py:126-144 | When nothing fails, every event's id is a key afterwards. |
| Downloads.RecordAllKeys | ytd/downloader.py:126-144 | Recording events adds exactly their ids to the keys. |
| Downloads.Recorded | ytd/downloader.py:113-144 | A dry run writes nothing. |
| Downloads.RecordedKeepsRows | ytd/downloader.py:113-144 | Recording never removes a row. |
| Downloads.RecordAllStamps | ytd/downloader.py:113-144 | Writing events that share a status, an error and a finish time leaves every id of theirs with a row that carries that status and finish time, and the error when there is one. |
| Downloads.RecordedStamps | ytd/downloader.py:113-144 | When none of its writes fails, `_record_history` for a non-empty URL writes at least one id, and gives every id it writes a row with the call's status, error and finish time. |
| Downloads.RecordHistory | ytd/downloader.py:113-144 | The store becomes `Recorded` of the old store, and no error escapes. |
| Downloads.RecordEach | ytd/downloader.py:139-144 | The loop over the events computes `RecordUntil`. |
| Downloads.SuffixBeforeExtension | ytd/downloader.py:217-235 | The template is the prefix followed by the template's stem, the quality suffix and `.%(ext)s`. |
| Downloads.SuffixAppended | ytd/downloader.py:217-235 | A template without `.%(ext)s` gets the suffix at its end. |
| Downloads.FormatPrecedence | ytd/downloader.py:285-319 | For any quality, audio container and video container name, listed or not: a custom format wins. Otherwise audio only, or a quality named `audio`, gives the whole string `bestaudio[ext=F]/bestaudio/best` with audio extraction to `F` at quality `0`. Otherwise the video selector is capped exactly when the quality is named `1080p` or `720p`. |
| Downloads.UnlistedQualityUncapped | ytd/downloader.py:300-318 | Quality `480p` in mp4 gives the uncapped selector `bestvideo[ext=mp4]+bestaudio[ext=m4a]/best[ext=mp4]/best`. |
| Downloads.UnlistedContainerVerbatim | ytd/downloader.py:300-318 | Video container `mkv` gives `bestvideo[ext=mkv]+bestaudio[ext=webm]/best[ext=mkv]/best`. |
| Downloads.UnlistedAudioVerbatim | ytd/downloader.py:288-298 | Audio container `flac` gives `bestaudio[ext=flac]/bestaudio/best` and conversion to `flac`. |
| Downloads.VideoFormatOf | ytd/downloader.py:300-319 | A video download's format is the selector for the container's name, its audio container and the quality's height cap. |
| Downloads.AudioMatchesContainer | ytd/downloader.py:306 | The audio part of a video format is `m4a` exactly when the container is `mp4`. |
| Downloads.CapFilters | ytd/downloader.py:302-304 | 720p caps at `[height<=720]`, 1080p at `[height<=1080]`, and `best` not at all. |
| Downloads.Mp4At720 | ytd/downloader.py:300-312 | 720p in mp4 asks for mp4 video up to 720 lines with m4a audio first. |
| Downloads.YdlOptsFor | ytd/downloader.py:209-326 | The option dict: the template under the output directory, the chosen format and postprocessors, subtitles exactly when some are asked for, the proxy and playlist items exactly when given, `overwrites` set to true exactly when overwriting is asked for, the ffmpeg location, and a skip/simulate flag exactly in a dry run. |
| Downloads.BuildYdlOpts | ytd/downloader.py:209-326 | The dict filled field by field equals `YdlOptsFor`. |
| Paths.JoinPath | ytd/downloader.py:235 | `str(Path(dir) / rel)` is never empty, and an absolute `rel` gives `str(Path(rel))` whatever `dir` is. |
| Paths.JoinUnderSlash | ytd/downloader.py:235 | A template joined under the directory `/` gets no doubled slash: `/` and `a` give `/a`. |
| Paths.JoinUnderDoubleSlash | ytd/downloader.py:235 | The two-slash root is kept: `//` and `a` give `//a`. |
| Paths.JoinUnderEmpty | ytd/downloader.py:235 | An empty directory is `.` and adds nothing (`a` stays `a`), and an empty name under `/` is `/`. |
| Paths.JoinUnderDirectory | ytd/downloader.py:235 | A plain directory and a name are separated by one slash, also when the directory ends in a slash: `dl` or `dl/` with `a` give `dl/a`. |
| Downloads.FinalTemplate | ytd/downloader.py:217-235 | The template built step by step is `NameTemplate`. |
| Downloads.Formats | ytd/downloader.py:285-319 | The format branch computes `FormatFor`. |
| Downloads.HookFilesAppend | ytd/downloader.py:194-207 | The files the hook collects from two runs of progress reports are those of the first followed by those of the second. |
| Downloads.Downloader.ProgressHook | ytd/downloader.py:194-207 | A `finished` report with a file name appends it to `_finished_files`, and anything else appends nothing. |
| Downloads.Downloader.RunHooks | ytd/downloader.py:194-207 | A run of reports appends `HookFiles` of them. |
| Downloads.AttemptStep | ytd/downloader.py:365-432 | An attempt fails exactly when yt-dlp raises, with that message. A dry run records nothing and returns no files. A success returns the finished files. |
| Downloads.AttemptRecordsOutcome | ytd/downloader.py:412-429 | Outside a dry run, for a non-empty URL and when none of the record's writes fails, one attempt records its outcome. After a raise, every id of the failed events has status `failed`, the message as error and the end time. After a success, every id of the success events has status `success` and the end time. |
| Downloads.Retries | ytd/downloader.py:364 | `max(1, int(retry))` attempts. |
| Downloads.FirstDelay | ytd/downloader.py:360 | `max(0.0, retry_delay)`. |
| Downloads.DownloadEnds | ytd/downloader.py:359-443 | Every attempt before the last raised. The last succeeds exactly when its yt-dlp call does not raise, and a failure comes after exactly `max(1, retry)` attempts. |
| Downloads.DownloadRaisesLast | ytd/downloader.py:421-432 | The error raised is that of the last attempt. |
| Downloads.DownloadRecordsOutcome | ytd/downloader.py:412-432 | A whole download leaves its last attempt's record in the history, as `AttemptRecordsOutcome` states: `failed` with the re-raised message, or `success`. |
| Downloads.DownloadWaits | ytd/downloader.py:434-443 | The pause after failure `i` is the first delay times `2^i`. There are no pauses when the delay is 0. |
| Downloads.DownloadKeeps | ytd/downloader.py:359-443 | No row is removed. A dry run leaves the store unchanged and returns no files. A success returns the finished files. |
| Downloads.Downloader.TryOnce | ytd/downloader.py:366-432 | One attempt leaves the store, the files and the outcome of `AttemptStep`. |
| Downloads.Downloader.Download | ytd/downloader.py:353-443 | The method's result, attempt count and pauses are those of the loop `Retry.Run` over `AttemptStep`. |
| Retry.Run | ytd/downloader.py:364-443 | At most `n` attempts, stopping at the first that does not fail. |
| Retry.RunEnds | ytd/downloader.py:364-443 | All attempts but the last failed. The last succeeded, or the attempts were used up. |
| Retry.WaitsDouble | ytd/downloader.py:441-443 | Pause `i` is the first delay times `2^i`, one after each attempt but the last, or none when the first delay is 0. |
| Retry.PauseIsExponential | ytd/downloader.py:443 | `delay *= 2.0` after each failure gives the first delay times `2^k`. |
| Retry.RunKeeps | ytd/downloader.py:364-443 | A property every attempt keeps holds of the state the loop ends in. |
| Retry.RunLast | ytd/downloader.py:364-443 | The state the loop ends in is what the last attempt (number `attempts - 1`) made of a state that every attempt keeps a given property in. |
| Interactive.Mask | ytd/interactive.py:334-380 | An accepted selection is strictly ascending within `[1, total]`, and not empty when `total > 0`. |
| Interactive.ParseSelectionMask | ytd/interactive.py:334-380 | The parsing loop computes `Mask`. |
| Interactive.Scan | ytd/interactive.py:348-378 | The indices selected lie within `[1, total]`, and some are selected when there is a token. |
| Interactive.ScanSticks | ytd/interactive.py:350-378 | `all` or an error ends the scan: later tokens change nothing. |
| Interactive.RangeMeaning | ytd/interactive.py:355-370 | A range that is accepted selects a non-empty set of indices within `[1, total]`. |
| Interactive.RangeToken | ytd/interactive.py:355-370 | For the forms `a-b`, `a-`, `-b` and `-`, an open start is 1 and an open end is the total. A bound outside `[1, total]` is a range error, a start after the end is a reversed range, and otherwise the span from start to end is selected. |
| Interactive.NumberMeaning | ytd/interactive.py:372-375 | A number out of `[1, total]` is an error. |
| Interactive.MaskBlankRejected | ytd/interactive.py:337-346 | A blank mask, or one made only of `,` and `;`, raises `ValueError`. |
| Interactive.MaskAll | ytd/interactive.py:350-353 | `all` selects `[1..total]`. |
| Interactive.DefaultMaskRoundTrip | ytd/interactive.py:383-403 | Parsing the default mask written from strictly ascending indices in range gives those indices back. |
| Interactive.ManualSelection | ytd/interactive.py:383-403 | A selection accepted at the manual prompt is non-empty and strictly ascending within `[1, total]`. |
| Interactive.PromptManualSelection | ytd/interactive.py:383-403 | The prompt loop computes `ManualSelection`. |
| Interactive.ManualDefault | ytd/interactive.py:383-403 | Pressing enter accepts the defaults, or the whole playlist when there are none. |
| Interactive.Resume | ytd/interactive.py:413-418 | Total 0 gives `([], False)`, and no files found gives `([1..total], False)`. |
| Interactive.PromptPlaylistResume | ytd/interactive.py:406-461 | The prompt computes `Resume`. |
| Interactive.ResumeContinues | ytd/interactive.py:451-454 | Choice 1 continues from the first missing index to the end, which covers every missing index. Nothing missing gives nothing to download. Nothing is deleted. |
| Interactive.ResumeRestarts | ytd/interactive.py:455-456 | Choice 2 deletes the files found and downloads `[1..total]`. |
| Interactive.ResumeManualDefault | ytd/interactive.py:457-459 | Choice 3 with the default answer downloads exactly the missing indices, or everything when none is missing. |
| Interactive.HeightTableKeys | ytd/interactive.py:21-40 | A height is collected exactly when some format has that int height and a truthy video codec other than `none`. |
| Interactive.HeightTableMp4 | ytd/interactive.py:33-36 | A height that has an `mp4` format maps to `mp4`. |
| Interactive.HeightTableFirst | ytd/interactive.py:33-36 | Otherwise a height maps to the extension of its first format, or `mp4` when that is falsy. |
| Interactive.CollectAvailableHeights | ytd/interactive.py:21-40 | The table is `HeightTable` of the formats, and the heights are its keys, strictly descending. |
| Interactive.NoteFormat | ytd/interactive.py:28-38 | One format updates the table as `Record` says, and keeps the order free of duplicates. |
| Interactive.SortDescending | ytd/interactive.py:39 | `sorted(..., reverse=True)` of distinct heights: strictly descending, with the same elements. |
| Interactive.AudioExt | ytd/interactive.py:61 | The audio part is `m4a` exactly when the container is `mp4`. |
| Interactive.HeightOffer | ytd/interactive.py:59-66 | A height missing from the table raises `KeyError`, and a non-string extension raises `AttributeError`. |
| Interactive.MenuCount | ytd/interactive.py:59-68 | At most `max_options - 1` heights are offered when `max_options >= 2`, and at least one when there is any. |
| Interactive.QualityMenu | ytd/interactive.py:43-73 | The menu is best-available first, then the first offers in input order, then audio-only. An error means one of the offered heights raised. |
| Interactive.BuildQualityOptions | ytd/interactive.py:43-73 | The loop with its early break renders `QualityMenu`: best-available with target None first, audio-only with target -1 last. |
| Interactive.Render | ytd/interactive.py:53-73 | Best-available has target None, a height has its height, and audio-only has -1. |
| Interactive.VideoEntrySuffix | ytd/interactive.py:62-66 | A height option's label, for a height of three or four digits, gives the suffix `_<h>p`. |
| Interactive.BestEntrySuffix | ytd/interactive.py:56 | The best-available option gives `_audio` as written, and `_best` with the corrected audio test. |
| Interactive.AudioEntrySuffix | ytd/interactive.py:71 | The audio-only option gives `_audio`. |
| Interactive.AnalyzePlaylistProgress | ytd/interactive.py:310-331 | Each index `1..len(entries)` is among the existing keys exactly when its entry has an id with files, and among the missing otherwise. The missing list ascends. A non-dict entry raises `AttributeError`. |
| Interactive.EntryUrl | ytd/interactive.py:464-468 | `webpage_url`, else `url`, else the watch url of `id`, else None. |
| Utils.ReplaceInvalid | ytd/utils.py:54-55 | Each of `<>:"/\|?*` becomes `_`, and every other character stays in place. |
| Utils.RemoveControl | ytd/utils.py:86 | The result holds exactly the non-control characters of `s`, and a text without control characters is returned unchanged. |
| Utils.CleanStem | ytd/utils.py:84-89 | The cleaned stem is not empty and holds no invalid or control character. It neither starts with whitespace nor ends with a dot or a space. |
| Utils.SafeStem | ytd/utils.py:91-93 | A stem that is reserved, in any case, gets `_`, and any other stem stays. |
| Utils.Limit | ytd/utils.py:102-109 | At most 255 characters, with names that fit unchanged. A cut name is 255 long and ends with a suffix shorter than 20 characters. |
| Utils.SanitizeFilename | ytd/utils.py:67-111 | The result is empty exactly for the empty name, and at most 255 characters long. A result shorter than the limit was not cut, so it neither starts with whitespace nor ends with a dot or a space. |
| Utils.SanitizeKeepsInvalidSuffix | ytd/utils.py:80-98 | `a.b:c` keeps its `:` because the suffix is never cleaned. |
| Utils.SanitizeFilenameIntended | ytd/utils.py:67-111 | With the suffix cleaned too, the result is empty exactly for the empty name, at most 255 characters long, and holds no invalid or control character. |
| Utils.SanitizeIntendedAgrees | ytd/utils.py:67-111 | Where the suffix holds nothing invalid, the corrected function and the written one agree. |
| Utils.ReservedNameGetsUnderscore | ytd/utils.py:57-93 | A reserved device name gets `_` before its suffix: `CON` becomes `CON_` and `con.txt` becomes `con_.txt`. |
| Utils.LongNameKeepsSuffix | ytd/utils.py:103-109 | A long plain name is cut to 255 characters and keeps its short suffix. |
| Utils.Max | ytd/utils.py:249 | `max` is a member at least every element. |
| Utils.Min | ytd/utils.py:274 | `min` is a member at most every element. |
| Utils.FindBestQualityMatch | ytd/utils.py:225-275 | No heights give None, and a result is always one of the heights. With no target the result is the largest. An available target is returned as-is. Otherwise rich takes the largest above the target, else the largest below it, and econom takes the largest below, else the smallest above. |
| Utils.Search | ytd/utils.py:208 | `re.search` finds the leftmost position that matches, or nothing when none does. |
| Utils.ExtractQualitySuffix | ytd/utils.py:197-222 | A height in the label wins. Then comes `_audio`, when the label mentions audio or the format `bestaudio`. Then comes a height in the format, as `_<h>p`. Otherwise the result is `_best`, and `_best` comes only then. |
| Utils.ExtractQualitySuffixIntended | ytd/utils.py:197-222 | The same four rules with the "audio only" test: a format counts as audio only when it asks for `bestaudio` and not for `bestvideo`. So a label height wins, then `_audio`, then a format height as `_<h>p`, and `_best` exactly when none applies. |
| Utils.LabelEndsWithHeight | ytd/utils.py:208-210 | A label ending in ` <3-4 digits>p` gives those digits. |
| Utils.AudioChoiceSuffix | ytd/utils.py:212-214 | A pure audio format gives `_audio` either way. |
| Utils.MixedChoiceSuffix | ytd/utils.py:212-214 | `bestvideo+bestaudio` gives `_audio` as written and `_best` with the corrected test. |
| Utils.CleanForJson | ytd/utils.py:31-51 | The result is serialisable and clean. Scalars stay, and non-serialisable objects become their `str()`. Lists and dicts only lose items. |
| Utils.CleanListItems | ytd/utils.py:36-37 | A cleaned list holds exactly the cleaned forms of the list's serialisable items. |
| Utils.CleanItemsMembers | ytd/utils.py:37 | The item loop keeps exactly the cleaned forms of the serialisable items. |
| Utils.CleanItemsAppend | ytd/utils.py:37 | Cleaning keeps the items' order: cleaning a concatenation gives the concatenation of the cleaned parts. |
| Utils.CleanFieldsKeys | ytd/utils.py:33-35 | The cleaned dict has a key exactly when some field under it has no leading `_` and a serialisable value. |
| Utils.CleanFieldsMembers | ytd/utils.py:33-35 | A field is in the cleaned dict exactly when some kept field of the dict has its key and, cleaned, its value. |
| Utils.CleanOfClean | ytd/utils.py:31-41 | Clean data goes through unchanged. |
| Utils.CleanIdempotent | ytd/utils.py:31-41 | Cleaning twice is cleaning once. |
| Types.NewDownloadOptions | ytd/types.py:10-39 | The defaults of `DownloadOptions`: `downloads`, `m4a`, `mp4`, `best`, the default template, no subtitles, 3 retries 5 s apart, `data/meta.jsonl`. Every flag is off and every optional field is None. |
| Types.NamesAreDistinct | ytd/types.py:20-22 | The names of the annotated members tell them apart. |
| Types.AudioFormatOf | ytd/types.py:20 | The member read from a string has that string as its name. |
| Types.VideoFormatOf | ytd/types.py:21 | The member read from a string has that string as its name. |
| Types.QualityOf | ytd/types.py:22 | The member read from a string has that string as its name. |
| Types.NamesRoundTrip | ytd/types.py:20-22 | A string reads as an annotated member exactly when it is one of the annotation's names, and reading an annotated member's name gives that member back. |
| Types.KeyOf | ytd/types.py:43-61 | A keyword names a field exactly when it is that field's name. |
| Types.ConfigExtensional | ytd/types.py:43-61 | Two configurations that agree on every field are equal. |
| Types.DefaultConfig | ytd/types.py:43-61 | `history_db` is `data/history.db`, there is no pause, and the keys are `p` and `r`. |
| Types.ConfigDefaultsMirrorOptions | ytd/types.py:46-61 | The defaults of `AppConfig` are those of `DownloadOptions`, with the enumerations as their names. |
| Types.NewEvent | ytd/types.py:65-79 | The four leading fields are as given, and every other field is None. |
| PyText.ParseIntOfIntToString | ytd/config.py:67 | `int(str(i)) == i`. |
| PyText.SplitOfJoin | ytd/config.py:64 | Splitting a join without the separator gives the parts back. |
| PyText.ReplaceRemoves | ytd/cli.py:53-54 | Replacing one character by text without it removes every occurrence. |
| Values.Get | ytd/history/storage.py:234-241 | `dict.get`: the last binding of the key, or `None` when there is none. |
| Values.Or | ytd/history/storage.py:234-255 | `a or b or ...`: the first truthy operand, else the last one. |

## Left out

- SQLite itself is not modelled: connections, `init_db`, the module-global database path, `sqlite_master`/`PRAGMA` introspection and transactions are outside the model. The store is a value in memory.
- The `NULLS LAST` fallback query (`ytd/history/storage.py:349-354`) is not modelled. The model states the ordering the primary query asks for.
- The metadata append in `record_event`, `save_metadata_jsonl` and `ensure_dir` are left out because they are file I/O.
- Reading the JSONL file is taken as given: the import receives the lines already decoded, with undecodable and wrongly encoded lines as cases of the datatype.
- The epoch and ISO conversions of `_extract_timestamp` and `_parse_since_option` (`datetime.fromtimestamp`, `fromisoformat`), and `utcnow`, depend on time zones and floats. They are oracle parameters, and timestamps are ISO strings compared as text.
- `float()` in `_apply_env_overrides` is an oracle parameter, because floating point is not modelled.
- `_load_yaml` is an oracle that gives the file's mapping. YAML keys that are not strings are not modelled.
- yt-dlp is an oracle that gives each attempt's outcome and progress reports. This covers `extract_info`, `prepare_filename` and `_print_file_info`.
- `time.sleep` is not called: the model returns the pauses it would sleep, as reals.
- `find_ffmpeg` is a parameter, and `find_existing_files` is the oracle `find` of `AnalyzePlaylistProgress`.
- The terminal is not modelled: typer prompts are given as typed strings, and echo, colour and the history card, table and CSV export are left out.
- `cmd_download` and `cmd_info` are not modelled because they are orchestration glue. `_looks_like_playlist_url` is left out because it relies on `urllib.parse`.
- `ytd/pause.py` is left out because it is concurrency (threads and keyboard polling). Logging setup, `ytd/exceptions.py` and `ytd/history/__init__.py` are trivial and left out.
- `_normalize_and_prepare` is left out: it does `expanduser`, cwd-relative resolution and directory creation. `_normalize_types` is modelled as `str(Path(s))` without `expanduser`.
- `history_enabled` and `YTD_HISTORY_DB` are not modelled: they are used by the CLI and the tests but exist in neither `AppConfig` nor `_ENV_MAP`.
- The `retry` decorator of `ytd/utils.py:114-125` is left out because it returns the function unchanged.
- The dialog parts of the interactive module (printing the menus and the list of files found) are left out. Only the choices and their results are modelled.
- Utils.DigitsAt: Python's `\d` also matches non-ASCII decimal digits, while the model takes ASCII digits only.
- PyText.ParseInt: Python's `int()` also accepts non-ASCII decimal digits, such as fullwidth `２`. The model accepts ASCII digits only, so it reads such a value as an error.
- HistoryImport.IsDate8: `str.isdigit()` also holds for non-ASCII decimal digits and for superscripts. The model takes ASCII digits only, so an eight-character value such as `２０２４０５１１` is not treated as a date. Python would treat it as a date.
- Cli.DecisionFor: `newDir` is the answer the directory prompt returns once typer has filled in its default: the record's file path, or the configured output directory when the path is empty. That default is not modelled, and neither is `expanduser`'s expansion of `~` to the home directory. Both depend on the terminal and the environment.
- Cli.Ladder: takes the same typed `newDir`, so it leaves out the same prompt default and `~` expansion as Cli.DecisionFor.
- PyText.LowerChar: case mapping covers ASCII and the basic Cyrillic block only, which holds every letter the program compares.
- Values.Get: a tuple is modelled as a list. An object that is neither a scalar, list nor dict is `VObject` with its `str()` text.
- Cli.AfterPrompt: a lookup or write-back that raises is taken to raise at its SQL statement, after its schema step has run, and to write nothing. A failure inside `ensure_schema` itself, which would leave the table unmigrated, is not distinguished.
- Cli.ParseSince: only the empty cases and the error class (`typer.BadParameter`) are stated; the accepted text is whatever the ISO oracle returns.

## Findings

| source | as written | input that shows it | evidently intended | confidence | as-written member | corrected member |
|---|---|---|---|---|---|---|
| ytd/cli.py:33-57 | The table replaces the bare `⚠` before the entry for `⚠️`, so the longer entry can never match. | `⚠️` (U+26A0 U+FE0F) becomes `[WARN]` followed by a stray U+FE0F | `⚠️` becomes `[WARN]` | not executed | Cli.WarnEmojiKeepsSelector | Cli.WarnEmojiReplacedWhole |
| ytd/config.py:78 | `YTD_PAUSE_BETWEEN_VIDEOS` falls into the raw-string branch. | `YTD_PAUSE_BETWEEN_VIDEOS=false` gives the truthy string `"false"` | it goes through `_parse_bool` like `YTD_AUDIO_ONLY` and gives `False` | not executed | Config.PauseAsWritten | Config.PauseCorrected |
| ytd/utils.py:80-98 | The suffix is appended without replacing invalid or dropping control characters, although the docstring promises that forbidden characters become `_`. | `a.b:c` gives `a.b:c` | `a.b_c` | not executed | Utils.SanitizeKeepsInvalidSuffix | Utils.SanitizeFilenameIntended |
| ytd/utils.py:213 | `"bestaudio" in format_choice` counts every format that mentions audio, contrary to the comment "audio only". | the best-available menu entry, format `bestvideo+bestaudio/best`, label without a height, gives `_audio` | `_best` for a format that also asks for `bestvideo` | not executed | Utils.ExtractQualitySuffix | Utils.ExtractQualitySuffixIntended |
