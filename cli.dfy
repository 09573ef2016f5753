/** The command-line front end's own logic: the console fallback for symbols
    the terminal cannot encode, the history decision taken before a download
    and written back to the store, the YouTube id extractor, the filters of
    `ytd history`, the text helpers of its table, and the lookup of
    `ytd history show`. */
module Cli {
  import opened Wrappers
  import opened PyText
  import opened Values
  import opened Paths
  import opened History
  import opened Storage

  // ---------------------------------------------------------------- console fallback text

  /** The order in which the console fallback applies its symbol table: as
      `_sanitize_console_text` lists it, or with the two-character warning sign moved ahead
      of the bare one so that its variation selector goes with it. */
  datatype TableOrder = AsWritten | Corrected

  const TableSize := 14

  /** Entry `k` of the symbol table as `_sanitize_console_text` lists it. */
  function Entry(k: nat): (e: (string, string))
    requires k < TableSize
    ensures |e.0| > 0 && e.0[0] >= '\U{80}'
    ensures forall c :: c in e.1 ==> c < '\U{80}'
  {
    if k == 0 then ("\U{2713}", "[OK]")
    else if k == 1 then ("\U{2714}", "[OK]")
    else if k == 2 then ("\U{2705}", "[OK]")
    else if k == 3 then ("\U{26A0}", "[WARN]")
    else if k == 4 then ("\U{26A0}\U{FE0F}", "[WARN]")
    else if k == 5 then ("\U{2717}", "[ERROR]")
    else if k == 6 then ("\U{2718}", "[ERROR]")
    else if k == 7 then ("\U{274C}", "[ERROR]")
    else if k == 8 then ("\U{26D4}", "[ERROR]")
    else if k == 9 then ("\U{2192}", "->")
    else if k == 10 then ("\U{25B6}", ">")
    else if k == 11 then ("\U{23F3}", "...")
    else if k == 12 then ("\U{23F8}", "[PAUSE]")
    else ("\U{2726}", "*")
  }

  function EntryOf(o: TableOrder, k: nat): (e: (string, string))
    requires k < TableSize
    ensures |e.0| > 0 && e.0[0] >= '\U{80}'
    ensures forall c :: c in e.1 ==> c < '\U{80}'
  {
    if o == Corrected && k == 3 then Entry(4)
    else if o == Corrected && k == 4 then Entry(3)
    else Entry(k)
  }

  /** Every symbol the fallback is meant to take out of a text: the table's
      one-character patterns and the three dashes. */
  predicate IsSymbol(c: char) {
    c == '\U{2713}' || c == '\U{2714}' || c == '\U{2705}' || c == '\U{26A0}'
    || c == '\U{2717}' || c == '\U{2718}' || c == '\U{274C}' || c == '\U{26D4}'
    || c == '\U{2192}' || c == '\U{25B6}' || c == '\U{23F3}' || c == '\U{23F8}' || c == '\U{2726}'
    || c == '\U{2550}' || c == '\U{2501}' || c == '\U{2014}'
  }

  /** The first `n` replacements of the table applied in turn. */
  function ApplyFirst(o: TableOrder, s: string, n: nat): string
    requires n <= TableSize
  {
    if n == 0 then s
    else
      var e := EntryOf(o, n - 1);
      Replace(ApplyFirst(o, s, n - 1), e.0, e.1)
  }

  /** `re.sub(r"[═━]+", lambda m: "-" * len(m.group(0)), text)`: every box
      drawing line character becomes one hyphen. */
  function Dashes(s: string): (r: string)
    ensures |r| == |s|
    ensures forall i :: 0 <= i < |s| ==> r[i] == if s[i] == '\U{2550}' || s[i] == '\U{2501}' then '-' else s[i]
  {
    if s == [] then [] else [if s[0] == '\U{2550}' || s[0] == '\U{2501}' then '-' else s[0]] + Dashes(s[1..])
  }

  /** `"" if value is None else str(value)` */
  function ConsoleText(v: Value): string {
    if v == VNone then "" else Str(v)
  }

  /** The whole fallback with the table in a given order. */
  function SanitizeWith(o: TableOrder, v: Value): string {
    Replace(Dashes(ApplyFirst(o, ConsoleText(v), TableSize)), "\U{2014}", "-")
  }

  /** `_sanitize_console_text(value)` as written: one `str.replace` per table
      entry, then the dash rules. */
  method SanitizeConsoleText(v: Value) returns (text: string)
    ensures text == SanitizeWith(AsWritten, v)
  {
    text := ConsoleText(v);
    var i := 0;
    while i < TableSize
      invariant 0 <= i <= TableSize
      invariant text == ApplyFirst(AsWritten, ConsoleText(v), i)
    {
      var (source, replacement) := Entry(i);
      text := Replace(text, source, replacement);
      i := i + 1;
    }
    text := Dashes(text);
    text := Replace(text, "\U{2014}", "-");
  }

  /** After the first `n` entries, no character that one of them replaces on
      its own is left. */
  lemma ApplyFirstRemoves(o: TableOrder, s: string, n: nat)
    requires n <= TableSize
    ensures forall k :: 0 <= k < n && |EntryOf(o, k).0| == 1 ==> EntryOf(o, k).0[0] !in ApplyFirst(o, s, n)
  {
    var entry := (k: nat) => if k < TableSize then EntryOf(o, k) else ("\U{80}", "");
    var apply := (k: nat) => if k <= TableSize then ApplyFirst(o, s, k) else s;
    forall k | 0 <= k < n ensures Widens(entry(k)) && apply(k + 1) == Replace(apply(k), entry(k).0, entry(k).1) {
      ApplyFirstStep(o, s, k);
      assert entry(k) == EntryOf(o, k) && apply(k + 1) == ApplyFirst(o, s, k + 1) && apply(k) == ApplyFirst(o, s, k);
    }
    FoldRemoves(n, entry, apply);
    assert apply(n) == ApplyFirst(o, s, n);
    forall k | 0 <= k < n && |EntryOf(o, k).0| == 1 ensures EntryOf(o, k).0[0] !in ApplyFirst(o, s, n) {
      assert entry(k) == EntryOf(o, k);
    }
  }

  /** Entry `k` widens, and applying it is the step from `k` to `k + 1` entries. */
  lemma ApplyFirstStep(o: TableOrder, s: string, k: nat)
    requires k < TableSize
    ensures Widens(EntryOf(o, k))
    ensures ApplyFirst(o, s, k + 1) == Replace(ApplyFirst(o, s, k), EntryOf(o, k).0, EntryOf(o, k).1)
  {
    EntryWidens(o, k);
  }

  /** Replacements applied in turn, each of a pattern that starts with a
      wide character by plain ASCII, leave no one-character pattern behind. */
  lemma {:induction false} FoldRemoves(n: nat, entry: nat -> (string, string), apply: nat -> string)
    requires forall k :: 0 <= k < n ==> Widens(entry(k)) && apply(k + 1) == Replace(apply(k), entry(k).0, entry(k).1)
    ensures forall k :: 0 <= k < n && |entry(k).0| == 1 ==> entry(k).0[0] !in apply(n)
  {
    if n > 0 {
      FoldRemoves(n - 1, entry, apply);
      RemovesStep(apply(n - 1), entry(n - 1), apply(n));
      forall k | 0 <= k < n - 1 && |entry(k).0| == 1 ensures entry(k).0[0] !in apply(n) {
        assert Widens(entry(k)) && entry(k).0[0] !in apply(n - 1);
      }
    }
  }

  lemma EntryWidens(o: TableOrder, k: nat)
    requires k < TableSize
    ensures Widens(EntryOf(o, k))
  {
  }

  /** A pattern that starts with a wide character and a plain ASCII
      replacement. */
  predicate Widens(e: (string, string)) {
    |e.0| > 0 && e.0[0] >= '\U{80}' && forall c :: c in e.1 ==> c < '\U{80}'
  }

  /** One replacement by plain ASCII brings in no wider character, and takes
      out a one-character pattern altogether. */
  lemma RemovesStep(before: string, e: (string, string), after: string)
    requires Widens(e)
    requires after == Replace(before, e.0, e.1)
    ensures forall c :: c in after && c >= '\U{80}' ==> c in before
    ensures |e.0| == 1 ==> e.0[0] !in after
  {
    ReplaceChars(before, e.0, e.1);
    if |e.0| == 1 {
      assert e.0 == [e.0[0]];
      ReplaceRemoves(before, e.0[0], e.1);
    }
  }

  /** Every pattern starts with a symbol, and every one-character symbol
      other than a dash is the whole pattern of some entry. */
  lemma EntryStartsWithSymbol(o: TableOrder, k: nat)
    requires k < TableSize
    ensures IsSymbol(EntryOf(o, k).0[0])
  {
  }

  lemma SymbolEntry(o: TableOrder, c: char) returns (k: nat)
    requires IsSymbol(c) && c != '\U{2550}' && c != '\U{2501}' && c != '\U{2014}'
    ensures k < TableSize && EntryOf(o, k).0 == [c]
  {
    if c == '\U{26A0}' {
      k := if o == AsWritten then 3 else 4;
    } else {
      k := if c == '\U{2713}' then 0 else if c == '\U{2714}' then 1 else if c == '\U{2705}' then 2
        else if c == '\U{2717}' then 5 else if c == '\U{2718}' then 6 else if c == '\U{274C}' then 7
        else if c == '\U{26D4}' then 8 else if c == '\U{2192}' then 9 else if c == '\U{25B6}' then 10
        else if c == '\U{23F3}' then 11 else if c == '\U{23F8}' then 12 else 13;
    }
  }

  /** No symbol survives the fallback, in either order: each one is replaced
      on its own, and every replacement is ASCII. */
  lemma SanitizeRemovesSymbols(o: TableOrder, v: Value)
    ensures forall c :: c in SanitizeWith(o, v) ==> !IsSymbol(c)
  {
    var a := ApplyFirst(o, ConsoleText(v), TableSize);
    ApplyFirstRemoves(o, ConsoleText(v), TableSize);
    forall c | c in a && IsSymbol(c)
      ensures c == '\U{2550}' || c == '\U{2501}' || c == '\U{2014}'
    {
      if c != '\U{2550}' && c != '\U{2501}' && c != '\U{2014}' {
        var k := SymbolEntry(o, c);
      }
    }
    var d := Dashes(a);
    var r := Replace(d, "\U{2014}", "-");
    ReplaceChars(d, "\U{2014}", "-");
    ReplaceRemoves(d, '\U{2014}', "-");
    forall c | c in r ensures !IsSymbol(c) {
      if c in d {
        var i :| 0 <= i < |d| && d[i] == c;
        assert a[i] in a;
      }
    }
  }

  /** As written, the bare warning sign is replaced first, so the emoji form
      "⚠️" keeps its variation selector and the table's "⚠️" entry never
      applies. */
  lemma WarnEmojiKeepsSelector(s: string)
    requires s == "\U{26A0}\U{FE0F}"
    ensures SanitizeWith(AsWritten, VStr(s)) == "[WARN]\U{FE0F}"
  {
    var w := BareWarnReplaced(s);
    WarnTextSymbols(s);
    EarlyEntriesNotWarn(AsWritten);
    SanitizeSingle(AsWritten, s, 3, w);
  }

  lemma BareWarnReplaced(s: string) returns (w: string)
    requires s == "\U{26A0}\U{FE0F}"
    ensures w == "[WARN]\U{FE0F}" && EntryOf(AsWritten, 3) == ("\U{26A0}", "[WARN]")
    ensures Replace(s, EntryOf(AsWritten, 3).0, EntryOf(AsWritten, 3).1) == w
    ensures forall c :: c in w ==> !IsSymbol(c)
  {
    w := "[WARN]\U{FE0F}";
    assert s[..1] == "\U{26A0}" && s[1..] == "\U{FE0F}";
    ReplaceAbsent("\U{FE0F}", "\U{26A0}", "[WARN]");
  }

  /** With the corrected order the emoji form is replaced whole. */
  lemma WarnEmojiReplacedWhole(s: string)
    requires s == "\U{26A0}\U{FE0F}"
    ensures SanitizeWith(Corrected, VStr(s)) == "[WARN]"
  {
    var w := EmojiWarnReplaced(s);
    WarnTextSymbols(s);
    EarlyEntriesNotWarn(Corrected);
    SanitizeSingle(Corrected, s, 3, w);
  }

  lemma EmojiWarnReplaced(s: string) returns (w: string)
    requires s == "\U{26A0}\U{FE0F}"
    ensures w == "[WARN]" && EntryOf(Corrected, 3) == ("\U{26A0}\U{FE0F}", "[WARN]")
    ensures Replace(s, EntryOf(Corrected, 3).0, EntryOf(Corrected, 3).1) == w
    ensures forall c :: c in w ==> !IsSymbol(c)
  {
    w := "[WARN]";
    assert s[..2] == "\U{26A0}\U{FE0F}" && s[2..] == "";
  }

  /** The only symbol of the emoji warning sign is the bare sign. */
  lemma WarnTextSymbols(s: string)
    requires s == "\U{26A0}\U{FE0F}"
    ensures forall c :: c in s ==> !IsSymbol(c) || c == '\U{26A0}'
  {
    assert forall c :: c in s ==> c == s[0] || c == s[1];
  }

  /** No entry before the warning entries starts with the warning sign. */
  lemma EarlyEntriesNotWarn(o: TableOrder)
    ensures forall k :: 0 <= k < 3 ==> EntryOf(o, k).0[0] != '\U{26A0}'
  {
  }

  /** The fallback of a text whose one symbol entry `n` replaces, leaving
      no symbol, is that one replacement. */
  lemma SanitizeSingle(o: TableOrder, s: string, n: nat, w: string)
    requires n < TableSize
    requires forall c :: c in s ==> !IsSymbol(c) || c == '\U{26A0}'
    requires forall k :: 0 <= k < n ==> EntryOf(o, k).0[0] != '\U{26A0}'
    requires w == Replace(s, EntryOf(o, n).0, EntryOf(o, n).1) && forall c :: c in w ==> !IsSymbol(c)
    ensures SanitizeWith(o, VStr(s)) == w
  {
    SingleHit(o, s, n);
    AsciiDashes(w);
  }

  /** When the text holds no symbol but the warning sign, no entry before
      `n` starts with it, and entry `n` leaves no symbol, the table amounts to
      that one replacement. */
  lemma SingleHit(o: TableOrder, s: string, n: nat)
    requires n < TableSize
    requires forall c :: c in s ==> !IsSymbol(c) || c == '\U{26A0}'
    requires forall k :: 0 <= k < n ==> EntryOf(o, k).0[0] != '\U{26A0}'
    requires forall c :: c in Replace(s, EntryOf(o, n).0, EntryOf(o, n).1) ==> !IsSymbol(c)
    ensures ApplyFirst(o, s, TableSize) == Replace(s, EntryOf(o, n).0, EntryOf(o, n).1)
  {
    var w := Replace(s, EntryOf(o, n).0, EntryOf(o, n).1);
    forall k | 0 <= k < TableSize ensures IsSymbol(EntryOf(o, k).0[0]) {
      EntryStartsWithSymbol(o, k);
    }
    ApplyFirstOfAbsent(o, s, 0, n);
    assert ApplyFirst(o, s, n + 1) == w;
    ApplyFirstOfAbsentFrom(o, s, w, n + 1, TableSize);
  }

  /** Entries from `m` to `n` whose patterns start with no character of the
      text leave it alone. */
  lemma {:induction false} ApplyFirstOfAbsent(o: TableOrder, s: string, m: nat, n: nat)
    requires m == 0 && n <= TableSize
    requires forall k :: m <= k < n ==> EntryOf(o, k).0[0] !in s
    ensures ApplyFirst(o, s, n) == s
  {
    if n > 0 {
      ApplyFirstOfAbsent(o, s, m, n - 1);
      ReplaceAbsent(s, EntryOf(o, n - 1).0, EntryOf(o, n - 1).1);
    }
  }

  /** Once the first `m` entries give `w`, later entries absent from `w`
      leave it alone. */
  lemma ApplyFirstOfAbsentFrom(o: TableOrder, s: string, w: string, m: nat, n: nat)
    requires m <= n <= TableSize
    requires ApplyFirst(o, s, m) == w
    requires forall k :: m <= k < n ==> EntryOf(o, k).0[0] !in w
    ensures ApplyFirst(o, s, n) == w
  {
    var entry := (k: nat) => if k < TableSize then EntryOf(o, k) else ("\U{80}", "");
    var apply := (k: nat) => if k <= TableSize then ApplyFirst(o, s, k) else s;
    forall k | m <= k < n
      ensures |entry(k).0| > 0 && entry(k).0[0] !in w && apply(k + 1) == Replace(apply(k), entry(k).0, entry(k).1)
    {
      assert entry(k) == EntryOf(o, k) && apply(k + 1) == ApplyFirst(o, s, k + 1) && apply(k) == ApplyFirst(o, s, k);
    }
    FoldKeeps(m, n, entry, apply, w);
    assert apply(n) == ApplyFirst(o, s, n);
  }

  /** Replacements applied in turn from step `m` on, each of a pattern that
      starts with no character of the text `w` reached at `m`, keep `w`. */
  lemma {:induction false} FoldKeeps(m: nat, n: nat, entry: nat -> (string, string), apply: nat -> string, w: string)
    requires m <= n && apply(m) == w
    requires forall k :: m <= k < n ==>
      |entry(k).0| > 0 && entry(k).0[0] !in w && apply(k + 1) == Replace(apply(k), entry(k).0, entry(k).1)
    ensures apply(n) == w
    decreases n
  {
    if n > m {
      FoldKeeps(m, n - 1, entry, apply, w);
      ReplaceAbsent(w, entry(n - 1).0, entry(n - 1).1);
    }
  }

  /** The dash rules leave a text without symbols alone. */
  lemma AsciiDashes(s: string)
    requires forall c :: c in s ==> !IsSymbol(c)
    ensures Replace(Dashes(s), "\U{2014}", "-") == s
  {
    var d := Dashes(s);
    assert forall i :: 0 <= i < |s| ==> s[i] in s;
    assert d == s;
    ReplaceAbsent(d, "\U{2014}", "-");
  }


  // ---------------------------------------------------------------- history decision

  /** The actions `prompt_history_decision` can record as `last_action`. */
  datatype Action = Skip | Overwrite | DownloadElsewhere | Restart | Resume | ProceedAnyway

  function ActionName(a: Action): string {
    match a
    case Skip => "skip"
    case Overwrite => "overwrite"
    case DownloadElsewhere => "download_elsewhere"
    case Restart => "restart"
    case Resume => "resume"
    case ProceedAnyway => "proceed"
  }

  lemma ActionNamesDistinct()
    ensures forall a, b :: ActionName(a) == ActionName(b) ==> a == b
  {
  }

  /** What to do with a URL the history already knows. `newOutput` is the
      directory a download elsewhere goes to. */
  datatype HistoryDecision = HistoryDecision(
    proceed: bool, overwrite: bool, newOutput: Option<string>, action: Option<Action>, incrementRetry: bool)

  /** `HistoryDecision(proceed=True)`: go ahead, with nothing to write back. */
  const Proceed := HistoryDecision(true, false, None, None, false)

  /** Which menu a recorded status (compared lower-cased) leads to. */
  datatype Menu = SucceededMenu | UnfinishedMenu | YesNoMenu

  function MenuFor(status: string): Menu {
    var s := Lower(status);
    if s == "success" then SucceededMenu
    else if s == "failed" || s == "in_progress" then UnfinishedMenu
    else YesNoMenu
  }

  /** The action the user's choice selects in each menu: a success offers
      skip, overwrite and elsewhere, skip being the default; an unfinished
      download offers resume, restart and skip, resume being the default;
      anything else asks yes or no. */
  function ActionFor(m: Menu, choice: string): Action {
    var c := Strip(choice);
    match m
    case SucceededMenu => if c == "2" then Overwrite else if c == "3" then DownloadElsewhere else Skip
    case UnfinishedMenu => if c == "2" then Restart else if c == "0" then Skip else Resume
    case YesNoMenu => if c == "0" then Skip else ProceedAnyway
  }

  /** The decision each action stands for: only a skip stops, an overwrite or
      a restart overwrites, every action of the two three-way menus counts as
      a retry, and only a download elsewhere takes a new directory. */
  function DecisionFor(a: Action, newDir: string): (d: HistoryDecision)
    ensures d.action == Some(a)
  {
    HistoryDecision(
      a != Skip,
      a == Overwrite || a == Restart,
      if a == DownloadElsewhere then Some(Normalize(newDir)) else None,
      Some(a),
      a != Skip && a != ProceedAnyway)
  }

  /** The branch ladder of `prompt_history_decision` once a record is found:
      `status` is the record's status, `choice` the answer to the menu and
      `newDir` the answer to the directory prompt. */
  function Decide(status: string, choice: string, newDir: string): HistoryDecision {
    Ladder(MenuFor(status), Strip(choice), newDir)
  }

  /** The ladder in menu `m` for the stripped choice `c`. */
  function Ladder(m: Menu, c: string, newDir: string): HistoryDecision {
    match m
    case SucceededMenu =>
      if c == "2" then HistoryDecision(true, true, None, Some(Overwrite), true)
      else if c == "3" then HistoryDecision(true, false, Some(Normalize(newDir)), Some(DownloadElsewhere), true)
      else HistoryDecision(false, false, None, Some(Skip), false)
    case UnfinishedMenu =>
      if c == "2" then HistoryDecision(true, true, None, Some(Restart), true)
      else if c == "0" then HistoryDecision(false, false, None, Some(Skip), false)
      else HistoryDecision(true, false, None, Some(Resume), true)
    case YesNoMenu =>
      if c == "0" then HistoryDecision(false, false, None, Some(Skip), false)
      else HistoryDecision(true, false, None, Some(ProceedAnyway), false)
  }

  /** The ladder is the menu's choice table followed by the action table. */
  lemma DecideByAction(status: string, choice: string, newDir: string)
    ensures Decide(status, choice, newDir) == DecisionFor(ActionFor(MenuFor(status), choice), newDir)
  {
    LadderByAction(MenuFor(status), choice, newDir);
  }

  /** In each menu the ladder is the choice table followed by the action
      table. */
  lemma LadderByAction(m: Menu, choice: string, newDir: string)
    ensures Ladder(m, Strip(choice), newDir) == DecisionFor(ActionFor(m, choice), newDir)
  {
    var c := Strip(choice);
    match m
    case SucceededMenu =>
      if c == "2" {} else if c == "3" {} else {}
    case UnfinishedMenu =>
      if c == "2" {} else if c == "0" {} else {}
    case YesNoMenu =>
      if c == "0" {} else {}
  }

  /** A decision on a found record always names its action; it stops exactly
      when the action is a skip; overwriting, a new directory and a retry all
      come with proceeding; a new directory comes exactly with a download
      elsewhere; and a retry is counted exactly when a three-way menu let the
      download go ahead. */
  lemma DecisionConsistent(status: string, choice: string, newDir: string)
    ensures var d := Decide(status, choice, newDir);
      && d.action.Some?
      && (!d.proceed <==> d.action == Some(Skip))
      && (d.overwrite ==> d.proceed) && (d.incrementRetry ==> d.proceed)
      && (d.newOutput.Some? <==> d.action == Some(DownloadElsewhere))
      && (d.incrementRetry <==> d.proceed && MenuFor(status) != YesNoMenu)
  {
    DecideByAction(status, choice, newDir);
    var a := ActionFor(MenuFor(status), choice);
    assert a == ProceedAnyway <==> MenuFor(status) == YesNoMenu && a != Skip by {
      match MenuFor(status)
      case SucceededMenu =>
      case UnfinishedMenu =>
      case YesNoMenu =>
    }
  }

  /** The arguments of the `update_download` call that records a decision. */
  datatype UpdateArgs = UpdateArgs(
    videoId: Option<string>, url: Option<string>, status: Option<string>, increment: bool, lastAction: Option<string>)

  function ActionText(a: Option<Action>): Option<string> {
    if a.Some? then Some(ActionName(a.value)) else None
  }

  /** The write-back of `prompt_history_decision`. */
  function WriteBack(videoId: Option<string>, currentUrl: string, d: HistoryDecision): (a: UpdateArgs)
    ensures a.videoId == videoId && a.url == Some(currentUrl)
    ensures a.lastAction == ActionText(d.action) && a.increment == d.incrementRetry
    ensures a.status.Some? ==> a.status.value == "in_progress" && d.proceed
  {
    UpdateArgs(videoId, Some(currentUrl),
               if d.proceed && d.action != Some(Skip) then Some("in_progress") else None,
               d.incrementRetry, ActionText(d.action))
  }

  /** For a decision on a found record the write-back marks the download in
      progress exactly when the decision proceeds. */
  lemma WriteBackMarksProgress(videoId: Option<string>, currentUrl: string, status: string, choice: string, newDir: string)
    ensures var d := Decide(status, choice, newDir);
      WriteBack(videoId, currentUrl, d).status == if d.proceed then Some("in_progress") else None
  {
    DecisionConsistent(status, choice, newDir);
  }

  /** The table `prompt_history_decision` reads: the lookup ensures the schema
      once it is given a key, and the current URL is one when it is not
      empty. */
  function Looked(t: Table, videoId: Option<string>, currentUrl: string): (t1: Table)
    requires ValidTable(t)
    ensures ValidTable(t1)
  {
    if !Given(videoId) && !Given(Some(currentUrl)) then t else SchemaEnsured(t).1
  }

  /** `prompt_history_decision(video_id, current_url)` on the table: the
      decision and the table afterwards. Without history, or without a record,
      the download goes ahead and nothing is written back. `fetchFails` says
      that the query of `fetch_download` raises and `updateFails` that the
      statement of `update_download` does; each runs after its schema step
      and writes nothing. The prompt catches both: a failed lookup proceeds
      without a write-back, and a failed write-back keeps the decision. */
  function AfterPrompt(t: Table, available: bool, videoId: Option<string>, currentUrl: string,
                       fetchFails: bool, updateFails: bool, choice: string, newDir: string)
    : (res: (Table, HistoryDecision))
    requires ValidTable(t)
    ensures ValidTable(res.0)
    ensures !available ==> res == (t, Proceed)
    ensures available && fetchFails ==> res == (Looked(t, videoId, currentUrl), Proceed)
    ensures available && Fetch(Snapshot(Looked(t, videoId, currentUrl)), videoId, Some(currentUrl)).None? ==>
              res == (Looked(t, videoId, currentUrl), Proceed)
    ensures available && !fetchFails && updateFails ==>
              var entry := Fetch(Snapshot(Looked(t, videoId, currentUrl)), videoId, Some(currentUrl));
              res.0 == Looked(t, videoId, currentUrl)
              && res.1 == (if entry.Some? then Decide(entry.value.status, choice, newDir) else Proceed)
  {
    if !available then (t, Proceed)
    else
      var t1 := Looked(t, videoId, currentUrl);
      var entry := Fetch(Snapshot(t1), videoId, Some(currentUrl));
      if fetchFails || entry.None? then (t1, Proceed)
      else
        var d := Decide(entry.value.status, choice, newDir);
        var a := WriteBack(videoId, currentUrl, d);
        if updateFails then (t1, d)
        else (AfterUpdate(t1, a.videoId, a.url, a.status, a.increment, a.lastAction), d)
  }

  /** The driver over the store: `available` is whether the history is
      enabled, `fetchFails` and `updateFails` whether the store's lookup and
      write-back raise, `choice` and `newDir` stand for the answers typed at
      the prompts. */
  method PromptHistoryDecision(db: HistoryDb, available: bool, videoId: Option<string>, currentUrl: string,
                               fetchFails: bool, updateFails: bool, choice: string, newDir: string)
    returns (d: HistoryDecision)
    requires db.Valid()
    modifies db
    ensures db.Valid()
    ensures (db.State(), d) == AfterPrompt(old(db.State()), available, videoId, currentUrl,
                                           fetchFails, updateFails, choice, newDir)
  {
    if !available {
      return Proceed;
    }
    // A failing lookup has run its schema step when its query raises.
    var entry := db.FetchDownload(videoId, Some(currentUrl));
    if fetchFails || entry.None? {
      return Proceed;
    }
    d := Decide(entry.value.status, choice, newDir);
    var a := WriteBack(videoId, currentUrl, d);
    if !updateFails {
      db.UpdateDownload(a.videoId, a.url, a.status, a.increment, a.lastAction);
    }
  }

  /** After a decision that proceeds on a known download, looking it up again
      by the same keys finds it in progress, with the decision's action as its
      last action. */
  lemma {:induction false} PromptThenFetch(t: Table, videoId: Option<string>, currentUrl: string,
                                           choice: string, newDir: string)
    requires ValidTable(t)
    ensures var (r, d) := AfterPrompt(t, true, videoId, currentUrl, false, false, choice, newDir);
      d.proceed && d.action.Some? ==>
        var found := Fetch(Snapshot(r), videoId, Some(currentUrl));
        found.Some? && found.value.status == "in_progress" && found.value.lastAction == ActionText(d.action)
  {
    var (r, d) := AfterPrompt(t, true, videoId, currentUrl, false, false, choice, newDir);
    if d.proceed && d.action.Some? {
      var t1 := Looked(t, videoId, currentUrl);
      var entry := Fetch(Snapshot(t1), videoId, Some(currentUrl));
      assert entry.Some?;
      DecisionConsistent(entry.value.status, choice, newDir);
      var a := WriteBack(videoId, currentUrl, d);
      assert a.status == Some("in_progress");
      assert r == AfterUpdate(t1, videoId, Some(currentUrl), Some("in_progress"), a.increment, a.lastAction);
      UpdateKeepsFound(t1, videoId, Some(currentUrl), Some("in_progress"), a.increment, a.lastAction);
      UpdateThenFetch(t1, videoId, Some(currentUrl), "in_progress", a.increment, a.lastAction);
    }
  }

  /** A skip changes no recorded status. */
  lemma {:induction false} SkipKeepsStatus(t: Table, videoId: Option<string>, currentUrl: string,
                                           choice: string, newDir: string, k: string)
    requires ValidTable(t) && k in t.rows
    ensures var (r, d) := AfterPrompt(t, true, videoId, currentUrl, false, false, choice, newDir);
      !d.proceed ==> k in r.rows && r.rows[k].status == t.rows[k].status
  {
    var (r, d) := AfterPrompt(t, true, videoId, currentUrl, false, false, choice, newDir);
    if !d.proceed {
      var t1 := Looked(t, videoId, currentUrl);
      var entry := Fetch(Snapshot(t1), videoId, Some(currentUrl));
      assert entry.Some?;
      DecisionConsistent(entry.value.status, choice, newDir);
      var a := WriteBack(videoId, currentUrl, d);
      assert a.status == None;
      assert t1 == SchemaEnsured(t).1;
      UpdateEffect(t1, videoId, Some(currentUrl), None, a.increment, a.lastAction, k);
      assert SchemaEnsured(t1).1 == t1;
    }
  }

  // ---------------------------------------------------------------- video ids

  /** `[A-Za-z0-9_-]` */
  predicate IdChar(c: char) {
    ('A' <= c <= 'Z') || ('a' <= c <= 'z') || ('0' <= c <= '9') || c == '_' || c == '-'
  }

  const IdLength := 11

  /** Eleven id characters start at `i`. */
  predicate TokenAt(s: string, i: int) {
    0 <= i && i + IdLength <= |s| && forall j :: i <= j < i + IdLength ==> IdChar(s[j])
  }

  /** The three patterns, each a choice of literal lead-ins that the captured
      token follows: `[?&]v=`, `youtu\.be/` and
      `youtube\.com/(?:shorts|embed|live)/`. */
  const Patterns: seq<seq<string>> :=
    [["?v=", "&v="], ["youtu.be/"], ["youtube.com/shorts/", "youtube.com/embed/", "youtube.com/live/"]]

  /** The lead-in `a` occurs at `i` and a token follows it. */
  predicate LeadAt(s: string, a: string, i: int) {
    OccursAt(s, a, i) && TokenAt(s, i + |a|)
  }

  /** The token after the lead-in `a` at `i`. */
  function Captured(s: string, a: string, i: int): string
    requires LeadAt(s, a, i)
  {
    s[i + |a|..i + |a| + IdLength]
  }

  /** The token a pattern with lead-ins `alts` captures in a match that starts
      at `i`: alternatives are tried in order, the first that is followed by
      a token wins. */
  function MatchAt(alts: seq<string>, s: string, i: int): Option<string> {
    if alts == [] then None
    else if LeadAt(s, alts[0], i) then Some(Captured(s, alts[0], i))
    else MatchAt(alts[1..], s, i)
  }

  /** A match at `i` exists exactly when some lead-in occurs there followed by
      a token, and it captures the token after such a lead-in. */
  lemma {:induction false} MatchAtMeaning(alts: seq<string>, s: string, i: int)
    ensures MatchAt(alts, s, i).Some? <==> exists k :: 0 <= k < |alts| && LeadAt(s, alts[k], i)
    ensures MatchAt(alts, s, i).Some? ==>
              exists k :: 0 <= k < |alts| && LeadAt(s, alts[k], i) && MatchAt(alts, s, i).value == Captured(s, alts[k], i)
  {
    if alts != [] && !LeadAt(s, alts[0], i) {
      MatchAtMeaning(alts[1..], s, i);
      assert forall k :: 1 <= k < |alts| ==> alts[k] == alts[1..][k - 1];
      if MatchAt(alts, s, i).Some? {
        var k :| 0 <= k < |alts[1..]| && LeadAt(s, alts[1..][k], i)
                 && MatchAt(alts, s, i).value == Captured(s, alts[1..][k], i);
        assert alts[k + 1] == alts[1..][k];
      }
    } else if alts != [] {
      assert LeadAt(s, alts[0], i);
    }
  }

  /** `pattern.search(s)` restricted to matches starting at `i` or later. */
  function SearchFrom(alts: seq<string>, s: string, i: nat): Option<string>
    decreases |s| + 1 - i
  {
    if i > |s| then None
    else if MatchAt(alts, s, i).Some? then MatchAt(alts, s, i)
    else SearchFrom(alts, s, i + 1)
  }

  /** No match starts at any position in `[i, p)`. */
  predicate NoMatchBetween(alts: seq<string>, s: string, i: int, p: int) {
    forall q :: i <= q < p ==> MatchAt(alts, s, q).None?
  }

  /** The search finds nothing exactly when no position matches, and
      otherwise the match at the leftmost position that matches. */
  lemma {:induction false} SearchFromMeaning(alts: seq<string>, s: string, i: nat)
    ensures SearchFrom(alts, s, i).None? <==> NoMatchBetween(alts, s, i, |s| + 1)
    ensures SearchFrom(alts, s, i).Some? ==>
              exists p :: i <= p <= |s| && SearchFrom(alts, s, i) == MatchAt(alts, s, p)
                && NoMatchBetween(alts, s, i, p)
    decreases |s| + 1 - i
  {
    if i <= |s| && MatchAt(alts, s, i).None? {
      SearchFromMeaning(alts, s, i + 1);
      assert SearchFrom(alts, s, i) == SearchFrom(alts, s, i + 1);
      if SearchFrom(alts, s, i).Some? {
        var p :| i + 1 <= p <= |s| && SearchFrom(alts, s, i + 1) == MatchAt(alts, s, p)
                 && NoMatchBetween(alts, s, i + 1, p);
        assert NoMatchBetween(alts, s, i, p);
      }
    }
  }

  /** `pattern.search(s)`: the captured token of the leftmost match. */
  function Search(alts: seq<string>, s: string): Option<string> {
    SearchFrom(alts, s, 0)
  }

  /** None of the first `k` patterns of `ps` matches. */
  predicate NoHitBefore(ps: seq<seq<string>>, s: string, k: int)
    requires k <= |ps|
  {
    forall j :: 0 <= j < k ==> Search(ps[j], s).None?
  }

  /** The first pattern of `ps` that matches decides. */
  function FirstHit(ps: seq<seq<string>>, s: string): (r: Option<string>)
    ensures r.None? <==> NoHitBefore(ps, s, |ps|)
    ensures r.Some? ==> exists k :: 0 <= k < |ps| && Search(ps[k], s) == r && NoHitBefore(ps, s, k)
  {
    if ps == [] then None
    else if Search(ps[0], s).Some? then
      assert NoHitBefore(ps, s, 0);
      Search(ps[0], s)
    else
      var r := FirstHit(ps[1..], s);
      assert forall k :: 1 <= k < |ps| ==> ps[k] == ps[1..][k - 1];
      assert r.Some? ==> exists k :: 0 <= k < |ps| && Search(ps[k], s) == r && NoHitBefore(ps, s, k) by {
        if r.Some? {
          var k :| 0 <= k < |ps[1..]| && Search(ps[1..][k], s) == r && NoHitBefore(ps[1..], s, k);
          assert Search(ps[k + 1], s) == r && NoHitBefore(ps, s, k + 1);
        }
      }
      r
  }

  /** `_extract_video_id(candidate)` as a value. */
  function VideoIdOf(s: string): Option<string> {
    FirstHit(Patterns, s)
  }

  /** `_extract_video_id`: the patterns are tried in order and the first one
      that matches gives its token. */
  method ExtractVideoId(candidate: string) returns (r: Option<string>)
    ensures r == VideoIdOf(candidate)
  {
    for k := 0 to |Patterns|
      invariant FirstHit(Patterns, candidate) == FirstHit(Patterns[k..], candidate)
    {
      assert Patterns[k..] == [Patterns[k]] + Patterns[k + 1..];
      assert Patterns[k..][1..] == Patterns[k + 1..];
      var m := Search(Patterns[k], candidate);
      if m.Some? {
        return m;
      }
    }
    return None;
  }

  /** Whatever a search captures is eleven id characters taken verbatim from
      the searched text. */
  lemma {:induction false} SearchIsToken(alts: seq<string>, s: string)
    ensures var r := Search(alts, s);
      r.Some? ==> exists i :: TokenAt(s, i) && r.value == s[i..i + IdLength]
  {
    var r := Search(alts, s);
    if r.Some? {
      SearchFromMeaning(alts, s, 0);
      var p :| 0 <= p <= |s| && r == MatchAt(alts, s, p);
      MatchAtMeaning(alts, s, p);
      var a :| 0 <= a < |alts| && LeadAt(s, alts[a], p) && r.value == Captured(s, alts[a], p);
      assert TokenAt(s, p + |alts[a]|);
    }
  }

  /** An extracted id is always eleven id characters taken verbatim from the
      candidate. */
  lemma {:induction false} VideoIdIsToken(s: string)
    ensures var r := VideoIdOf(s);
      r.Some? ==> |r.value| == IdLength && (forall c :: c in r.value ==> IdChar(c))
                  && exists i :: TokenAt(s, i) && r.value == s[i..i + IdLength]
  {
    var r := VideoIdOf(s);
    if r.Some? {
      var k :| 0 <= k < |Patterns| && Search(Patterns[k], s) == r;
      SearchIsToken(Patterns[k], s);
      var i :| TokenAt(s, i) && r.value == s[i..i + IdLength];
      forall c | c in r.value ensures IdChar(c) {
        var j :| 0 <= j < |r.value| && r.value[j] == c;
        assert c == s[i + j];
      }
    }
  }

  /** A pattern cannot match where no lead-in can begin. */
  lemma {:induction false} NoLeadNoMatch(alts: seq<string>, s: string, p: int)
    requires forall k :: 0 <= k < |alts| ==> |alts[k]| > 0
    requires 0 <= p
    requires forall k :: 0 <= k < |alts| ==> p < |s| ==> s[p] != alts[k][0]
    ensures MatchAt(alts, s, p).None?
  {
    if alts != [] {
      NoLeadNoMatch(alts[1..], s, p);
    }
  }

  /** Positions that cannot start a match can be skipped. */
  lemma {:induction false} SearchSkips(alts: seq<string>, s: string, i: nat, p: nat)
    requires i <= p <= |s| + 1 && NoMatchBetween(alts, s, i, p)
    ensures SearchFrom(alts, s, i) == SearchFrom(alts, s, p)
    decreases p - i
  {
    if i < p {
      SearchSkips(alts, s, i + 1, p);
    }
  }

  /** A search over text in which no lead-in of the pattern can begin finds
      nothing. */
  lemma {:induction false} SearchMissesWithoutLead(alts: seq<string>, s: string)
    requires forall k :: 0 <= k < |alts| ==> |alts[k]| > 0
    requires forall k, p :: 0 <= k < |alts| && 0 <= p < |s| ==> s[p] != alts[k][0]
    ensures Search(alts, s).None?
  {
    forall q | 0 <= q < |s| + 1 ensures MatchAt(alts, s, q).None? {
      NoLeadNoMatch(alts, s, q);
    }
    SearchFromMeaning(alts, s, 0);
  }

  predicate IsToken(id: string) {
    |id| == IdLength && forall c :: c in id ==> IdChar(c)
  }

  lemma ShortLinkLead(lead: string)
    requires lead == "https://youtu.be/"
    ensures |lead| == 17 && lead[8..] == "youtu.be/"
    ensures forall q :: 0 <= q < 17 ==> lead[q] != '?' && lead[q] != '&'
    ensures forall q :: 0 <= q < 8 ==> lead[q] != 'y'
  {
  }

  /** `https://youtu.be/<id>` gives `<id>`: the `v=` pattern finds no `?` or
      `&` to start at, and the short-link pattern matches after the scheme. */
  lemma {:induction false} ShortLinkId(lead: string, id: string)
    requires lead == "https://youtu.be/" && IsToken(id)
    ensures VideoIdOf(lead + id) == Some(id)
  {
    var s := lead + id;
    ShortLinkLead(lead);
    forall q | 17 <= q < |s| ensures s[q] != '?' && s[q] != '&' {
      assert s[q] == id[q - 17];
      assert id[q - 17] in id;
    }
    SearchMissesWithoutLead(Patterns[0], s);
    var short := Patterns[1];
    assert short == ["youtu.be/"];
    forall q | 0 <= q < 8 ensures MatchAt(short, s, q).None? {
      assert s[q] == lead[q];
      NoLeadNoMatch(short, s, q);
    }
    SearchSkips(short, s, 0, 8);
    assert s[8..17] == lead[8..];
    assert TokenAt(s, 17) by {
      forall j | 17 <= j < 28 ensures IdChar(s[j]) {
        assert s[j] == id[j - 17];
        assert id[j - 17] in id;
      }
    }
    assert LeadAt(s, short[0], 8);
    assert s[17..28] == id;
    assert Search(short, s) == Some(id);
    assert Patterns[1..][0] == short;
  }

  lemma WatchLinkLead(lead: string)
    requires lead == "https://www.youtube.com/watch?v="
    ensures |lead| == 32 && lead[29..] == "?v="
    ensures forall q :: 0 <= q < 29 ==> lead[q] != '?' && lead[q] != '&'
  {
  }

  /** `https://www.youtube.com/watch?v=<id>` gives `<id>`, found by the first
      pattern. */
  lemma {:induction false} WatchLinkId(lead: string, id: string)
    requires lead == "https://www.youtube.com/watch?v=" && IsToken(id)
    ensures VideoIdOf(lead + id) == Some(id)
  {
    var s := lead + id;
    WatchLinkLead(lead);
    var query := Patterns[0];
    assert query == ["?v=", "&v="];
    forall q | 0 <= q < 29 ensures MatchAt(query, s, q).None? {
      assert s[q] == lead[q];
      NoLeadNoMatch(query, s, q);
    }
    SearchSkips(query, s, 0, 29);
    assert s[29..32] == lead[29..];
    assert TokenAt(s, 32) by {
      forall j | 32 <= j < 43 ensures IdChar(s[j]) {
        assert s[j] == id[j - 32];
        assert id[j - 32] in id;
      }
    }
    assert LeadAt(s, query[0], 29);
    assert s[32..43] == id;
  }

  // ---------------------------------------------------------------- history filters

  /** The keyword arguments `_collect_history_filters` builds for
      `list_downloads`; `None` stands for a key left out of the dict. */
  datatype HistoryFilters = HistoryFilters(
    statuses: Option<seq<string>>, limit: Option<int>, since: Option<string>, playlistId: Option<string>)

  /** `_parse_since_option`: nothing for a missing or empty value, otherwise
      the ISO text `parseIso` gives the value, `typer.BadParameter` when it
      cannot be parsed. The parser is a parameter. */
  function ParseSince(since: Option<string>, parseIso: string -> Option<string>): (r: Result<Option<string>, PyError>)
    ensures since.None? || since == Some("") ==> r == Ok(None)
    ensures r.Err? ==> r.error == BadParameter
  {
    if since.None? || since.value == "" then Ok(None)
    else if parseIso(since.value).None? then Err(BadParameter)
    else Ok(Some(parseIso(since.value).value))
  }

  /** The dict `_collect_history_filters` returns, as a value. */
  function Filters(status: Option<seq<string>>, limit: Option<int>, since: Option<string>, playlist: Option<string>,
                   parseIso: string -> Option<string>): (r: Result<HistoryFilters, PyError>)
    ensures r.Err? <==> ParseSince(since, parseIso).Err?
    ensures r.Ok? ==> var f := r.value;
      && (f.statuses.Some? <==> NonEmpty(status.GetOr([])) != [])
      && (f.statuses.Some? ==> f.statuses.value == NonEmpty(status.GetOr([])))
      && (f.limit.Some? <==> limit.Some? && limit.value > 0)
      && (f.limit.Some? ==> f.limit == limit)
      && (f.playlistId.Some? <==> Strip(playlist.GetOr("")) != "")
      && (f.playlistId.Some? ==> f.playlistId.value == Strip(playlist.GetOr("")))
      && (f.since.Some? ==> f.since.value != "" && ParseSince(since, parseIso) == Ok(f.since))
      && ((ParseSince(since, parseIso).Ok? && ParseSince(since, parseIso).value.Some?
           && ParseSince(since, parseIso).value.value != "")
          ==> f.since == ParseSince(since, parseIso).value)
  {
    var statuses := NonEmpty(status.GetOr([]));
    var parsed := ParseSince(since, parseIso);
    if parsed.Err? then Err(parsed.error)
    else
      var playlistId := Strip(playlist.GetOr(""));
      Ok(HistoryFilters(
        if statuses != [] then Some(statuses) else None,
        if limit.Some? && limit.value > 0 then limit else None,
        if parsed.value.Some? && parsed.value.value != "" then parsed.value else None,
        if playlistId != "" then Some(playlistId) else None))
  }

  /** `_collect_history_filters`: each key is added to the dict only when its
      value is worth filtering on. */
  method CollectHistoryFilters(status: Option<seq<string>>, limit: Option<int>, since: Option<string>,
                               playlist: Option<string>, parseIso: string -> Option<string>)
    returns (r: Result<HistoryFilters, PyError>)
    ensures r == Filters(status, limit, since, playlist, parseIso)
  {
    var items := status.GetOr([]);
    var statuses: seq<string> := [];
    var i := 0;
    while i < |items|
      invariant 0 <= i <= |items|
      invariant statuses + NonEmpty(items[i..]) == NonEmpty(items)
    {
      assert items[i..] == [items[i]] + items[i + 1..];
      assert items[i..][1..] == items[i + 1..];
      if items[i] != "" {
        statuses := statuses + [items[i]];
      }
      i := i + 1;
    }
    assert items[i..] == [];
    assert statuses == NonEmpty(items);
    var filters := HistoryFilters(None, None, None, None);
    if statuses != [] {
      filters := filters.(statuses := Some(statuses));
    }
    if limit.Some? && limit.value > 0 {
      filters := filters.(limit := limit);
    }
    var parsed := ParseSince(since, parseIso);
    if parsed.Err? {
      return Err(parsed.error);
    }
    if parsed.value.Some? && parsed.value.value != "" {
      filters := filters.(since := parsed.value);
    }
    var playlistId := Strip(playlist.GetOr(""));
    if playlistId != "" {
      filters := filters.(playlistId := Some(playlistId));
    }
    return Ok(filters);
  }

  /** The arguments `list_downloads(**filters)` receives. */
  function ToListFilter(f: HistoryFilters): ListFilter {
    ListFilter(f.statuses.GetOr([]), f.limit, f.since, f.playlistId)
  }

  /** Two filters that select the same rows give the same selection. */
  lemma {:induction false} WhereSame(rs: seq<Row>, f: ListFilter, g: ListFilter)
    requires forall x :: x in rs ==> (Selected(x, f) <==> Selected(x, g))
    ensures Where(rs, f) == Where(rs, g)
  {
    if rs != [] {
      assert forall x :: x in rs[1..] ==> x in rs;
      WhereSame(rs[1..], f, g);
    }
  }

  /** Dropping empty statuses before `list_downloads` drops them again keeps
      the same statuses. */
  lemma StatusesSame(raw: seq<string>)
    ensures var kept := if NonEmpty(raw) != [] then NonEmpty(raw) else [];
      (forall s :: s in NonEmpty(kept) <==> s in NonEmpty(raw)) && (NonEmpty(kept) == [] <==> NonEmpty(raw) == [])
  {
    var kept := if NonEmpty(raw) != [] then NonEmpty(raw) else [];
    if NonEmpty(kept) != [] {
      assert NonEmpty(kept)[0] in NonEmpty(raw);
    }
    if NonEmpty(raw) != [] {
      var first := NonEmpty(raw)[0];
      assert first in NonEmpty(raw);
      assert first in kept && first != "";
      assert first in NonEmpty(kept);
    }
  }

  /** Building the filters in the CLI lists exactly the rows `list_downloads`
      lists for the raw options with the playlist trimmed: leaving out empty
      statuses, a limit that is not positive or an empty playlist changes
      nothing about the result. */
  lemma {:induction false} FiltersListSame(rs: seq<Row>, status: Option<seq<string>>, limit: Option<int>,
                                           since: Option<string>, playlist: Option<string>,
                                           parseIso: string -> Option<string>)
    requires Filters(status, limit, since, playlist, parseIso).Ok?
    ensures var f := Filters(status, limit, since, playlist, parseIso).value;
      List(rs, ToListFilter(f)) ==
        List(rs, ListFilter(status.GetOr([]), limit, ParseSince(since, parseIso).value, Some(Strip(playlist.GetOr("")))))
  {
    var f := ToListFilter(Filters(status, limit, since, playlist, parseIso).value);
    var g := ListFilter(status.GetOr([]), limit, ParseSince(since, parseIso).value, Some(Strip(playlist.GetOr(""))));
    StatusesSame(status.GetOr([]));
    WhereSame(rs, f, g);
  }

  // ---------------------------------------------------------------- text helpers

  /** `_truncate_text(value, max_length)`, `…` being U+2026. */
  function TruncateText(value: string, maxLength: int): (r: string)
    ensures maxLength >= 0 ==> |r| <= maxLength
    ensures |value| <= maxLength ==> r == value
    ensures maxLength > 1 && |value| > maxLength ==> r == value[..maxLength - 1] + "\U{2026}"
    ensures 0 <= maxLength <= 1 && |value| > maxLength ==> r == value[..maxLength]
  {
    if |value| <= maxLength then value
    else if maxLength <= 1 then PyPrefix(value, maxLength)
    else PyPrefix(value, maxLength - 1) + "\U{2026}"
  }

  /** Truncating twice to the same width is truncating once. */
  lemma TruncateIdempotent(value: string, maxLength: nat)
    ensures TruncateText(TruncateText(value, maxLength), maxLength) == TruncateText(value, maxLength)
  {
  }

  /** A text cell that is neither NULL nor empty, hence truthy. */
  predicate Filled(a: Option<string>) {
    a.Some? && a.value != ""
  }

  /** Python's `a or b` on two text cells. */
  function OrText(a: Option<string>, b: Option<string>): Option<string> {
    if a.Some? && a.value != "" then a else b
  }

  /** What `_history_value` looks up: a plain column, the finish time with
      the start time as fallback, or the playlist title with the id as
      fallback. */
  datatype DisplayKey = Plain(column: Column) | FinishedKey | PlaylistKey

  /** The text of a cell, `None` for NULL. */
  function CellText(r: Row, c: Column): Option<string> {
    match c
    case VideoIdColumn => Some(r.videoId)
    case UrlColumn => Some(r.url)
    case TitleColumn => r.title
    case StatusColumn => Some(r.status)
    case StartedAtColumn => r.startedAt
    case FinishedAtColumn => r.finishedAt
    case FilePathColumn => r.filePath
    case ErrorColumn => r.error
    case PlaylistIdColumn => r.playlistId
    case PlaylistTitleColumn => r.playlistTitle
    case RetryCountColumn => Some(IntToString(r.retryCount))
    case LastActionColumn => r.lastAction
  }

  const Dash := "\U{2014}"

  /** `_history_value(entry, key)`: the cell text, or an em dash for NULL and
      for the empty string. */
  function HistoryValue(r: Row, k: DisplayKey): (v: string)
    ensures v != ""
    ensures k.Plain? && Filled(CellText(r, k.column)) ==> v == CellText(r, k.column).value
    ensures k.Plain? && !Filled(CellText(r, k.column)) ==> v == Dash
    ensures k.FinishedKey? && Filled(r.finishedAt) ==> v == r.finishedAt.value
    ensures k.FinishedKey? && !Filled(r.finishedAt) && Filled(r.startedAt) ==> v == r.startedAt.value
    ensures k.FinishedKey? && !Filled(r.finishedAt) && !Filled(r.startedAt) ==> v == Dash
    ensures k.PlaylistKey? && Filled(r.playlistTitle) ==> v == r.playlistTitle.value
    ensures k.PlaylistKey? && !Filled(r.playlistTitle) && Filled(r.playlistId) ==> v == r.playlistId.value
    ensures k.PlaylistKey? && !Filled(r.playlistTitle) && !Filled(r.playlistId) ==> v == Dash
  {
    var raw := match k
               case Plain(c) => CellText(r, c)
               case FinishedKey => OrText(r.finishedAt, r.startedAt)
               case PlaylistKey => OrText(r.playlistTitle, r.playlistId);
    if raw.None? || raw.value == "" then Dash else raw.value
  }

  /** The date column shows the key the history is sorted by, except that an
      empty finish time falls back to the start time. */
  lemma ShownDateIsSortKey(r: Row)
    requires r.finishedAt != Some("")
    ensures HistoryValue(r, FinishedKey) == if ListKey(r).None? || ListKey(r).value == "" then Dash else ListKey(r).value
  {
  }

  // ---------------------------------------------------------------- history show

  /** The key `history show` looks up first: the extracted id, or the
      argument itself. */
  function ShowCandidate(arg: string): (c: string)
    ensures VideoIdOf(arg).None? ==> c == arg
    ensures VideoIdOf(arg).Some? ==> c == VideoIdOf(arg).value
  {
    VideoIdOf(arg).GetOr(arg)
  }

  /** The record `history show` prints for `arg`: looked up by id, then, only
      when the id came out of a URL, by the argument as a URL. */
  function ShowLookup(rs: seq<Row>, arg: string): (r: Option<Row>)
    ensures r.Some? ==> r.value in rs
    ensures r.Some? ==> r.value.videoId == ShowCandidate(arg) || (ShowCandidate(arg) != arg && r.value.url == arg)
    ensures r.None? ==> forall x :: x in rs ==> x.videoId != ShowCandidate(arg) || ShowCandidate(arg) == ""
    ensures r.None? && ShowCandidate(arg) != arg ==> forall x :: x in rs ==> x.url != arg
  {
    var candidate := ShowCandidate(arg);
    var entry := Fetch(rs, Some(candidate), None);
    if entry.None? && candidate != arg then
      VideoIdIsToken(arg);
      assert arg != "";
      Fetch(rs, None, Some(arg))
    else entry
  }

  /** `history show`'s lookups on the store. */
  method HistoryShow(db: HistoryDb, arg: string) returns (entry: Option<Row>)
    requires db.Valid()
    modifies db
    ensures db.Valid()
    ensures db.State() == if ShowCandidate(arg) == "" then old(db.State()) else SchemaEnsured(old(db.State())).1
    ensures entry == ShowLookup(Snapshot(db.State()), arg)
  {
    var candidate := ShowCandidate(arg);
    entry := db.FetchDownload(Some(candidate), None);
    if entry.None? && candidate != arg {
      assert candidate != "" by { VideoIdIsToken(arg); }
      SchemaIdempotent(old(db.State()));
      entry := db.FetchDownload(None, Some(arg));
    }
  }
}
