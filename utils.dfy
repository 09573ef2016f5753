/** The pure helpers of `ytd/utils.py`: a Windows-safe file name, the height
    nearest a target, the file-name suffix of a chosen quality, and metadata
    stripped down to what JSON can hold. */
module Utils {
  import opened Wrappers
  import opened PyText
  import opened Values
  import opened Paths

  // ---------------------------------------------------------------------
  // sanitize_filename

  /** The characters Windows refuses in a file name (`_INVALID_CHARS`). */
  predicate IsInvalid(c: char) {
    c in "<>:/\\|?*\""
  }

  /** The control characters U+0000 to U+001F (`_CONTROL_RE`). */
  predicate IsControl(c: char) {
    c <= '\U{1f}'
  }

  /** `_INVALID_RE.sub("_", s)` */
  function ReplaceInvalid(s: string): (r: string)
    ensures |r| == |s|
    ensures forall i :: 0 <= i < |s| ==> r[i] == if IsInvalid(s[i]) then '_' else s[i]
  {
    if s == [] then [] else [if IsInvalid(s[0]) then '_' else s[0]] + ReplaceInvalid(s[1..])
  }

  /** `_CONTROL_RE.sub("", s)`: the characters of `s` that are not control
      characters, in their order. */
  function RemoveControl(s: string): (r: string)
    ensures |r| <= |s|
    ensures forall c :: c in r <==> c in s && !IsControl(c)
    ensures (forall i :: 0 <= i < |s| ==> !IsControl(s[i])) ==> r == s
  {
    if s == [] then []
    else
      var rest := RemoveControl(s[1..]);
      assert forall c :: c in s <==> c == s[0] || c in s[1..];
      if IsControl(s[0]) then rest else [s[0]] + rest
  }

  /** `s.strip().rstrip(". ")`: a piece of `s` that neither starts with
      whitespace nor ends with a dot or a space. */
  function Trim(s: string): (r: string)
    ensures |r| <= |s|
    ensures forall c :: c in r ==> c in s
    ensures r != [] ==> !IsSpace(r[0]) && r[|r| - 1] != '.' && r[|r| - 1] != ' '
  {
    var l := LStrip(s);
    var t := RStrip(l);
    var r := RStripChars(t, {'.', ' '});
    TrimPieces(s, l, t, r);
    r
  }

  /** A prefix of a prefix of a suffix of `s` draws its characters from `s`
      and starts where the suffix does. */
  lemma TrimPieces(s: string, l: string, t: string, r: string)
    requires |l| <= |s| && l == s[|s| - |l|..]
    requires |t| <= |l| && t == l[..|t|]
    requires |r| <= |t| && r == t[..|r|]
    ensures forall c :: c in r ==> c in s
    ensures r != [] ==> r[0] == l[0]
  {
    assert forall c :: c in r ==> c in t;
    assert forall c :: c in t ==> c in l;
    assert forall c :: c in l ==> c in s;
  }

  /** The cleaned stem: invalid characters replaced by `_`, control
      characters dropped, surrounding whitespace and trailing dots and spaces
      removed, and `_` when nothing is left. */
  function CleanStem(s: string): (r: string)
    ensures r != []
    ensures forall c :: c in r ==> !IsInvalid(c) && !IsControl(c)
    ensures !IsSpace(r[0]) && r[|r| - 1] != '.' && r[|r| - 1] != ' '
  {
    var replaced := ReplaceInvalid(s);
    assert forall c :: c in replaced ==> !IsInvalid(c);
    var t := Trim(RemoveControl(replaced));
    if t == [] then "_" else t
  }

  /** `_RESERVED`: the device names Windows reserves. */
  predicate IsReserved(s: string) {
    || s == "CON" || s == "PRN" || s == "AUX" || s == "NUL"
    || (|s| == 4 && (s[..3] == "COM" || s[..3] == "LPT") && '1' <= s[3] <= '9')
  }

  /** The stem with `_` appended when, upper-cased, it is a reserved name. */
  function SafeStem(stem: string): (r: string)
    ensures IsReserved(Upper(stem)) ==> r == stem + "_"
    ensures !IsReserved(Upper(stem)) ==> r == stem
  {
    if IsReserved(Upper(stem)) then stem + "_" else stem
  }

  /** `Path(name).suffix` */
  function ExtOf(name: string): string {
    Suffix(Name(name))
  }

  /** What is cleaned as the stem: `Path(name).stem` when there is a suffix,
      the whole `str(Path(name))` when there is none. */
  function BaseOf(name: string): string {
    var last := Name(name);
    if Suffix(last) != "" then Stem(last) else Normalize(name)
  }

  /** The safe name before the length limit: the cleaned and reserved-safe
      stem with the suffix put back, trimmed once more, `_` when empty. */
  function Assembled(base: string, ext: string): (r: string)
    ensures r != []
    ensures !IsSpace(r[0]) && r[|r| - 1] != '.' && r[|r| - 1] != ' '
  {
    var safe := Trim(SafeStem(CleanStem(base)) + ext);
    if safe == [] then "_" else safe
  }

  /** The length limit: a name longer than 255 characters is cut to 255,
      keeping a suffix `ext` shorter than 20 characters at its end. */
  function Limit(safe: string, ext: string): (r: string)
    ensures |r| <= 255
    ensures |safe| <= 255 ==> r == safe
    ensures |safe| > 255 ==> |r| == 255
    ensures |safe| > 255 && 0 < |ext| < 20 ==> EndsWith(r, ext) && StartsWith(safe, r[..255 - |ext|])
    ensures |safe| > 255 && !(0 < |ext| < 20) ==> StartsWith(safe, r)
  {
    if |safe| > 255 then
      if ext != "" && |ext| < 20 then
        var r := safe[..255 - |ext|] + ext;
        assert r[..255 - |ext|] == safe[..255 - |ext|];
        assert r[|r| - |ext|..] == ext;
        r
      else safe[..255]
    else safe
  }

  /** `sanitize_filename(name)`: empty for the empty name, otherwise the
      assembled name within the length limit. */
  function SanitizeFilename(name: string): (r: string)
    ensures r == "" <==> name == ""
    ensures |r| <= 255
    ensures r != "" && |r| < 255 ==> !IsSpace(r[0]) && r[|r| - 1] != '.' && r[|r| - 1] != ' '
  {
    if name == "" then ""
    else
      var ext := ExtOf(name);
      var safe := Assembled(BaseOf(name), ext);
      LimitKeepsNonEmpty(safe, ext);
      Limit(safe, ext)
  }

  /** Only a name longer than the limit is cut, and a cut one has exactly
      255 characters: a shorter result is the assembled name itself. */
  lemma LimitKeepsNonEmpty(safe: string, ext: string)
    requires safe != []
    ensures Limit(safe, ext) != []
    ensures |Limit(safe, ext)| < 255 ==> Limit(safe, ext) == safe
  {
  }

  /** `sanitize_filename` as written keeps the suffix as it is: in
      `a.b:c` the suffix is `.b:c`, so the colon survives. */
  lemma SanitizeKeepsInvalidSuffix()
    ensures ':' in SanitizeFilename("a.b:c")
  {
    var name := "a.b:c";
    SplitOfColon();
    AssembledColon();
    var safe := Assembled(BaseOf(name), ExtOf(name));
    assert safe == name;
    assert Limit(safe, ExtOf(name)) == name;
    assert name[3] == ':';
  }

  lemma AssembledColon()
    ensures Assembled("a", ".b:c") == "a.b:c"
  {
    StemOfA();
    var ext := ".b:c";
    assert "a" + ext == "a.b:c";
    TrimOfColon();
    AssembledAsIs("a", ext, "a");
  }

  /** A stem that cleans to itself followed by a suffix that trimming leaves
      alone is put together unchanged. */
  lemma AssembledAsIs(base: string, ext: string, stem: string)
    requires SafeStem(CleanStem(base)) == stem
    requires Trim(stem + ext) == stem + ext && stem != []
    ensures Assembled(base, ext) == stem + ext
  {
  }

  lemma StemOfA()
    ensures SafeStem(CleanStem("a")) == "a"
  {
    CleanOfPlain("a");
    assert !IsReserved(Upper("a"));
  }

  lemma TrimOfColon()
    ensures Trim("a.b:c") == "a.b:c"
  {
    var s := "a.b:c";
    assert !IsSpace(s[0]) && !IsSpace(s[1]) && !IsSpace(s[2]) && !IsSpace(s[3]) && !IsSpace(s[4]);
    TrimOfTrimmed(s);
  }

  /** How `Path` splits `a.b:c`: suffix `.b:c`, stem `a`. */
  lemma SplitOfColon()
    ensures ExtOf("a.b:c") == ".b:c" && BaseOf("a.b:c") == "a"
  {
    var name := "a.b:c";
    NameOfPlain(name);
    LastDotOfColon();
    assert name[1..] == ".b:c" && name[..1] == "a";
  }

  lemma LastDotOfColon()
    ensures LastDot("a.b:c") == 1
  {
    assert "a.b:c"[..4] == "a.b:" && "a.b:"[..3] == "a.b" && "a.b"[..2] == "a.";
    assert LastDot("a.") == 1;
    assert LastDot("a.b") == 1;
    assert LastDot("a.b:") == 1;
  }

  /** The suffix cleaned the way the stem is: invalid characters replaced by
      `_`, control characters dropped. */
  function CleanSuffix(ext: string): (r: string)
    ensures AllSafe(r)
    ensures AllSafe(ext) ==> r == ext
  {
    var replaced := ReplaceInvalid(ext);
    assert forall c :: c in replaced ==> !IsInvalid(c);
    if AllSafe(ext) then
      assert replaced == ext;
      RemoveControl(replaced)
    else RemoveControl(replaced)
  }

  /** `sanitize_filename` as its documentation describes it: the suffix is
      cleaned too, so no invalid or control character is left anywhere in
      the result. */
  function SanitizeFilenameIntended(name: string): (r: string)
    ensures r == "" <==> name == ""
    ensures |r| <= 255
    ensures AllSafe(r)
  {
    if name == "" then ""
    else
      var ext := CleanSuffix(ExtOf(name));
      var safe := Assembled(BaseOf(name), ext);
      AssembledClean(BaseOf(name), ext);
      LimitKeepsNonEmpty(safe, ext);
      LimitChars(safe, ext);
      Limit(safe, ext)
  }

  /** No character of `s` is invalid or a control character. */
  predicate AllSafe(s: string) {
    forall c :: c in s ==> !IsInvalid(c) && !IsControl(c)
  }

  lemma AllSafeJoin(a: string, b: string)
    requires AllSafe(a) && AllSafe(b)
    ensures AllSafe(a + b)
  {
    assert forall c :: c in a + b ==> c in a || c in b;
  }

  lemma AllSafeWithin(r: string, s: string)
    requires AllSafe(s) && forall c :: c in r ==> c in s
    ensures AllSafe(r)
  {
  }

  lemma UnderscoreSafe()
    ensures AllSafe("_")
  {
    assert forall c :: c in "_" ==> c == '_';
  }

  /** A cleaned suffix after a cleaned stem leaves nothing invalid. */
  lemma AssembledClean(base: string, ext: string)
    requires AllSafe(ext)
    ensures AllSafe(Assembled(base, ext))
  {
    var clean := CleanStem(base);
    var stem := SafeStem(clean);
    UnderscoreSafe();
    if stem != clean {
      AllSafeJoin(clean, "_");
    }
    var joined := stem + ext;
    AllSafeJoin(stem, ext);
    var t := Trim(joined);
    AllSafeWithin(t, joined);
  }

  /** The length limit only keeps characters of the name and its suffix. */
  lemma LimitChars(safe: string, ext: string)
    ensures forall c :: c in Limit(safe, ext) ==> c in safe || c in ext
  {
    if |safe| > 255 {
      if ext != "" && |ext| < 20 {
        var p := safe[..255 - |ext|];
        assert forall c :: c in p ==> c in safe;
        assert forall c :: c in p + ext ==> c in p || c in ext;
      } else {
        assert forall c :: c in safe[..255] ==> c in safe;
      }
    }
  }

  /** Where the suffix holds nothing invalid, the intended and the written
      function agree. */
  lemma SanitizeIntendedAgrees(name: string)
    requires AllSafe(ExtOf(name))
    ensures SanitizeFilenameIntended(name) == SanitizeFilename(name)
  {
    if name != "" {
      var ext := ExtOf(name);
      assert CleanSuffix(ext) == ext;
    }
  }

  /** ASCII letters and digits. */
  predicate IsAlnum(c: char) {
    'A' <= c <= 'Z' || 'a' <= c <= 'z' || '0' <= c <= '9'
  }

  /** The reserved names are spelt with capital letters and digits. */
  lemma ReservedSpelling(u: string)
    requires IsReserved(u)
    ensures |u| >= 3 && forall i :: 0 <= i < |u| ==> 'A' <= u[i] <= 'Z' || '1' <= u[i] <= '9'
  {
    if |u| == 4 && (u[..3] == "COM" || u[..3] == "LPT") {
      assert u[0] == u[..3][0] && u[1] == u[..3][1] && u[2] == u[..3][2];
    }
  }

  /** Only ASCII letters and digits upper-case to capital letters and digits. */
  lemma UpperLetter(c: char, u: char)
    requires u == UpperChar(c) && ('A' <= u <= 'Z' || '1' <= u <= '9')
    ensures IsAlnum(c)
  {
  }

  /** A name whose upper-case form is reserved is made of ASCII letters and
      digits. */
  lemma ReservedIsAlnum(stem: string)
    requires IsReserved(Upper(stem))
    ensures |stem| >= 3 && forall i :: 0 <= i < |stem| ==> IsAlnum(stem[i])
  {
    var u := Upper(stem);
    ReservedSpelling(u);
    forall i | 0 <= i < |stem|
      ensures IsAlnum(stem[i])
    {
      UpperLetter(stem[i], u[i]);
    }
  }

  /** A name without `/` other than `.` and the empty one is its own last
      part and its own `str(Path(...))`. */
  lemma NameOfPlain(s: string)
    requires s != "" && s != "." && '/' !in s
    ensures Name(s) == s && Normalize(s) == s
  {
    assert Split(s, '/') == [s];
    assert KeepParts([s]) == [s] + KeepParts([]);
    assert Parts(s) == [s];
    assert !StartsWith(s, "/") by {
      assert s[0] != '/';
    }
  }

  /** `LastDot` finds the dot at `k` when no later character is a dot. */
  lemma {:induction false} BackToDot(name: string, k: nat)
    requires k < |name| && name[k] == '.' && forall j :: k < j < |name| ==> name[j] != '.'
    ensures LastDot(name) == k
    decreases |name|
  {
    if |name| - 1 != k {
      var front := name[..|name| - 1];
      assert front[k] == '.';
      BackToDot(front, k);
    }
  }

  /** `LastDot` finds nothing in a name without dots. */
  lemma {:induction false} NoDot(name: string)
    requires forall j :: 0 <= j < |name| ==> name[j] != '.'
    ensures LastDot(name) == -1
    decreases |name|
  {
    if name != [] {
      NoDot(name[..|name| - 1]);
    }
  }

  /** A text without whitespace that does not end with a dot or a space is left
      alone by `strip().rstrip(". ")`. */
  lemma TrimOfTrimmed(s: string)
    requires forall i :: 0 <= i < |s| ==> !IsSpace(s[i])
    requires s != [] ==> s[|s| - 1] != '.' && s[|s| - 1] != ' '
    ensures Trim(s) == s
  {
    if s != [] {
      assert !IsSpace(s[0]) && !IsSpace(s[|s| - 1]);
      assert LStrip(s) == s;
      assert RStrip(s) == s;
      assert RStripChars(s, {'.', ' '}) == s;
    }
  }

  /** A stem of ASCII letters and digits is already clean. */
  lemma CleanOfPlain(stem: string)
    requires stem != [] && forall i :: 0 <= i < |stem| ==> IsAlnum(stem[i])
    ensures CleanStem(stem) == stem
  {
    assert forall i :: 0 <= i < |stem| ==> !IsInvalid(stem[i]) && !IsControl(stem[i]) && !IsSpace(stem[i]);
    assert ReplaceInvalid(stem) == stem;
    assert RemoveControl(stem) == stem;
    TrimOfTrimmed(stem);
  }

  /** How `Path` splits a stem of letters and digits with an optional suffix
      of letters and digits. */
  lemma SplitOfPlain(stem: string, ext: string)
    requires |stem| >= 1 && forall i :: 0 <= i < |stem| ==> IsAlnum(stem[i])
    requires ext == "" || (2 <= |ext| && ext[0] == '.' && forall i :: 1 <= i < |ext| ==> IsAlnum(ext[i]))
    ensures ExtOf(stem + ext) == ext && BaseOf(stem + ext) == stem
  {
    var name := stem + ext;
    PlainHasNoSlash(stem, ext);
    NameOfPlain(name);
    if ext == "" {
      assert name == stem;
      NoDot(stem);
    } else {
      DotOfPlain(stem, ext);
    }
  }

  lemma PlainHasNoSlash(stem: string, ext: string)
    requires |stem| >= 1 && forall i :: 0 <= i < |stem| ==> IsAlnum(stem[i])
    requires ext == "" || (2 <= |ext| && ext[0] == '.' && forall i :: 1 <= i < |ext| ==> IsAlnum(ext[i]))
    ensures '/' !in stem + ext && stem + ext != "."
  {
    var name := stem + ext;
    assert name[0] == stem[0];
    forall i | 0 <= i < |name| ensures name[i] != '/' {
      if i < |stem| {
        assert name[i] == stem[i];
      } else {
        assert name[i] == ext[i - |stem|];
      }
    }
  }

  /** The last dot of such a name is the one that starts its suffix. */
  lemma DotOfPlain(stem: string, ext: string)
    requires |stem| >= 1 && forall i :: 0 <= i < |stem| ==> IsAlnum(stem[i])
    requires 2 <= |ext| && ext[0] == '.' && forall i :: 1 <= i < |ext| ==> IsAlnum(ext[i])
    ensures Suffix(stem + ext) == ext && Stem(stem + ext) == stem
  {
    var name := stem + ext;
    forall j | |stem| < j < |name| ensures name[j] != '.' {
      assert name[j] == ext[j - |stem|];
    }
    assert name[|stem|] == ext[0];
    BackToDot(name, |stem|);
    assert name[|stem|..] == ext && name[..|stem|] == stem;
  }

  /** A stem and a suffix of ASCII letters and digits (the suffix after its
      dot) go through cleaning as they are, with `_` after a reserved stem. */
  lemma AssembledOfPlain(stem: string, ext: string)
    requires |stem| >= 1 && forall i :: 0 <= i < |stem| ==> IsAlnum(stem[i])
    requires ext == "" || (2 <= |ext| && ext[0] == '.' && forall i :: 1 <= i < |ext| ==> IsAlnum(ext[i]))
    ensures Assembled(stem, ext) == SafeStem(stem) + ext
  {
    CleanOfPlain(stem);
    var safe := SafeStem(stem);
    assert forall i :: 0 <= i < |stem| ==> safe[i] == stem[i];
    TrimOfPlain(safe, ext);
  }

  /** A non-empty stem of letters, digits and `_`, followed by a suffix of
      letters and digits, is left alone by `strip().rstrip(". ")`. */
  lemma TrimOfPlain(safe: string, ext: string)
    requires |safe| >= 1 && forall i :: 0 <= i < |safe| ==> safe[i] == '_' || IsAlnum(safe[i])
    requires ext == "" || (2 <= |ext| && ext[0] == '.' && forall i :: 1 <= i < |ext| ==> IsAlnum(ext[i]))
    ensures Trim(safe + ext) == safe + ext
  {
    var full := safe + ext;
    forall i | 0 <= i < |full|
      ensures !IsSpace(full[i])
    {
      if i < |safe| {
        assert full[i] == safe[i];
      } else if i > |safe| {
        assert full[i] == ext[i - |safe|];
      }
    }
    assert full[|full| - 1] == if ext == "" then safe[|safe| - 1] else ext[|ext| - 1];
    TrimOfTrimmed(full);
  }

  /** A reserved device name in any case, with or without a suffix of ASCII
      letters and digits, gets `_` before the suffix: `CON` becomes `CON_`,
      `con.txt` becomes `con_.txt`. */
  lemma ReservedNameGetsUnderscore(stem: string, ext: string)
    requires IsReserved(Upper(stem))
    requires ext == "" || (2 <= |ext| < 20 && ext[0] == '.' && forall i :: 1 <= i < |ext| ==> IsAlnum(ext[i]))
    ensures SanitizeFilename(stem + ext) == stem + "_" + ext
  {
    ReservedIsAlnum(stem);
    SplitOfPlain(stem, ext);
    AssembledOfPlain(stem, ext);
    assert |stem + "_" + ext| <= 255;
  }

  /** A long name of ASCII letters and digits with a short suffix is cut to
      255 characters and keeps its suffix: 300 letters followed by `.mp4`
      give 251 letters followed by `.mp4`. */
  lemma LongNameKeepsSuffix(stem: string, ext: string)
    requires |stem| > 4 && forall i :: 0 <= i < |stem| ==> IsAlnum(stem[i])
    requires 2 <= |ext| < 20 && ext[0] == '.' && forall i :: 1 <= i < |ext| ==> IsAlnum(ext[i])
    requires |stem| + |ext| > 255
    ensures SanitizeFilename(stem + ext) == stem[..255 - |ext|] + ext
    ensures |SanitizeFilename(stem + ext)| == 255 && EndsWith(SanitizeFilename(stem + ext), ext)
  {
    SplitOfPlain(stem, ext);
    assert !IsReserved(Upper(stem));
    AssembledOfPlain(stem, ext);
    LimitOfLong(stem, ext);
  }

  lemma LimitOfLong(stem: string, ext: string)
    requires 0 < |ext| < 20 && |stem| + |ext| > 255
    ensures Limit(stem + ext, ext) == stem[..255 - |ext|] + ext
  {
    assert (stem + ext)[..255 - |ext|] == stem[..255 - |ext|];
  }

  // ---------------------------------------------------------------------
  // find_best_quality_match

  /** `max(xs)` */
  function Max(xs: seq<int>): (m: int)
    requires xs != []
    ensures m in xs && forall x :: x in xs ==> x <= m
  {
    if |xs| == 1 then xs[0]
    else
      var rest := Max(xs[1..]);
      assert forall x :: x in xs ==> x == xs[0] || x in xs[1..];
      if xs[0] >= rest then xs[0] else rest
  }

  /** `min(xs)` */
  function Min(xs: seq<int>): (m: int)
    requires xs != []
    ensures m in xs && forall x :: x in xs ==> m <= x
  {
    if |xs| == 1 then xs[0]
    else
      var rest := Min(xs[1..]);
      assert forall x :: x in xs ==> x == xs[0] || x in xs[1..];
      if xs[0] <= rest then xs[0] else rest
  }

  /** `[h for h in xs if h <= t]` */
  function AtMost(xs: seq<int>, t: int): (r: seq<int>)
    ensures forall x :: x in r <==> x in xs && x <= t
  {
    if xs == [] then []
    else
      assert forall x :: x in xs ==> x == xs[0] || x in xs[1..];
      (if xs[0] <= t then [xs[0]] else []) + AtMost(xs[1..], t)
  }

  /** `[h for h in xs if h >= t]` */
  function AtLeast(xs: seq<int>, t: int): (r: seq<int>)
    ensures forall x :: x in r <==> x in xs && x >= t
  {
    if xs == [] then []
    else
      assert forall x :: x in xs ==> x == xs[0] || x in xs[1..];
      (if xs[0] >= t then [xs[0]] else []) + AtLeast(xs[1..], t)
  }

  /** `h` is the largest of `xs` at most `t`. */
  predicate LargestAtMost(h: int, xs: seq<int>, t: int) {
    h in xs && h <= t && forall x :: x in xs && x <= t ==> x <= h
  }

  /** `h` is the smallest of `xs` at least `t`. */
  predicate SmallestAtLeast(h: int, xs: seq<int>, t: int) {
    h in xs && h >= t && forall x :: x in xs && x >= t ==> h <= x
  }

  /** `h` is the largest of `xs`. */
  predicate Largest(h: int, xs: seq<int>) {
    h in xs && forall x :: x in xs ==> x <= h
  }

  /** `find_best_quality_match(available_heights, target_height, strategy)`:
      nothing for no heights; the largest for no target; the target when it
      is available; otherwise, under `rich`, the largest height (which is then
      above the target when any is), and under any other strategy the largest
      below the target, else the smallest above it. */
  function FindBestQualityMatch(heights: seq<int>, target: Option<int>, strategy: string): (r: Option<int>)
    ensures r.Some? <==> heights != []
    ensures r.Some? ==> r.value in heights
    ensures heights != [] && target.None? ==> Largest(r.value, heights)
    ensures target.Some? && target.value in heights ==> r == target
    ensures heights != [] && target.Some? && target.value !in heights && strategy == "rich" ==>
              Largest(r.value, heights)
              && ((exists x :: x in heights && x >= target.value) <==> r.value > target.value)
    ensures heights != [] && target.Some? && target.value !in heights && strategy != "rich" ==>
              ((exists x :: x in heights && x <= target.value) ==> LargestAtMost(r.value, heights, target.value))
              && ((forall x :: x in heights ==> x > target.value) ==> SmallestAtLeast(r.value, heights, target.value))
  {
    if heights == [] then None
    else if target.None? then Some(Max(heights))
    else
      var t := target.value;
      if t in heights then target
      else
        var lower := AtMost(heights, t);
        var higher := AtLeast(heights, t);
        assert heights[0] in lower || heights[0] in higher;
        if strategy == "rich" then
          if higher != [] then Some(Max(higher))
          else Some(Max(lower))
        else
          if lower != [] then Some(Max(lower))
          else Some(Min(higher))
  }

  // ---------------------------------------------------------------------
  // extract_quality_suffix

  /** The two searches the function makes: `(\d{3,4})p` in the label and
      `height<=(\d{3,4})` in the format. */
  datatype Pattern = HeightInLabel | HeightInFormat

  /** `n` ASCII digits start at `i` (Python's `\d` also takes other decimal
      digits; the program's labels and formats only hold ASCII ones). */
  predicate DigitsAt(s: string, i: int, n: nat) {
    0 <= i && i + n <= |s| && forall k :: i <= k < i + n ==> IsDigit(s[k])
  }

  /** The captured digits of a match of `p` that starts at `i`, if one
      does; the greedy `{3,4}` tries four digits before three. */
  function MatchAt(p: Pattern, s: string, i: nat): (r: Option<string>)
    ensures r.Some? ==> 3 <= |r.value| <= 4 && forall k :: 0 <= k < |r.value| ==> IsDigit(r.value[k])
  {
    match p
    case HeightInLabel =>
      if DigitsAt(s, i, 4) && i + 4 < |s| && s[i + 4] == 'p' then Some(s[i..i + 4])
      else if DigitsAt(s, i, 3) && i + 3 < |s| && s[i + 3] == 'p' then Some(s[i..i + 3])
      else None
    case HeightInFormat =>
      if OccursAt(s, "height<=", i) && DigitsAt(s, i + 8, 3) then
        if DigitsAt(s, i + 8, 4) then Some(s[i + 8..i + 12]) else Some(s[i + 8..i + 11])
      else None
  }

  /** `re.search(p, s[i:])`: the digits captured by the leftmost match at or
      after `i`. */
  function Search(p: Pattern, s: string, i: nat): (r: Option<string>)
    requires i <= |s|
    ensures r.None? <==> forall j :: i <= j <= |s| ==> MatchAt(p, s, j).None?
    ensures r.Some? ==> exists j :: i <= j <= |s| && MatchAt(p, s, j) == r
                                    && forall k :: i <= k < j ==> MatchAt(p, s, k).None?
    decreases |s| - i
  {
    if MatchAt(p, s, i).Some? then MatchAt(p, s, i)
    else if i == |s| then None
    else Search(p, s, i + 1)
  }

  /** A height suffix is neither `_best` nor `_audio`. */
  lemma HeightSuffixDistinct(d: string)
    requires 3 <= |d| <= 4 && forall k :: 0 <= k < |d| ==> IsDigit(d[k])
    ensures "_" + d + "p" != "_best" && "_" + d + "p" != "_audio"
  {
    assert ("_" + d + "p")[1] == d[0];
  }

  /** `extract_quality_suffix(format_choice, format_label)` as written: a
      height in the label, else `_audio` when the label mentions audio or the
      format mentions `bestaudio`, else a height in the format, else
      `_best`. */
  function ExtractQualitySuffix(choice: string, caption: string): (r: string)
    ensures Search(HeightInLabel, caption, 0).Some? ==> r == "_" + Search(HeightInLabel, caption, 0).value + "p"
    ensures Search(HeightInLabel, caption, 0).None? && (Contains(Lower(caption), "audio") || Contains(choice, "bestaudio"))
            ==> r == "_audio"
    ensures Search(HeightInLabel, caption, 0).None? && !Contains(Lower(caption), "audio")
            && !Contains(choice, "bestaudio") && Search(HeightInFormat, choice, 0).Some?
            ==> r == "_" + Search(HeightInFormat, choice, 0).value + "p"
    ensures r == "_best" <==>
              Search(HeightInLabel, caption, 0).None? && !Contains(Lower(caption), "audio")
              && !Contains(choice, "bestaudio") && Search(HeightInFormat, choice, 0).None?
  {
    var found := Search(HeightInLabel, caption, 0);
    if found.Some? then
      HeightSuffixDistinct(found.value);
      "_" + found.value + "p"
    else if Contains(Lower(caption), "audio") || Contains(choice, "bestaudio") then "_audio"
    else
      var format := Search(HeightInFormat, choice, 0);
      if format.Some? then
        HeightSuffixDistinct(format.value);
        "_" + format.value + "p"
      else "_best"
  }

  /** The same with the audio test the comment describes, "audio only": a
      format that asks for `bestaudio` counts as audio only when it asks for
      no `bestvideo`. */
  function ExtractQualitySuffixIntended(choice: string, caption: string): (r: string)
    ensures Search(HeightInLabel, caption, 0).Some? ==> r == "_" + Search(HeightInLabel, caption, 0).value + "p"
    ensures Search(HeightInLabel, caption, 0).None?
            && (Contains(Lower(caption), "audio") || (Contains(choice, "bestaudio") && !Contains(choice, "bestvideo")))
            ==> r == "_audio"
    ensures Contains(choice, "bestvideo") && !Contains(Lower(caption), "audio") ==> r != "_audio"
    ensures Search(HeightInLabel, caption, 0).None? && !Contains(Lower(caption), "audio")
            && !(Contains(choice, "bestaudio") && !Contains(choice, "bestvideo"))
            && Search(HeightInFormat, choice, 0).Some?
            ==> r == "_" + Search(HeightInFormat, choice, 0).value + "p"
    ensures r == "_best" <==>
              Search(HeightInLabel, caption, 0).None? && !Contains(Lower(caption), "audio")
              && !(Contains(choice, "bestaudio") && !Contains(choice, "bestvideo"))
              && Search(HeightInFormat, choice, 0).None?
  {
    var found := Search(HeightInLabel, caption, 0);
    if found.Some? then
      HeightSuffixDistinct(found.value);
      "_" + found.value + "p"
    else if Contains(Lower(caption), "audio") || (Contains(choice, "bestaudio") && !Contains(choice, "bestvideo")) then "_audio"
    else
      var format := Search(HeightInFormat, choice, 0);
      if format.Some? then
        HeightSuffixDistinct(format.value);
        "_" + format.value + "p"
      else "_best"
  }

  /** The leftmost match is the first position that matches. */
  lemma {:induction false} SearchFinds(p: Pattern, s: string, i: nat, k: nat)
    requires i <= k <= |s|
    requires forall j :: i <= j < k ==> MatchAt(p, s, j).None?
    requires MatchAt(p, s, k).Some?
    ensures Search(p, s, i) == MatchAt(p, s, k)
    decreases k - i
  {
    if i < k {
      SearchFinds(p, s, i + 1, k);
    }
  }

  /** A label with no Latin `p` has no height in it. */
  lemma LabelWithoutP(s: string)
    requires 'p' !in s
    ensures Search(HeightInLabel, s, 0).None?
  {
    forall j | 0 <= j <= |s|
      ensures MatchAt(HeightInLabel, s, j).None?
    {
      if j + 4 < |s| {
        assert s[j + 4] in s;
      }
      if j + 3 < |s| {
        assert s[j + 3] in s;
      }
    }
  }

  /** A label that ends in a space, three or four digits and `p`, with no
      other `p` before, has those digits as its height. */
  lemma LabelEndsWithHeight(t: string, d: string)
    requires 'p' !in t
    requires 3 <= |d| <= 4 && forall k :: 0 <= k < |d| ==> IsDigit(d[k])
    ensures Search(HeightInLabel, t + " " + d + "p", 0) == Some(d)
  {
    var s := t + " " + d + "p";
    var last := |s| - 1;
    var k := |t| + 1;
    assert forall i :: 0 <= i < |t| ==> s[i] == t[i];
    assert forall i :: 0 <= i < |d| ==> s[k + i] == d[i];
    assert s[|t|] == ' ' && s[last] == 'p';
    assert forall i :: 0 <= i < last ==> s[i] != 'p' by {
      forall i | 0 <= i < last ensures s[i] != 'p' {
        if i < |t| {
          assert s[i] == t[i] && t[i] in t;
        } else if i > |t| {
          assert s[i] == d[i - k];
        }
      }
    }
    forall j | 0 <= j < k
      ensures MatchAt(HeightInLabel, s, j).None?
    {
      if j == |t| {
        assert !IsDigit(s[j]);
      }
    }
    assert s[k..k + |d|] == d;
    SearchFinds(HeightInLabel, s, 0, k);
  }

  /** A format that does not mention `height<=` has no height in it. */
  lemma FormatWithoutHeight(s: string)
    requires !Contains(s, "height<=")
    ensures Search(HeightInFormat, s, 0).None?
  {
  }

  /** A choice that asks for `bestaudio` and no `bestvideo`, under a label
      without a height, gives `_audio` either way. */
  lemma AudioChoiceSuffix(choice: string, caption: string)
    requires 'p' !in caption && Contains(choice, "bestaudio") && !Contains(choice, "bestvideo")
    ensures ExtractQualitySuffix(choice, caption) == "_audio"
    ensures ExtractQualitySuffixIntended(choice, caption) == "_audio"
  {
    LabelWithoutP(caption);
  }

  /** A choice that asks for `bestaudio` and `bestvideo`, under a label
      without a height or audio, gives `_audio` as written and `_best` with
      the corrected test when it asks for no height. */
  lemma MixedChoiceSuffix(choice: string, caption: string)
    requires 'p' !in caption && Contains(choice, "bestaudio") && Contains(choice, "bestvideo")
    requires !Contains(Lower(caption), "audio") && !Contains(choice, "height<=")
    ensures ExtractQualitySuffix(choice, caption) == "_audio"
    ensures ExtractQualitySuffixIntended(choice, caption) == "_best"
  {
    LabelWithoutP(caption);
    FormatWithoutHeight(choice);
  }

  /** A text without some character of `sub` does not contain it. */
  lemma NoOccurrence(s: string, sub: string, k: nat)
    requires k < |sub| && sub[k] !in s
    ensures !Contains(s, sub)
  {
    forall i | 0 <= i <= |s| - |sub|
      ensures !OccursAt(s, sub, i)
    {
      assert s[i..i + |sub|][k] == s[i + k] && s[i + k] in s;
    }
  }

  // ---------------------------------------------------------------------
  // _clean_for_json and _is_json_serializable

  /** `_is_json_serializable(v)`: scalars and containers, not other objects
      (a tuple is a `VList` here). */
  predicate IsJsonSerializable(v: Value) {
    !v.VPath? && !v.VObject?
  }

  /** What `_clean_for_json` leaves: no object that is not plain data and no
      dict key starting with `_`, at any depth. */
  predicate JsonClean(v: Value)
    decreases v
  {
    match v
    case VList(xs) => forall i :: 0 <= i < |xs| ==> IsJsonSerializable(xs[i]) && JsonClean(xs[i])
    case VDict(fs) => forall i :: 0 <= i < |fs| ==> Kept(fs[i]) && JsonClean(fs[i].value)
    case VPath(_) => false
    case VObject(_) => false
    case _ => true
  }

  /** `_clean_for_json(obj)`: dicts keep their serialisable values under keys
      not starting with `_`, lists their serialisable items, both cleaned in
      turn; scalars stay; any other object becomes its `str()`. */
  function CleanForJson(v: Value): (r: Value)
    ensures JsonClean(r) && IsJsonSerializable(r)
    ensures !v.VList? && !v.VDict? && IsJsonSerializable(v) ==> r == v
    ensures !IsJsonSerializable(v) ==> r == VStr(Str(v))
    ensures v.VList? ==> r.VList? && |r.items| <= |v.items|
    ensures v.VDict? ==> r.VDict? && |r.fields| <= |v.fields|
    decreases v, 1
  {
    match v
    case VList(xs) => VList(CleanItems(v, xs))
    case VDict(fs) => VDict(CleanFields(v, fs))
    case VPath(_) => VStr(Str(v))
    case VObject(_) => VStr(Str(v))
    case _ => v
  }

  /** The cleaned serialisable items of a list, in order. */
  function CleanItems(parent: Value, xs: seq<Value>): (r: seq<Value>)
    requires forall x :: x in xs ==> x < parent
    ensures |r| <= |xs|
    ensures forall i :: 0 <= i < |r| ==> IsJsonSerializable(r[i]) && JsonClean(r[i])
    ensures (forall i :: 0 <= i < |xs| ==> IsJsonSerializable(xs[i])) ==> |r| == |xs|
    decreases parent, 0, |xs|
  {
    if xs == [] then []
    else
      assert xs[0] in xs;
      assert forall x :: x in xs[1..] ==> x in xs;
      var rest := CleanItems(parent, xs[1..]);
      if IsJsonSerializable(xs[0]) then [CleanForJson(xs[0])] + rest else rest
  }

  /** The cleaned list holds exactly the cleaned forms of the serialisable
      items: every item that is not plain data is dropped. */
  lemma {:induction false} CleanItemsMembers(parent: Value, xs: seq<Value>, y: Value)
    requires forall x :: x in xs ==> x < parent
    ensures y in CleanItems(parent, xs) <==>
              exists i :: 0 <= i < |xs| && IsJsonSerializable(xs[i]) && y == CleanForJson(xs[i])
    decreases |xs|
  {
    if xs != [] {
      assert forall x :: x in xs[1..] ==> x in xs;
      CleanItemsMembers(parent, xs[1..], y);
      if exists i :: 0 <= i < |xs[1..]| && IsJsonSerializable(xs[1..][i]) && y == CleanForJson(xs[1..][i]) {
        var i :| 0 <= i < |xs[1..]| && IsJsonSerializable(xs[1..][i]) && y == CleanForJson(xs[1..][i]);
        assert xs[i + 1] == xs[1..][i];
      }
      if exists i :: 0 <= i < |xs| && IsJsonSerializable(xs[i]) && y == CleanForJson(xs[i]) {
        var i :| 0 <= i < |xs| && IsJsonSerializable(xs[i]) && y == CleanForJson(xs[i]);
        if i > 0 {
          assert xs[1..][i - 1] == xs[i];
        }
      }
    }
  }

  /** `_clean_for_json` of a list holds exactly the cleaned forms of its
      serialisable items. */
  lemma CleanListItems(v: Value, y: Value)
    requires v.VList?
    ensures y in CleanForJson(v).items <==>
              exists i :: 0 <= i < |v.items| && IsJsonSerializable(v.items[i]) && y == CleanForJson(v.items[i])
  {
    CleanItemsMembers(v, v.items, y);
  }

  /** Cleaning keeps the order of the items: the cleaned concatenation of two
      lists is the concatenation of their cleaned forms. */
  lemma {:induction false} CleanItemsAppend(parent: Value, xs: seq<Value>, ys: seq<Value>)
    requires forall x :: x in xs ==> x < parent
    requires forall x :: x in ys ==> x < parent
    ensures CleanItems(parent, xs + ys) == CleanItems(parent, xs) + CleanItems(parent, ys)
    decreases |xs|
  {
    if xs == [] {
      assert xs + ys == ys;
    } else {
      assert (xs + ys)[0] == xs[0] && (xs + ys)[1..] == xs[1..] + ys;
      assert forall x :: x in xs[1..] ==> x in xs;
      CleanItemsAppend(parent, xs[1..], ys);
    }
  }

  /** A field `_clean_for_json` keeps: its key does not start with `_` and
      its value is serialisable. */
  predicate Kept(f: Field) {
    !StartsWith(f.key, "_") && IsJsonSerializable(f.value)
  }

  /** The kept fields of a dict with their values cleaned, in order. */
  function CleanFields(parent: Value, fs: seq<Field>): (r: seq<Field>)
    requires forall f :: f in fs ==> f.value < parent
    ensures |r| <= |fs|
    ensures forall i :: 0 <= i < |r| ==> Kept(r[i]) && JsonClean(r[i].value)
    decreases parent, 0, |fs|
  {
    if fs == [] then []
    else
      assert fs[0] in fs;
      assert forall f :: f in fs[1..] ==> f in fs;
      var rest := CleanFields(parent, fs[1..]);
      var f := fs[0];
      if Kept(f) then
        var head := Field(f.key, CleanForJson(f.value));
        CleanFieldsCons(head, rest);
        [head] + rest
      else rest
  }

  /** A kept, cleaned field in front of kept, cleaned fields. */
  lemma CleanFieldsCons(head: Field, rest: seq<Field>)
    requires Kept(head) && JsonClean(head.value)
    requires forall i :: 0 <= i < |rest| ==> Kept(rest[i]) && JsonClean(rest[i].value)
    ensures forall i :: 0 <= i < |[head] + rest| ==> Kept(([head] + rest)[i]) && JsonClean(([head] + rest)[i].value)
  {
    var r := [head] + rest;
    assert forall i :: 0 <= i < |rest| ==> r[i + 1] == rest[i];
  }

  /** The fields of the cleaned dict are exactly the kept fields of the dict,
      each under its own key with its value cleaned. */
  lemma {:induction false} CleanFieldsMembers(parent: Value, fs: seq<Field>, g: Field)
    requires forall f :: f in fs ==> f.value < parent
    ensures g in CleanFields(parent, fs) <==>
              exists i :: 0 <= i < |fs| && Kept(fs[i]) && g == Field(fs[i].key, CleanForJson(fs[i].value))
    decreases |fs|
  {
    if fs != [] {
      assert forall f :: f in fs[1..] ==> f in fs;
      CleanFieldsMembers(parent, fs[1..], g);
      if exists i :: 0 <= i < |fs[1..]| && Kept(fs[1..][i]) && g == Field(fs[1..][i].key, CleanForJson(fs[1..][i].value)) {
        var i :| 0 <= i < |fs[1..]| && Kept(fs[1..][i]) && g == Field(fs[1..][i].key, CleanForJson(fs[1..][i].value));
        assert fs[i + 1] == fs[1..][i];
      }
      if exists i :: 0 <= i < |fs| && Kept(fs[i]) && g == Field(fs[i].key, CleanForJson(fs[i].value)) {
        var i :| 0 <= i < |fs| && Kept(fs[i]) && g == Field(fs[i].key, CleanForJson(fs[i].value));
        if i > 0 {
          assert fs[1..][i - 1] == fs[i];
        }
      }
    }
  }

  /** The cleaned dict has a key exactly when the dict has a kept field
      under it: keys starting with `_` and keys of values that are not plain
      data are dropped, and every other key stays. */
  lemma {:induction false} CleanFieldsKeys(parent: Value, fs: seq<Field>, key: string)
    requires forall f :: f in fs ==> f.value < parent
    ensures HasKey(CleanFields(parent, fs), key) <==> KeptKey(fs, key)
    decreases |fs|
  {
    if fs != [] {
      assert forall f :: f in fs[1..] ==> f in fs;
      CleanFieldsKeys(parent, fs[1..], key);
      KeptKeyCons(fs, key);
      var rest := CleanFields(parent, fs[1..]);
      var r := CleanFields(parent, fs);
      if Kept(fs[0]) {
        HasKeyCons(Field(fs[0].key, CleanForJson(fs[0].value)), rest, key);
      } else {
        assert r == rest;
      }
    }
  }

  /** Some field under `key` is kept. */
  predicate KeptKey(fs: seq<Field>, key: string) {
    exists i :: 0 <= i < |fs| && fs[i].key == key && Kept(fs[i])
  }

  lemma KeptKeyCons(fs: seq<Field>, key: string)
    requires fs != []
    ensures KeptKey(fs, key) <==> (fs[0].key == key && Kept(fs[0])) || KeptKey(fs[1..], key)
  {
    if KeptKey(fs, key) {
      var i :| 0 <= i < |fs| && fs[i].key == key && Kept(fs[i]);
      if i > 0 {
        assert fs[1..][i - 1] == fs[i];
      }
    }
    if KeptKey(fs[1..], key) {
      var i :| 0 <= i < |fs[1..]| && fs[1..][i].key == key && Kept(fs[1..][i]);
      assert fs[i + 1] == fs[1..][i];
    }
  }

  lemma HasKeyCons(f: Field, fs: seq<Field>, key: string)
    ensures HasKey([f] + fs, key) <==> f.key == key || HasKey(fs, key)
  {
    var r := [f] + fs;
    assert r[0] == f;
    if HasKey(r, key) && f.key != key {
      var i :| 0 <= i < |r| && r[i].key == key;
      assert fs[i - 1] == r[i];
    }
    if HasKey(fs, key) {
      var i :| 0 <= i < |fs| && fs[i].key == key;
      assert r[i + 1] == fs[i];
    }
  }

  /** Clean data goes through `_clean_for_json` unchanged. */
  lemma {:induction false} CleanOfClean(v: Value)
    requires JsonClean(v)
    ensures CleanForJson(v) == v
    decreases v, 1
  {
    match v
    case VList(xs) => CleanItemsOfClean(v, xs);
    case VDict(fs) => CleanFieldsOfClean(v, fs);
    case _ =>
  }

  lemma {:induction false} CleanItemsOfClean(parent: Value, xs: seq<Value>)
    requires forall x :: x in xs ==> x < parent
    requires forall i :: 0 <= i < |xs| ==> IsJsonSerializable(xs[i]) && JsonClean(xs[i])
    ensures CleanItems(parent, xs) == xs
    decreases parent, 0, |xs|
  {
    if xs != [] {
      assert xs[0] in xs;
      assert forall x :: x in xs[1..] ==> x in xs;
      CleanOfClean(xs[0]);
      CleanItemsOfClean(parent, xs[1..]);
    }
  }

  lemma {:induction false} CleanFieldsOfClean(parent: Value, fs: seq<Field>)
    requires forall f :: f in fs ==> f.value < parent
    requires forall i :: 0 <= i < |fs| ==> Kept(fs[i]) && JsonClean(fs[i].value)
    ensures CleanFields(parent, fs) == fs
    decreases parent, 0, |fs|
  {
    if fs != [] {
      assert fs[0] in fs;
      assert forall f :: f in fs[1..] ==> f in fs;
      CleanOfClean(fs[0].value);
      CleanFieldsOfClean(parent, fs[1..]);
    }
  }

  /** Cleaning twice is cleaning once. */
  lemma CleanIdempotent(v: Value)
    ensures CleanForJson(CleanForJson(v)) == CleanForJson(v)
  {
    CleanOfClean(CleanForJson(v));
  }
}
