/** The handful of Python `str` operations the program relies on, written out on
    `seq<char>`: whitespace stripping, splitting on one character, `replace`,
    substring tests, case mapping, `int()` on decimal text and `str()` of an int. */
module PyText {
  import opened Wrappers

  /** Python's `str.isspace()`: the Unicode White_Space characters plus the
      four ASCII information separators. */
  predicate IsSpace(c: char) {
    c == ' ' || ('\t' <= c <= '\r') || ('\U{1c}' <= c <= '\U{1f}')
    || c == '\U{85}' || c == '\U{a0}' || c == '\U{1680}'
    || ('\U{2000}' <= c <= '\U{200a}') || c == '\U{2028}' || c == '\U{2029}'
    || c == '\U{202f}' || c == '\U{205f}' || c == '\U{3000}'
  }

  predicate IsDigit(c: char) {
    '0' <= c <= '9'
  }

  function DigitValue(c: char): (d: nat)
    requires IsDigit(c)
    ensures d < 10
  {
    c as int - '0' as int
  }

  function DigitChar(d: nat): (c: char)
    requires d < 10
    ensures IsDigit(c) && DigitValue(c) == d
  {
    ('0' as int + d) as char
  }

  /** `s.lstrip()` */
  function LStrip(s: string): (r: string)
    ensures |r| <= |s| && r == s[|s| - |r|..]
    ensures |r| > 0 ==> !IsSpace(r[0])
    ensures forall i :: 0 <= i < |s| - |r| ==> IsSpace(s[i])
  {
    if |s| > 0 && IsSpace(s[0]) then
      var r := LStrip(s[1..]);
      LStripStep(s, r);
      r
    else s
  }

  /** A suffix of `s[1..]` after blanks only is a suffix of `s` after blanks
      only, when `s` starts with a blank. */
  lemma LStripStep(s: string, r: string)
    requires |s| > 0 && IsSpace(s[0])
    requires |r| <= |s[1..]| && r == s[1..][|s[1..]| - |r|..]
    requires forall i :: 0 <= i < |s[1..]| - |r| ==> IsSpace(s[1..][i])
    ensures |r| <= |s| && r == s[|s| - |r|..]
    ensures forall i :: 0 <= i < |s| - |r| ==> IsSpace(s[i])
  {
    assert forall i :: 1 <= i < |s| ==> s[1..][i - 1] == s[i];
  }

  /** `s.rstrip(chars)` for an explicit set of characters. */
  function RStripChars(s: string, chars: set<char>): (r: string)
    ensures |r| <= |s| && r == s[..|r|]
    ensures |r| > 0 ==> r[|r| - 1] !in chars
    ensures forall i :: |r| <= i < |s| ==> s[i] in chars
  {
    if |s| > 0 && s[|s| - 1] in chars then RStripChars(s[..|s| - 1], chars) else s
  }

  /** `s.rstrip()` */
  function RStrip(s: string): (r: string)
    ensures |r| <= |s| && r == s[..|r|]
    ensures |r| > 0 ==> !IsSpace(r[|r| - 1])
    ensures forall i :: |r| <= i < |s| ==> IsSpace(s[i])
  {
    if |s| > 0 && IsSpace(s[|s| - 1]) then RStrip(s[..|s| - 1]) else s
  }

  /** `s.strip()`: the result is `s` without its leading and trailing
      whitespace, and it is empty exactly when `s` is all whitespace. */
  function Strip(s: string): (r: string)
    ensures |r| <= |s|
    ensures |r| > 0 ==> !IsSpace(r[0]) && !IsSpace(r[|r| - 1])
    ensures r == "" <==> forall i :: 0 <= i < |s| ==> IsSpace(s[i])
  {
    var l := LStrip(s);
    var r := RStrip(l);
    assert r == "" ==> l == "";
    assert (forall i :: 0 <= i < |s| ==> IsSpace(s[i])) ==> r == "" by {
      if r != "" {
        assert l[0] == s[|s| - |l|];
      }
    }
    r
  }

  function StartsWith(s: string, prefix: string): bool {
    |prefix| <= |s| && s[..|prefix|] == prefix
  }

  function EndsWith(s: string, suffix: string): bool {
    |suffix| <= |s| && s[|s| - |suffix|..] == suffix
  }

  /** `sub` occurs in `s` starting at index `i`. */
  predicate OccursAt(s: string, sub: string, i: int) {
    0 <= i <= |s| - |sub| && s[i..i + |sub|] == sub
  }

  lemma OccursAtTail(s: string, sub: string, j: int)
    requires |s| > 0 && j >= 0
    ensures OccursAt(s[1..], sub, j) <==> OccursAt(s, sub, j + 1)
  {
    if 0 <= j <= |s| - 1 - |sub| {
      assert s[1..][j..j + |sub|] == s[j + 1..j + 1 + |sub|];
    }
  }

  /** `sub in s` */
  function Contains(s: string, sub: string): (b: bool)
    ensures b <==> exists i :: OccursAt(s, sub, i)
    decreases |s|
  {
    if StartsWith(s, sub) then
      assert OccursAt(s, sub, 0);
      true
    else if |s| == 0 then
      false
    else
      var b := Contains(s[1..], sub);
      assert b ==> exists i :: OccursAt(s, sub, i) by {
        if b {
          var j :| OccursAt(s[1..], sub, j);
          OccursAtTail(s, sub, j);
        }
      }
      assert (exists i :: OccursAt(s, sub, i)) ==> b by {
        if exists i :: OccursAt(s, sub, i) {
          var i :| OccursAt(s, sub, i);
          assert i != 0;
          OccursAtTail(s, sub, i - 1);
        }
      }
      b
  }

  /** Index of the first occurrence of `c` in `s`. */
  function IndexOf(s: string, c: char): (i: nat)
    requires c in s
    ensures i < |s| && s[i] == c && c !in s[..i]
  {
    if s[0] == c then 0 else 1 + IndexOf(s[1..], c)
  }

  /** `s.split(sep)` for a one-character separator: the parts contain no
      separator and joining them with it gives back `s`. */
  function Split(s: string, sep: char): (parts: seq<string>)
    ensures |parts| >= 1
    ensures forall i :: 0 <= i < |parts| ==> sep !in parts[i]
    ensures Join(parts, sep) == s
  {
    if sep !in s then
      [s]
    else
      var i := IndexOf(s, sep);
      var rest := Split(s[i + 1..], sep);
      assert s == s[..i] + [sep] + s[i + 1..];
      [s[..i]] + rest
  }

  function Join(parts: seq<string>, sep: char): string
    requires |parts| >= 1
  {
    if |parts| == 1 then parts[0] else parts[0] + [sep] + Join(parts[1..], sep)
  }

  /** `s.replace(pat, rep)` for a non-empty `pat`: left to right, without
      overlaps. */
  function Replace(s: string, pat: string, rep: string): (r: string)
    requires |pat| > 0
    ensures !Contains(s, pat) ==> r == s
    decreases |s|
  {
    if |s| < |pat| then
      s
    else if s[..|pat|] == pat then
      rep + Replace(s[|pat|..], pat, rep)
    else
      var tail := Replace(s[1..], pat, rep);
      assert Contains(s[1..], pat) ==> Contains(s, pat) by {
        if Contains(s[1..], pat) {
          var j :| OccursAt(s[1..], pat, j);
          OccursAtTail(s, pat, j);
        }
      }
      [s[0]] + tail
  }

  /** `s.replace(pat, rep)` brings in no character that is neither in `s` nor
      in `rep`. */
  lemma {:induction false} ReplaceChars(s: string, pat: string, rep: string)
    requires |pat| > 0
    ensures forall c :: c in Replace(s, pat, rep) ==> c in s || c in rep
    decreases |s|
  {
    if |s| < |pat| {
    } else if s[..|pat|] == pat {
      ReplaceChars(s[|pat|..], pat, rep);
      assert forall c :: c in s[|pat|..] ==> c in s;
    } else {
      ReplaceChars(s[1..], pat, rep);
      assert forall c :: c in s[1..] ==> c in s;
    }
  }

  /** A pattern whose first character is not in `s` is not replaced. */
  lemma ReplaceAbsent(s: string, pat: string, rep: string)
    requires |pat| > 0 && pat[0] !in s
    ensures Replace(s, pat, rep) == s
  {
    forall i ensures !OccursAt(s, pat, i) {
      if 0 <= i <= |s| - |pat| {
        assert s[i..i + |pat|][0] == s[i];
      }
    }
  }

  /** `s.replace` past a first character that cannot start `pat`. */
  lemma ReplaceNoHead(s: string, pat: string, rep: string)
    requires |pat| > 0 && |s| >= |pat| && s[0] != pat[0]
    ensures Replace(s, pat, rep) == [s[0]] + Replace(s[1..], pat, rep)
  {
    assert s[..|pat|][0] == s[0];
  }

  /** Removing `pat` from itself leaves nothing. */
  lemma ReplaceWhole(pat: string)
    requires |pat| > 0
    ensures Replace(pat, pat, "") == ""
  {
    assert pat[..|pat|] == pat && pat[|pat|..] == [];
  }

  /** Removing `pat` from `s + pat` gives back `s` when the first character
      of `pat` is not in `s`. */
  lemma {:induction false} ReplaceTrailing(s: string, pat: string)
    requires |pat| > 0 && pat[0] !in s
    ensures Replace(s + pat, pat, "") == s
    decreases |s|
  {
    if s == [] {
      ReplaceWhole(pat);
      assert s + pat == pat;
    } else {
      ReplaceTrailing(s[1..], pat);
      ReplaceTrailingStep(s, pat, s + pat);
    }
  }

  lemma ReplaceTrailingStep(s: string, pat: string, t: string)
    requires |pat| > 0 && s != [] && s[0] != pat[0] && t == s + pat
    requires Replace(s[1..] + pat, pat, "") == s[1..]
    ensures Replace(t, pat, "") == s
  {
    ConsSplit(s, pat);
    ReplaceCons(s[0], s[1..] + pat, pat, "", s[1..]);
  }

  lemma ConsSplit(s: string, pat: string)
    requires s != []
    ensures s + pat == [s[0]] + (s[1..] + pat) && [s[0]] + s[1..] == s
  {
  }

  lemma ReplaceCons(c: char, u: string, pat: string, rep: string, r: string)
    requires |pat| > 0 && c != pat[0] && |u| + 1 >= |pat| && Replace(u, pat, rep) == r
    ensures Replace([c] + u, pat, rep) == [c] + r
  {
    var t := [c] + u;
    assert t[1..] == u;
    ReplaceNoHead(t, pat, rep);
  }

  /** Replacing a single character by a text without it removes every
      occurrence of that character. */
  lemma {:induction false} ReplaceRemoves(s: string, c: char, rep: string)
    requires c !in rep
    ensures c !in Replace(s, [c], rep)
    decreases |s|
  {
    if |s| >= 1 {
      ReplaceRemoves(s[1..], c, rep);
      assert s[1..] == s[|[c]|..];
    }
  }

  /** `c.lower()` for the letters whose case the program compares: ASCII and
      the basic Cyrillic block (U+0400 to U+042F). */
  function LowerChar(c: char): char {
    if 'A' <= c <= 'Z' then (c as int + 32) as char
    else if '\U{410}' <= c <= '\U{42f}' then (c as int + 32) as char
    else if '\U{400}' <= c <= '\U{40f}' then (c as int + 80) as char
    else c
  }

  /** `c.upper()` for the same letters. */
  function UpperChar(c: char): char {
    if 'a' <= c <= 'z' then (c as int - 32) as char
    else if '\U{430}' <= c <= '\U{44f}' then (c as int - 32) as char
    else if '\U{450}' <= c <= '\U{45f}' then (c as int - 80) as char
    else c
  }

  function Lower(s: string): (r: string)
    ensures |r| == |s| && forall i :: 0 <= i < |s| ==> r[i] == LowerChar(s[i])
  {
    if s == [] then [] else [LowerChar(s[0])] + Lower(s[1..])
  }

  function Upper(s: string): (r: string)
    ensures |r| == |s| && forall i :: 0 <= i < |s| ==> r[i] == UpperChar(s[i])
  {
    seq(|s|, i requires 0 <= i < |s| => UpperChar(s[i]))
  }

  /** Python's `a < b` on strings, which is also how SQLite compares two TEXT
      values under its default collation: lexicographic by code point. */
  predicate StrLt(a: string, b: string) {
    if a == [] then b != []
    else if b == [] then false
    else a[0] < b[0] || (a[0] == b[0] && StrLt(a[1..], b[1..]))
  }

  lemma {:induction false} StrLtIrreflexive(a: string)
    ensures !StrLt(a, a)
  {
    if a != [] {
      StrLtIrreflexive(a[1..]);
    }
  }

  lemma {:induction false} StrLtTransitive(a: string, b: string, c: string)
    requires StrLt(a, b) && StrLt(b, c)
    ensures StrLt(a, c)
  {
    if a != [] && a[0] == b[0] && b[0] == c[0] {
      StrLtTransitive(a[1..], b[1..], c[1..]);
    }
  }

  lemma {:induction false} StrLtTotal(a: string, b: string)
    ensures a == b || StrLt(a, b) || StrLt(b, a)
  {
    if a != [] && b != [] && a[0] == b[0] {
      StrLtTotal(a[1..], b[1..]);
      if a[1..] == b[1..] {
        assert a == [a[0]] + a[1..] && b == [b[0]] + b[1..];
      }
    }
  }

  /** `s[:n]` with Python's reading of a negative `n` (counted from the end). */
  function PyPrefix(s: string, n: int): (r: string)
    ensures |r| <= |s| && r == s[..|r|]
    ensures n >= 0 ==> |r| == if n < |s| then n else |s|
  {
    if n >= |s| then s
    else if n >= 0 then s[..n]
    else if |s| + n >= 0 then s[..|s| + n]
    else []
  }

  /** `str(n)` for a natural number. */
  function NatToString(n: nat): (r: string)
    ensures |r| >= 1 && forall i :: 0 <= i < |r| ==> IsDigit(r[i])
    ensures DigitsValue(r) == n
    ensures n > 0 ==> r[0] != '0'
  {
    if n < 10 then
      [DigitChar(n)]
    else
      var r := NatToString(n / 10) + [DigitChar(n % 10)];
      assert r[..|r| - 1] == NatToString(n / 10);
      r
  }

  /** `str(i)` */
  function IntToString(i: int): (r: string)
    ensures |r| >= 1
  {
    if i < 0 then "-" + NatToString(-i) else NatToString(i)
  }

  /** The value of a run of decimal digits and underscores, digits only counting. */
  function DigitsValue(s: string): nat
    requires forall i :: 0 <= i < |s| ==> IsDigit(s[i]) || s[i] == '_'
  {
    if s == [] then 0
    else if s[|s| - 1] == '_' then DigitsValue(s[..|s| - 1])
    else 10 * DigitsValue(s[..|s| - 1]) + DigitValue(s[|s| - 1])
  }

  /** What Python 3 accepts as the digits of a decimal `int()` literal: digits,
      with single underscores allowed only between two digits. */
  predicate IsDigitRun(s: string) {
    && |s| > 0
    && (forall i :: 0 <= i < |s| ==> IsDigit(s[i]) || s[i] == '_')
    && IsDigit(s[0]) && IsDigit(s[|s| - 1])
    && (forall i :: 0 <= i < |s| - 1 ==> !(s[i] == '_' && s[i + 1] == '_'))
  }

  /** `int(s)` in base 10: `None` where Python raises `ValueError`. */
  function ParseInt(s: string): (r: Option<int>)
    ensures r.Some? ==> Strip(s) != ""
  {
    var t := Strip(s);
    if |t| > 0 && (t[0] == '-' || t[0] == '+') then
      if IsDigitRun(t[1..]) then
        Some(if t[0] == '-' then -(DigitsValue(t[1..]) as int) else DigitsValue(t[1..]))
      else None
    else if IsDigitRun(t) then Some(DigitsValue(t))
    else None
  }

  lemma {:induction false} StripOfNoSpace(s: string)
    requires forall i :: 0 <= i < |s| ==> !IsSpace(s[i])
    ensures Strip(s) == s
  {
    if |s| > 0 {
      assert !IsSpace(s[0]) && !IsSpace(s[|s| - 1]);
      assert LStrip(s) == s;
      assert RStrip(s) == s;
    }
  }

  lemma DigitRunOfNatToString(n: nat)
    ensures IsDigitRun(NatToString(n))
    ensures forall k :: 0 <= k < |NatToString(n)| ==> !IsSpace(NatToString(n)[k])
  {
    var d := NatToString(n);
    forall k | 0 <= k < |d| - 1 ensures !(d[k] == '_' && d[k + 1] == '_') {
      assert IsDigit(d[k]);
    }
  }

  /** `int()` of an unsigned digit run is its value. */
  lemma ParseIntOfDigits(d: string)
    requires IsDigitRun(d)
    requires forall k :: 0 <= k < |d| ==> !IsSpace(d[k])
    ensures ParseInt(d) == Some(DigitsValue(d) as int)
  {
    StripOfNoSpace(d);
    assert Strip(d) == d;
    assert !(|d| > 0 && (d[0] == '-' || d[0] == '+'));
  }

  /** `int()` of a minus sign followed by a digit run is the negated value. */
  lemma ParseIntOfNegDigits(d: string)
    requires IsDigitRun(d)
    requires forall k :: 0 <= k < |d| ==> !IsSpace(d[k])
    ensures ParseInt("-" + d) == Some(-(DigitsValue(d) as int))
  {
    NoSpaceAfterMinus(d);
    ParseIntOfMinus("-" + d);
  }

  lemma NoSpaceAfterMinus(d: string)
    requires forall k :: 0 <= k < |d| ==> !IsSpace(d[k])
    ensures ("-" + d)[1..] == d
    ensures forall k :: 0 <= k < |"-" + d| ==> !IsSpace(("-" + d)[k])
  {
    var s := "-" + d;
    forall k | 0 <= k < |s| ensures !IsSpace(s[k]) {
      if k > 0 {
        assert s[k] == d[k - 1];
      }
    }
    assert s[1..] == d;
  }

  /** `int()` of a minus sign and a digit run, with no blank to strip. */
  lemma ParseIntOfMinus(s: string)
    requires |s| > 0 && s[0] == '-' && IsDigitRun(s[1..])
    requires forall k :: 0 <= k < |s| ==> !IsSpace(s[k])
    ensures ParseInt(s) == Some(-(DigitsValue(s[1..]) as int))
  {
    StripOfNoSpace(s);
  }

  /** `int(str(i)) == i`: printing an integer and reading it back is the
      identity. */
  lemma ParseIntOfIntToString(i: int)
    ensures ParseInt(IntToString(i)) == Some(i)
  {
    if i < 0 {
      DigitRunOfNatToString(-i);
      ParseIntOfNegDigits(NatToString(-i));
    } else {
      DigitRunOfNatToString(i);
      ParseIntOfDigits(NatToString(i));
    }
  }

  /** `[p.strip() for p in parts if p.strip()]`: the stripped parts that are
      not empty, in order. */
  function NonEmptyStripped(parts: seq<string>): (ts: seq<string>)
    ensures |ts| <= |parts|
    ensures "" !in ts
    ensures (forall i :: 0 <= i < |parts| ==> Strip(parts[i]) == "") ==> ts == []
  {
    if parts == [] then []
    else
      var rest := NonEmptyStripped(parts[1..]);
      var t := Strip(parts[0]);
      assert forall i :: 1 <= i < |parts| ==> parts[1..][i - 1] == parts[i];
      if t == "" then rest else [t] + rest
  }

  /** Words that are non-empty and hold no whitespace are the parts they
      give. */
  lemma {:induction false} NonEmptyStrippedOfWords(parts: seq<string>)
    requires forall i :: 0 <= i < |parts| ==> parts[i] != "" && forall k :: 0 <= k < |parts[i]| ==> !IsSpace(parts[i][k])
    ensures NonEmptyStripped(parts) == parts
  {
    if parts != [] {
      StripOfNoSpace(parts[0]);
      NonEmptyStrippedOfWords(parts[1..]);
      assert parts == [parts[0]] + parts[1..];
    }
  }

  /** A character that no part holds is in no stripped part. */
  lemma {:induction false} NonEmptyStrippedKeeps(parts: seq<string>, c: char)
    requires forall i :: 0 <= i < |parts| ==> c !in parts[i]
    ensures forall t :: t in NonEmptyStripped(parts) ==> c !in t
  {
    if parts != [] {
      assert forall i :: 1 <= i < |parts| ==> parts[1..][i - 1] == parts[i];
      NonEmptyStrippedKeeps(parts[1..], c);
      StripKeepsOut(parts[0], c);
    }
  }

  /** Stripping brings in no character. */
  lemma StripKeepsOut(s: string, c: char)
    requires c !in s
    ensures c !in Strip(s)
  {
    var l := LStrip(s);
    assert forall x :: x in l ==> x in s;
    assert forall x :: x in RStrip(l) ==> x in l;
  }

  /** The first occurrence of `c` in `a + [c] + b` when `a` has none. */
  lemma IndexOfAfter(a: string, c: char, b: string)
    requires c !in a
    ensures c in a + [c] + b && IndexOf(a + [c] + b, c) == |a|
  {
    var s := a + [c] + b;
    assert s[|a|] == c;
    assert s[..|a|] == a;
  }

  /** `s.split(sep)` of parts without the separator joined by it gives the
      parts back. */
  lemma {:induction false} SplitOfJoin(parts: seq<string>, sep: char)
    requires |parts| >= 1 && forall i :: 0 <= i < |parts| ==> sep !in parts[i]
    ensures Split(Join(parts, sep), sep) == parts
  {
    if |parts| > 1 {
      var rest := Join(parts[1..], sep);
      var s := parts[0] + [sep] + rest;
      assert Join(parts, sep) == s;
      IndexOfAfter(parts[0], sep, rest);
      assert s[..|parts[0]|] == parts[0];
      assert s[|parts[0]| + 1..] == rest;
      SplitOfJoin(parts[1..], sep);
      assert parts == [parts[0]] + parts[1..];
    }
  }
}
