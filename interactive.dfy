/** The interactive helpers of `ytd/interactive.py`: the playlist
    selection-mask parser, the collection of video heights and the quality
    menu built from them, the choice mapping of the playlist resume prompt,
    the split of a playlist into downloaded and missing entries, and the URL
    of one playlist entry. */
module Interactive {
  import opened Wrappers
  import opened PyText
  import opened Values
  import Utils

  /** `list(range(lo, hi))`. */
  function Range(lo: int, hi: int): (r: seq<int>)
    ensures |r| == if lo < hi then hi - lo else 0
    ensures forall i :: 0 <= i < |r| ==> r[i] == lo + i
    decreases hi - lo
  {
    if lo >= hi then [] else [lo] + Range(lo + 1, hi)
  }

  // ---------------------------------------------------------------------
  // The selection mask

  /** The `ValueError`s the mask parser raises, one per message; the parse
      of a number that is not one is `int()`'s own. */
  datatype MaskError =
    | EmptyInput        // "пустой ввод"
    | RangeOutOfBounds  // "диапазон вне допустимых пределов"
    | RangeReversed     // "начало диапазона больше конца"
    | IndexOutOfRange   // "номер вне диапазона"
    | NotAnInteger      // int() of something that is not a number

  /** What a prefix of the tokens has decided: the whole playlist, the
      indices selected so far, or the error that ends the parse. */
  datatype Meaning = Everything | Indices(s: set<int>) | Invalid(error: MaskError)

  /** The stripped non-empty tokens of `mask`, separated by `,` or `;`. */
  function Tokens(mask: string): (ts: seq<string>)
    ensures forall i :: 0 <= i < |ts| ==> ts[i] != ""
  {
    NonEmptyStripped(Split(Replace(mask, ";", ","), ','))
  }

  /** One end of a range: the default when it is empty, else `int()` of it. */
  function Bound(raw: string, default: int): (b: Option<int>)
    ensures raw == "" ==> b == Some(default)
    ensures raw != "" ==> b == ParseInt(raw)
  {
    if raw == "" then Some(default) else ParseInt(raw)
  }

  /** The token "all" or "все" in any case. */
  predicate IsAll(token: string) {
    var lowered := Lower(token);
    lowered == "all" || lowered == "\U{432}\U{441}\U{435}"
  }

  /** `set(range(a, b + 1))`. */
  function Span(a: int, b: int): (r: set<int>)
    ensures forall x :: x in r <==> a <= x <= b
    decreases b - a
  {
    if a > b then {} else {a} + Span(a + 1, b)
  }

  /** What one token means on its own: the whole playlist, a range (it
      holds a `-`) or a single number. */
  function TokenMeaning(token: string, total: int): Meaning {
    if IsAll(token) then Everything
    else if '-' in token then
      var i := IndexOf(token, '-');
      RangeMeaning(Strip(token[..i]), Strip(token[i + 1..]), total)
    else NumberMeaning(token, total)
  }

  /** The range `a-b`; a left-out start is 1 and a left-out end is `total`;
      both ends must lie in `[1, total]`, the start first. */
  function RangeMeaning(startRaw: string, endRaw: string, total: int): (m: Meaning)
    ensures m.Indices? ==> m.s != {} && forall x :: x in m.s ==> 1 <= x <= total
  {
    var start := Bound(startRaw, 1);
    var end := Bound(endRaw, total);
    if start.None? || end.None? then Invalid(NotAnInteger)
    else if start.value < 1 || end.value < 1 || start.value > total || end.value > total then
      Invalid(RangeOutOfBounds)
    else if start.value > end.value then Invalid(RangeReversed)
    else
      assert start.value in Span(start.value, end.value);
      Indices(Span(start.value, end.value))
  }

  /** A single number, which must lie in `[1, total]`. */
  function NumberMeaning(token: string, total: int): (m: Meaning)
    ensures m.Indices? ==> m.s != {} && forall x :: x in m.s ==> 1 <= x <= total
  {
    var value := ParseInt(token);
    if value.None? then Invalid(NotAnInteger)
    else if value.value < 1 || value.value > total then Invalid(IndexOutOfRange)
    else Indices({value.value})
  }

  /** The tokens read left to right: the first error or "all" ends the
      parse, otherwise the indices of the tokens are collected. */
  function Scan(ts: seq<string>, total: int): (m: Meaning)
    ensures m.Indices? ==> forall x :: x in m.s ==> 1 <= x <= total
    ensures m.Indices? && |ts| > 0 ==> m.s != {}
  {
    if ts == [] then Indices({})
    else
      var before := Scan(ts[..|ts| - 1], total);
      if !before.Indices? then before
      else
        var here := TokenMeaning(ts[|ts| - 1], total);
        if here.Indices? then Indices(before.s + here.s)
        else here
  }

  /** `sorted(s)` for a set within `[lo, hi)`: strictly ascending, and
      holding exactly the members of `s` in that range. */
  function Members(s: set<int>, lo: int, hi: int): (r: seq<int>)
    ensures forall i :: 0 <= i < |r| ==> lo <= r[i] < hi && r[i] in s
    ensures forall i, j :: 0 <= i < j < |r| ==> r[i] < r[j]
    ensures forall x :: x in s && lo <= x < hi ==> x in r
    decreases hi - lo
  {
    if lo >= hi then []
    else if lo in s then [lo] + Members(s, lo + 1, hi)
    else Members(s, lo + 1, hi)
  }

  /** `_parse_selection_mask(mask, total)`, with the error it raises. */
  function Mask(mask: string, total: int): (r: Result<seq<int>, MaskError>)
    ensures r.Ok? ==> forall i :: 0 <= i < |r.value| ==> 1 <= r.value[i] <= total
    ensures r.Ok? ==> forall i, j :: 0 <= i < j < |r.value| ==> r.value[i] < r.value[j]
    ensures r.Ok? && total > 0 ==> |r.value| > 0
  {
    if total <= 0 then Ok([])
    else
      var m := Strip(mask);
      if m == "" then Err(EmptyInput)
      else
        var tokens := Tokens(m);
        if tokens == [] then Err(EmptyInput)
        else
          match Scan(tokens, total)
          case Everything => Ok(Range(1, total + 1))
          case Invalid(e) => Err(e)
          case Indices(s) =>
            assert |Members(s, 1, total + 1)| > 0 by {
              var x :| x in s;
              assert x in Members(s, 1, total + 1);
            }
            Ok(Members(s, 1, total + 1))
  }

  /** Once a prefix of the tokens has ended the parse, the rest is not read. */
  lemma {:induction false} ScanSticks(ts: seq<string>, k: nat, total: int)
    requires k <= |ts| && !Scan(ts[..k], total).Indices?
    ensures Scan(ts, total) == Scan(ts[..k], total)
    decreases |ts|
  {
    if k < |ts| {
      var front := ts[..|ts| - 1];
      assert front[..k] == ts[..k];
      ScanSticks(front, k, total);
    } else {
      assert ts[..k] == ts;
    }
  }

  /** Reading one more token. */
  lemma ScanStep(ts: seq<string>, j: nat, total: int)
    requires j < |ts|
    ensures Scan(ts[..j + 1], total) == Extend(Scan(ts[..j], total), TokenMeaning(ts[j], total))
  {
    assert ts[..j + 1][..j] == ts[..j];
  }

  /** The meaning of the prefix read so far extended by one token. */
  function Extend(before: Meaning, here: Meaning): Meaning {
    if !before.Indices? then before
    else if here.Indices? then Indices(before.s + here.s) else here
  }

  /** `_parse_selection_mask`: the tokens are read in turn into a set of
      indices, stopping at "all" or at the first error. */
  method ParseSelectionMask(mask: string, total: int) returns (r: Result<seq<int>, MaskError>)
    ensures r == Mask(mask, total)
  {
    if total <= 0 {
      return Ok([]);
    }
    var m := Strip(mask);
    if m == "" {
      return Err(EmptyInput);
    }
    var tokens := Tokens(m);
    if tokens == [] {
      return Err(EmptyInput);
    }
    var read := ReadTokens(tokens, total);
    match read
    case Everything => return Ok(Range(1, total + 1));
    case Invalid(e) => return Err(e);
    case Indices(result) => return Ok(Members(result, 1, total + 1));
  }

  /** The `for token in tokens` loop: the set of indices read, or the token
      that ended the loop early. */
  method ReadTokens(tokens: seq<string>, total: int) returns (m: Meaning)
    ensures m == Scan(tokens, total)
  {
    var result: set<int> := {};
    var j := 0;
    while j < |tokens|
      invariant 0 <= j <= |tokens|
      invariant Scan(tokens[..j], total) == Indices(result)
    {
      ScanStep(tokens, j, total);
      var next := ReadToken(tokens[j], total, result);
      if !next.Indices? {
        ScanSticks(tokens, j + 1, total);
        return next;
      }
      result := next.s;
      j := j + 1;
    }
    assert tokens[..j] == tokens;
    return Indices(result);
  }

  /** One turn of the parser's loop: "all" ends it, a range or a number is
      checked and added to `result`, a failed check ends it with its error. */
  method ReadToken(token: string, total: int, result: set<int>) returns (m: Meaning)
    ensures m == Extend(Indices(result), TokenMeaning(token, total))
  {
    if IsAll(token) {
      return Everything;
    }
    if '-' in token {
      var i := IndexOf(token, '-');
      m := ReadRange(Strip(token[..i]), Strip(token[i + 1..]), total, result);
      return;
    }
    m := ReadNumber(token, total, result);
  }

  /** A token without `-`: one index, which must lie in `[1, total]`. */
  method ReadNumber(token: string, total: int, result: set<int>) returns (m: Meaning)
    ensures m == Extend(Indices(result), NumberMeaning(token, total))
  {
    var parsed := ParseInt(token);
    if parsed.None? {
      return Invalid(NotAnInteger);
    }
    var value := parsed.value;
    if value < 1 || value > total {
      return Invalid(IndexOutOfRange);
    }
    return Indices(result + {value});
  }

  /** A token holding a `-`: both ends are parsed and checked, then the
      range is added to `result` one index at a time. */
  method ReadRange(startRaw: string, endRaw: string, total: int, result: set<int>) returns (m: Meaning)
    ensures m == Extend(Indices(result), RangeMeaning(startRaw, endRaw, total))
  {
    var parsed := Bound(startRaw, 1);
    if parsed.None? {
      return Invalid(NotAnInteger);
    }
    var start := parsed.value;
    parsed := Bound(endRaw, total);
    if parsed.None? {
      return Invalid(NotAnInteger);
    }
    var end := parsed.value;
    if start < 1 || end < 1 || start > total || end > total {
      return Invalid(RangeOutOfBounds);
    }
    if start > end {
      return Invalid(RangeReversed);
    }
    var added := AddSpan(result, start, end);
    return Indices(added);
  }

  /** `result.update(range(start, end + 1))`. */
  method AddSpan(result: set<int>, start: int, end: int) returns (added: set<int>)
    requires start <= end
    ensures added == result + Span(start, end)
  {
    added := result;
    var value := start;
    while value <= end
      invariant start <= value <= end + 1
      invariant added == result + Span(start, value - 1)
    {
      added := added + {value};
      value := value + 1;
    }
  }

  // ---------------------------------------------------------------------
  // What the parser accepts

  /** `str(i)` of each index. */
  function Numerals(xs: seq<int>): (ns: seq<string>)
    ensures |ns| == |xs| && forall i :: 0 <= i < |xs| ==> ns[i] == IntToString(xs[i])
  {
    seq(|xs|, i requires 0 <= i < |xs| => IntToString(xs[i]))
  }

  /** The digits of a non-negative number are not the word "all". */
  lemma NumeralNotAll(v: nat)
    ensures !IsAll(NatToString(v)) && '-' !in NatToString(v) && ',' !in NatToString(v) && ';' !in NatToString(v)
  {
    var t := NatToString(v);
    assert Lower(t)[0] == t[0];
  }

  /** A number on its own selects itself when it lies in `[1, total]`. */
  lemma NumberToken(v: nat, total: int)
    ensures TokenMeaning(NatToString(v), total) ==
      if 1 <= v <= total then Indices({v}) else Invalid(IndexOutOfRange)
  {
    NumeralNotAll(v);
    DigitRunOfNatToString(v);
    ParseIntOfDigits(NatToString(v));
  }

  /** One end of a range as written: a number, or nothing. */
  function Numeral(end: Option<nat>): string {
    if end.None? then "" else NatToString(end.value)
  }

  /** A token with a `-` after a start without one is the range between
      the stripped sides. */
  lemma RangeSides(startRaw: string, endRaw: string, total: int)
    requires '-' !in startRaw
    requires startRaw == "" || IsDigit(startRaw[0])
    ensures TokenMeaning(startRaw + "-" + endRaw, total) == RangeMeaning(Strip(startRaw), Strip(endRaw), total)
  {
    var token := startRaw + "-" + endRaw;
    var lowered := Lower(token);
    assert lowered[0] == LowerChar(token[0]);
    assert lowered[0] != 'a' && lowered[0] != '\U{432}';
    assert !IsAll(token);
    IndexOfAfter(startRaw, '-', endRaw);
    var i := IndexOf(token, '-');
    assert token[..i] == startRaw;
    assert token[i + 1..] == endRaw;
  }

  /** An end written as a number reads as that number. */
  lemma NumeralBound(end: Option<nat>, default: int)
    ensures Strip(Numeral(end)) == Numeral(end)
    ensures Bound(Numeral(end), default) == if end.None? then Some(default) else Some(end.value)
  {
    if end.Some? {
      DigitRunOfNatToString(end.value);
      ParseIntOfDigits(NatToString(end.value));
      StripOfNoSpace(NatToString(end.value));
    }
  }

  /** The range forms `a-b`, `a-`, `-b` and `-`: a left-out start is 1 and a
      left-out end is `total`; then both ends are checked against
      `[1, total]`, and against each other. */
  lemma RangeToken(a: Option<nat>, b: Option<nat>, total: int)
    ensures var start: int, end: int := if a.None? then 1 else a.value, if b.None? then total else b.value;
      TokenMeaning(Numeral(a) + "-" + Numeral(b), total) ==
        if start < 1 || end < 1 || start > total || end > total then Invalid(RangeOutOfBounds)
        else if start > end then Invalid(RangeReversed)
        else Indices(Span(start, end))
  {
    if a.Some? {
      NumeralNotAll(a.value);
      assert IsDigit(Numeral(a)[0]);
    }
    RangeSides(Numeral(a), Numeral(b), total);
    NumeralBound(a, 1);
    NumeralBound(b, total);
    RangeOfNumerals(a, b, total);
  }

  lemma RangeOfNumerals(a: Option<nat>, b: Option<nat>, total: int)
    requires Bound(Numeral(a), 1) == if a.None? then Some(1) else Some(a.value)
    requires Bound(Numeral(b), total) == if b.None? then Some(total) else Some(b.value)
    ensures var start: int, end: int := if a.None? then 1 else a.value, if b.None? then total else b.value;
      RangeMeaning(Numeral(a), Numeral(b), total) ==
        if start < 1 || end < 1 || start > total || end > total then Invalid(RangeOutOfBounds)
        else if start > end then Invalid(RangeReversed)
        else Indices(Span(start, end))
  {
  }

  /** `default_mask` of `_prompt_manual_selection`: the default indices
      joined with commas, or "all" when there are none. */
  function DefaultMask(defaults: seq<int>): string {
    if defaults == [] then "all" else Join(Numerals(defaults), ',')
  }

  /** The numerals of non-negative numbers joined with commas hold only
      digits and commas. */
  lemma {:induction false} JoinedNumerals(xs: seq<int>)
    requires |xs| >= 1 && forall i :: 0 <= i < |xs| ==> xs[i] >= 0
    ensures var j := Join(Numerals(xs), ',');
      |j| > 0 && forall c :: c in j ==> IsDigit(c) || c == ','
  {
    var first := NatToString(xs[0]);
    assert forall c :: c in first ==> IsDigit(c);
    if |xs| > 1 {
      JoinedNumerals(xs[1..]);
      assert Numerals(xs)[1..] == Numerals(xs[1..]);
    }
  }

  /** The tokens of a default mask are the numerals of the defaults. */
  lemma TokensOfDefault(xs: seq<int>)
    requires |xs| >= 1 && forall i :: 0 <= i < |xs| ==> xs[i] >= 0
    ensures Strip(DefaultMask(xs)) != "" && Tokens(Strip(DefaultMask(xs))) == Numerals(xs)
  {
    var j := DefaultMask(xs);
    JoinedNumerals(xs);
    assert forall k :: 0 <= k < |j| ==> !IsSpace(j[k]) by {
      forall k | 0 <= k < |j| ensures !IsSpace(j[k]) {
        assert j[k] in j;
      }
    }
    StripOfNoSpace(j);
    assert ';' !in j;
    ReplaceAbsent(j, ";", ",");
    var ns := Numerals(xs);
    forall i | 0 <= i < |ns|
      ensures ns[i] != "" && ',' !in ns[i] && forall k :: 0 <= k < |ns[i]| ==> !IsSpace(ns[i][k])
    {
      NumeralNotAll(xs[i]);
      DigitRunOfNatToString(xs[i]);
    }
    SplitOfJoin(ns, ',');
    NonEmptyStrippedOfWords(ns);
  }

  /** Numbers within `[1, total]` read one at a time select exactly
      themselves. */
  lemma {:induction false} ScanNumerals(xs: seq<int>, total: int, k: nat)
    requires k <= |xs| && forall i :: 0 <= i < |xs| ==> 1 <= xs[i] <= total
    ensures Scan(Numerals(xs)[..k], total) == Indices(Elems(xs[..k]))
  {
    if k > 0 {
      var ns, x := Numerals(xs), xs[k - 1];
      ScanNumerals(xs, total, k - 1);
      ScanStep(ns, k - 1, total);
      NumberToken(x, total);
      assert ns[k - 1] == NatToString(x);
      ElemsSnoc(xs, k);
      assert Scan(ns[..k], total) == Extend(Indices(Elems(xs[..k - 1])), Indices({x}));
    }
  }

  lemma ElemsSnoc(xs: seq<int>, k: nat)
    requires 0 < k <= |xs|
    ensures Elems(xs[..k]) == Elems(xs[..k - 1]) + {xs[k - 1]}
  {
    assert xs[..k] == xs[..k - 1] + [xs[k - 1]];
  }

  /** The members of a sequence. */
  function Elems(xs: seq<int>): (s: set<int>)
    ensures forall x :: x in s <==> x in xs
  {
    set x | x in xs
  }

  lemma ElemsAppend(xs: seq<int>, x: int)
    requires x !in Elems(xs)
    ensures Elems(xs + [x]) == Elems(xs) + {x}
    ensures forall a :: 0 <= a < |xs| ==> (xs + [x])[a] != x
  {
  }

  lemma HeadIn(xs: seq<int>)
    requires |xs| > 0
    ensures xs[0] in xs
  {
  }

  /** Two strictly ascending sequences with the same members are equal. */
  lemma {:induction false} AscendingUnique(a: seq<int>, b: seq<int>)
    requires forall i, j :: 0 <= i < j < |a| ==> a[i] < a[j]
    requires forall i, j :: 0 <= i < j < |b| ==> b[i] < b[j]
    requires forall x :: x in a <==> x in b
    ensures a == b
  {
    if a != [] && b != [] {
      HeadIn(a);
      HeadIn(b);
      var j :| 0 <= j < |b| && b[j] == a[0];
      var i :| 0 <= i < |a| && a[i] == b[0];
      assert a[0] <= a[i] && b[0] <= b[j];
      forall x ensures x in a[1..] <==> x in b[1..] {
        if x in a[1..] {
          assert x in b;
        }
        if x in b[1..] {
          assert x in a;
        }
      }
      AscendingUnique(a[1..], b[1..]);
      assert a == [a[0]] + a[1..] && b == [b[0]] + b[1..];
    } else if a != [] {
      HeadIn(a);
      assert false;
    } else if b != [] {
      HeadIn(b);
      assert false;
    }
  }

  /** The default mask of the manual selection reads back as the default
      indices when they are strictly ascending within `[1, total]`. */
  lemma DefaultMaskRoundTrip(xs: seq<int>, total: int)
    requires |xs| >= 1
    requires forall i :: 0 <= i < |xs| ==> 1 <= xs[i] <= total
    requires forall i, j :: 0 <= i < j < |xs| ==> xs[i] < xs[j]
    ensures Mask(DefaultMask(xs), total) == Ok(xs)
  {
    TokensOfDefault(xs);
    ScanAllNumerals(xs, total);
    MaskOfIndices(DefaultMask(xs), total, Numerals(xs), Elems(xs));
    MembersOfAscending(xs, total);
  }

  /** Numbers within `[1, total]` select exactly themselves. */
  lemma ScanAllNumerals(xs: seq<int>, total: int)
    requires |xs| >= 1 && forall i :: 0 <= i < |xs| ==> 1 <= xs[i] <= total
    ensures Numerals(xs) != [] && Scan(Numerals(xs), total) == Indices(Elems(xs))
  {
    ScanNumerals(xs, total, |xs|);
    assert Numerals(xs)[..|xs|] == Numerals(xs) && xs[..|xs|] == xs;
  }

  /** `sorted(set(xs))` of strictly ascending indices in `[1, total]` is
      `xs`. */
  lemma MembersOfAscending(xs: seq<int>, total: int)
    requires forall i :: 0 <= i < |xs| ==> 1 <= xs[i] <= total
    requires forall i, j :: 0 <= i < j < |xs| ==> xs[i] < xs[j]
    ensures Members(Elems(xs), 1, total + 1) == xs
  {
    AscendingUnique(Members(Elems(xs), 1, total + 1), xs);
  }

  /** A mask whose tokens select indices selects those in range. */
  lemma MaskOfIndices(mask: string, total: int, ts: seq<string>, s: set<int>)
    requires total > 0 && Strip(mask) != "" && Tokens(Strip(mask)) == ts && ts != []
    requires Scan(ts, total) == Indices(s)
    ensures Mask(mask, total) == Ok(Members(s, 1, total + 1))
  {
  }

  /** A token "all" read where the tokens before it were all valid
      selections ends the parse with the whole playlist. */
  lemma AllAfterValid(ts: seq<string>, k: nat, total: int)
    requires k < |ts| && Scan(ts[..k], total).Indices? && IsAll(ts[k])
    ensures Scan(ts, total) == Everything
  {
    ScanStep(ts, k, total);
    ScanSticks(ts, k + 1, total);
  }

  /** The mask "all" selects the whole playlist. */
  lemma MaskAll(total: int)
    requires total > 0
    ensures Mask("all", total) == Ok(Range(1, total + 1))
  {
    StripOfNoSpace("all");
    TokensOfAll();
    AllIsAll();
    assert ["all"][..0] == [];
    AllAfterValid(["all"], 0, total);
  }

  lemma TokensOfAll()
    ensures Tokens("all") == ["all"]
  {
    var m := "all";
    ReplaceAbsent(m, ";", ",");
    SplitAbsent(m, ',');
    NonEmptyStrippedOfWords([m]);
  }

  lemma SplitAbsent(s: string, sep: char)
    requires sep !in s
    ensures Split(s, sep) == [s]
  {
  }

  lemma AllIsAll()
    ensures IsAll("all")
  {
    var lowered := Lower("all");
    assert lowered[0] == 'a' && lowered[1] == 'l' && lowered[2] == 'l';
    assert lowered == "all";
  }

  /** Stripping only removes characters. */
  lemma StripIn(s: string)
    ensures forall c :: c in Strip(s) ==> c in s
  {
    var l := LStrip(s);
    forall c | c in RStrip(l) ensures c in l {
      var k :| 0 <= k < |RStrip(l)| && RStrip(l)[k] == c;
      assert l[k] == c;
    }
    forall c | c in l ensures c in s {
      var k :| 0 <= k < |l| && l[k] == c;
      assert s[|s| - |l| + k] == c;
    }
  }

  /** A character of a part is a character of the joined parts. */
  lemma {:induction false} PartIn(parts: seq<string>, sep: char, i: nat, c: char)
    requires i < |parts| && c in parts[i]
    ensures c in Join(parts, sep)
  {
    if i > 0 {
      PartIn(parts[1..], sep, i - 1, c);
    }
  }

  /** A mask made of nothing but whitespace and separators is an empty
      input. */
  lemma MaskBlankRejected(mask: string, total: int)
    requires total > 0
    requires forall k :: 0 <= k < |mask| ==> IsSpace(mask[k]) || mask[k] == ',' || mask[k] == ';'
    ensures Mask(mask, total) == Err(EmptyInput)
  {
    var m := Strip(mask);
    if m != "" {
      StripIn(mask);
      var unified := Replace(m, ";", ",");
      ReplaceChars(m, ";", ",");
      ReplaceRemoves(m, ';', ",");
      var parts := Split(unified, ',');
      forall i | 0 <= i < |parts| ensures Strip(parts[i]) == "" {
        forall k | 0 <= k < |parts[i]| ensures IsSpace(parts[i][k]) {
          var c := parts[i][k];
          PartIn(parts, ',', i, c);
          assert c in unified && c != ',' && c != ';';
          assert c in mask;
        }
      }
    }
  }

  // ---------------------------------------------------------------------
  // Resuming a playlist

  /** What `typer.prompt(text, default=d)` returns for the typed line
      `typed`: the default for an empty line, the line otherwise. */
  function Prompted(typed: string, default: string): (answer: string)
    ensures typed == "" ==> answer == default
    ensures typed != "" ==> answer == typed
  {
    if typed == "" then default else typed
  }

  /** `_prompt_manual_selection(total, defaults)` answered with the typed
      lines `lines`: the first answer that parses to a non-empty selection,
      or `None` when the lines run out before one does. */
  function ManualSelection(total: int, defaults: seq<int>, lines: seq<string>): (r: Option<seq<int>>)
    ensures r.Some? ==> |r.value| > 0
    ensures r.Some? ==> forall i :: 0 <= i < |r.value| ==> 1 <= r.value[i] <= total
    ensures r.Some? ==> forall i, j :: 0 <= i < j < |r.value| ==> r.value[i] < r.value[j]
  {
    if lines == [] then None
    else
      var parsed := Mask(Prompted(lines[0], DefaultMask(defaults)), total);
      if parsed.Ok? && parsed.value != [] then Some(parsed.value)
      else ManualSelection(total, defaults, lines[1..])
  }

  /** The loop of `_prompt_manual_selection`: an answer that raises is
      reported and asked again, and so is an empty selection. */
  method PromptManualSelection(total: int, defaults: seq<int>, lines: seq<string>) returns (r: Option<seq<int>>)
    ensures r == ManualSelection(total, defaults, lines)
  {
    var defaultMask := DefaultMask(defaults);
    var j := 0;
    while j < |lines|
      invariant 0 <= j <= |lines|
      invariant ManualSelection(total, defaults, lines[j..]) == ManualSelection(total, defaults, lines)
    {
      ManualStep(total, defaults, lines, j);
      var userInput := Prompted(lines[j], defaultMask);
      var selection := ParseSelectionMask(userInput, total);
      if selection.Ok? && selection.value != [] {
        return Some(selection.value);
      }
      j := j + 1;
    }
    return None;
  }

  /** One answer of the manual selection: a non-empty selection ends the
      prompt, anything else asks again. */
  lemma ManualStep(total: int, defaults: seq<int>, lines: seq<string>, j: nat)
    requires j < |lines|
    ensures var parsed := Mask(Prompted(lines[j], DefaultMask(defaults)), total);
      ManualSelection(total, defaults, lines[j..])
      == if parsed.Ok? && parsed.value != [] then Some(parsed.value) else ManualSelection(total, defaults, lines[j + 1..])
  {
    assert lines[j..][0] == lines[j] && lines[j..][1..] == lines[j + 1..];
  }

  /** Accepting the default of the manual selection selects the default
      indices when there are some (strictly ascending within `[1, total]`),
      and the whole playlist when there are none. */
  lemma ManualDefault(total: int, defaults: seq<int>, lines: seq<string>)
    requires total > 0 && |lines| > 0 && lines[0] == ""
    requires forall i :: 0 <= i < |defaults| ==> 1 <= defaults[i] <= total
    requires forall i, j :: 0 <= i < j < |defaults| ==> defaults[i] < defaults[j]
    ensures ManualSelection(total, defaults, lines) == Some(if defaults == [] then Range(1, total + 1) else defaults)
  {
    if defaults == [] {
      MaskAll(total);
    } else {
      DefaultMaskRoundTrip(defaults, total);
    }
  }

  /** `prompt_playlist_resume(entries, existing_map, missing_indices)` for a
      playlist of `total` entries, answered with the typed choices `choices`
      and, after choice 3, the typed lines `lines`: the indices to download
      and whether to delete the files found first; `None` when the answers
      run out. */
  function Resume(total: nat, hasExisting: bool, missing: seq<int>, choices: seq<string>, lines: seq<string>)
    : (r: Option<(seq<int>, bool)>)
    ensures total == 0 ==> r == Some(([], false))
    ensures total > 0 && !hasExisting ==> r == Some((Range(1, total + 1), false))
  {
    if total == 0 then Some(([], false))
    else if !hasExisting then Some((Range(1, total + 1), false))
    else Choose(total, missing, choices, lines)
  }

  /** The choice loop of the resume prompt, whose default is choice 1. */
  function Choose(total: nat, missing: seq<int>, choices: seq<string>, lines: seq<string>): Option<(seq<int>, bool)> {
    if choices == [] then None
    else
      var choice := Prompted(choices[0], "1");
      if choice == "1" then Some((if missing != [] then Range(missing[0], total + 1) else [], false))
      else if choice == "2" then Some((Range(1, total + 1), true))
      else if choice == "3" then
        match ManualSelection(total, missing, lines)
        case None => None
        case Some(selection) => Some((selection, false))
      else Choose(total, missing, choices[1..], lines)
  }

  /** `prompt_playlist_resume`, its listing of the files found left out. */
  method PromptPlaylistResume(total: nat, existing: map<int, seq<string>>, missing: seq<int>,
                              choices: seq<string>, lines: seq<string>)
    returns (r: Option<(seq<int>, bool)>)
    ensures r == Resume(total, existing != map[], missing, choices, lines)
  {
    if total == 0 {
      return Some(([], false));
    }
    if existing == map[] {
      return Some((Range(1, total + 1), false));
    }
    var j := 0;
    while j < |choices|
      invariant 0 <= j <= |choices|
      invariant Choose(total, missing, choices[j..], lines) == Choose(total, missing, choices, lines)
    {
      assert choices[j..][1..] == choices[j + 1..];
      var choice := Prompted(choices[j], "1");
      if choice == "1" {
        if missing != [] {
          return Some((Range(missing[0], total + 1), false));
        }
        return Some(([], false));
      }
      if choice == "2" {
        return Some((Range(1, total + 1), true));
      }
      if choice == "3" {
        var selection := PromptManualSelection(total, missing, lines);
        if selection.None? {
          return None;
        }
        return Some((selection.value, false));
      }
      j := j + 1;
    }
    return None;
  }

  /** Choice 1 continues from the first missing index to the end, which
      takes in every missing index when they ascend within `[1, total]`;
      with nothing missing it downloads nothing. */
  lemma ResumeContinues(total: nat, missing: seq<int>, choices: seq<string>, lines: seq<string>)
    requires total > 0 && |choices| > 0 && Prompted(choices[0], "1") == "1"
    requires forall i :: 0 <= i < |missing| ==> 1 <= missing[i] <= total
    requires forall i, j :: 0 <= i < j < |missing| ==> missing[i] < missing[j]
    ensures var r := Resume(total, true, missing, choices, lines);
      r.Some? && !r.value.1
      && (missing == [] <==> r.value.0 == [])
      && (forall x :: x in missing ==> x in r.value.0)
      && (forall k :: 0 <= k < |r.value.0| ==> 1 <= r.value.0[k] <= total)
  {
    if missing != [] {
      var run := Range(missing[0], total + 1);
      forall x | x in missing ensures x in run {
        var i :| 0 <= i < |missing| && missing[i] == x;
        assert run[x - missing[0]] == x;
      }
    }
  }

  /** Choice 2 deletes the files found and downloads the whole playlist. */
  lemma ResumeRestarts(total: nat, missing: seq<int>, choices: seq<string>, lines: seq<string>)
    requires total > 0 && |choices| > 0 && choices[0] == "2"
    ensures Resume(total, true, missing, choices, lines) == Some((Range(1, total + 1), true))
  {
  }

  /** Choice 3 with the default answer downloads exactly the missing
      indices, or the whole playlist when none is missing. */
  lemma ResumeManualDefault(total: nat, missing: seq<int>, choices: seq<string>, lines: seq<string>)
    requires total > 0 && |choices| > 0 && choices[0] == "3" && |lines| > 0 && lines[0] == ""
    requires forall i :: 0 <= i < |missing| ==> 1 <= missing[i] <= total
    requires forall i, j :: 0 <= i < j < |missing| ==> missing[i] < missing[j]
    ensures Resume(total, true, missing, choices, lines) ==
      Some((if missing == [] then Range(1, total + 1) else missing, false))
  {
    ManualDefault(total, missing, lines);
    ChooseManual(total, missing, choices, lines);
  }

  /** Choice 3 hands over to the manual selection. */
  lemma ChooseManual(total: nat, missing: seq<int>, choices: seq<string>, lines: seq<string>)
    requires |choices| > 0 && choices[0] == "3"
    ensures Choose(total, missing, choices, lines) ==
      if ManualSelection(total, missing, lines).None? then None
      else Some((ManualSelection(total, missing, lines).value, false))
  {
    assert Prompted(choices[0], "1") == "3";
  }

  // ---------------------------------------------------------------------
  // Heights and the quality menu

  /** `isinstance(h, int)`: an int, or a bool, which Python counts as one. */
  predicate IsIntValue(h: Value) {
    h.VInt? || h.VBool?
  }

  /** The dictionary key a height makes: `True` and `1` are the same key. */
  function HeightKey(h: Value): int
    requires IsIntValue(h)
  {
    if h.VInt? then h.i else if h.b then 1 else 0
  }

  /** A format that `collect_available_heights` counts: a dict (anything
      else makes `f.get` raise, which the loop skips) with a truthy codec
      other than "none" and an int height. */
  predicate Counts(f: Value) {
    f.VDict? && Truthy(Get(f.fields, "vcodec")) && Get(f.fields, "vcodec") != VStr("none")
    && IsIntValue(Get(f.fields, "height"))
  }

  /** The height of a counted format. */
  function CountedHeight(f: Value): (h: Option<int>)
    ensures h.Some? <==> Counts(f)
  {
    if Counts(f) then Some(HeightKey(Get(f.fields, "height"))) else None
  }

  /** A counted format of height `h`. */
  predicate CountsAt(f: Value, h: int) {
    CountedHeight(f) == Some(h)
  }

  function Ext(f: Value): Value {
    GetIn(f, "ext")
  }

  /** The container recorded for a height after the formats `fs`: the first
      one seen (`ext or "mp4"`), replaced by "mp4" when a later format of
      that height is one. */
  function HeightTable(fs: seq<Value>): map<int, Value> {
    if fs == [] then map[]
    else
      var table := HeightTable(fs[..|fs| - 1]);
      Record(table, CountedHeight(fs[|fs| - 1]), Ext(fs[|fs| - 1]))
  }

  /** The body of the loop of `collect_available_heights` for one format
      of counted height `seen` (`None`: not counted) and container `ext`. */
  function Record(table: map<int, Value>, seen: Option<int>, ext: Value): (t: map<int, Value>)
    ensures seen.Some? ==> t.Keys == table.Keys + {seen.value}
    ensures seen.None? ==> t == table
    ensures forall k :: k in table && Some(k) != seen ==> t[k] == table[k]
    ensures seen.Some? && seen.value !in table ==> t[seen.value] == Or([ext, VStr("mp4")])
    ensures seen.Some? && seen.value in table && ext == VStr("mp4") ==> t[seen.value] == VStr("mp4")
    ensures seen.Some? && seen.value in table && ext != VStr("mp4") ==> t[seen.value] == table[seen.value]
  {
    if seen.Some? then
      var h := seen.value;
      if h !in table || (ext == VStr("mp4") && table[h] != VStr("mp4")) then
        assert Or([VStr("mp4"), VStr("mp4")]) == VStr("mp4");
        table[h := Or([ext, VStr("mp4")])]
      else table
    else table
  }

  /** Reading one more format. */
  lemma HeightTableStep(fs: seq<Value>, j: nat)
    requires j < |fs|
    ensures HeightTable(fs[..j + 1]) == Record(HeightTable(fs[..j]), CountedHeight(fs[j]), Ext(fs[j]))
  {
    assert fs[..j + 1][..j] == fs[..j];
  }

  /** The recorded heights are exactly those of the counted formats. */
  lemma {:induction false} HeightTableKeys(fs: seq<Value>)
    ensures forall h :: h in HeightTable(fs) <==> exists i :: 0 <= i < |fs| && CountsAt(fs[i], h)
  {
    if fs != [] {
      var front := fs[..|fs| - 1];
      var f := fs[|fs| - 1];
      HeightTableKeys(front);
      assert forall i :: 0 <= i < |front| ==> front[i] == fs[i];
      forall h | h in HeightTable(fs) ensures exists i :: 0 <= i < |fs| && CountsAt(fs[i], h) {
        if h !in HeightTable(front) {
          assert CountsAt(fs[|fs| - 1], h);
        }
      }
      forall h, i | 0 <= i < |fs| && CountsAt(fs[i], h) ensures h in HeightTable(fs) {
        if i < |front| {
          assert CountsAt(front[i], h);
        }
      }
    }
  }

  /** Once a format of height `h` is an mp4, the container recorded for
      `h` is "mp4". */
  lemma {:induction false} HeightTableMp4(fs: seq<Value>, h: int, i: nat)
    requires i < |fs| && CountsAt(fs[i], h) && Ext(fs[i]) == VStr("mp4")
    ensures h in HeightTable(fs) && HeightTable(fs)[h] == VStr("mp4")
  {
    var front := fs[..|fs| - 1];
    var f := fs[|fs| - 1];
    assert HeightTable(fs) == Record(HeightTable(front), CountedHeight(f), Ext(f));
    if i < |front| {
      assert front[i] == fs[i];
      HeightTableMp4(front, h, i);
    }
  }

  /** When no format of height `h` is an mp4, the container recorded for
      `h` is that of the first format of that height, "mp4" standing in for
      a missing one. */
  lemma {:induction false} HeightTableFirst(fs: seq<Value>, h: int, i: nat)
    requires i < |fs| && CountsAt(fs[i], h) && forall j :: 0 <= j < i ==> !CountsAt(fs[j], h)
    requires forall j :: 0 <= j < |fs| && CountsAt(fs[j], h) ==> Ext(fs[j]) != VStr("mp4")
    ensures h in HeightTable(fs) && HeightTable(fs)[h] == Or([Ext(fs[i]), VStr("mp4")])
  {
    var front := fs[..|fs| - 1];
    var f := fs[|fs| - 1];
    var before := HeightTable(front);
    assert HeightTable(fs) == Record(before, CountedHeight(f), Ext(f));
    assert forall j :: 0 <= j < |front| ==> front[j] == fs[j];
    if i < |front| {
      HeightTableFirst(front, h, i);
      assert h in before;
      assert CountsAt(f, h) ==> Ext(f) != VStr("mp4");
    } else {
      HeightTableKeys(front);
      assert h !in before;
    }
  }

  /** `sorted(..., reverse=True)` on distinct ints: `x` put in its place. */
  function InsertDescending(x: int, xs: seq<int>): (r: seq<int>)
    requires forall i, j :: 0 <= i < j < |xs| ==> xs[i] > xs[j]
    requires x !in xs
    ensures Elems(r) == Elems(xs) + {x} && |r| == |xs| + 1
    ensures forall i, j :: 0 <= i < j < |r| ==> r[i] > r[j]
  {
    if xs == [] || x > xs[0] then
      assert forall k :: 0 <= k < |xs| ==> xs[k] <= xs[0];
      [x] + xs
    else
      var rest := InsertDescending(x, xs[1..]);
      InsertBelowHead(x, xs, rest);
      [xs[0]] + rest
  }

  /** Inserting `x` below the head of `xs` keeps everything under the head. */
  lemma InsertBelowHead(x: int, xs: seq<int>, rest: seq<int>)
    requires xs != [] && x <= xs[0] && x !in xs
    requires forall i, j :: 0 <= i < j < |xs| ==> xs[i] > xs[j]
    requires Elems(rest) == Elems(xs[1..]) + {x} && |rest| == |xs|
    ensures Elems([xs[0]] + rest) == Elems(xs) + {x}
    ensures forall k :: 0 <= k < |rest| ==> rest[k] < xs[0]
  {
    assert xs == [xs[0]] + xs[1..];
    assert x < xs[0] by {
      assert xs[0] in xs;
    }
    forall k | 0 <= k < |rest| ensures rest[k] < xs[0] {
      assert rest[k] in Elems(rest);
      if rest[k] != x {
        var m :| 0 <= m < |xs[1..]| && xs[1..][m] == rest[k];
        assert xs[m + 1] == rest[k];
      }
    }
  }

  /** `sorted(keys, reverse=True)` for distinct keys: strictly descending,
      with the same members. */
  function SortDescending(xs: seq<int>): (r: seq<int>)
    requires forall i, j :: 0 <= i < j < |xs| ==> xs[i] != xs[j]
    ensures Elems(r) == Elems(xs) && |r| == |xs|
    ensures forall i, j :: 0 <= i < j < |r| ==> r[i] > r[j]
  {
    if xs == [] then []
    else
      var front := xs[..|xs| - 1];
      assert xs == front + [xs[|xs| - 1]];
      InsertDescending(xs[|xs| - 1], SortDescending(front))
  }

  /** `collect_available_heights(formats)`: the container for every height
      and the heights from the tallest down. */
  method CollectAvailableHeights(formats: seq<Value>) returns (table: map<int, Value>, heights: seq<int>)
    ensures table == HeightTable(formats)
    ensures Elems(heights) == table.Keys
    ensures forall i, j :: 0 <= i < j < |heights| ==> heights[i] > heights[j]
  {
    table := map[];
    var order: seq<int> := [];
    var j := 0;
    while j < |formats|
      invariant 0 <= j <= |formats|
      invariant table == HeightTable(formats[..j])
      invariant Elems(order) == table.Keys
      invariant forall a, b :: 0 <= a < b < |order| ==> order[a] != order[b]
    {
      HeightTableStep(formats, j);
      table, order := NoteFormat(table, order, formats[j]);
      j := j + 1;
    }
    assert formats[..j] == formats;
    heights := SortDescending(order);
  }

  /** One turn of the loop of `collect_available_heights`; `order` holds the
      keys of `table` in the order they were added. */
  method NoteFormat(table: map<int, Value>, order: seq<int>, f: Value) returns (table': map<int, Value>, order': seq<int>)
    requires Elems(order) == table.Keys
    requires forall a, b :: 0 <= a < b < |order| ==> order[a] != order[b]
    ensures table' == Record(table, CountedHeight(f), Ext(f))
    ensures Elems(order') == table'.Keys
    ensures forall a, b :: 0 <= a < b < |order'| ==> order'[a] != order'[b]
  {
    table', order' := table, order;
    if f.VDict? {
      var h := Get(f.fields, "height");
      var vcodec := Get(f.fields, "vcodec");
      var ext := Get(f.fields, "ext");
      if Truthy(vcodec) && vcodec != VStr("none") && IsIntValue(h) {
        var key := HeightKey(h);
        if key !in table' || (ext == VStr("mp4") && table'[key] != VStr("mp4")) {
          if key !in table' {
            ElemsAppend(order', key);
            order' := order' + [key];
          }
          table' := table'[key := Or([ext, VStr("mp4")])];
        }
      }
    }
  }

  /** What a quality menu entry offers: the best there is, video of at most
      a height in a container, or audio only. */
  datatype Offer = BestAvailable | VideoAt(height: int, ext: string) | AudioOnly

  /** One entry of the quality menu as the program holds it: its caption,
      the format string handed to yt-dlp and the target height (`Some(-1)`
      marks audio only). */
  datatype QualityOption = QualityOption(caption: string, format: string, target: Option<int>)

  /** The entry for an offer. */
  function Render(o: Offer): (q: QualityOption)
    ensures o.BestAvailable? ==> q.target == None
    ensures o.VideoAt? ==> q.target == Some(o.height)
    ensures o.AudioOnly? ==> q.target == Some(-1)
  {
    match o
    case BestAvailable =>
      // "Лучшее доступное качество"
      QualityOption("\U{41b}\U{443}\U{447}\U{448}\U{435}\U{435} \U{434}\U{43e}\U{441}\U{442}\U{443}\U{43f}\U{43d}\U{43e}\U{435} \U{43a}\U{430}\U{447}\U{435}\U{441}\U{442}\U{432}\U{43e}",
                    "bestvideo+bestaudio/best", None)
    case VideoAt(h, ext) =>
      // "Видео EXT <h>p"
      QualityOption("\U{412}\U{438}\U{434}\U{435}\U{43e} " + Upper(ext) + " " + IntToString(h) + "p",
                    VideoFormat(h, ext), Some(h))
    case AudioOnly =>
      // "Только аудио (m4a)"
      QualityOption("\U{422}\U{43e}\U{43b}\U{44c}\U{43a}\U{43e} \U{430}\U{443}\U{434}\U{438}\U{43e} (m4a)",
                    "bestaudio[ext=m4a]/bestaudio", Some(-1))
  }

  /** The audio container paired with a video container: m4a with mp4,
      webm with anything else. */
  function AudioExt(ext: string): (a: string)
    ensures a == "m4a" <==> ext == "mp4"
  {
    if ext == "mp4" then "m4a" else "webm"
  }

  /** The format string for height `h` in container `ext`: the best video
      of at most that height in that container with its paired audio, else
      the best single file of that height and container, else the best of
      that height. */
  function VideoFormat(h: int, ext: string): string {
    var height := IntToString(h);
    "bestvideo[height<=" + height + "][ext=" + ext + "]+bestaudio[ext=" + AudioExt(ext) + "]/"
    + "best[height<=" + height + "][ext=" + ext + "]/best[height<=" + height + "]"
  }

  /** The offer for height `h`: `KeyError` when the table has no container
      for it, `AttributeError` when the container is not a string
      (`ext.upper()`). */
  function HeightOffer(table: map<int, Value>, h: int): (r: Result<Offer, PyError>)
    ensures h !in table ==> r == Err(KeyError)
    ensures h in table && !table[h].VStr? ==> r == Err(AttributeError)
    ensures h in table && table[h].VStr? ==> r == Ok(VideoAt(h, table[h].s))
  {
    if h !in table then Err(KeyError)
    else
      var ext := table[h];
      if !ext.VStr? then Err(AttributeError) else Ok(VideoAt(h, ext.s))
  }

  /** The offers for the heights `hs` in order, or the first error. */
  function HeightOffers(table: map<int, Value>, hs: seq<int>): (r: Result<seq<Offer>, PyError>)
    ensures r.Ok? <==> forall i :: 0 <= i < |hs| ==> HeightOffer(table, hs[i]).Ok?
    ensures r.Ok? ==> |r.value| == |hs| && forall i :: 0 <= i < |hs| ==> r.value[i] == HeightOffer(table, hs[i]).value
  {
    if hs == [] then Ok([])
    else
      var front := hs[..|hs| - 1];
      var before := HeightOffers(table, front);
      assert forall i :: 0 <= i < |front| ==> front[i] == hs[i];
      if before.Err? then before
      else
        var here := HeightOffer(table, hs[|hs| - 1]);
        if here.Err? then Err(here.error)
        else
          var all := before.value + [here.value];
          assert forall i :: 0 <= i < |front| ==> all[i] == before.value[i];
          Ok(all)
  }

  /** How many heights the menu offers: the loop stops once the menu holds
      `max_options` entries, after at least one height. */
  function MenuCount(heights: nat, maxOptions: int): (n: nat)
    ensures n <= heights
    ensures heights > 0 ==> n > 0
    ensures maxOptions >= 2 ==> n == if heights < maxOptions - 1 then heights else maxOptions - 1
  {
    var cap := if maxOptions - 1 > 1 then maxOptions - 1 else 1;
    if heights < cap then heights else cap
  }

  /** `build_quality_options(height_to_ext, available_heights, max_options)`
      as offers: the best there is first, audio only last, and between them
      the first heights in their order, each in its container. */
  function QualityMenu(table: map<int, Value>, hs: seq<int>, maxOptions: int): (r: Result<seq<Offer>, PyError>)
    ensures r.Ok? ==> var n := MenuCount(|hs|, maxOptions);
      && |r.value| == n + 2
      && r.value[0] == BestAvailable && r.value[|r.value| - 1] == AudioOnly
      && forall i :: 0 <= i < n ==> hs[i] in table && table[hs[i]].VStr? && r.value[i + 1] == VideoAt(hs[i], table[hs[i]].s)
    ensures r.Err? <==> exists i :: 0 <= i < MenuCount(|hs|, maxOptions) && HeightOffer(table, hs[i]).Err?
  {
    var n := MenuCount(|hs|, maxOptions);
    var offers := HeightOffers(table, hs[..n]);
    assert forall i :: 0 <= i < n ==> hs[..n][i] == hs[i];
    if offers.Err? then Err(offers.error) else Ok([BestAvailable] + offers.value + [AudioOnly])
  }

  /** The loop of `build_quality_options`, with its early `break`; the
      entries are those of `QualityMenu`. */
  method BuildQualityOptions(table: map<int, Value>, hs: seq<int>, maxOptions: int)
    returns (r: Result<seq<QualityOption>, PyError>)
    ensures QualityMenu(table, hs, maxOptions).Err? ==> r == Err(QualityMenu(table, hs, maxOptions).error)
    ensures QualityMenu(table, hs, maxOptions).Ok? ==> r.Ok? && Rendered(QualityMenu(table, hs, maxOptions).value, r.value)
  {
    var n := MenuCount(|hs|, maxOptions);
    ghost var front: seq<Offer> := [];
    var options := [Render(BestAvailable)];
    var j := 0;
    assert hs[..j] == [];
    while j < |hs|
      invariant 0 <= j <= n
      invariant j > 0 ==> j + 1 < maxOptions
      invariant |front| == j && HeightOffers(table, hs[..j]) == Ok(front)
      invariant Rendered([BestAvailable] + front, options)
    {
      var h := hs[j];
      if h !in table {
        HeightOffersStop(table, hs, j, n);
        return Err(KeyError);
      }
      var ext := table[h];
      if !ext.VStr? {
        HeightOffersStop(table, hs, j, n);
        return Err(AttributeError);
      }
      HeightOffersSnoc(table, hs, j);
      RenderedSnoc(front, options, VideoAt(h, ext.s));
      front := front + [VideoAt(h, ext.s)];
      options := options + [Render(VideoAt(h, ext.s))];
      j := j + 1;
      if |options| >= maxOptions {
        break;
      }
    }
    assert j == n;
    MenuOfOffers(table, hs, maxOptions, front);
    RenderedLast(front, options);
    return Ok(options + [Render(AudioOnly)]);
  }

  /** The menu around the offers of its heights. */
  lemma MenuOfOffers(table: map<int, Value>, hs: seq<int>, maxOptions: int, front: seq<Offer>)
    requires HeightOffers(table, hs[..MenuCount(|hs|, maxOptions)]) == Ok(front)
    ensures QualityMenu(table, hs, maxOptions) == Ok([BestAvailable] + front + [AudioOnly])
  {
  }

  /** Rendering one more offer keeps the entries those of the offers. */
  lemma RenderedSnoc(front: seq<Offer>, options: seq<QualityOption>, o: Offer)
    requires Rendered([BestAvailable] + front, options)
    ensures Rendered([BestAvailable] + (front + [o]), options + [Render(o)])
  {
    var offers := [BestAvailable] + front;
    assert [BestAvailable] + (front + [o]) == offers + [o];
    RenderedAppend(offers, options, o);
  }

  /** The audio entry closes the menu. */
  lemma RenderedLast(front: seq<Offer>, options: seq<QualityOption>)
    requires Rendered([BestAvailable] + front, options)
    ensures Rendered([BestAvailable] + front + [AudioOnly], options + [Render(AudioOnly)])
  {
    RenderedAppend([BestAvailable] + front, options, AudioOnly);
  }

  lemma RenderedAppend(offers: seq<Offer>, options: seq<QualityOption>, o: Offer)
    requires Rendered(offers, options)
    ensures Rendered(offers + [o], options + [Render(o)])
  {
    assert forall i :: 0 <= i < |offers| ==> (offers + [o])[i] == offers[i] && (options + [Render(o)])[i] == options[i];
  }

  /** `str(h)` of a three- or four-digit height has three or four digits. */
  lemma HeightDigits(h: int)
    requires 100 <= h <= 9999
    ensures 3 <= |IntToString(h)| <= 4
  {
    var tens := h / 10;
    var hundreds := tens / 10;
    assert 1 <= hundreds < 100;
    assert |NatToString(h)| == |NatToString(tens)| + 1;
    assert |NatToString(tens)| == |NatToString(hundreds)| + 1;
    if hundreds >= 10 {
      assert hundreds / 10 < 10;
      assert |NatToString(hundreds)| == |NatToString(hundreds / 10)| + 1 == 2;
    }
  }

  /** `str.upper()` never gives a Latin `p`. */
  lemma UpperHasNoP(s: string)
    ensures 'p' !in Upper(s)
  {
    forall i | 0 <= i < |s|
      ensures Upper(s)[i] != 'p'
    {
    }
  }

  /** Picking a video entry of three- or four-digit height gives its height
      as the file-name suffix (`_1080p` for `Видео MP4 1080p`), in the code as
      written as well as in the corrected one. */
  lemma VideoEntrySuffix(h: int, ext: string)
    requires 100 <= h <= 9999
    ensures var o := Render(VideoAt(h, ext));
      && Utils.ExtractQualitySuffix(o.format, o.caption) == "_" + IntToString(h) + "p"
      && Utils.ExtractQualitySuffixIntended(o.format, o.caption) == "_" + IntToString(h) + "p"
  {
    var t := "\U{412}\U{438}\U{434}\U{435}\U{43e} " + Upper(ext);
    UpperHasNoP(ext);
    assert 'p' !in t by {
      forall i | 0 <= i < |t| ensures t[i] != 'p' {
        if i >= 6 {
          assert t[i] == Upper(ext)[i - 6];
        }
      }
    }
    HeightDigits(h);
    Utils.LabelEndsWithHeight(t, IntToString(h));
  }

  /** Picking "the best available quality" gives the suffix `_audio` as
      written, since its format `bestvideo+bestaudio/best` mentions
      `bestaudio`, and `_best` with the corrected audio test. */
  lemma BestEntrySuffix(o: QualityOption)
    requires o == Render(BestAvailable)
    ensures Utils.ExtractQualitySuffix(o.format, o.caption) == "_audio"
    ensures Utils.ExtractQualitySuffixIntended(o.format, o.caption) == "_best"
  {
    BestCaptionText(o.caption);
    BestFormatText(o.format);
    LowerHasNoA(o.caption);
    Utils.NoOccurrence(Lower(o.caption), "audio", 0);
    Utils.NoOccurrence(o.format, "height<=", 0);
    Utils.MixedChoiceSuffix(o.format, o.caption);
  }

  /** What the suffix search sees in the best entry's caption. */
  lemma BestCaptionText(caption: string)
    requires caption == Render(BestAvailable).caption
    ensures 'p' !in caption && 'a' !in caption && 'A' !in caption
  {
    assert forall i :: 0 <= i < |caption| ==> caption[i] == ' ' || caption[i] >= '\U{400}';
  }

  /** What the suffix search sees in the best entry's format. */
  lemma BestFormatText(format: string)
    requires format == "bestvideo+bestaudio/best"
    ensures 'h' !in format && Contains(format, "bestaudio") && Contains(format, "bestvideo")
  {
    assert OccursAt(format, "bestaudio", 10);
    assert OccursAt(format, "bestvideo", 0);
  }

  /** The audio entry gives `_audio` either way. */
  lemma AudioEntrySuffix()
    ensures var o := Render(AudioOnly);
      && Utils.ExtractQualitySuffix(o.format, o.caption) == "_audio"
      && Utils.ExtractQualitySuffixIntended(o.format, o.caption) == "_audio"
  {
    var o := Render(AudioOnly);
    AudioCaptionText(o.caption);
    AudioFormatText(o.format);
    Utils.NoOccurrence(o.format, "bestvideo", 4);
    Utils.AudioChoiceSuffix(o.format, o.caption);
  }

  /** What the suffix search sees in the audio entry's caption. */
  lemma AudioCaptionText(caption: string)
    requires caption == Render(AudioOnly).caption
    ensures 'p' !in caption
  {
  }

  /** What the suffix search sees in the audio entry's format. */
  lemma AudioFormatText(format: string)
    requires format == "bestaudio[ext=m4a]/bestaudio"
    ensures 'v' !in format && Contains(format, "bestaudio")
  {
    assert OccursAt(format, "bestaudio", 0);
  }

  /** `str.lower()` of a text without `a` and `A` has no `a`. */
  lemma LowerHasNoA(s: string)
    requires 'a' !in s && 'A' !in s
    ensures 'a' !in Lower(s)
  {
    forall i | 0 <= i < |s|
      ensures Lower(s)[i] != 'a'
    {
      assert s[i] in s;
    }
  }

  /** The entries are the renderings of the offers. */
  predicate Rendered(offers: seq<Offer>, options: seq<QualityOption>) {
    |offers| == |options| && forall i :: 0 <= i < |offers| ==> options[i] == Render(offers[i])
  }

  /** One more height that has an offer extends the offers by it. */
  lemma HeightOffersSnoc(table: map<int, Value>, hs: seq<int>, j: nat)
    requires j < |hs| && HeightOffers(table, hs[..j]).Ok? && HeightOffer(table, hs[j]).Ok?
    ensures HeightOffers(table, hs[..j + 1]) == Ok(HeightOffers(table, hs[..j]).value + [HeightOffer(table, hs[j]).value])
  {
    assert hs[..j + 1][..j] == hs[..j];
    assert hs[..j + 1][j] == hs[j];
  }

  /** An error at height `j` is the error of every longer prefix. */
  lemma {:induction false} HeightOffersStop(table: map<int, Value>, hs: seq<int>, j: nat, n: nat)
    requires j < n <= |hs| && HeightOffers(table, hs[..j]).Ok? && HeightOffer(table, hs[j]).Err?
    ensures HeightOffers(table, hs[..n]) == Err(HeightOffer(table, hs[j]).error)
    decreases n
  {
    assert hs[..n][..n - 1] == hs[..n - 1];
    if n == j + 1 {
      assert hs[..n][n - 1] == hs[j];
    } else {
      HeightOffersStop(table, hs, j, n - 1);
    }
  }

  /** An entry of the playlist counts as downloaded when it is a dict with a
      truthy `id` for which `find` (the file lookup of `find_existing_files`)
      reports some file. */
  predicate Found(entry: Value, find: Value -> seq<string>) {
    entry.VDict? && Truthy(Get(entry.fields, "id")) && find(Get(entry.fields, "id")) != []
  }

  /** `analyze_playlist_progress(output_dir, entries)`, with the lookup in
      the output directory as `find`: the 1-based positions of the entries
      already downloaded, mapped to their files, and the ascending list of the
      others. An entry that is not a dict raises `AttributeError` at
      `entry.get`. */
  method AnalyzePlaylistProgress(entries: seq<Value>, find: Value -> seq<string>)
    returns (r: Result<(map<int, seq<string>>, seq<int>), PyError>)
    ensures r.Err? <==> exists i :: 0 <= i < |entries| && !entries[i].VDict?
    ensures r.Err? ==> r.error == AttributeError
    ensures r.Ok? ==>
      var (existing, missing) := r.value;
      && (forall idx :: idx in existing <==> 1 <= idx <= |entries| && Found(entries[idx - 1], find))
      && (forall idx :: idx in existing ==> 1 <= idx <= |entries| && existing[idx] == find(Get(entries[idx - 1].fields, "id")))
      && (forall idx :: idx in missing <==> 1 <= idx <= |entries| && !Found(entries[idx - 1], find))
      && (forall a, b :: 0 <= a < b < |missing| ==> missing[a] < missing[b])
  {
    ghost var hit := (e: Value) => Found(e, find);
    ghost var payload := (e: Value) => if e.VDict? then find(Get(e.fields, "id")) else [];
    var existing: map<int, seq<string>> := map[];
    var missing: seq<int> := [];
    var j := 0;
    while j < |entries|
      invariant 0 <= j <= |entries|
      invariant Scanned(entries, j, hit, payload, existing, missing)
    {
      var entry := entries[j];
      var idx := j + 1;
      if !entry.VDict? {
        return Err(AttributeError);
      }
      var id := Get(entry.fields, "id");
      if !Truthy(id) {
        ScannedMiss(entries, j, hit, payload, existing, missing);
        missing := missing + [idx];
      } else {
        var found := find(id);
        if found != [] {
          ScannedHit(entries, j, hit, payload, existing, missing);
          existing := existing[idx := found];
        } else {
          ScannedMiss(entries, j, hit, payload, existing, missing);
          missing := missing + [idx];
        }
      }
      j := j + 1;
    }
    return Ok((existing, missing));
  }

  /** The loop state of `analyze_playlist_progress` after the first `j`
      entries: all of them dicts, the index of each one that `hit` accepts
      mapped to its `payload`, the others listed in increasing order. */
  ghost predicate Scanned(entries: seq<Value>, j: nat, hit: Value -> bool, payload: Value -> seq<string>,
                          existing: map<int, seq<string>>, missing: seq<int>)
    requires j <= |entries|
  {
    && (forall i :: 0 <= i < j ==> entries[i].VDict?)
    && (forall idx :: idx in existing <==> 1 <= idx <= j && hit(entries[idx - 1]))
    && (forall idx :: idx in existing ==> 1 <= idx <= j && existing[idx] == payload(entries[idx - 1]))
    && (forall idx :: idx in missing <==> 1 <= idx <= j && !hit(entries[idx - 1]))
    && (forall i :: 0 <= i < |missing| ==> missing[i] <= j)
    && (forall a, b :: 0 <= a < b < |missing| ==> missing[a] < missing[b])
  }

  /** A dict that `hit` accepts is recorded under its index. */
  lemma ScannedHit(entries: seq<Value>, j: nat, hit: Value -> bool, payload: Value -> seq<string>,
                   existing: map<int, seq<string>>, missing: seq<int>)
    requires j < |entries| && Scanned(entries, j, hit, payload, existing, missing)
    requires entries[j].VDict? && hit(entries[j])
    ensures Scanned(entries, j + 1, hit, payload, existing[j + 1 := payload(entries[j])], missing)
  {
  }

  /** A dict that `hit` rejects is listed as missing. */
  lemma ScannedMiss(entries: seq<Value>, j: nat, hit: Value -> bool, payload: Value -> seq<string>,
                    existing: map<int, seq<string>>, missing: seq<int>)
    requires j < |entries| && Scanned(entries, j, hit, payload, existing, missing)
    requires entries[j].VDict? && !hit(entries[j])
    ensures Scanned(entries, j + 1, hit, payload, existing, missing + [j + 1])
  {
  }

  /** `get_entry_url(entry)`: the entry's `webpage_url`, else its `url`, else
      the watch page of its `id`, whichever is truthy first; `None` when none
      is. */
  function EntryUrl(entry: seq<Field>): (r: Value)
    ensures Truthy(Get(entry, "webpage_url")) ==> r == Get(entry, "webpage_url")
    ensures !Truthy(Get(entry, "webpage_url")) && Truthy(Get(entry, "url")) ==> r == Get(entry, "url")
    ensures !Truthy(Get(entry, "webpage_url")) && !Truthy(Get(entry, "url")) && Truthy(Get(entry, "id"))
            ==> r == VStr("https://www.youtube.com/watch?v=" + Str(Get(entry, "id")))
    ensures !Truthy(Get(entry, "webpage_url")) && !Truthy(Get(entry, "url")) && !Truthy(Get(entry, "id")) ==> r == VNone
  {
    var id := Get(entry, "id");
    var watch := if Truthy(id) then VStr("https://www.youtube.com/watch?v=" + Str(id)) else VNone;
    OrOfThree(Get(entry, "webpage_url"), Get(entry, "url"), watch);
    Or([Get(entry, "webpage_url"), Get(entry, "url"), watch])
  }
}
