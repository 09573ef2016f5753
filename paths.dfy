/** `pathlib.PurePosixPath` as far as the program uses it: parsing a string into
    an optional root and its non-trivial parts, `str()` of the result, and the
    `name`, `suffix` and `stem` of the last part. */
module Paths {
  import opened PyText

  /** The root `splitroot` finds: exactly two leading slashes are kept as they
      are, one or three and more collapse to one. */
  function Root(s: string): string {
    if StartsWith(s, "//") && !StartsWith(s, "///") then "//"
    else if StartsWith(s, "/") then "/"
    else ""
  }

  /** The parts of `s` after its root, without empty and `.` parts. */
  function Parts(s: string): (ps: seq<string>)
    ensures forall i :: 0 <= i < |ps| ==> ps[i] != "" && ps[i] != "." && '/' !in ps[i]
  {
    KeepParts(Split(s, '/'))
  }

  function KeepParts(raw: seq<string>): (ps: seq<string>)
    requires forall i :: 0 <= i < |raw| ==> '/' !in raw[i]
    ensures forall i :: 0 <= i < |ps| ==> ps[i] != "" && ps[i] != "." && '/' !in ps[i]
  {
    if raw == [] then []
    else if raw[0] == "" || raw[0] == "." then KeepParts(raw[1..])
    else [raw[0]] + KeepParts(raw[1..])
  }

  function JoinParts(ps: seq<string>): string {
    if ps == [] then "" else if |ps| == 1 then ps[0] else ps[0] + "/" + JoinParts(ps[1..])
  }

  /** `str(Path(s))` */
  function Normalize(s: string): (r: string)
    ensures r != ""
  {
    var root := Root(s);
    var ps := Parts(s);
    if root == "" && ps == [] then "." else root + JoinParts(ps)
  }

  /** `Path(s).name`: the last part, empty when there is none. */
  function Name(s: string): (r: string)
    ensures '/' !in r
  {
    var ps := Parts(s);
    if ps == [] then "" else ps[|ps| - 1]
  }

  /** The index of the last `.` in `name`, -1 when there is none. */
  function LastDot(name: string): (i: int)
    ensures -1 <= i < |name|
    ensures i >= 0 ==> name[i] == '.'
    ensures forall j :: i < j < |name| ==> name[j] != '.'
  {
    if name == [] then -1
    else if name[|name| - 1] == '.' then |name| - 1
    else LastDot(name[..|name| - 1])
  }

  /** `PurePath.suffix` of a name: from its last dot, provided the dot is
      neither the first nor the last character. */
  function Suffix(name: string): (r: string)
    ensures r == "" || (r[0] == '.' && |r| >= 2 && EndsWith(name, r) && '.' !in r[1..])
  {
    var i := LastDot(name);
    if 0 < i < |name| - 1 then
      assert name[|name| - |name[i..]|..] == name[i..];
      name[i..]
    else ""
  }

  /** `PurePath.stem` of a name: the name without its suffix. */
  function Stem(name: string): (r: string)
    ensures r + Suffix(name) == name
  {
    var i := LastDot(name);
    if 0 < i < |name| - 1 then
      assert name[..i] + name[i..] == name;
      name[..i]
    else name
  }

  /** `str(Path(dir) / rel)`: an absolute `rel` replaces `dir`; otherwise the
      result keeps the root of `dir` and lists the parts of `dir` followed by
      those of `rel`. */
  function JoinPath(dir: string, rel: string): (r: string)
    ensures r != ""
    ensures StartsWith(rel, "/") ==> r == Normalize(rel)
  {
    if StartsWith(rel, "/") then Normalize(rel)
    else
      var root := Root(dir);
      var ps := Parts(dir) + Parts(rel);
      if root == "" && ps == [] then "." else root + JoinParts(ps)
  }

  /** Joining under the root directory adds no separator of its own. */
  lemma JoinUnderSlash()
    ensures JoinPath("/", "a") == "/a"
  {
    SplitAfterWord("", "");
    assert "" + "/" + "" == "/";
    assert Parts("/") == [];
    assert Parts("a") == ["a"];
  }

  /** Exactly two leading slashes are a root of their own and are kept. */
  lemma JoinUnderDoubleSlash()
    ensures JoinPath("//", "a") == "//a"
  {
    SplitAfterWord("", "/");
    SplitAfterWord("", "");
    assert "" + "/" + "/" == "//";
    assert "" + "/" + "" == "/";
    assert Parts("//") == [];
    assert Parts("a") == ["a"];
  }

  /** An empty directory is `.` and contributes nothing. */
  lemma JoinUnderEmpty()
    ensures JoinPath("", "a") == "a"
    ensures JoinPath("/", "") == "/"
  {
    SplitAfterWord("", "");
    assert "" + "/" + "" == "/";
    assert Parts("") == [];
    assert Parts("/") == [];
    assert Parts("a") == ["a"];
  }

  /** A relative name joined to a plain directory is separated by one slash,
      and a trailing slash on the directory is not doubled. */
  lemma JoinUnderDirectory()
    ensures JoinPath("dl", "a") == "dl/a"
    ensures JoinPath("dl/", "a") == "dl/a"
  {
    SplitAfterWord("dl", "");
    assert "dl" + "/" + "" == "dl/";
    assert Parts("dl") == ["dl"];
    assert Parts("dl/") == ["dl"];
    assert Parts("a") == ["a"];
    assert JoinParts(["dl", "a"]) == "dl" + "/" + "a" == "dl/a";
  }

  /** Splitting at the first slash: a slash-free word, then the rest. */
  lemma SplitAfterWord(w: string, t: string)
    requires '/' !in w
    ensures Split(w + "/" + t, '/') == [w] + Split(t, '/')
  {
    var s := w + "/" + t;
    assert s[..|w|] == w;
    assert s[|w|] == '/';
    assert s[|w| + 1..] == t;
  }
}
