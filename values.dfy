/** Python values as the program sees them: the results of `json.loads` and
    yt-dlp info dictionaries, plus the two kinds of objects that are not plain
    data (`pathlib.Path` and any other object). Truthiness, `dict.get`, the
    `a or b or c` chain and `str()` are written out once here. */
module Values {
  import opened Wrappers
  import opened PyText

  datatype Value =
    | VNone
    | VBool(b: bool)
    | VInt(i: int)
    /** A float; `text` is what `str()` prints for it. */
    | VFloat(r: real, text: string)
    | VStr(s: string)
    | VList(items: seq<Value>)
    /** A dict with string keys, in insertion order. */
    | VDict(fields: seq<Field>)
    | VPath(path: string)
    /** Any other object; `text` is its `str()`. */
    | VObject(text: string)

  datatype Field = Field(key: string, value: Value)

  /** The exceptions the modelled code can raise or let through.
      `BadParameter` is typer's usage error for a bad command-line value. */
  datatype PyError = TypeError | ValueError | KeyError | AttributeError | OperationalError | BadParameter

  /** `bool(v)` */
  predicate Truthy(v: Value) {
    match v
    case VNone => false
    case VBool(b) => b
    case VInt(i) => i != 0
    case VFloat(r, _) => r != 0.0
    case VStr(s) => s != ""
    case VList(xs) => xs != []
    case VDict(fs) => fs != []
    case VPath(_) => true
    case VObject(_) => true
  }

  /** `key in d` */
  predicate HasKey(fs: seq<Field>, key: string) {
    exists i :: 0 <= i < |fs| && fs[i].key == key
  }

  /** `d.get(key)`: the value of the last binding of `key` (a later duplicate key
      in a JSON object replaces an earlier one), `None` when there is none. */
  function Get(fs: seq<Field>, key: string): (v: Value)
    ensures !HasKey(fs, key) ==> v == VNone
    ensures HasKey(fs, key) ==>
              exists i :: 0 <= i < |fs| && fs[i].key == key && v == fs[i].value
                          && forall j :: i < j < |fs| ==> fs[j].key != key
  {
    if fs == [] then VNone
    else if fs[|fs| - 1].key == key then fs[|fs| - 1].value
    else
      var v := Get(fs[..|fs| - 1], key);
      assert HasKey(fs, key) ==> HasKey(fs[..|fs| - 1], key) by {
        if HasKey(fs, key) {
          var i :| 0 <= i < |fs| && fs[i].key == key;
          assert fs[..|fs| - 1][i].key == key;
        }
      }
      v
  }

  /** `v.get(key)` on a value that is known to be a dict, `None` otherwise. */
  function GetIn(v: Value, key: string): Value {
    if v.VDict? then Get(v.fields, key) else VNone
  }

  /** Python's `vs[0] or vs[1] or ...`: the first truthy operand, or the last
      operand when none is truthy. */
  function Or(vs: seq<Value>): (r: Value)
    requires |vs| > 0
    ensures exists k :: 0 <= k < |vs| && r == vs[k] && (forall j :: 0 <= j < k ==> !Truthy(vs[j]))
                        && (Truthy(r) || k == |vs| - 1)
    ensures Truthy(r) <==> exists i :: 0 <= i < |vs| && Truthy(vs[i])
  {
    if |vs| == 1 || Truthy(vs[0]) then
      vs[0]
    else
      var r := Or(vs[1..]);
      var k :| 0 <= k < |vs| - 1 && r == vs[1..][k] && (forall j :: 0 <= j < k ==> !Truthy(vs[1..][j]))
               && (Truthy(r) || k == |vs| - 2);
      assert r == vs[k + 1];
      assert forall j :: 0 <= j < k + 1 ==> !Truthy(vs[j]) by {
        forall j | 0 <= j < k + 1 ensures !Truthy(vs[j]) {
          if j > 0 {
            assert vs[j] == vs[1..][j - 1];
          }
        }
      }
      assert (exists i :: 0 <= i < |vs| && Truthy(vs[i])) ==> Truthy(r) by {
        if exists i :: 0 <= i < |vs| && Truthy(vs[i]) {
          var i :| 0 <= i < |vs| && Truthy(vs[i]);
          assert vs[i] == vs[1..][i - 1];
        }
      }
      r
  }

  /** `a or b or c` */
  lemma OrOfThree(a: Value, b: Value, c: Value)
    ensures Or([a, b, c]) == if Truthy(a) then a else if Truthy(b) then b else c
  {
    assert [a, b, c][1..] == [b, c];
    assert [b, c][1..] == [c];
  }

  /** Python's `str(v)`. Containers use a simplified repr: string items are
      quoted without escaping. */
  function Str(v: Value): string
    decreases v, 1
  {
    match v
    case VNone => "None"
    case VBool(b) => if b then "True" else "False"
    case VInt(i) => IntToString(i)
    case VFloat(_, text) => text
    case VStr(s) => s
    case VList(xs) => "[" + ReprItems(v, xs) + "]"
    case VDict(fs) => "{" + ReprFields(v, fs) + "}"
    case VPath(p) => p
    case VObject(text) => text
  }

  function Repr(v: Value): string
    decreases v, 2
  {
    if v.VStr? then "'" + v.s + "'" else Str(v)
  }

  function ReprItems(parent: Value, xs: seq<Value>): string
    requires forall x :: x in xs ==> x < parent
    decreases parent, 0, |xs|
  {
    if xs == [] then ""
    else
      assert xs[0] in xs;
      if |xs| == 1 then Repr(xs[0])
      else
        assert forall x :: x in xs[1..] ==> x in xs;
        Repr(xs[0]) + ", " + ReprItems(parent, xs[1..])
  }

  function ReprFields(parent: Value, fs: seq<Field>): string
    requires forall f :: f in fs ==> f.value < parent
    decreases parent, 0, |fs|
  {
    if fs == [] then ""
    else
      assert fs[0] in fs;
      assert forall f :: f in fs[1..] ==> f in fs;
      if |fs| == 1 then "'" + fs[0].key + "': " + Repr(fs[0].value)
      else "'" + fs[0].key + "': " + Repr(fs[0].value) + ", " + ReprFields(parent, fs[1..])
  }

  /** The stored text of a value bound as a query parameter: `None` stays
      NULL, anything else is its `str()`. */
  function TextOf(v: Value): (r: Option<string>)
    ensures r.None? <==> v == VNone
    ensures v.VStr? ==> r == Some(v.s)
  {
    if v == VNone then None else Some(Str(v))
  }
}
