/** JavaScript values as the front end handles them after `response.json()`
    or in component state, with the operators the pages lean on: truthiness,
    `||`, `??`, property reads with and without optional chaining,
    String(v) and String.prototype.trim. Numbers are integers here. */
module Js {
  import opened Wrappers
  import opened Strings

  datatype Js =
    | Undefined
    | Null
    | Bool(b: bool)
    | Num(n: int)
    | Str(s: string)
    | Arr(items: seq<Js>)
    | Obj(fields: map<string, Js>)

  /** What an awaited request gives the page: a value, or a thrown error
      carrying `e.message`. */
  datatype Outcome = Done(value: Js) | Failed(message: Js)

  /** undefined, null, false, 0 and "" are falsy; everything else,
      including [] and {}, is truthy. */
  predicate Truthy(v: Js)
  {
    match v
    case Undefined => false
    case Null => false
    case Bool(b) => b
    case Num(n) => n != 0
    case Str(s) => s != ""
    case Arr(_) => true
    case Obj(_) => true
  }

  predicate Nullish(v: Js)
  {
    v.Undefined? || v.Null?
  }

  /** `a || b` */
  function Or(a: Js, b: Js): (r: Js)
    ensures Truthy(a) ==> r == a
    ensures !Truthy(a) ==> r == b
  {
    if Truthy(a) then a else b
  }

  /** `a && b` */
  function And(a: Js, b: Js): (r: Js)
    ensures Truthy(a) ==> r == b
    ensures !Truthy(a) ==> r == a
  {
    if Truthy(a) then b else a
  }

  /** `a ?? b` */
  function Coalesce(a: Js, b: Js): (r: Js)
    ensures !Nullish(a) ==> r == a
    ensures Nullish(a) ==> r == b
  {
    if Nullish(a) then b else a
  }

  /** `v.key` on a value that is not null or undefined (reading from null
      or undefined throws a TypeError, which callers model themselves). */
  function Field(v: Js, key: string): Js
  {
    if v.Obj? && key in v.fields then v.fields[key] else Undefined
  }

  /** `v?.key` */
  function OptField(v: Js, key: string): (r: Js)
    ensures Nullish(v) ==> r == Undefined
  {
    if Nullish(v) then Undefined else Field(v, key)
  }

  /** String(v), as a template literal or `+ ""` renders it. */
  function ToStr(v: Js): string
  {
    match v
    case Undefined => "undefined"
    case Null => "null"
    case Bool(b) => if b then "true" else "false"
    case Num(n) => IntToString(n)
    case Str(s) => s
    case Arr(items) => JoinItems(items, ",")
    case Obj(_) => "[object Object]"
  }

  /** Array.prototype.join(sep): null and undefined elements read as "". */
  function JoinItems(items: seq<Js>, sep: string): string
    decreases items
  {
    if items == [] then ""
    else
      var head := if Nullish(items[0]) then "" else ToStr(items[0]);
      if |items| == 1 then head else head + sep + JoinItems(items[1..], sep)
  }

  /** Number(v), with the parsing of a string left to `parse` (None stands
      for NaN); arrays and objects are converted through their string
      form, as ToPrimitive does. */
  function NumberOf(v: Js, parse: string -> Option<int>): (r: Option<int>)
    ensures v.Undefined? ==> r.None?
    ensures v.Null? ==> r == Some(0)
    ensures v.Num? ==> r == Some(v.n)
  {
    match v
    case Undefined => None
    case Null => Some(0)
    case Bool(b) => Some(if b then 1 else 0)
    case Num(n) => Some(n)
    case _ => parse(ToStr(v))
  }

  /** `Number(a) === Number(b)`: NaN equals nothing. */
  predicate SameNumber(a: Option<int>, b: Option<int>)
  {
    a.Some? && b.Some? && a.value == b.value
  }

  /** String(n) for a number that may be NaN. */
  function NumberKey(n: Option<int>): string
  {
    if n.Some? then IntToString(n.value) else "NaN"
  }

  /** `v?.toString()`: undefined for null and undefined, else the string. */
  function OptToString(v: Js): (r: Js)
    ensures Nullish(v) <==> r.Undefined?
    ensures !Nullish(v) ==> r == Str(ToStr(v))
  {
    if Nullish(v) then Undefined else Str(ToStr(v))
  }

  /** The elements of an array, or none for any other value. */
  function Items(v: Js): seq<Js>
  {
    if v.Arr? then v.items else []
  }

  /** `Array.isArray(a) ? a : Array.isArray(b) ? b : Array.isArray(c) ? c : []`,
      the payload-list idiom of the pages. */
  function FirstArray(candidates: seq<Js>): (r: seq<Js>)
    ensures r != [] ==> exists i :: 0 <= i < |candidates| && candidates[i] == Arr(r)
    ensures (forall i :: 0 <= i < |candidates| ==> !candidates[i].Arr?) ==> r == []
    ensures forall i :: (0 <= i < |candidates| && candidates[i].Arr?
                         && forall j :: 0 <= j < i ==> !candidates[j].Arr?) ==> r == candidates[i].items
  {
    if candidates == [] then []
    else if candidates[0].Arr? then candidates[0].items
    else
      var r := FirstArray(candidates[1..]);
      assert r != [] ==> exists i :: 1 <= i < |candidates| && candidates[i] == Arr(r) by {
        if r != [] {
          var i :| 0 <= i < |candidates[1..]| && candidates[1..][i] == Arr(r);
          assert candidates[i + 1] == candidates[1..][i];
        }
      }
      r
  }

  // ---------------------------------------------------------------------
  // String.prototype.trim
  // ---------------------------------------------------------------------

  /** WhiteSpace and LineTerminator code points of ECMAScript. */
  predicate IsJsSpace(c: char)
  {
    var n := c as int;
    (9 <= n <= 13) || n == 32 || n == 0xA0 || n == 0x1680 || (0x2000 <= n <= 0x200A)
    || n == 0x2028 || n == 0x2029 || n == 0x202F || n == 0x205F || n == 0x3000 || n == 0xFEFF
  }

  function TrimStart(s: string): (r: string)
    ensures |r| <= |s| && r == s[|s| - |r|..]
    ensures r == [] || !IsJsSpace(r[0])
    ensures forall i :: 0 <= i < |s| - |r| ==> IsJsSpace(s[i])
  {
    if s != [] && IsJsSpace(s[0]) then TrimStart(s[1..]) else s
  }

  function TrimEnd(s: string): (r: string)
    ensures |r| <= |s| && r == s[..|r|]
    ensures r == [] || !IsJsSpace(r[|r| - 1])
    ensures forall i :: |r| <= i < |s| ==> IsJsSpace(s[i])
  {
    if s != [] && IsJsSpace(s[|s| - 1]) then TrimEnd(s[..|s| - 1]) else s
  }

  function Trim(s: string): string
  {
    TrimEnd(TrimStart(s))
  }

  predicate IsJsBlank(s: string)
  {
    forall i :: 0 <= i < |s| ==> IsJsSpace(s[i])
  }

  /** `s.trim()` is empty exactly for whitespace-only strings. */
  lemma TrimEmptyIffBlank(s: string)
    ensures Trim(s) == "" <==> IsJsBlank(s)
  {
    var t := TrimStart(s);
    if t != "" {
      assert !IsJsSpace(s[|s| - |t|]);
      assert TrimEnd(t) != "" by {
        assert !IsJsSpace(t[0]);
      }
    }
  }

  /** Neither starts nor ends with whitespace, so trimming changes nothing. */
  predicate IsTrimmed(t: string)
  {
    (t == [] || (!IsJsSpace(t[0]) && !IsJsSpace(t[|t| - 1]))) && Trim(t) == t
  }

  /** A trimmed string starts and ends with a non-space character, and
      trimming it again changes nothing. */
  lemma TrimmedEnds(s: string)
    ensures IsTrimmed(Trim(s))
  {
    var t, u := Trim(s), TrimStart(s);
    assert t == [] || !IsJsSpace(t[0]) by {
      if t != [] {
        assert t == u[..|t|];
        assert t[0] == u[0];
      }
    }
    assert t == [] || !IsJsSpace(t[|t| - 1]);
    TrimIdempotent(s);
  }

  /** Trimming again changes nothing. */
  lemma TrimIdempotent(s: string)
    ensures Trim(Trim(s)) == Trim(s)
  {
    var t := Trim(s);
    if t != [] {
      var u := TrimStart(s);
      assert t == u[..|t|];
      assert !IsJsSpace(t[0]) by { assert t[0] == u[0]; }
    }
  }
}
