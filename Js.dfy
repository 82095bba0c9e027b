/** The slice of JavaScript's value model the dashboard depends on: JSON-like
    values, truthiness, `toString`, ASCII case mapping, `String.prototype.includes`,
    `split` and `Array.prototype.slice`. */
module Js {

  datatype Option<+T> = None | Some(value: T)

  /** A JSON-like JavaScript value. A number is held as the text its `toString()`
      produces: the runtime's float formatting is taken as given, not modelled. */
  datatype Value =
    | Undefined
    | Null
    | Bool(b: bool)
    | Num(text: string)
    | Str(s: string)
    | Obj(fields: map<string, Value>)

  /** A record returned by the remote API: a user or a product. */
  type Record = map<string, Value>

  function Min(a: int, b: int): int { if a <= b then a else b }
  function Max(a: int, b: int): int { if a >= b then a else b }

  predicate Nullish(v: Value) { v.Undefined? || v.Null? }

  /** `undefined`, `null`, `false`, `0` (also `-0`, which prints as "0"), `NaN` and `''` are falsy. */
  predicate Truthy(v: Value) {
    match v
    case Undefined => false
    case Null => false
    case Bool(b) => b
    case Num(t) => t != "0" && t != "NaN"
    case Str(s) => s != ""
    case Obj(_) => true
  }

  /** `String(v)`; for the non-nullish values this is `v.toString()`. */
  function ToText(v: Value): string {
    match v
    case Undefined => "undefined"
    case Null => "null"
    case Bool(b) => if b then "true" else "false"
    case Num(t) => t
    case Str(s) => s
    case Obj(_) => "[object Object]"
  }

  /** Property access `v[key]`. Only objects carry properties in this model. */
  function Member(v: Value, key: string): Value {
    match v
    case Obj(m) => if key in m then m[key] else Undefined
    case _ => Undefined
  }

  predicate IsUpper(c: char) { 'A' <= c <= 'Z' }
  predicate IsLower(c: char) { 'a' <= c <= 'z' }

  function LowerChar(c: char): char {
    if IsUpper(c) then (c as int + 32) as char else c
  }

  function UpperChar(c: char): char {
    if IsLower(c) then (c as int - 32) as char else c
  }

  /** `s.toLowerCase()` restricted to ASCII letters. */
  function ToLower(s: string): (r: string)
    ensures |r| == |s|
    ensures forall i :: 0 <= i < |s| ==> r[i] == LowerChar(s[i])
  {
    if s == [] then [] else [LowerChar(s[0])] + ToLower(s[1..])
  }

  /** `hay.includes(needle)`: `needle` occurs in `hay` as a contiguous run. */
  predicate Includes(hay: string, needle: string)
    decreases |hay|
  {
    needle <= hay || (hay != [] && Includes(hay[1..], needle))
  }

  /** `needle` occurs in `hay` at position `i`. */
  predicate OccursAt(hay: string, needle: string, i: int) {
    0 <= i && i + |needle| <= |hay| && hay[i..i + |needle|] == needle
  }

  lemma {:induction false} IncludesIffOccurs(hay: string, needle: string)
    ensures Includes(hay, needle) <==> exists i :: OccursAt(hay, needle, i)
    decreases |hay|
  {
    if needle <= hay {
      assert OccursAt(hay, needle, 0);
    } else if hay != [] {
      IncludesIffOccurs(hay[1..], needle);
      if exists i :: OccursAt(hay[1..], needle, i) {
        var i :| OccursAt(hay[1..], needle, i);
        assert hay[i + 1..i + 1 + |needle|] == hay[1..][i..i + |needle|];
        assert OccursAt(hay, needle, i + 1);
      }
      forall i | OccursAt(hay, needle, i) && i > 0
        ensures OccursAt(hay[1..], needle, i - 1)
      {
        assert hay[1..][i - 1..i - 1 + |needle|] == hay[i..i + |needle|];
      }
    }
  }

  /** `s.split(sep)` for a one-character separator: always at least one part,
      and an empty part around every separator at an end or next to another. */
  function Split(s: string, sep: char): (parts: seq<string>)
    ensures |parts| >= 1
  {
    if s == [] then [""]
    else
      var rest := Split(s[1..], sep);
      if s[0] == sep then [""] + rest else [[s[0]] + rest[0]] + rest[1..]
  }

  /** `parts.join(sep)`. */
  function Join(parts: seq<string>, sep: char): string
    requires |parts| >= 1
  {
    if |parts| == 1 then parts[0] else parts[0] + [sep] + Join(parts[1..], sep)
  }

  function Last(parts: seq<string>): string
    requires |parts| >= 1
  {
    parts[|parts| - 1]
  }

  /** Joining the parts of a split gives the input back, and no part holds the separator. */
  lemma {:induction false} JoinSplit(s: string, sep: char)
    ensures Join(Split(s, sep), sep) == s
    ensures forall i :: 0 <= i < |Split(s, sep)| ==> sep !in Split(s, sep)[i]
  {
    if s != [] {
      var rest := Split(s[1..], sep);
      JoinSplit(s[1..], sep);
      assert s == [s[0]] + s[1..];
      if s[0] != sep && |rest| > 1 {
        assert Join(rest, sep) == rest[0] + [sep] + Join(rest[1..], sep);
        assert ([[s[0]] + rest[0]] + rest[1..])[1..] == rest[1..];
      }
      if s[0] == sep {
        assert ([""] + rest)[1..] == rest;
      }
    }
  }

  lemma {:induction false} SplitPrefix(p: string, sep: char, x: string)
    requires sep !in p
    ensures Split(p + [sep] + x, sep) == [p] + Split(x, sep)
  {
    if p != [] {
      SplitPrefix(p[1..], sep, x);
      assert (p + [sep] + x)[1..] == p[1..] + [sep] + x;
      assert [p[0]] + p[1..] == p;
    } else {
      assert (p + [sep] + x)[1..] == x;
    }
  }

  /** A string without the separator splits into itself alone. */
  lemma {:induction false} SplitWithoutSep(p: string, sep: char)
    requires sep !in p
    ensures Split(p, sep) == [p]
  {
    if p != [] {
      SplitWithoutSep(p[1..], sep);
      assert [p[0]] + p[1..] == p;
    }
  }

  /** Splitting a join of separator-free parts gives the parts back. */
  lemma {:induction false} SplitJoin(parts: seq<string>, sep: char)
    requires |parts| >= 1
    requires forall i :: 0 <= i < |parts| ==> sep !in parts[i]
    ensures Split(Join(parts, sep), sep) == parts
  {
    if |parts| == 1 {
      SplitWithoutSep(parts[0], sep);
    } else {
      SplitJoin(parts[1..], sep);
      SplitPrefix(parts[0], sep, Join(parts[1..], sep));
      assert [parts[0]] + parts[1..] == parts;
    }
  }

  /** The text after the last separator: a suffix of `s`, free of the separator,
      preceded by a separator unless it is all of `s`. */
  predicate IsLastPart(s: string, sep: char, l: string) {
    |l| <= |s| && l == s[|s| - |l|..] && sep !in l &&
    (|l| < |s| ==> s[|s| - |l| - 1] == sep)
  }

  lemma IsLastPartCons(c: char, t: string, sep: char, l: string)
    requires IsLastPart(t, sep, l) && |l| < |t| + 1
    requires |l| == |t| ==> c == sep
    ensures IsLastPart([c] + t, sep, l)
  {
    var s := [c] + t;
    assert s[|s| - |l|..] == t[|t| - |l|..];
  }

  /** A split into a single part found no separator. */
  lemma SplitOnePart(t: string, sep: char)
    requires |Split(t, sep)| == 1
    ensures Split(t, sep) == [t] && sep !in t
  {
    JoinSplit(t, sep);
  }

  /** A split into several parts found a separator. */
  lemma SplitManyParts(t: string, sep: char)
    requires |Split(t, sep)| > 1
    ensures sep in t
  {
    var parts := Split(t, sep);
    JoinSplit(t, sep);
    assert t == parts[0] + [sep] + Join(parts[1..], sep);
    assert t[|parts[0]|] == sep;
  }

  /** The last part of a split, one character at a time. */
  lemma LastSplitCons(c: char, t: string, sep: char)
    ensures Last(Split([c] + t, sep)) ==
      if c == sep || |Split(t, sep)| > 1 then Last(Split(t, sep)) else [c] + t
  {
    var s := [c] + t;
    assert s[0] == c && s[1..] == t;
    var rest := Split(t, sep);
    var parts := Split(s, sep);
    assert parts == if c == sep then [""] + rest else [[c] + rest[0]] + rest[1..];
    if c == sep {
      assert parts[|parts| - 1] == rest[|rest| - 1];
    } else if |rest| > 1 {
      assert parts[|parts| - 1] == rest[|rest| - 1];
    } else {
      SplitOnePart(t, sep);
      assert parts == [[c] + t];
    }
  }

  /** The last part of a split is the text after the last separator. */
  lemma {:induction false} LastPartIsTail(s: string, sep: char)
    ensures IsLastPart(s, sep, Last(Split(s, sep)))
  {
    if s != [] {
      var t := s[1..];
      assert s == [s[0]] + t;
      LastPartIsTail(t, sep);
      LastSplitCons(s[0], t, sep);
      var lt := Last(Split(t, sep));
      if s[0] == sep {
        IsLastPartCons(s[0], t, sep, lt);
      } else if |Split(t, sep)| == 1 {
        SplitOnePart(t, sep);
      } else {
        SplitManyParts(t, sep);
        IsLastPartCons(s[0], t, sep, lt);
      }
    }
  }

  /** Where `Array.prototype.slice` puts an index: negative ones count from the end. */
  function SliceIndex(i: int, n: nat): (k: nat)
    ensures k <= n
  {
    if i < 0 then Max(n + i, 0) else Min(i, n)
  }

  /** `s.slice(start, end)`. */
  function JsSlice<T>(s: seq<T>, start: int, end: int): (r: seq<T>)
    ensures start <= end ==> |r| <= end - start
    ensures forall x :: x in r ==> x in s
    ensures 0 <= start <= end ==> r == s[Min(start, |s|)..Min(end, |s|)]
  {
    var from, to := SliceIndex(start, |s|), SliceIndex(end, |s|);
    if from < to then s[from..to] else []
  }
}
