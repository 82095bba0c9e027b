/** Dotted-path resolution over nested records, in the two forms the dashboard
    uses: the table's `getNestedValue` loop, which answers `null` as soon as it
    meets a non-object, and the `keys.reduce((obj, key) => obj && obj[key], record)`
    fold of the users slice and page, which carries a falsy value through. */
module Paths {
  import opened Js

  /** What `getNestedValue` reaches by walking `keys` from `v`. */
  function Walk(v: Value, keys: seq<string>): Value
    decreases |keys|
  {
    if keys == [] then v
    else if !v.Obj? then Null
    else Walk(Member(v, keys[0]), keys[1..])
  }

  /** Walking a path in two legs is walking it in one. */
  lemma {:induction false} WalkAppend(v: Value, a: seq<string>, b: seq<string>)
    ensures Walk(v, a + b) == Walk(Walk(v, a), b)
    decreases |a|
  {
    if a == [] {
      assert a + b == b;
    } else if !v.Obj? {
      assert (a + b)[0] == a[0];
      WalkNull(b);
    } else {
      assert (a + b)[1..] == a[1..] + b;
      WalkAppend(Member(v, a[0]), a[1..], b);
    }
  }

  lemma {:induction false} WalkNull(keys: seq<string>)
    ensures Walk(Null, keys) == Null
  {
  }

  /** `getNestedValue(obj, path)` from DataTable: split the path on '.', then
      step through the keys, giving up with `null` on a non-object. */
  method GetNestedValue(obj: Value, path: string) returns (value: Value)
    ensures value == Walk(obj, Split(path, '.'))
  {
    var keys := Split(path, '.');
    value := obj;
    var i := 0;
    while i < |keys|
      invariant 0 <= i <= |keys|
      invariant value == Walk(obj, keys[..i])
    {
      var key := keys[i];
      if value.Null? || value.Undefined? || !value.Obj? {
        WalkAppend(obj, keys[..i], keys[i..]);
        assert keys[..i] + keys[i..] == keys;
        return Null;
      }
      WalkAppend(obj, keys[..i], [key]);
      assert keys[..i + 1] == keys[..i] + [key];
      value := Member(value, key);
      i := i + 1;
    }
    assert keys[..i] == keys;
  }

  /** The walk answers `null` as soon as the value reached before a key is not
      an object, whatever keys follow. */
  lemma StopsAtNonObject(v: Value, keys: seq<string>, i: nat)
    requires i < |keys|
    requires !Walk(v, keys[..i]).Obj?
    ensures Walk(v, keys) == Null
  {
    WalkAppend(v, keys[..i], keys[i..]);
    assert keys[..i] + keys[i..] == keys;
  }

  /** When the value reached before the last key is an object, the walk yields
      that object's property, and `undefined` (not `null`) if it is missing. */
  lemma LastStepIsLookup(v: Value, keys: seq<string>, key: string, m: map<string, Value>)
    requires Walk(v, keys) == Obj(m)
    ensures Walk(v, keys + [key]) == if key in m then m[key] else Undefined
  {
    WalkAppend(v, keys, [key]);
  }

  /** `keys.reduce((obj, key) => obj && obj[key], v)`. */
  function Fold(v: Value, keys: seq<string>): Value
    decreases |keys|
  {
    if keys == [] then v
    else Fold(if Truthy(v) then Member(v, keys[0]) else v, keys[1..])
  }

  /** Once the fold holds a falsy value it keeps it to the end. */
  lemma {:induction false} FoldKeepsFalsy(v: Value, keys: seq<string>)
    requires !Truthy(v)
    ensures Fold(v, keys) == v
    decreases |keys|
  {
    if keys != [] {
      FoldKeepsFalsy(v, keys[1..]);
    }
  }

  /** A path whose walk meets a missing key resolves, through the fold, to
      `undefined`: a falsy value. */
  lemma {:induction false} FoldMissingSegment(v: Value, keys: seq<string>, i: nat, m: map<string, Value>)
    requires i < |keys|
    requires Walk(v, keys[..i]) == Obj(m) && keys[i] !in m
    ensures Fold(v, keys) == Undefined
    decreases i
  {
    if i == 0 {
      assert v == Obj(m);
      FoldKeepsFalsy(Undefined, keys[1..]);
    } else {
      assert v.Obj?;
      assert keys[..i][1..] == keys[1..][..i - 1];
      FoldMissingSegment(Member(v, keys[0]), keys[1..], i - 1, m);
    }
  }

  /** The table's walk and the slice's fold agree, except where both are falsy:
      so a value the search or filter can match is exactly the value the table shows. */
  lemma {:induction false} WalkAgreesWithFold(v: Value, keys: seq<string>)
    ensures Walk(v, keys) == Fold(v, keys) || (!Truthy(Walk(v, keys)) && !Truthy(Fold(v, keys)))
    decreases |keys|
  {
    if keys != [] {
      if v.Obj? {
        WalkAgreesWithFold(Member(v, keys[0]), keys[1..]);
      } else if Truthy(v) {
        FoldKeepsFalsy(Undefined, keys[1..]);
      } else {
        FoldKeepsFalsy(v, keys[1..]);
      }
    }
  }
}
