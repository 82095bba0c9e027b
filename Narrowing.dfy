/** Case-insensitive substring matching of record fields, and the order-preserving
    `Array.prototype.filter` the slices and pages narrow lists with. */
module Narrowing {
  import opened Js
  import opened Paths

  /** How a field name is resolved on a record. Products read `record[field]`;
      users fold a dotted field through `reduce` and read a plain one directly. */
  datatype Access = Direct | Dotted

  function FieldValue(access: Access, rec: Record, field: string): Value {
    match access
    case Direct => Member(Obj(rec), field)
    case Dotted =>
      if '.' in field then Fold(Obj(rec), Split(field, '.')) else Member(Obj(rec), field)
  }

  /** The users' two-way lookup is one fold: for a field without '.', the fold
      over the single key is the plain property read. */
  lemma DottedIsFold(rec: Record, field: string)
    ensures FieldValue(Dotted, rec, field) == Fold(Obj(rec), Split(field, '.'))
  {
    if '.' !in field {
      SplitWithoutSep(field, '.');
    }
  }

  /** `value && value.toString().toLowerCase().includes(needle.toLowerCase())`. */
  predicate Matches(v: Value, needle: string) {
    Truthy(v) && Includes(ToLower(ToText(v)), ToLower(needle))
  }

  /** `rows.filter(p)`. */
  function Keep<T>(rows: seq<T>, p: T -> bool): (kept: seq<T>)
    ensures |kept| <= |rows|
    ensures forall i :: 0 <= i < |kept| ==> p(kept[i])
  {
    if rows == [] then []
    else (if p(rows[0]) then [rows[0]] else []) + Keep(rows[1..], p)
  }

  /** `a` is `b` with some elements left out, the rest in their order. */
  predicate IsSubsequence<T(==)>(a: seq<T>, b: seq<T>)
    decreases |b|
  {
    a == [] || (b != [] && ((a[0] == b[0] && IsSubsequence(a[1..], b[1..])) || IsSubsequence(a, b[1..])))
  }

  /** Filtering keeps exactly the rows that satisfy the predicate. */
  lemma {:induction false} KeepMembers<T>(rows: seq<T>, p: T -> bool, x: T)
    ensures x in Keep(rows, p) <==> x in rows && p(x)
  {
    if rows != [] {
      KeepMembers(rows[1..], p, x);
      assert rows == [rows[0]] + rows[1..];
    }
  }

  /** Filtering keeps every copy of a row that satisfies the predicate and no
      copy of one that does not: repeated rows are counted as often as they occur. */
  lemma {:induction false} KeepCounts<T>(rows: seq<T>, p: T -> bool)
    ensures forall x :: multiset(Keep(rows, p))[x] == if p(x) then multiset(rows)[x] else 0
  {
    if rows != [] {
      KeepCounts(rows[1..], p);
      assert rows == [rows[0]] + rows[1..];
      assert multiset(rows) == multiset([rows[0]]) + multiset(rows[1..]);
      var head: seq<T> := if p(rows[0]) then [rows[0]] else [];
      assert Keep(rows, p) == head + Keep(rows[1..], p);
      assert multiset(Keep(rows, p)) == multiset(head) + multiset(Keep(rows[1..], p));
    }
  }

  /** Filtering preserves order: the result is a subsequence of the input. */
  lemma {:induction false} KeepIsSubsequence<T>(rows: seq<T>, p: T -> bool)
    ensures IsSubsequence(Keep(rows, p), rows)
  {
    if rows != [] {
      KeepIsSubsequence(rows[1..], p);
      var kept := Keep(rows, p);
      if p(rows[0]) {
        assert kept[0] == rows[0] && kept[1..] == Keep(rows[1..], p);
      } else {
        assert kept == Keep(rows[1..], p);
      }
    }
  }

  /** Filtering twice by the same predicate is filtering once. */
  lemma {:induction false} KeepIdempotent<T>(rows: seq<T>, p: T -> bool)
    ensures Keep(Keep(rows, p), p) == Keep(rows, p)
  {
    if rows != [] {
      KeepIdempotent(rows[1..], p);
      var rest := Keep(rows[1..], p);
      if p(rows[0]) {
        assert Keep(rows, p) == [rows[0]] + rest;
        assert ([rows[0]] + rest)[1..] == rest;
        assert Keep([rows[0]] + rest, p) == [rows[0]] + Keep(rest, p);
      } else {
        assert Keep(rows, p) == rest;
      }
    }
  }

  lemma {:induction false} SubsequenceReflexive<T>(s: seq<T>)
    ensures IsSubsequence(s, s)
  {
    if s != [] {
      SubsequenceReflexive(s[1..]);
    }
  }

  function FieldTest(access: Access, field: string, needle: string): Record -> bool {
    rec => Matches(FieldValue(access, rec, field), needle)
  }

  /** The slices' local field filter: the rows whose `field` value is truthy and
      contains `needle`, ignoring ASCII case, in their original order. */
  function FilterByField(access: Access, rows: seq<Record>, field: string, needle: string): (kept: seq<Record>)
    ensures |kept| <= |rows|
    ensures IsSubsequence(kept, rows)
    ensures forall r :: r in kept <==> r in rows && Matches(FieldValue(access, r, field), needle)
    ensures forall r :: multiset(kept)[r] == if Matches(FieldValue(access, r, field), needle) then multiset(rows)[r] else 0
  {
    var p := FieldTest(access, field, needle);
    KeepIsSubsequence(rows, p);
    KeepCounts(rows, p);
    forall r ensures r in Keep(rows, p) <==> r in rows && p(r) {
      KeepMembers(rows, p, r);
    }
    Keep(rows, p)
  }

  /** A matching row that the search answer holds twice is kept, and counted, twice. */
  lemma RepeatedRowsCounted(access: Access, r: Record, field: string, needle: string)
    requires Matches(FieldValue(access, r, field), needle)
    ensures FilterByField(access, [r, r], field, needle) == [r, r]
  {
    var kept := FilterByField(access, [r, r], field, needle);
    assert multiset([r, r])[r] == 2;
    assert multiset(kept)[r] == 2;
    assert |kept| == 2;
    assert forall x :: x in kept ==> x == r;
  }

  /** `columns.some(column => matches)` for one row. */
  predicate RowMatches(access: Access, row: Record, columns: seq<string>, term: string) {
    exists j :: 0 <= j < |columns| && Matches(FieldValue(access, row, columns[j]), term)
  }

  function RowTest(access: Access, columns: seq<string>, term: string): Record -> bool {
    row => RowMatches(access, row, columns, term)
  }

  /** The pages' client-side search over the rows already fetched: an empty term
      keeps the list; otherwise the rows in which some column matches, in order. */
  function SearchNarrow(access: Access, rows: seq<Record>, columns: seq<string>, term: string): (shown: seq<Record>)
    ensures term == "" ==> shown == rows
    ensures IsSubsequence(shown, rows)
    ensures term != "" ==> forall r :: r in shown <==> r in rows && RowMatches(access, r, columns, term)
    ensures term != "" ==> forall r :: multiset(shown)[r] == if RowMatches(access, r, columns, term) then multiset(rows)[r] else 0
  {
    if term == "" then
      SubsequenceReflexive(rows);
      rows
    else
      var p := RowTest(access, columns, term);
      KeepIsSubsequence(rows, p);
      KeepCounts(rows, p);
      forall r ensures r in Keep(rows, p) <==> r in rows && p(r) {
        KeepMembers(rows, p, r);
      }
      Keep(rows, p)
  }

  /** Searching the searched list again with the same term changes nothing. */
  lemma SearchIdempotent(access: Access, rows: seq<Record>, columns: seq<string>, term: string)
    ensures SearchNarrow(access, SearchNarrow(access, rows, columns, term), columns, term)
         == SearchNarrow(access, rows, columns, term)
  {
    if term != "" {
      KeepIdempotent(rows, RowTest(access, columns, term));
    }
  }

  /** Falsy values never match, even where their text would: `0` against "0",
      `''` against the empty needle. */
  lemma FalsyNeverMatches()
    ensures !Matches(Num("0"), "0") && !Matches(Str(""), "") && !Matches(Undefined, "")
    ensures Matches(Num("10"), "0")
  {
  }
}
