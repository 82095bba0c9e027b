/** Page arithmetic shared by the slices and the pages: the `skip` offset of a
    page, the local `slice(skip, skip + pageSize)` and `Math.ceil(total / pageSize)`. */
module Paging {
  import opened Js

  /** `(page - 1) * pageSize`: how many records precede `page`. */
  function Skip(page: int, pageSize: int): int {
    (page - 1) * pageSize
  }

  /** `rows.slice(skip, skip + pageSize)`: the records of `page`. A page before
      the first (no clamping is done on `page`) falls under JavaScript's
      negative-index rule. */
  function PageOf<T>(rows: seq<T>, page: int, pageSize: int): (items: seq<T>)
    ensures pageSize >= 0 ==> |items| <= pageSize
    ensures forall x :: x in items ==> x in rows
    ensures page >= 1 && pageSize >= 0 ==>
      (Skip(page, pageSize) >= 0 &&
       items == rows[Min(Skip(page, pageSize), |rows|)..Min(Skip(page, pageSize) + pageSize, |rows|)])
  {
    SkipNonNegative(page, pageSize);
    Window(rows, Skip(page, pageSize), pageSize)
  }

  /** `rows.slice(skip, skip + width)`. */
  function Window<T>(rows: seq<T>, skip: int, width: int): (items: seq<T>)
    ensures width >= 0 ==> |items| <= width
    ensures forall x :: x in items ==> x in rows
    ensures skip >= 0 && width >= 0 ==> items == rows[Min(skip, |rows|)..Min(skip + width, |rows|)]
  {
    JsSlice(rows, skip, skip + width)
  }

  lemma MulNonNegative(a: int, b: int)
    requires a >= 0 && b >= 0
    ensures a * b >= 0
  {
  }

  lemma SkipNonNegative(page: int, pageSize: int)
    ensures page >= 1 && pageSize >= 0 ==> Skip(page, pageSize) >= 0
  {
    if page >= 1 && pageSize >= 0 {
      MulNonNegative(page - 1, pageSize);
    }
  }

  lemma SkipNext(page: int, pageSize: int)
    ensures Skip(page, pageSize) + pageSize == page * pageSize
  {
  }

  lemma MulMonotone(a: int, b: int, c: int)
    requires a <= b && c >= 0
    ensures a * c <= b * c
  {
  }

  /** `Math.ceil(total / pageSize)` for a positive page size. */
  function TotalPages(total: int, pageSize: int): (n: int)
    requires pageSize > 0
    ensures (n - 1) * pageSize < total <= n * pageSize
    ensures total >= 0 ==> n >= 0
  {
    (total + pageSize - 1) / pageSize
  }

  /** The records of pages 1 to `n`, one page after the other. */
  function PagesUpTo<T>(rows: seq<T>, pageSize: int, n: nat): seq<T> {
    if n == 0 then [] else PagesUpTo(rows, pageSize, n - 1) + PageOf(rows, n, pageSize)
  }

  /** Consecutive pages tile the list: pages 1 to `n` together are its first
      `n * pageSize` records, each once and in order. */
  lemma {:induction false} PagesTile<T>(rows: seq<T>, pageSize: nat, n: nat)
    ensures PagesUpTo(rows, pageSize, n) == rows[..Min(n * pageSize, |rows|)]
  {
    if n > 0 {
      PagesTile(rows, pageSize, n - 1);
      var a := Min((n - 1) * pageSize, |rows|);
      var b := Min(n * pageSize, |rows|);
      SkipNext(n, pageSize);
      MulNonNegative(n - 1, pageSize);
      MulMonotone(n - 1, n, pageSize);
      assert PageOf(rows, n, pageSize) == rows[a..b];
      assert rows[..a] + rows[a..b] == rows[..b];
    }
  }

  /** Walking pages 1 to `TotalPages` shows every record exactly once, in order,
      and every page after the last is empty. */
  lemma PagesCoverList<T>(rows: seq<T>, pageSize: int, page: int)
    requires pageSize > 0
    ensures PagesUpTo(rows, pageSize, TotalPages(|rows|, pageSize)) == rows
    ensures page > TotalPages(|rows|, pageSize) ==> PageOf(rows, page, pageSize) == []
  {
    var n := TotalPages(|rows|, pageSize);
    PagesTile(rows, pageSize, n);
    assert rows[..|rows|] == rows;
    if page > n {
      MulMonotone(n, page - 1, pageSize);
    }
  }
}
