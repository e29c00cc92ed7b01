/** The pagination window of src/pagination/pagination.service.ts: an
    optional page number and page size become a page size and the number of
    records to skip. Query parameters arrive as text and are converted with
    unary `+`; the model receives them already converted, with `None` for a
    parameter that was not sent. */
module Pagination {
  import opened Wrappers

  /** The page size used when the caller supplies none. */
  const DefaultPerPage: int := 30

  datatype Window = Window(perPage: int, skip: int)

  /** JavaScript falsiness of an optional number: absent, or zero. A
      negative number is truthy, so it is used as given. */
  predicate Falsy(v: Option<int>)
  {
    v.None? || v.value == 0
  }

  /** The window for a page: a falsy page is page 1 and a falsy page size
      the default; `skip` is the records on the pages before the page. */
  function GetPagination(page: Option<int>, perPage: Option<int>,
                         defaultPerPage: int := DefaultPerPage): (w: Window)
    ensures Falsy(perPage) ==> w.perPage == defaultPerPage
    ensures !Falsy(perPage) ==> w.perPage == perPage.value
    ensures Falsy(page) ==> w.skip == 0
    ensures !Falsy(page) ==> w.skip == (page.value - 1) * w.perPage
  {
    var p := if Falsy(page) then 1 else page.value;
    var size := if Falsy(perPage) then defaultPerPage else perPage.value;
    Window(size, (p - 1) * size)
  }

  /** An absent or zero page is the first page: nothing is skipped. */
  lemma MissingPageIsFirst(page: Option<int>, perPage: Option<int>, defaultPerPage: int)
    requires Falsy(page)
    ensures GetPagination(page, perPage, defaultPerPage) == GetPagination(Some(1), perPage, defaultPerPage)
    ensures GetPagination(page, perPage, defaultPerPage).skip == 0
  {
  }

  /** An absent or zero page size is the default one (30 unless the caller
      names another); a non-zero page size is kept as given, even a negative one. */
  lemma PerPageChoice(page: Option<int>, perPage: Option<int>, defaultPerPage: int)
    ensures Falsy(perPage) ==> GetPagination(page, perPage, defaultPerPage).perPage == defaultPerPage
    ensures !Falsy(perPage) ==> GetPagination(page, perPage, defaultPerPage).perPage == perPage.value
    ensures Falsy(perPage) ==> GetPagination(page, perPage).perPage == 30
  {
  }

  /** The number of records on `pages` full pages of `size` records each,
      counted page by page. */
  function RecordsBefore(pages: nat, size: int): (r: int)
  {
    if pages == 0 then 0 else RecordsBefore(pages - 1, size) + size
  }

  /** For a page `p >= 1`, the skip counts exactly the records of the
      `p - 1` pages before it. */
  lemma {:induction false} SkipCountsEarlierPages(p: int, perPage: Option<int>, defaultPerPage: int)
    requires p >= 1
    ensures var w := GetPagination(Some(p), perPage, defaultPerPage);
            w.skip == RecordsBefore(p - 1, w.perPage)
    decreases p
  {
    if p > 1 {
      SkipCountsEarlierPages(p - 1, perPage, defaultPerPage);
      ConsecutivePagesTile(p - 1, perPage, defaultPerPage);
    }
  }

  /** Page `p + 1` starts right where page `p` ends, for every page
      number at which neither page falls back to the first. */
  lemma ConsecutivePagesTile(p: int, perPage: Option<int>, defaultPerPage: int)
    requires p != 0 && p != -1
    ensures var w := GetPagination(Some(p), perPage, defaultPerPage);
            GetPagination(Some(p + 1), perPage, defaultPerPage).skip == w.skip + w.perPage
  {
    var size := GetPagination(Some(p), perPage, defaultPerPage).perPage;
    assert (p + 1 - 1) * size == (p - 1) * size + size;
  }

  /** With a page `p >= 1` and a non-negative page size the skip is a
      non-negative whole number of pages. */
  lemma {:induction false} SkipIsWholePages(p: int, perPage: Option<int>, defaultPerPage: int)
    requires p >= 1
    requires GetPagination(Some(p), perPage, defaultPerPage).perPage >= 0
    ensures var w := GetPagination(Some(p), perPage, defaultPerPage);
            w.skip >= 0 && (w.perPage > 0 ==> w.skip % w.perPage == 0)
  {
    var w := GetPagination(Some(p), perPage, defaultPerPage);
    MultipleIsNonNegative(p - 1, w.perPage);
    if w.perPage > 0 {
      MultipleModulo(p - 1, w.perPage);
    }
  }

  lemma MultipleIsNonNegative(k: nat, size: int)
    requires size >= 0
    ensures k * size >= 0
  {
  }

  lemma MultipleModulo(k: nat, size: int)
    requires size > 0
    ensures (k * size) % size == 0
  {
    var x := k * size;
    var d := k - x / size;
    assert size * d == x % size by {
      assert x == size * (x / size) + x % size;
    }
  }

  /** A negative page is not clamped: it skips backwards, by more than a
      whole page. */
  lemma NegativePageNotClamped(p: int, perPage: Option<int>, defaultPerPage: int)
    requires p < 0
    requires GetPagination(Some(p), perPage, defaultPerPage).perPage > 0
    ensures var w := GetPagination(Some(p), perPage, defaultPerPage);
            w.skip < -w.perPage
  {
    var size := GetPagination(Some(p), perPage, defaultPerPage).perPage;
    assert (p - 1) * size <= -2 * size;
  }

  /** With a positive default page size, the skip and the page size are
      both non-negative exactly when neither input is negative. */
  lemma WindowValidIff(page: Option<int>, perPage: Option<int>, defaultPerPage: int)
    requires defaultPerPage > 0
    ensures var w := GetPagination(page, perPage, defaultPerPage);
            (w.skip >= 0 && w.perPage >= 0) <==>
            (page.None? || page.value >= 0) && (perPage.None? || perPage.value >= 0)
  {
    var w := GetPagination(page, perPage, defaultPerPage);
    var p := if Falsy(page) then 1 else page.value;
    assert w.skip == (p - 1) * w.perPage;
    if p < 1 && w.perPage > 0 {
      assert (p - 1) * w.perPage < 0;
    }
    if p >= 1 && w.perPage >= 0 {
      MultipleIsNonNegative(p - 1, w.perPage);
    }
  }

  /** Pages 2k - 1 and 2k of size n start where page k of size 2n does and
      one page later. */
  lemma DoublePage(k: int, n: int)
    requires k >= 1 && n >= 1
    ensures (2 * k - 2) * n >= 0
    ensures GetPagination(Some(2 * k - 1), Some(n)) == Window(n, (2 * k - 2) * n)
    ensures GetPagination(Some(2 * k), Some(n)) == Window(n, (2 * k - 2) * n + n)
    ensures GetPagination(Some(k), Some(2 * n)) == Window(2 * n, (2 * k - 2) * n)
  {
    assert (2 * k - 1) * n == (2 * k - 2) * n + n;
    assert (k - 1) * (2 * n) == (2 * (k - 1)) * n;
  }
}
