/** Paged searches of the generic read repository over the list of documents that the collection holds in sort order. */
module Pagination {
  import opened Options

  const DEFAULT_SIZE: int := 10
  const DEFAULT_PAGE: int := 1

  const TWO_63: int := 0x8000_0000_0000_0000
  const TWO_64: int := 0x1_0000_0000_0000_0000

  /** A Go int on a 64-bit machine. */
  predicate IsInt(n: int) {
    -TWO_63 <= n < TWO_63
  }

  /** Arithmetic on Go ints wraps around. */
  function Wrap(n: int): int {
    (n + TWO_63) % TWO_64 - TWO_63
  }

  function PageSize(size: int): int {
    if size <= 0 then DEFAULT_SIZE else size
  }

  function PageNumber(page: int): int {
    if page <= 0 then DEFAULT_PAGE else page
  }

  function Skip(page: int, size: int): int {
    Wrap((PageNumber(page) - 1) * PageSize(size))
  }

  datatype SearchResult<T> = SearchResult(
    content: seq<T>, totalElements: int, totalPages: int, page: int, size: int, hasNext: bool, hasPrevious: bool)

  /** A find with skip and limit; the collection rejects a negative skip. */
  function Find<T>(docs: seq<T>, skip: int, limit: int): Option<seq<T>> {
    if skip < 0 || limit < 0 then None
    else if skip >= |docs| then Some([])
    else Some(docs[skip..if skip + limit <= |docs| then skip + limit else |docs|])
  }

  /** What a page stands for: the elements at (page - 1) * size and after, at most `size` of them. */
  function PageOf<T>(docs: seq<T>, page: int, size: int): seq<T>
    requires page > 0 && size > 0
  {
    Window(docs, (page - 1) * size, size)
  }

  function Window<T>(docs: seq<T>, first: nat, size: nat): seq<T> {
    if first >= |docs| then [] else docs[first..if first + size <= |docs| then first + size else |docs|]
  }

  function Converted<D, M>(docs: seq<D>, convert: D -> Option<M>): Option<seq<M>> {
    if docs == [] then Some([])
    else
      var before := Converted(docs[..|docs| - 1], convert);
      var last := convert(docs[|docs| - 1]);
      if before.Some? && last.Some? then Some(before.value + [last.value]) else None
  }

  /** The loop stops at the first document that does not convert. */
  method ConvertDocuments<D, M>(docs: seq<D>, convert: D -> Option<M>) returns (result: Option<seq<M>>)
    ensures result == Converted(docs, convert)
    ensures result.Some? <==> forall d <- docs :: convert(d).Some?
    ensures result.Some? ==> |result.value| == |docs| && forall i :: 0 <= i < |docs| ==>
              Some(result.value[i]) == convert(docs[i])
  {
    var models := [];
    for i := 0 to |docs|
      invariant Converted(docs[..i], convert) == Some(models) && |models| == i
      invariant forall j :: 0 <= j < i ==> Some(models[j]) == convert(docs[j])
    {
      assert docs[..i + 1][..i] == docs[..i];
      var model := convert(docs[i]);
      if model.None? {
        NoneStays(docs, i + 1, convert);
        return None;
      }
      models := models + [model.value];
    }
    assert docs[..|docs|] == docs;
    result := Some(models);
  }

  lemma {:induction false} NoneStays<D, M>(docs: seq<D>, i: nat, convert: D -> Option<M>)
    requires i <= |docs| && Converted(docs[..i], convert).None?
    ensures Converted(docs, convert).None?
    decreases |docs|
  {
    if i == |docs| {
      assert docs[..i] == docs;
    } else {
      assert docs[..|docs| - 1][..i] == docs[..i];
      NoneStays(docs[..|docs| - 1], i, convert);
    }
  }

  /** FindByCriteria for a fixed list of matching documents in sort order. */
  method FindByCriteria<D, M>(docs: seq<D>, page: int, size: int, convert: D -> Option<M>)
    returns (result: Option<SearchResult<M>>)
    requires IsInt(page) && IsInt(size) && IsInt(|docs|)
    ensures result.Some? <==>
              0 <= Skip(page, size) && Converted(Find(docs, Skip(page, size), PageSize(size)).value, convert).Some?
    ensures result.Some? ==>
              var r, s, p := result.value, PageSize(size), PageNumber(page);
              && Some(r.content) == Converted(Find(docs, Skip(page, size), s).value, convert)
              && r.totalElements == |docs| && r.page == p && r.size == s
              && p == (if page <= 0 then 1 else page) && s == (if size <= 0 then 10 else size)
              && (r.totalPages - 1) * s < |docs| <= r.totalPages * s
              && (r.hasNext <==> p * s < |docs|)
              && (r.hasPrevious <==> p > 1)
  {
    var pageSize := if size <= 0 then DEFAULT_SIZE else size;
    var pageNumber := if page <= 0 then DEFAULT_PAGE else page;
    var found := Find(docs, Wrap((pageNumber - 1) * pageSize), pageSize);
    if found.None? {
      return None;
    }
    var content := ConvertDocuments(found.value, convert);
    if content.None? {
      return None;
    }
    var totalPages := |docs| / pageSize;
    if |docs| % pageSize != 0 {
      totalPages := totalPages + 1;
    }
    TotalPagesMeaning(|docs|, pageSize);
    NextMeaning(|docs|, pageNumber, pageSize);
    result := Some(SearchResult(content.value, |docs|, totalPages, pageNumber, pageSize, pageNumber < totalPages,
                                pageNumber > 1));
  }

  function TotalPages(total: nat, size: int): int
    requires size > 0
  {
    total / size + (if total % size != 0 then 1 else 0)
  }

  /** The number of pages is the total divided by the page size, rounded up. */
  lemma TotalPagesMeaning(total: nat, size: int)
    requires size > 0
    ensures (TotalPages(total, size) - 1) * size < total <= TotalPages(total, size) * size
    ensures TotalPages(total, size) >= 0
  {
    var q, r := total / size, total % size;
    assert total == q * size + r && 0 <= r < size;
    assert (q + 1) * size == q * size + size && (q - 1) * size == q * size - size;
  }

  /** There is a next page exactly when elements remain after this one. */
  lemma NextMeaning(total: nat, page: int, size: int)
    requires page > 0 && size > 0
    ensures page < TotalPages(total, size) <==> page * size < total
  {
    TotalPagesMeaning(total, size);
    var n := TotalPages(total, size);
    if page < n {
      MulMonotone(page, n - 1, size);
    } else {
      MulMonotone(n, page, size);
    }
  }

  lemma MulMonotone(a: int, b: int, c: int)
    requires a <= b && c >= 0
    ensures a * c <= b * c
  {
  }

  // ----- The pages partition the list -----

  function Pages<T>(docs: seq<T>, n: nat, size: int): seq<T>
    requires size > 0
  {
    if n == 0 then [] else Pages(docs, n - 1, size) + PageOf(docs, n, size)
  }

  function UpTo<T>(docs: seq<T>, end: nat): seq<T> {
    docs[..if end <= |docs| then end else |docs|]
  }

  lemma WindowExtends<T>(docs: seq<T>, first: nat, size: nat)
    ensures UpTo(docs, first) + Window(docs, first, size) == UpTo(docs, first + size)
  {
  }

  lemma {:induction false} PagesArePrefix<T>(docs: seq<T>, n: nat, size: int, end: nat)
    requires size > 0 && end == n * size
    ensures Pages(docs, n, size) == UpTo(docs, end)
  {
    if n > 0 {
      var before := (n - 1) * size;
      assert before + size == end;
      PagesArePrefix(docs, n - 1, size, before);
      WindowExtends(docs, before, size);
    }
  }

  /** A page is empty exactly when it comes after the last one. */
  lemma EmptyMeaning(total: nat, page: int, size: int)
    requires page > 0 && size > 0
    ensures (page - 1) * size >= total <==> page > TotalPages(total, size)
  {
    TotalPagesMeaning(total, size);
    var n := TotalPages(total, size);
    if page > n {
      MulMonotone(n, page - 1, size);
    } else {
      MulMonotone(page - 1, n - 1, size);
    }
  }

  lemma WindowEmpty<T>(docs: seq<T>, first: nat, size: nat)
    requires size > 0
    ensures Window(docs, first, size) == [] <==> first >= |docs|
  {
  }

  lemma WholeList<T>(docs: seq<T>, end: nat)
    requires end >= |docs|
    ensures UpTo(docs, end) == docs
  {
  }

  /** Pages one to TotalPages, one after the other, are the whole list; later pages are empty, earlier ones are not. */
  lemma PagesPartition<T>(docs: seq<T>, size: int, page: int)
    requires size > 0 && page > 0
    ensures TotalPages(|docs|, size) >= 0 && Pages(docs, TotalPages(|docs|, size), size) == docs
    ensures PageOf(docs, page, size) == [] <==> page > TotalPages(|docs|, size)
  {
    hide TotalPages;
    hide Pages;
    hide Window;
    hide UpTo;
    var n, end := TotalPages(|docs|, size), TotalPages(|docs|, size) * size;
    TotalPagesMeaning(|docs|, size);
    PagesArePrefix(docs, n, size, end);
    WholeList(docs, end);
    EmptyMeaning(|docs|, page, size);
    WindowEmpty(docs, (page - 1) * size, size);
  }

  // ----- When the query returns the page -----

  predicate FitsInt(page: int, size: int) {
    (PageNumber(page) - 1) * PageSize(size) < TWO_63
  }

  /** Where the product fits, the query returns the page that was asked for. */
  lemma FindReturnsPage<T>(docs: seq<T>, page: int, size: int)
    requires IsInt(page) && IsInt(size) && FitsInt(page, size)
    ensures Find(docs, Skip(page, size), PageSize(size)) == Some(PageOf(docs, PageNumber(page), PageSize(size)))
  {
    MulMonotone(0, PageNumber(page) - 1, PageSize(size));
  }

  /** Where it does not, the page lies beyond every list, yet the query fails or starts at a wrapped position. */
  lemma OverflowingPage<T>(docs: seq<T>, page: int, size: int)
    requires IsInt(page) && IsInt(size) && IsInt(|docs|) && !FitsInt(page, size)
    ensures PageOf(docs, PageNumber(page), PageSize(size)) == []
    ensures Find(docs, Skip(page, size), PageSize(size)) == Some([]) <==> Skip(page, size) >= |docs|
  {
  }

  /** A list in which the query from `skip` on finds something. */
  lemma SomethingFound(skip: nat, limit: int) returns (docs: seq<int>)
    requires limit > 0
    ensures |docs| == skip + 1 && Find(docs, skip, limit) != Some([])
  {
    docs := seq(skip + 1, _ => 0);
    assert docs[skip..skip + 1] == [0];
  }

  ghost predicate ReturnsPage<T(!new)>(docs: seq<T>, page: int, size: int) {
    Find(docs, Skip(page, size), PageSize(size)) == Some(PageOf(docs, PageNumber(page), PageSize(size)))
  }

  /** The query answers with the page asked for exactly when the offset fits an int or wraps to one past the list. */
  lemma PageIsRightIffItFits<T(!new)>(docs: seq<T>, page: int, size: int)
    requires IsInt(page) && IsInt(size) && IsInt(|docs|)
    ensures ReturnsPage(docs, page, size) <==> FitsInt(page, size) || Skip(page, size) >= |docs|
  {
    if FitsInt(page, size) {
      FindReturnsPage(docs, page, size);
    } else {
      OverflowingPage(docs, page, size);
    }
  }

  /**
   * The query answers every list with the page asked for exactly when the product of page and size fits an int,
   * but for the one wrapped position that no list reaches.
   */
  lemma AllListsPagedRight(page: int, size: int)
    requires IsInt(page) && IsInt(size)
    ensures FitsInt(page, size) || Skip(page, size) == TWO_63 - 1 <==>
            forall docs: seq<int> | IsInt(|docs|) :: ReturnsPage(docs, page, size)
  {
    forall docs: seq<int> | IsInt(|docs|)
      ensures ReturnsPage(docs, page, size) <==>
                FitsInt(page, size) || Find(docs, Skip(page, size), PageSize(size)) == Some([])
    {
      PageIsRightIffItFits(docs, page, size);
      if !FitsInt(page, size) {
        OverflowingPage(docs, page, size);
      }
    }
    if !FitsInt(page, size) {
      WrappedPage(page, size);
    }
  }

  lemma WrappedPage(page: int, size: int)
    requires IsInt(page) && IsInt(size)
    ensures Skip(page, size) == TWO_63 - 1 <==>
            forall docs: seq<int> | IsInt(|docs|) :: Find(docs, Skip(page, size), PageSize(size)) == Some([])
  {
    var skip := Skip(page, size);
    assert skip < TWO_63;
    if skip < 0 {
      var none: seq<int> := [];
      assert IsInt(|none|) && Find(none, skip, PageSize(size)) != Some([]);
    } else if skip < TWO_63 - 1 {
      var docs := SomethingFound(skip, PageSize(size));
      assert IsInt(|docs|);
    }
  }
}
