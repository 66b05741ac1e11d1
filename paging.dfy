/**
 * The pain-point page of the StoryWeb resource (`StoryWebResource.findPainfulStoryPoints`).
 *
 * The ranked list comes from the metrics service, which is not part of this model: it is an
 * arbitrary function from the requested tags to a sequence. The page arithmetic is Java `int`
 * arithmetic; the model uses mathematical integers and requires that no intermediate value
 * leaves the 32-bit range, and it spells out Java's truncating division.
 */
module StoryWebPaging {
  import opened Wrappers

  const MinInt: int := -0x8000_0000
  const MaxInt: int := 0x7fff_ffff

  predicate IsJavaInt(x: int) {
    MinInt <= x <= MaxInt
  }

  /**
   * Every value `findPainfulStoryPoints` computes for `firstIndex`, `lastIndex` and
   * `numPages` fits in a Java `int`.
   */
  predicate NoIntOverflow(size: int, pageNumber: int, elementsPerPage: int) {
    && 0 <= size <= MaxInt
    && IsJavaInt(pageNumber)
    && IsJavaInt(elementsPerPage)
    && IsJavaInt(pageNumber + 1)
    && IsJavaInt(pageNumber * elementsPerPage)
    && IsJavaInt((pageNumber + 1) * elementsPerPage)
  }

  /** What the resource hands back: one page and the page metadata. */
  datatype PagedResult<T> = PagedResult(
    contents: seq<T>,
    pageNumber: int,
    elementsPerPage: int,
    totalPages: int,
    hasNext: bool,
    hasPrevious: bool)

  /** The exceptions the Java code can raise. */
  datatype PageError =
    | ArithmeticDivideByZero                          // `painPoints.size() / elementsPerPage` with a zero page size
    | IndexOutOfBounds(fromIndex: int, toIndex: int)  // `painPoints.subList(firstIndex, lastIndex)` with a bad range

  function Min(a: int, b: int): int {
    if a <= b then a else b
  }

  function Abs(a: int): nat {
    if a < 0 then -a else a
  }

  /** Java's `/` on `int`: the quotient is truncated toward zero. */
  function JavaDiv(a: int, b: int): int
    requires b != 0
  {
    var q := Abs(a) / Abs(b);
    if (a < 0) == (b < 0) then q else -q
  }

  /** Java's `%` on `int`: the remainder takes the sign of the dividend. */
  function JavaRem(a: int, b: int): int
    requires b != 0
  {
    a - b * JavaDiv(a, b)
  }

  /** Java's division and remainder as section 15.17 of the Java Language Specification defines them. */
  lemma JavaDivTruncates(a: int, b: int)
    requires b != 0
    ensures a == b * JavaDiv(a, b) + JavaRem(a, b)
    ensures Abs(JavaRem(a, b)) < Abs(b)
    ensures JavaRem(a, b) == 0 || (JavaRem(a, b) < 0 <==> a < 0)
  {
    JavaRemMagnitude(a, b);
  }

  /** The Java remainder is the remainder of the magnitudes, carrying the dividend's sign. */
  lemma JavaRemMagnitude(a: int, b: int)
    requires b != 0
    ensures JavaRem(a, b) == if a < 0 then -(Abs(a) % Abs(b)) else Abs(a) % Abs(b)
  {
    var x: int, y: int := Abs(a), Abs(b);
    var q: int, m: int := x / y, x % y;
    var yq := y * q;
    assert x == yq + m;
    assert b * JavaDiv(a, b) == if a < 0 then -yq else yq by {
      if (a < 0) == (b < 0) {
        assert JavaDiv(a, b) == q;
        assert b * q == if b < 0 then -yq else yq;
      } else {
        assert JavaDiv(a, b) == -q;
        assert b * -q == if b < 0 then yq else -yq;
      }
    }
  }

  /** `numPages` in `findPainfulStoryPoints`: whole pages, plus one for a partly filled last page. */
  function NumPages(size: int, elementsPerPage: int): int
    requires elementsPerPage != 0
  {
    JavaDiv(size, elementsPerPage) + (if JavaRem(size, elementsPerPage) > 0 then 1 else 0)
  }

  /** For a positive page size the page count is the ceiling of size / elementsPerPage. */
  lemma NumPagesIsCeiling(size: nat, elementsPerPage: int)
    requires elementsPerPage > 0
    ensures NumPages(size, elementsPerPage) >= 0
    ensures (NumPages(size, elementsPerPage) - 1) * elementsPerPage < size
    ensures size <= NumPages(size, elementsPerPage) * elementsPerPage
  {
    var q, r := size / elementsPerPage, size % elementsPerPage;
    assert size == elementsPerPage * q + r;
    assert JavaDiv(size, elementsPerPage) == q;
    assert JavaRem(size, elementsPerPage) == r;
    if r > 0 {
      assert NumPages(size, elementsPerPage) == q + 1;
      assert (q + 1) * elementsPerPage == q * elementsPerPage + elementsPerPage;
    } else {
      assert NumPages(size, elementsPerPage) == q;
      assert (q - 1) * elementsPerPage == q * elementsPerPage - elementsPerPage;
    }
  }

  /** Multiplying by a positive page size keeps the order of page numbers. */
  lemma MultiplyMonotone(a: int, b: int, elementsPerPage: int)
    requires a <= b && elementsPerPage > 0
    ensures a * elementsPerPage <= b * elementsPerPage
  {
    var d := b - a;
    assert b * elementsPerPage == a * elementsPerPage + d * elementsPerPage;
    assert d * elementsPerPage >= 0;
  }

  /** Page `pageNumber` starts inside the list exactly when it is one of the counted pages. */
  lemma PageStartsInList(size: nat, pageNumber: int, elementsPerPage: int)
    requires elementsPerPage > 0
    ensures 0 <= pageNumber * elementsPerPage < size <==> 0 <= pageNumber < NumPages(size, elementsPerPage)
  {
    var t := NumPages(size, elementsPerPage);
    NumPagesIsCeiling(size, elementsPerPage);
    if pageNumber < 0 {
      MultiplyMonotone(pageNumber, -1, elementsPerPage);
    } else if pageNumber < t {
      MultiplyMonotone(0, pageNumber, elementsPerPage);
      MultiplyMonotone(pageNumber, t - 1, elementsPerPage);
    } else {
      MultiplyMonotone(t, pageNumber, elementsPerPage);
    }
  }

  /**
   * The index facts behind `firstIndex`, `lastIndex` and `numPages`. A positive page size makes the start of page p
   * fall inside the list exactly for the counted pages; a negative one puts the next page's
   * start below this page's start.
   */
  lemma PageArithmetic(size: nat, pageNumber: int, elementsPerPage: int)
    requires elementsPerPage != 0
    ensures (pageNumber + 1) * elementsPerPage == pageNumber * elementsPerPage + elementsPerPage
    ensures elementsPerPage > 0 ==>
              && (0 <= pageNumber * elementsPerPage < size <==> 0 <= pageNumber < NumPages(size, elementsPerPage))
              && ((pageNumber + 1) * elementsPerPage < size <==> pageNumber < NumPages(size, elementsPerPage) - 1)
              && (NumPages(size, elementsPerPage) - 1) * elementsPerPage < size
              && size <= NumPages(size, elementsPerPage) * elementsPerPage
  {
    if elementsPerPage > 0 {
      NumPagesIsCeiling(size, elementsPerPage);
      PageStartsInList(size, pageNumber, elementsPerPage);
      PageStartsInList(size, pageNumber + 1, elementsPerPage);
    }
  }

  /**
   * The slice a page covers: from `pageNumber * elementsPerPage` up to, but excluding, the
   * smaller of `cap` and the start of the next page. The resource as written passes
   * `cap = |s| - 1`.
   */
  function PageSlice<T>(s: seq<T>, cap: int, pageNumber: int, elementsPerPage: int): (page: seq<T>)
    requires 0 <= cap <= |s|
    requires elementsPerPage > 0 && 0 <= pageNumber && pageNumber * elementsPerPage <= cap
    ensures |page| <= elementsPerPage
    ensures (pageNumber + 1) * elementsPerPage <= cap ==> |page| == elementsPerPage
    ensures |page| == Min(cap, (pageNumber + 1) * elementsPerPage) - pageNumber * elementsPerPage
    ensures forall i :: 0 <= i < |page| ==>
              pageNumber * elementsPerPage + i < cap && page[i] == s[pageNumber * elementsPerPage + i]
  {
    var first := pageNumber * elementsPerPage;
    assert (pageNumber + 1) * elementsPerPage == first + elementsPerPage;
    s[first .. Min(cap, first + elementsPerPage)]
  }

  /** `List.subList(fromIndex, toIndex)`: a view of the range, or IndexOutOfBoundsException. */
  function SubList<T>(s: seq<T>, fromIndex: int, toIndex: int): Result<seq<T>, PageError> {
    if 0 <= fromIndex <= toIndex <= |s| then Ok(s[fromIndex .. toIndex])
    else Err(IndexOutOfBounds(fromIndex, toIndex))
  }

  /**
   * The body of `findPainfulStoryPoints` after the ranked list is fetched: slice the list
   * with `subList(firstIndex, lastIndex)` and fill in the page metadata.
   * The call succeeds exactly for a non-empty list, a positive page size and a page number
   * below the page count; the page is the contiguous run starting at page * perPage and it
   * never reaches the last element of the list.
   */
  function PageOf<T>(painPoints: seq<T>, pageNumber: int, elementsPerPage: int): (r: Result<PagedResult<T>, PageError>)
    requires NoIntOverflow(|painPoints|, pageNumber, elementsPerPage)
    ensures elementsPerPage == 0 ==> r == Err(ArithmeticDivideByZero)
    ensures elementsPerPage != 0 && r.Err? ==>
              r.error == IndexOutOfBounds(pageNumber * elementsPerPage,
                                          Min(|painPoints| - 1, (pageNumber + 1) * elementsPerPage))
    ensures r.Ok? <==>
              && |painPoints| > 0
              && elementsPerPage > 0
              && 0 <= pageNumber < NumPages(|painPoints|, elementsPerPage)
    ensures r.Ok? ==> 0 <= pageNumber * elementsPerPage < |painPoints|
    ensures r.Ok? ==>
              && r.value.contents == PageSlice(painPoints, |painPoints| - 1, pageNumber, elementsPerPage)
              && r.value.pageNumber == pageNumber
              && r.value.elementsPerPage == elementsPerPage
              && (r.value.totalPages - 1) * elementsPerPage < |painPoints| <= r.value.totalPages * elementsPerPage
              && (r.value.hasPrevious <==> pageNumber > 0)
              && (r.value.hasNext <==> (pageNumber + 1) * elementsPerPage < |painPoints|)
  {
    var size := |painPoints|;
    var firstIndex := pageNumber * elementsPerPage;
    var lastIndex := Min(size - 1, (pageNumber + 1) * elementsPerPage);
    if elementsPerPage == 0 then
      Err(ArithmeticDivideByZero)
    else
      var numPages := NumPages(size, elementsPerPage);
      PageArithmetic(size, pageNumber, elementsPerPage);
      match SubList(painPoints, firstIndex, lastIndex)
      case Err(e) => Err(e)
      case Ok(contents) =>
        Ok(PagedResult(contents, pageNumber, elementsPerPage, numPages,
                       pageNumber < numPages - 1, pageNumber > 0))
  }

  /**
   * `findPainfulStoryPoints`: the ranked list for the requested tags, then its page.
   * `findAndFilterBiggestPainPoints` stands for the metrics service; `project` is accepted
   * and never used.
   */
  function FindPainfulStoryPoints<T>(
    findAndFilterBiggestPainPoints: seq<string> -> seq<T>,
    project: Option<string>,
    pageNumber: int,
    elementsPerPage: int,
    tags: seq<string>): (r: Result<PagedResult<T>, PageError>)
    requires NoIntOverflow(|findAndFilterBiggestPainPoints(tags)|, pageNumber, elementsPerPage)
    ensures r == PageOf(findAndFilterBiggestPainPoints(tags), pageNumber, elementsPerPage)
  {
    var ranked := findAndFilterBiggestPainPoints(tags);
    PageOf(ranked, pageNumber, elementsPerPage)
  }

  /** The project filter has no effect: only the tags reach the metrics service. */
  lemma ProjectIsIgnored<T>(
    findAndFilterBiggestPainPoints: seq<string> -> seq<T>,
    project: Option<string>,
    otherProject: Option<string>,
    pageNumber: int,
    elementsPerPage: int,
    tags: seq<string>)
    requires NoIntOverflow(|findAndFilterBiggestPainPoints(tags)|, pageNumber, elementsPerPage)
    ensures FindPainfulStoryPoints(findAndFilterBiggestPainPoints, project, pageNumber, elementsPerPage, tags)
         == FindPainfulStoryPoints(findAndFilterBiggestPainPoints, otherProject, pageNumber, elementsPerPage, tags)
  {
  }

  /** The pages 0 .. k-1 of `s`, each capped at `cap`, one after the other. */
  ghost function PagesBefore<T>(s: seq<T>, cap: int, elementsPerPage: int, k: nat): seq<T>
    requires 0 <= cap <= |s| && elementsPerPage > 0
    requires k == 0 || (k - 1) * elementsPerPage <= cap
    decreases k
  {
    if k == 0 then []
    else
      assert (k - 2) * elementsPerPage == (k - 1) * elementsPerPage - elementsPerPage;
      PagesBefore(s, cap, elementsPerPage, k - 1) + PageSlice(s, cap, k - 1, elementsPerPage)
  }

  /** Consecutive pages join without gap or overlap: the first k pages are a prefix of `s`. */
  lemma {:induction false} PagesBeforeArePrefix<T>(s: seq<T>, cap: int, elementsPerPage: int, k: nat)
    requires 0 <= cap <= |s| && elementsPerPage > 0
    requires k == 0 || (k - 1) * elementsPerPage <= cap
    ensures PagesBefore(s, cap, elementsPerPage, k) == s[..Min(cap, k * elementsPerPage)]
  {
    if k > 0 {
      var first := (k - 1) * elementsPerPage;
      assert (k - 2) * elementsPerPage == first - elementsPerPage;
      assert k * elementsPerPage == first + elementsPerPage;
      PagesBeforeArePrefix(s, cap, elementsPerPage, k - 1);
      assert Min(cap, first) == first;
      assert s[..first] + s[first .. Min(cap, first + elementsPerPage)] == s[..Min(cap, first + elementsPerPage)];
    }
  }

  /**
   * As written, reading every page in turn yields every pain point except the last one:
   * each appears exactly once and in rank order, and the last one never appears.
   */
  lemma AsWrittenPagesOmitLast<T>(s: seq<T>, elementsPerPage: int)
    requires |s| > 0 && elementsPerPage > 0
    ensures NumPages(|s|, elementsPerPage) >= 1
    ensures PagesBefore(s, |s| - 1, elementsPerPage, NumPages(|s|, elementsPerPage)) == s[..|s| - 1]
  {
    var t := NumPages(|s|, elementsPerPage);
    NumPagesIsCeiling(|s|, elementsPerPage);
    PagesBeforeArePrefix(s, |s| - 1, elementsPerPage, t);
  }

  /** Twenty-five pain points, ten per page: page 2 holds four of them (indices 20 to 23). */
  lemma TwentyFiveByTenPageTwo<T>(s: seq<T>)
    requires |s| == 25
    ensures PageOf(s, 2, 10) == Ok(PagedResult(s[20..24], 2, 10, 3, false, true))
  {
  }

  /**
   * The evidently intended page: the same arithmetic with `size` in place of `size - 1` as
   * the cap on the exclusive end index.
   */
  function IntendedPageOf<T>(painPoints: seq<T>, pageNumber: int, elementsPerPage: int): (r: Result<PagedResult<T>, PageError>)
    requires NoIntOverflow(|painPoints|, pageNumber, elementsPerPage)
    ensures elementsPerPage == 0 ==> r == Err(ArithmeticDivideByZero)
    ensures r.Ok? <==> elementsPerPage > 0 && 0 <= pageNumber && pageNumber * elementsPerPage <= |painPoints|
    ensures r.Ok? ==> r.value.contents == PageSlice(painPoints, |painPoints|, pageNumber, elementsPerPage)
  {
    var size := |painPoints|;
    var firstIndex := pageNumber * elementsPerPage;
    var lastIndex := Min(size, (pageNumber + 1) * elementsPerPage);
    if elementsPerPage == 0 then
      Err(ArithmeticDivideByZero)
    else
      var numPages := NumPages(size, elementsPerPage);
      assert (pageNumber + 1) * elementsPerPage == firstIndex + elementsPerPage;
      assert pageNumber < 0 && elementsPerPage > 0 ==> firstIndex < 0;
      match SubList(painPoints, firstIndex, lastIndex)
      case Err(e) => Err(e)
      case Ok(contents) =>
        Ok(PagedResult(contents, pageNumber, elementsPerPage, numPages,
                       pageNumber < numPages - 1, pageNumber > 0))
  }

  /** With the intended cap, reading every page in turn yields the whole ranked list. */
  lemma IntendedPagesReassemble<T>(s: seq<T>, elementsPerPage: int)
    requires elementsPerPage > 0
    ensures PagesBefore(s, |s|, elementsPerPage, NumPages(|s|, elementsPerPage)) == s
  {
    var t := NumPages(|s|, elementsPerPage);
    NumPagesIsCeiling(|s|, elementsPerPage);
    PagesBeforeArePrefix(s, |s|, elementsPerPage, t);
  }
}
