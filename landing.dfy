/**
 * The problem-statement listing of the landing page
 * (src/components/custom/LandingPage.tsx): a case-insensitive search over
 * five fields, a page of `entriesPerPage` statements, the page buttons with
 * their ellipses, and the previous/next arrows. The React state hooks are
 * the fields of `ListingState`; the filter effect runs inside the setters
 * that trigger it. The countdown, the login sniffing and the fetch are not
 * modelled; a statement field that is absent is the empty string.
 */
module Landing {
  import opened Text

  datatype ProblemStatement = ProblemStatement(
    sNo: int,
    org: string,
    title: string,
    category: string,
    psNumber: string,
    ideas: int,
    theme: string)

  /** The term, lower-cased, occurs in one of the five lower-cased fields. */
  predicate Matches(ps: ProblemStatement, term: string) {
    var t := Lower(term);
    || Contains(Lower(ps.org), t)
    || Contains(Lower(ps.title), t)
    || Contains(Lower(ps.theme), t)
    || Contains(Lower(ps.category), t)
    || Contains(Lower(ps.psNumber), t)
  }

  /** `problemStatements.filter(...)`: the matching statements, in order. */
  function Filter(pss: seq<ProblemStatement>, term: string): (r: seq<ProblemStatement>)
    ensures |r| <= |pss|
    ensures forall x :: x in r <==> x in pss && Matches(x, term)
  {
    if pss == [] then []
    else (if Matches(pss[0], term) then [pss[0]] else []) + Filter(pss[1..], term)
  }

  /** Filtering keeps the order: it works piecewise on a concatenation. */
  lemma {:induction false} FilterAppend(a: seq<ProblemStatement>, b: seq<ProblemStatement>, term: string)
    ensures Filter(a + b, term) == Filter(a, term) + Filter(b, term)
  {
    if a != [] {
      assert (a + b)[1..] == a[1..] + b;
      FilterAppend(a[1..], b, term);
    } else {
      assert a + b == b;
    }
  }

  /** An empty search keeps every statement, in order. */
  lemma {:induction false} FilterEmptyTerm(pss: seq<ProblemStatement>)
    ensures Filter(pss, "") == pss
  {
    if pss != [] {
      assert Lower("") == "";
      ContainsEmpty(Lower(pss[0].org));
      FilterEmptyTerm(pss[1..]);
    }
  }

  // ---------------------------------------------------------------------
  // Pages

  const PerPageOptions: set<int> := {5, 10, 20}
  const DefaultPerPage: int := 10

  function Min(a: int, b: int): int { if a <= b then a else b }
  function Max(a: int, b: int): int { if a >= b then a else b }

  /**
   * `Math.ceil(n / per)`: the least number of pages of `per` statements
   * that hold `n` statements, 0 only for an empty list.
   */
  function TotalPages(n: nat, per: int): (pages: nat)
    requires per > 0
    ensures pages * per >= n
    ensures (pages - 1) * per < n || n == 0
    ensures pages == 0 <==> n == 0
  {
    var m := n + per - 1;
    assert m == m / per * per + m % per;
    assert (m / per - 1) * per == m / per * per - per;
    m / per
  }

  /** `startIndex`: the pages before the current one hold this many statements. */
  function StartIndex(cur: int, per: int): (start: nat)
    requires cur >= 1 && per > 0
  {
    assert (cur - 1) * per >= 0 by { MulMono(0, cur - 1, per); }
    (cur - 1) * per
  }

  /** `filteredPS.slice(startIndex, startIndex + entriesPerPage)`. */
  function CurrentPage(s: seq<ProblemStatement>, cur: int, per: int): (r: seq<ProblemStatement>)
    requires cur >= 1 && per > 0
    ensures |r| <= per
    ensures forall k :: 0 <= k < |r| ==> StartIndex(cur, per) + k < |s| && r[k] == s[StartIndex(cur, per) + k]
    ensures StartIndex(cur, per) >= |s| ==> r == []
    ensures StartIndex(cur, per) < |s| ==> |r| == Min(per, |s| - StartIndex(cur, per))
  {
    var start := StartIndex(cur, per);
    s[Min(start, |s|)..Min(start + per, |s|)]
  }

  lemma MulMono(a: int, b: int, per: int)
    requires per > 0 && a <= b
    ensures a * per <= b * per
  {
    assert b * per - a * per == (b - a) * per;
  }

  lemma DivAtLeast(m: int, per: int, q: int)
    requires per > 0 && q * per <= m
    ensures q <= m / per
  {
    var d := m / per;
    assert m == d * per + m % per;
    assert (d + 1) * per == d * per + per;
    if d + 1 <= q {
      MulMono(d + 1, q, per);
    }
  }

  /** Every filtered statement sits on one page within the page count, at its place. */
  lemma IndexOnPage(s: seq<ProblemStatement>, per: int, k: int)
    requires per > 0 && 0 <= k < |s|
    ensures var p := k / per + 1;
            && 1 <= p <= TotalPages(|s|, per)
            && k % per < |CurrentPage(s, p, per)|
            && CurrentPage(s, p, per)[k % per] == s[k]
  {
    var q := k / per;
    assert k == q * per + k % per;
    assert StartIndex(q + 1, per) == q * per;
    assert (q + 1) * per == q * per + per;
    DivAtLeast(|s| + per - 1, per, q + 1);
  }

  /** When the list is not empty, a page within range shows at least one statement. */
  lemma InRangePageShows(s: seq<ProblemStatement>, cur: int, per: int)
    requires per > 0 && s != [] && 1 <= cur <= Max(1, TotalPages(|s|, per))
    ensures CurrentPage(s, cur, per) != []
  {
    MulMono(cur - 1, Max(1, TotalPages(|s|, per)) - 1, per);
  }

  // ---------------------------------------------------------------------
  // Page buttons and arrows

  /** A numbered page button (highlighted on the current page) or an ellipsis. */
  datatype Item = PageButton(number: int, isCurrent: bool) | Ellipsis(at: int)

  function Position(x: Item): int {
    match x
    case PageButton(n, _) => n
    case Ellipsis(n) => n
  }

  /** The first page, the last page and the neighbours of the current one get a button. */
  predicate IsButton(i: int, total: int, cur: int) {
    i == 1 || i == total || (cur - 1 <= i <= cur + 1)
  }

  /** `renderPagination`. */
  method RenderPagination(total: int, cur: int) returns (items: seq<Item>)
    ensures total <= 1 ==> items == []
    ensures forall k :: 0 <= k < |items| ==> 1 <= Position(items[k]) <= total
    ensures forall k, l :: 0 <= k < l < |items| ==> Position(items[k]) < Position(items[l])
    ensures forall i, b :: PageButton(i, b) in items
              <==> 1 < total && 1 <= i <= total && IsButton(i, total, cur) && b == (i == cur)
    ensures forall i :: Ellipsis(i) in items
              <==> 1 < total && 1 <= i <= total && !IsButton(i, total, cur) && (i == cur - 2 || i == cur + 2)
  {
    items := [];
    if total <= 1 {
      return;
    }
    var i := 1;
    while i <= total
      invariant 1 <= i <= total + 1
      invariant forall k :: 0 <= k < |items| ==> 1 <= Position(items[k]) < i
      invariant forall k, l :: 0 <= k < l < |items| ==> Position(items[k]) < Position(items[l])
      invariant forall j, b :: PageButton(j, b) in items
                  <==> 1 <= j < i && IsButton(j, total, cur) && b == (j == cur)
      invariant forall j :: Ellipsis(j) in items
                  <==> 1 <= j < i && !IsButton(j, total, cur) && (j == cur - 2 || j == cur + 2)
    {
      if i == 1 || i == total || (i >= cur - 1 && i <= cur + 1) {
        items := items + [PageButton(i, i == cur)];
      } else if i == cur - 2 || i == cur + 2 {
        items := items + [Ellipsis(i)];
      }
      i := i + 1;
    }
  }

  /** The previous arrow: only inside a pagination bar, and not on page 1. */
  predicate ShowsPrev(total: int, cur: int) {
    total > 1 && cur > 1
  }

  /** The next arrow: only inside a pagination bar, and not on the last page. */
  predicate ShowsNext(total: int, cur: int) {
    total > 1 && cur < total
  }

  // ---------------------------------------------------------------------
  // The listing's state

  class ListingState {
    var problemStatements: seq<ProblemStatement>
    var searchTerm: string
    var filtered: seq<ProblemStatement>
    var entriesPerPage: int
    var currentPage: int

    /** The filter effect has run, the page size is one the select offers, pages count from 1. */
    ghost predicate Valid()
      reads this
    {
      && filtered == Filter(problemStatements, searchTerm)
      && entriesPerPage in PerPageOptions
      && currentPage >= 1
    }

    function Pages(): nat
      reads this
      requires Valid()
    {
      TotalPages(|filtered|, entriesPerPage)
    }

    /** `currentPS`. */
    function Visible(): seq<ProblemStatement>
      reads this
      requires Valid()
    {
      CurrentPage(filtered, currentPage, entriesPerPage)
    }

    /** The current page is one the pagination can reach. */
    ghost predicate PageInRange()
      reads this
      requires Valid()
    {
      currentPage <= Max(1, Pages())
    }

    constructor ()
      ensures Valid() && PageInRange()
      ensures problemStatements == [] && searchTerm == "" && filtered == []
      ensures entriesPerPage == DefaultPerPage && currentPage == 1
    {
      problemStatements := [];
      searchTerm := "";
      filtered := [];
      entriesPerPage := DefaultPerPage;
      currentPage := 1;
    }

    /** New data arrives: the filter effect re-runs and returns to page 1. */
    method SetProblemStatements(pss: seq<ProblemStatement>)
      requires Valid()
      modifies this
      ensures Valid() && PageInRange()
      ensures problemStatements == pss && filtered == Filter(pss, searchTerm)
      ensures searchTerm == old(searchTerm) && entriesPerPage == old(entriesPerPage)
      ensures currentPage == 1
    {
      problemStatements := pss;
      filtered := Filter(problemStatements, searchTerm);
      currentPage := 1;
    }

    /** Typing in the search box: the filter effect re-runs and returns to page 1. */
    method SetSearchTerm(term: string)
      requires Valid()
      modifies this
      ensures Valid() && PageInRange()
      ensures searchTerm == term && filtered == Filter(problemStatements, term)
      ensures problemStatements == old(problemStatements) && entriesPerPage == old(entriesPerPage)
      ensures currentPage == 1
    {
      searchTerm := term;
      filtered := Filter(problemStatements, searchTerm);
      currentPage := 1;
    }

    /** The "Show … entries" select: the page size changes and the current page stays. */
    method SetEntriesPerPage(n: int)
      requires Valid() && n in PerPageOptions
      modifies this
      ensures Valid()
      ensures entriesPerPage == n && currentPage == old(currentPage)
      ensures problemStatements == old(problemStatements) && searchTerm == old(searchTerm)
      ensures filtered == old(filtered)
    {
      entriesPerPage := n;
    }

    /** The page-size change returning to page 1, as the search and the data changes do. */
    method SetEntriesPerPageResetting(n: int)
      requires Valid() && n in PerPageOptions
      modifies this
      ensures Valid() && PageInRange()
      ensures entriesPerPage == n && currentPage == 1
      ensures problemStatements == old(problemStatements) && searchTerm == old(searchTerm)
      ensures filtered == old(filtered)
      ensures filtered != [] ==> Visible() != []
    {
      entriesPerPage := n;
      currentPage := 1;
      if filtered != [] {
        InRangePageShows(filtered, currentPage, entriesPerPage);
      }
    }

    /** A page button: pages 1 to `Pages()` only exist as buttons. */
    method ClickPage(i: int)
      requires Valid() && 1 <= i <= Pages()
      modifies this
      ensures Valid() && PageInRange()
      ensures currentPage == i
      ensures problemStatements == old(problemStatements) && searchTerm == old(searchTerm)
      ensures filtered == old(filtered) && entriesPerPage == old(entriesPerPage)
    {
      currentPage := i;
    }

    method ClickPrev()
      requires Valid() && ShowsPrev(Pages(), currentPage)
      modifies this
      ensures Valid()
      ensures currentPage == old(currentPage) - 1
      ensures old(PageInRange()) ==> PageInRange()
      ensures problemStatements == old(problemStatements) && searchTerm == old(searchTerm)
      ensures filtered == old(filtered) && entriesPerPage == old(entriesPerPage)
    {
      currentPage := currentPage - 1;
    }

    method ClickNext()
      requires Valid() && ShowsNext(Pages(), currentPage)
      modifies this
      ensures Valid() && PageInRange()
      ensures currentPage == old(currentPage) + 1
      ensures problemStatements == old(problemStatements) && searchTerm == old(searchTerm)
      ensures filtered == old(filtered) && entriesPerPage == old(entriesPerPage)
    {
      currentPage := currentPage + 1;
    }
  }

  /**
   * Finding, as written: twenty matching statements viewed five per page on
   * page 4; switching to twenty per page keeps page 4, whose slice is empty,
   * and with a single page no pagination bar is drawn to leave it.
   */
  lemma PerPageChangeHidesResults(s: seq<ProblemStatement>)
    requires |s| == 20
    ensures TotalPages(|s|, 5) == 4 && CurrentPage(s, 4, 5) == s[15..]
    ensures TotalPages(|s|, 20) == 1 && CurrentPage(s, 4, 20) == []
    ensures !ShowsPrev(TotalPages(|s|, 20), 4) && !ShowsNext(TotalPages(|s|, 20), 4)
  {
    assert StartIndex(4, 5) == 15 && StartIndex(4, 20) == 60;
  }
}
