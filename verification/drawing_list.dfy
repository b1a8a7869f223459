/** The admin list of drawings (src/app/admin/drawings/list/page.tsx): a search over
    the loaded index by text and company, fifty rows a page, and the company list of
    the filter select. The per-drawing contribution counts come from a load that
    may fail; the date of the latest contribution is not modelled. */
module DrawingList {
  import opened Wrappers
  import opened Strings
  import opened Seqs
  import opened Catalog

  const ItemsPerPage: nat := 50

  // ---------------------------------------------------------------------------
  // Search
  // ---------------------------------------------------------------------------

  /** The text filter: drawing number, title or product name contains the term,
      ignoring case. The company name is not searched. */
  predicate MatchesText(d: DrawingItem, term: string) {
    var q := Lower(term);
    Contains(Lower(d.drawingNumber), q) || Contains(Lower(d.title), q) || Contains(Lower(d.productName), q)
  }

  /** Both filters of a search: the text filter when a term is typed (untrimmed),
      the company filter when a company is chosen. The source applies them one
      after the other, which keeps the same rows in the same order. */
  predicate PassesSearch(d: DrawingItem, term: string, company: string) {
    (term == "" || MatchesText(d, term)) && (company == "" || d.companyName == company)
  }

  function SearchFilter(term: string, company: string): DrawingItem -> bool {
    (d: DrawingItem) => PassesSearch(d, term, company)
  }

  /** The rows a search keeps. */
  function SearchRows(all: seq<DrawingItem>, term: string, company: string): (r: seq<DrawingItem>)
  {
    Filter(SearchFilter(term, company), all)
  }

  /** A row is kept exactly when it passes both filters that are set, the rows keep
      their order, and a search with neither filter keeps everything. */
  lemma SearchRowsSpec(all: seq<DrawingItem>, term: string, company: string)
    ensures IsSubseq(SearchRows(all, term, company), all)
    ensures forall d :: d in SearchRows(all, term, company) <==>
              d in all && (term == "" || MatchesText(d, term)) && (company == "" || d.companyName == company)
    ensures term == "" && company == "" ==> SearchRows(all, term, company) == all
    ensures |SearchRows(all, term, company)| == CountIf(SearchFilter(term, company), all)
  {
    var f := SearchFilter(term, company);
    FilterIsSubseq(f, all);
    FilterLength(f, all);
    var r := SearchRows(all, term, company);
    forall d | d in all && PassesSearch(d, term, company) ensures d in r {
      var i :| 0 <= i < |all| && all[i] == d;
      assert f(all[i]);
    }
    if term == "" && company == "" {
      FilterAll(f, all);
    }
  }

  /** The state of the page: the rows of the last search and the current page. */
  datatype ListState = ListState(rows: seq<DrawingItem>, page: int, searched: bool)

  /** `executeSearch`: with neither a term nor a company the user is asked first, and
      declining changes nothing; otherwise the rows are replaced and the page goes
      back to 1. */
  function ExecuteSearch(st: ListState, all: seq<DrawingItem>, term: string, company: string, confirmed: bool): (r: ListState)
    ensures IsBlank(term) && company == "" && !confirmed ==> r == st
    ensures !(IsBlank(term) && company == "" && !confirmed) ==>
              r.page == 1 && r.searched && IsSubseq(r.rows, all) &&
              forall d :: d in r.rows <==>
                d in all && (term == "" || MatchesText(d, term)) && (company == "" || d.companyName == company)
    ensures !(IsBlank(term) && company == "" && !confirmed) ==>
              |r.rows| == CountIf(SearchFilter(term, company), all)
  {
    SearchRowsSpec(all, term, company);
    if IsBlank(term) && company == "" && !confirmed then st
    else ListState(SearchRows(all, term, company), 1, true)
  }

  /** Running the same search again changes nothing. */
  lemma ExecuteSearchIdempotent(st: ListState, all: seq<DrawingItem>, term: string, company: string, confirmed: bool)
    ensures var r := ExecuteSearch(st, all, term, company, confirmed);
            ExecuteSearch(r, all, term, company, confirmed) == r
  {
  }

  // ---------------------------------------------------------------------------
  // Pages
  // ---------------------------------------------------------------------------

  /** `Math.ceil(n / 50)`. */
  function TotalPages(n: nat): (t: nat)
    ensures (t - 1) * ItemsPerPage < n <= t * ItemsPerPage || (n == 0 && t == 0)
  {
    (n + ItemsPerPage - 1) / ItemsPerPage
  }

  /** `(currentPage - 1) * 50`. */
  function StartIndex(page: int): int {
    (page - 1) * ItemsPerPage
  }

  /** The rows shown on a page: `slice(startIndex, startIndex + 50)`. */
  function PageRows(rows: seq<DrawingItem>, page: int): (r: seq<DrawingItem>)
    ensures |r| <= ItemsPerPage
    ensures page >= 1 && StartIndex(page) <= |rows| ==>
              r == rows[StartIndex(page)..if StartIndex(page) + ItemsPerPage <= |rows| then StartIndex(page) + ItemsPerPage else |rows|]
  {
    Slice(rows, StartIndex(page), StartIndex(page) + ItemsPerPage)
  }

  /** Every row is on exactly one page: row `i` is row `i % 50` of page `i / 50 + 1`,
      and that page exists. */
  lemma RowOnItsPage(rows: seq<DrawingItem>, i: nat)
    requires i < |rows|
    ensures 1 <= i / ItemsPerPage + 1 <= TotalPages(|rows|)
    ensures i % ItemsPerPage < |PageRows(rows, i / ItemsPerPage + 1)|
    ensures PageRows(rows, i / ItemsPerPage + 1)[i % ItemsPerPage] == rows[i]
  {
    var p := i / ItemsPerPage + 1;
    var s := StartIndex(p);
    assert s == i / ItemsPerPage * ItemsPerPage;
    assert s <= i < s + ItemsPerPage;
  }

  /** The range line `start + 1 - min(start + 50, n)` counts the rows of the page. */
  function DisplayedRange(rows: seq<DrawingItem>, page: int): (r: (int, int))
  {
    var s := StartIndex(page);
    (s + 1, if s + ItemsPerPage <= |rows| then s + ItemsPerPage else |rows|)
  }

  lemma DisplayedRangeCounts(rows: seq<DrawingItem>, page: int)
    requires 1 <= page <= TotalPages(|rows|)
    ensures var (first, last) := DisplayedRange(rows, page);
            1 <= first <= last <= |rows| && last - first + 1 == |PageRows(rows, page)|
  {
    var s := StartIndex(page);
    assert s >= 0;
    assert s < |rows| by {
      assert (page - 1) * ItemsPerPage <= (TotalPages(|rows|) - 1) * ItemsPerPage;
    }
  }

  /** The previous and next buttons. */
  function PrevPage(page: int): (r: int)
    ensures r >= 1
  {
    if page - 1 > 1 then page - 1 else 1
  }

  function NextPage(page: int, totalPages: nat): (r: int)
    ensures r <= totalPages
  {
    if page + 1 < totalPages then page + 1 else totalPages
  }

  /** The buttons are only shown when there is more than one page; from any page in
      range they stay in range, move by at most one, and stop at the ends. */
  lemma PagingStaysInRange(page: int, totalPages: nat)
    requires totalPages > 1 && 1 <= page <= totalPages
    ensures 1 <= PrevPage(page) <= totalPages && 1 <= NextPage(page, totalPages) <= totalPages
    ensures PrevPage(page) == (if page == 1 then 1 else page - 1)
    ensures NextPage(page, totalPages) == (if page == totalPages then page else page + 1)
  {
  }

  // ---------------------------------------------------------------------------
  // Company list and counts
  // ---------------------------------------------------------------------------

  function CompanyNames(all: seq<DrawingItem>): (r: seq<string>)
    ensures |r| == |all|
    ensures forall i :: 0 <= i < |all| ==> r[i] == all[i].companyName
  {
    seq(|all|, i requires 0 <= i < |all| => all[i].companyName)
  }

  /** `Array.from(new Set(names))`: each company once, in order of first occurrence. */
  function CompanyOptions(all: seq<DrawingItem>): (r: seq<string>)
    ensures NoDup(r)
  {
    Dedup(CompanyNames(all))
  }

  /** The options are exactly the companies of the loaded drawings. */
  lemma CompanyOptionsMembers(all: seq<DrawingItem>)
    ensures forall x :: x in CompanyOptions(all) <==> exists i :: 0 <= i < |all| && all[i].companyName == x
  {
    var names := CompanyNames(all);
    var r := CompanyOptions(all);
    forall x | x in r ensures exists i :: 0 <= i < |all| && all[i].companyName == x {
      var i :| 0 <= i < |names| && names[i] == x;
    }
    forall x | exists i :: 0 <= i < |all| && all[i].companyName == x ensures x in r {
      var i :| 0 <= i < |all| && all[i].companyName == x;
      assert names[i] == x;
    }
  }

  /** Loading more drawings only appends companies to the options. */
  lemma CompanyOptionsStable(a: seq<DrawingItem>, b: seq<DrawingItem>)
    ensures |CompanyOptions(a)| <= |CompanyOptions(a + b)|
    ensures CompanyOptions(a + b)[..|CompanyOptions(a)|] == CompanyOptions(a)
  {
    var na := CompanyNames(a);
    var nb := CompanyNames(b);
    var nab := CompanyNames(a + b);
    assert forall i :: 0 <= i < |a| ==> nab[i] == na[i];
    assert forall i :: |a| <= i < |a + b| ==> nab[i] == nb[i - |a|];
    assert nab == na + nb;
    DedupPrefix(na, nb);
  }

  datatype ContributionCounts = ContributionCounts(total: nat, pending: nat, merged: nat)

  /** The counts of a row: the number of contributions, all of them counted as
      pending and none as merged; a failed load counts nothing. */
  function CountsOf(loaded: Option<seq<Contribution>>): (c: ContributionCounts)
    ensures loaded.None? ==> c == ContributionCounts(0, 0, 0)
    ensures loaded.Some? ==> c.total == |loaded.value|
  {
    if loaded.None? then ContributionCounts(0, 0, 0)
    else ContributionCounts(|loaded.value|, |loaded.value|, 0)
  }

  /** The pending count ignores the contributions' status. */
  lemma PendingIgnoresStatus(loaded: Option<seq<Contribution>>)
    ensures CountsOf(loaded).pending == CountsOf(loaded).total && CountsOf(loaded).merged == 0
    ensures loaded.Some? && (exists i :: 0 <= i < |loaded.value| && loaded.value[i].status == Merged) ==>
              CountsOf(loaded).pending > 0
  {
  }
}
