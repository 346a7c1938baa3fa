/**
 * The `ItemList` component's bookkeeping as an object: the caller's props
 * (`totalPages`, `currentPage`, `cache`, `IsPageChange`), the component's
 * own state (`listData`, `loading`) and refs (`pages`, `disableScroll`).
 * Each React effect body, each timer expiry and each parent re-render is one
 * method; the order in which they run is the caller's.
 */
module ItemListModel {
  import opened Wrappers
  import opened PageCache
  import opened ScrollRule
  import opened NumericSort

  /**
   * Where the restorer effect scrolls: the top on page 1, otherwise
   * `pages[currentPage - 1]`. `None` is `scrollTo({top: undefined})`, which
   * leaves the vertical position as it is.
   */
  function RestoreTarget(currentPage: int, pages: seq<int>): Option<int> {
    if currentPage == 1 then Some(0) else At(pages, currentPage - 1)
  }

  /**
   * Where the loading-timer expiry scrolls when it runs on `pages`: it sorts
   * them first, then reads `pages[currentPage - 1]`.
   */
  function SettleTarget(currentPage: int, pages: seq<int>): Option<int> {
    At(Sort(pages), currentPage - 1)
  }

  /** The page numbers 1 .. n, one entry per page, in order. */
  function FirstPages(n: nat): (r: seq<int>)
    ensures |r| == n && Sorted(r)
    ensures forall i :: 0 <= i < n ==> r[i] == i + 1
  {
    seq(n, i => i + 1)
  }

  /**
   * Round trip of a page change for the restorer: when p-1 entries were
   * recorded before the recorder runs on page p, the restorer targets the
   * entry just recorded, whatever the earlier entries are.
   */
  lemma RecordedBoundaryIsRestored(p: int, pages: seq<int>)
    requires p > 1 && |pages| == p - 1
    ensures RestoreTarget(p, pages + [p]) == Some(p)
  {
  }

  /**
   * The settle half of the round trip: when `pages` is exactly 1 .. p-1, the
   * settle step, which sorts before indexing, also targets the entry just
   * recorded for page p.
   */
  lemma RecordedBoundaryIsTarget(p: int, pages: seq<int>)
    requires p > 1 && pages == FirstPages(p - 1)
    ensures RestoreTarget(p, pages + [p]) == Some(p)
    ensures SettleTarget(p, pages + [p]) == Some(p)
  {
    RecordedBoundaryIsRestored(p, pages);
    assert Sorted(pages + [p]) by {
      forall i, j | 0 <= i < j < |pages + [p]| ensures (pages + [p])[i] <= (pages + [p])[j] {
        assert (pages + [p])[i] == i + 1;
      }
    }
    SortKeepsSorted(pages + [p]);
  }

  /**
   * Once `pages` is ascending, the restorer and the settle step target the
   * same entry away from page 1; on page 1 the restorer goes to the top
   * while the settle step goes to the smallest entry.
   */
  lemma RestoreAndSettleTargets(currentPage: int, pages: seq<int>)
    requires Sorted(pages)
    ensures currentPage != 1 ==> RestoreTarget(currentPage, pages) == SettleTarget(currentPage, pages)
    ensures currentPage == 1 ==> RestoreTarget(currentPage, pages) == Some(0)
    ensures currentPage == 1 && |pages| > 0 ==> SettleTarget(currentPage, pages) == Some(pages[0])
    ensures currentPage == 1 && |pages| > 0 && pages[0] != 0 ==>
      RestoreTarget(currentPage, pages) != SettleTarget(currentPage, pages)
  {
    SortKeepsSorted(pages);
  }

  /**
   * Before the loading timer sorts them, the restorer reads the entries in
   * push order, so the two targets can differ: with entries [3, 2] on page 2
   * the restorer goes to 2 and the settle step to 3.
   */
  lemma RestoreBeforeSettleCanDiffer()
    ensures RestoreTarget(2, [3, 2]) == Some(2)
    ensures SettleTarget(2, [3, 2]) == Some(3)
  {
    SortIsTheOnlySort([3, 2], [2, 3]);
  }

  /** A later page never has a smaller settle target than an earlier one. */
  lemma SettledTargetsAscend(pages: seq<int>, p: int, q: int)
    requires SettleTarget(p, pages).Some? && SettleTarget(q, pages).Some?
    requires p <= q
    ensures SettleTarget(p, pages).value <= SettleTarget(q, pages).value
  {
  }

  /** While the listener is suppressed, a re-enable timer is pending, so it can fire. */
  lemma SuppressionCanEnd<T>(list: ItemList<T>)
    requires list.Valid() && list.disableScroll
    ensures list.pendingEnables > 0
  {
  }

  /**
   * `pages` keeps one entry per recorder run, and holds exactly the page
   * numbers the recorder pushed, whatever sorting did to their order.
   */
  lemma PagesAreRecorded<T>(list: ItemList<T>, x: int)
    requires list.Valid()
    ensures |list.pages| == |list.recorded|
    ensures x in list.pages <==> x in list.recorded
  {
    assert |multiset(list.pages)| == |multiset(list.recorded)|;
    assert x in list.pages <==> x in multiset(list.pages);
  }

  class ItemList<T> {
    // Props supplied by the parent.
    var totalPages: int
    var currentPage: int
    var cache: Cache<T>
    var isPageChange: bool

    // Component state and refs.
    var listData: seq<T>
    var loading: bool
    var pages: seq<int>
    var disableScroll: bool
    /** Re-enable timers set by the recorder and not yet expired; none is ever cleared. */
    var pendingEnables: nat

    /** Every value the recorder pushed, in push order. */
    ghost var recorded: seq<int>

    /**
     * The scroll listener is suppressed only while a re-enable timer is
     * outstanding, and `pages` always holds exactly the recorded values,
     * whatever sorting did to their order.
     */
    ghost predicate Valid()
      reads this
    {
      && (disableScroll ==> pendingEnables > 0)
      && multiset(pages) == multiset(recorded)
    }

    /** First render: empty list, not loading, no recorded entries, listener enabled. */
    constructor (totalPages: int, currentPage: int, cache: Cache<T>, isPageChange: bool)
      ensures Valid()
      ensures this.totalPages == totalPages && this.currentPage == currentPage
      ensures this.cache == cache && this.isPageChange == isPageChange
      ensures listData == [] && !loading && pages == [] && !disableScroll && pendingEnables == 0
    {
      this.totalPages := totalPages;
      this.currentPage := currentPage;
      this.cache := cache;
      this.isPageChange := isPageChange;
      listData := [];
      loading := false;
      pages := [];
      disableScroll := false;
      pendingEnables := 0;
      recorded := [];
    }

    /** The parent re-renders the component with new props; component state is kept. */
    method ReceiveProps(totalPages: int, currentPage: int, cache: Cache<T>, isPageChange: bool)
      requires Valid()
      modifies this`totalPages, this`currentPage, this`cache, this`isPageChange
      ensures Valid()
      ensures this.totalPages == totalPages && this.currentPage == currentPage
      ensures this.cache == cache && this.isPageChange == isPageChange
    {
      this.totalPages := totalPages;
      this.currentPage := currentPage;
      this.cache := cache;
      this.isPageChange := isPageChange;
    }

    /**
     * A scroll event (`handleScroll`). Returns the callbacks it invokes; sets
     * `loading` exactly when it requests a page.
     */
    method Scroll(m: Metrics) returns (d: Decision)
      requires Valid()
      modifies this`loading
      ensures Valid()
      ensures d == Decide(disableScroll, old(loading), m, currentPage, totalPages, Keys(cache), pages)
      ensures loading == LoadingAfter(old(loading), d)
    {
      d := Decide(disableScroll, loading, m, currentPage, totalPages, Keys(cache), pages);
      if d.request != NoRequest {
        loading := true;
      }
    }

    /**
     * The page-change recorder effect: on the handshake it pushes
     * `currentPage` (with no duplicate check), suppresses the listener, clears
     * the handshake and arms a re-enable timer; otherwise it does nothing.
     */
    method RecordBoundary()
      requires Valid()
      modifies this`pages, this`disableScroll, this`isPageChange, this`pendingEnables, this`recorded
      ensures Valid()
      ensures old(isPageChange) ==>
        && pages == old(pages) + [currentPage]
        && recorded == old(recorded) + [currentPage]
        && disableScroll && !isPageChange
        && pendingEnables == old(pendingEnables) + 1
      ensures !old(isPageChange) ==>
        && pages == old(pages) && recorded == old(recorded)
        && disableScroll == old(disableScroll) && !isPageChange
        && pendingEnables == old(pendingEnables)
    {
      if isPageChange {
        disableScroll := true;
        pages := pages + [currentPage];
        recorded := recorded + [currentPage];
        isPageChange := false;
        pendingEnables := pendingEnables + 1;
      }
    }

    /** One of the recorder's timers expires and re-enables the listener. */
    method DisableTimerFires()
      requires Valid()
      requires pendingEnables > 0
      modifies this`disableScroll, this`pendingEnables
      ensures Valid()
      ensures !disableScroll && pendingEnables == old(pendingEnables) - 1
    {
      disableScroll := false;
      pendingEnables := pendingEnables - 1;
    }

    /** The display-list effect: the cache's page lists joined in insertion order. */
    method RebuildList()
      requires Valid()
      modifies this`listData
      ensures Valid()
      ensures listData == Flatten(cache)
      ensures |listData| == TotalItems(cache)
    {
      listData := Flatten(cache);
    }

    /** The restorer effect: where it scrolls the container. */
    method RestoreScroll() returns (target: Option<int>)
      requires Valid()
      ensures target == RestoreTarget(currentPage, pages)
      ensures currentPage == 1 ==> target == Some(0)
    {
      target := RestoreTarget(currentPage, pages);
    }

    /**
     * The loading timer expires (it is armed exactly while `loading` holds):
     * clears `loading`, sorts `pages` ascending in place and scrolls to
     * `pages[currentPage - 1]`.
     */
    method LoadTimerFires() returns (target: Option<int>)
      requires Valid()
      requires loading
      modifies this`loading, this`pages
      ensures Valid()
      ensures !loading
      ensures pages == Sort(old(pages))
      ensures Sorted(pages) && multiset(pages) == multiset(old(pages)) && |pages| == |old(pages)|
      ensures target == SettleTarget(currentPage, old(pages))
    {
      loading := false;
      pages := Sort(pages);
      target := At(pages, currentPage - 1);
    }
  }

  /**
   * Three pages, page 1 cached and shown, the user scrolls to the bottom:
   * page 2 is requested once, further scrolling is ignored while loading,
   * and the expiry clears `loading`. No entry was ever recorded, so the
   * settle step's target is `undefined`.
   */
  method BottomScrollScenario<T>(page1: seq<T>)
  {
    var list := new ItemList<T>(3, 1, [Entry(1, page1)], false);
    list.RebuildList();
    assert list.listData == page1;
    var bottom := Metrics(1000, 100, 1100);
    var d := list.Scroll(bottom);
    assert d.request == NextPage && d.newPage == None && list.loading;
    d := list.Scroll(bottom);
    assert d == Inert;
    var target := list.LoadTimerFires();
    assert !list.loading && target == None;
  }

  /**
   * The parent moves to page 2 with the handshake set: the recorder pushes
   * the page number 2 itself, the listener ignores scrolling until the
   * re-enable timer fires, and the restorer then finds no entry at index 1.
   */
  method PageChangeScenario<T>(page1: seq<T>, page2: seq<T>)
  {
    var list := new ItemList<T>(3, 1, [Entry(1, page1)], false);
    list.ReceiveProps(3, 2, [Entry(1, page1), Entry(2, page2)], true);
    list.RecordBoundary();
    assert list.pages == [2] && list.disableScroll && !list.isPageChange;
    var d := list.Scroll(Metrics(0, 100, 1100));
    assert d == Inert;
    list.DisableTimerFires();
    var target := list.RestoreScroll();
    assert target == None;
  }
}
