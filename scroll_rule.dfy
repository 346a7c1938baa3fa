/**
 * The scroll listener `handleScroll` as a pure decision: from the scroll
 * metrics, the caller's props, the recorded `pages` entries and the two guard
 * flags it yields the load request to issue (if any) and the page to report
 * through `setCurrentPage` (if any). Whether `loading` becomes true is exactly
 * whether a request is issued.
 */
module ScrollRule {
  import opened Wrappers

  /** Pixels of slack in the bottom test `scrollTop + clientHeight + 5 >= scrollHeight`. */
  const BottomSlack := 5

  /** What the container reports at a scroll event. */
  datatype Metrics = Metrics(scrollTop: int, clientHeight: int, scrollHeight: int)

  /** The load callback a scroll event invokes, if any. */
  datatype Request = NoRequest | NextPage | PrevPage

  /** The effects of one scroll event: a load request and an optional `setCurrentPage` argument. */
  datatype Decision = Decision(request: Request, newPage: Option<int>)

  /** The decision of an event that returns at the guard. */
  const Inert := Decision(NoRequest, None)

  predicate NearBottom(m: Metrics) {
    m.scrollTop + m.clientHeight + BottomSlack >= m.scrollHeight
  }

  /** `scrollTop < offset + clientHeight / 2`, both sides doubled to stay in integers. */
  predicate IsBefore(m: Metrics, offset: int) {
    2 * m.scrollTop < 2 * offset + m.clientHeight
  }

  /** Index `i` is the first entry of `pages` that the scroll position is before. */
  predicate IsFirstBefore(m: Metrics, pages: seq<int>, i: int) {
    && 0 <= i < |pages|
    && IsBefore(m, pages[i])
    && forall j :: 0 <= j < i ==> !IsBefore(m, pages[j])
  }

  /** `pages.findIndex(offset => scrollTop < offset + clientHeight / 2)`: -1 when nothing matches. */
  function FindIndexBefore(m: Metrics, pages: seq<int>): (r: int)
    ensures r == -1 || IsFirstBefore(m, pages, r)
    ensures r == -1 <==> forall j :: 0 <= j < |pages| ==> !IsBefore(m, pages[j])
  {
    if pages == [] then -1
    else if IsBefore(m, pages[0]) then 0
    else
      var r := FindIndexBefore(m, pages[1..]);
      if r == -1 then -1 else r + 1
  }

  /** At most one index is the first one before the scroll position. */
  lemma FirstBeforeIsUnique(m: Metrics, pages: seq<int>, i: int, j: int)
    requires IsFirstBefore(m, pages, i) && IsFirstBefore(m, pages, j)
    ensures i == j
  {
  }

  /**
   * `scrollTop <= pages[currentPage - 2]`: false when that entry is
   * `undefined`, since every comparison with `undefined` is false.
   */
  predicate AbovePreviousBoundary(m: Metrics, pages: seq<int>, currentPage: int) {
    match At(pages, currentPage - 2)
    case Some(offset) => m.scrollTop <= offset
    case None => false
  }

  /** One scroll event. */
  function Decide(disableScroll: bool, loading: bool, m: Metrics,
                  currentPage: int, totalPages: int, cached: set<int>,
                  pages: seq<int>): (d: Decision)
    // A suppressed event or one arriving while a load is shown does nothing.
    ensures disableScroll || loading ==> d == Inert
    // The next page is requested exactly when near the bottom, not on the last page, and it is not cached.
    ensures d.request == NextPage <==>
      && !disableScroll && !loading
      && NearBottom(m) && currentPage < totalPages
      && currentPage + 1 !in cached
    // The previous page is requested exactly when the bottom test fails, the entry
    // `pages[currentPage - 2]` exists and is not above the scroll position, and it is not cached.
    ensures d.request == PrevPage <==>
      && !disableScroll && !loading
      && !(NearBottom(m) && currentPage < totalPages)
      && currentPage > 1 && currentPage - 2 < |pages| && m.scrollTop <= pages[currentPage - 2]
      && currentPage - 1 !in cached
    // A page is reported exactly when some entry is before the scroll position and the
    // first such entry is not the current page's.
    ensures d.newPage.Some? <==>
      && !disableScroll && !loading
      && exists i :: IsFirstBefore(m, pages, i) && i != currentPage - 1
    ensures d.newPage.Some? ==>
      && 1 <= d.newPage.value <= |pages|
      && d.newPage.value != currentPage
      && IsFirstBefore(m, pages, d.newPage.value - 1)
  {
    if disableScroll || loading then Inert
    else
      var request :=
        if NearBottom(m) && currentPage < totalPages then
          (if currentPage + 1 in cached then NoRequest else NextPage)
        else if AbovePreviousBoundary(m, pages, currentPage) && currentPage > 1 then
          (if currentPage - 1 in cached then NoRequest else PrevPage)
        else NoRequest;
      var newPage := FindIndexBefore(m, pages) + 1;
      Decision(request, if newPage != 0 && newPage != currentPage then Some(newPage) else None)
  }

  /** The value of `loading` after a scroll event. */
  function LoadingAfter(loading: bool, d: Decision): bool {
    loading || d.request != NoRequest
  }

  /**
   * A scroll event with the state it sees: the suppression flag, the props
   * and `pages` may each have changed since the previous scroll event (a
   * parent re-render, the recorder or its timer ran in between); only
   * `loading` is carried from one scroll event to the next.
   */
  datatype ScrollEvent = ScrollEvent(disableScroll: bool, metrics: Metrics,
                                     currentPage: int, totalPages: int,
                                     cached: set<int>, pages: seq<int>)

  /** The decision of `e` when it arrives with the given `loading`. */
  function DecideEvent(loading: bool, e: ScrollEvent): Decision {
    Decide(e.disableScroll, loading, e.metrics, e.currentPage, e.totalPages, e.cached, e.pages)
  }

  /** Number of load requests issued by a run of scroll events with no loading-timer expiry in between. */
  ghost function RequestsIssued(loading: bool, events: seq<ScrollEvent>): nat
    decreases events
  {
    if events == [] then 0
    else
      var d := DecideEvent(loading, events[0]);
      (if d.request == NoRequest then 0 else 1) +
      RequestsIssued(LoadingAfter(loading, d), events[1..])
  }

  /**
   * However many scroll events arrive before the loading timer fires, and
   * whatever other events come between them, at most one load request is
   * issued, and none while a load is already shown.
   */
  lemma {:induction false} AtMostOneRequestPerLoad(loading: bool, events: seq<ScrollEvent>)
    ensures RequestsIssued(loading, events) <= 1
    ensures loading ==> RequestsIssued(loading, events) == 0
    decreases events
  {
    if events != [] {
      var d := DecideEvent(loading, events[0]);
      AtMostOneRequestPerLoad(LoadingAfter(loading, d), events[1..]);
    }
  }
}
