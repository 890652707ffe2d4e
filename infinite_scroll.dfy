/**
 * Infinite scrolling of a collection: the page counter, the product
 * total, the loading, end and error flags stepped by a load, a retry and a
 * reset, and the remaining-products count shown beside the list.
 */
module InfiniteScrolls {
  import opened Optional

  /** What fetching the next page gave: a failed request (an HTTP error or
      a network failure), or a page holding that many product cards. */
  datatype FetchOutcome = Failed | Page(count: nat)

  /** The two counters a loaded page moves. */
  datatype Counters = Counters(currentPage: int, totalProducts: int)

  /** The counters after a page of `n` products, as the load updates them:
      the page moves on and the products are added to the total. */
  function AfterPage(c: Counters, n: nat): (r: Counters)
    ensures r.currentPage == c.currentPage + 1
    ensures r.totalProducts - c.totalProducts == n
  {
    Counters(c.currentPage + 1, c.totalProducts + n)
  }

  /** The counters after a page, with the total left as the collection's
      size. */
  function AfterPageKeepingTotal(c: Counters, n: nat): (r: Counters)
    ensures r.currentPage == c.currentPage + 1 && r.totalProducts == c.totalProducts
  {
    Counters(c.currentPage + 1, c.totalProducts)
  }

  /** `updateRemainingCount`'s figure: the total less the products of the
      pages shown so far. */
  function Remaining(c: Counters, productsPerPage: int): int {
    c.totalProducts - c.currentPage * productsPerPage
  }

  /** As the load updates the counters, a page of `n` products lowers the
      remaining count by the page size less `n`: a full page leaves it
      unchanged. */
  lemma RemainingAfterPage(c: Counters, n: nat, productsPerPage: int)
    ensures Remaining(AfterPage(c, n), productsPerPage) == Remaining(c, productsPerPage) - productsPerPage + n
    ensures n == productsPerPage ==> Remaining(AfterPage(c, n), productsPerPage) == Remaining(c, productsPerPage)
  {
    assert (c.currentPage + 1) * productsPerPage == c.currentPage * productsPerPage + productsPerPage;
  }

  /** A collection of 48 products, 24 to a page, with page 1 shown: 24
      remain. Loading page 2, the last, shows 24 remaining still. */
  lemma RemainingAfterLastPage()
    ensures Remaining(Counters(1, 48), 24) == 24
    ensures Remaining(AfterPage(Counters(1, 48), 24), 24) == 24
  {
    RemainingAfterPage(Counters(1, 48), 24, 24);
  }

  /** With the total kept, each page lowers the remaining count by the page
      size, and once the last page of a collection that fits its pages is
      shown nothing remains. */
  lemma RemainingKeepingTotal(c: Counters, n: nat, productsPerPage: nat, totalPages: int)
    ensures Remaining(AfterPageKeepingTotal(c, n), productsPerPage) == Remaining(c, productsPerPage) - productsPerPage
    ensures c.totalProducts <= totalPages * productsPerPage && c.currentPage + 1 >= totalPages ==>
      Remaining(AfterPageKeepingTotal(c, n), productsPerPage) <= 0
  {
    var p := c.currentPage + 1;
    assert p * productsPerPage == c.currentPage * productsPerPage + productsPerPage;
    if c.totalProducts <= totalPages * productsPerPage && p >= totalPages {
      assert (p - totalPages) * productsPerPage >= 0;
      assert p * productsPerPage == totalPages * productsPerPage + (p - totalPages) * productsPerPage;
    }
  }

  class InfiniteScroll {
    const totalPages: int
    const productsPerPage: int
    const autoLoad: bool
    const showEndMessage: bool
    const scrollThreshold: int
    /** Whether the element holds the product container, the remaining
        count and the end message. */
    const hasContainer: bool
    const hasRemainingCount: bool

    var currentPage: int
    var totalProducts: int
    var isLoading: bool
    var hasReachedEnd: bool
    var hasError: bool
    /** The remaining count as displayed: `None` when hidden. */
    var remainingShown: Option<int>
    /** `(currentPage, totalProducts)` of each products-loaded event. */
    var loadedEvents: seq<(int, int)>

    function Counts(): Counters
      reads this
    {
      Counters(currentPage, totalProducts)
    }

    /** The element's constructor: the counters and settings from the
        attributes with their defaults, idle, and the remaining count
        displayed. */
    constructor (currentPage: Option<int>, totalPages: Option<int>, productsPerPage: Option<int>,
                 totalProducts: Option<int>, autoLoad: string, showEndMessage: string,
                 scrollThreshold: Option<int>, hasContainer: bool, hasRemainingCount: bool)
      ensures this.currentPage == IntOr(currentPage, 1) && this.totalPages == IntOr(totalPages, 1)
      ensures this.productsPerPage == IntOr(productsPerPage, 24) && this.totalProducts == IntOr(totalProducts, 0)
      ensures this.scrollThreshold == IntOr(scrollThreshold, 200)
      ensures this.autoLoad == (autoLoad == "true") && this.showEndMessage == (showEndMessage == "true")
      ensures this.hasContainer == hasContainer && this.hasRemainingCount == hasRemainingCount
      ensures !isLoading && !hasReachedEnd && !hasError && loadedEvents == []
      ensures remainingShown == if hasRemainingCount then RemainingDisplay(Counts()) else None
    {
      this.currentPage := IntOr(currentPage, 1);
      this.totalPages := IntOr(totalPages, 1);
      this.productsPerPage := IntOr(productsPerPage, 24);
      this.totalProducts := IntOr(totalProducts, 0);
      this.autoLoad := autoLoad == "true";
      this.showEndMessage := showEndMessage == "true";
      this.scrollThreshold := IntOr(scrollThreshold, 200);
      this.hasContainer := hasContainer;
      this.hasRemainingCount := hasRemainingCount;
      isLoading := false;
      hasReachedEnd := false;
      hasError := false;
      remainingShown := None;
      loadedEvents := [];
      new;
      UpdateRemainingCount();
    }

    /** The remaining count's display for these counters: the figure when
        positive, hidden otherwise. */
    function RemainingDisplay(c: Counters): (r: Option<int>)
      ensures r.Some? <==> Remaining(c, productsPerPage) > 0
      ensures r.Some? ==> r.value == Remaining(c, productsPerPage)
    {
      var remaining := Remaining(c, productsPerPage);
      if remaining > 0 then Some(remaining) else None
    }

    /** `updateRemainingCount`. */
    method UpdateRemainingCount()
      modifies this`remainingShown
      ensures hasRemainingCount ==> remainingShown == RemainingDisplay(Counts())
      ensures !hasRemainingCount ==> remainingShown == old(remainingShown)
    {
      if hasRemainingCount {
        var remaining := totalProducts - currentPage * productsPerPage;
        if remaining > 0 {
          remainingShown := Some(remaining);
        } else {
          remainingShown := None;
        }
      }
    }

    /** The synchronous start of `loadMoreProducts`: a no-op while a load
        is in flight or after the end; otherwise the load begins. */
    method StartLoad() returns (started: bool)
      modifies this`isLoading
      ensures started <==> !old(isLoading) && !old(hasReachedEnd)
      ensures started ==> isLoading
      ensures !started ==> isLoading == old(isLoading)
    {
      if isLoading || hasReachedEnd {
        return false;
      }
      isLoading := true;
      return true;
    }

    /** The rest of `loadMoreProducts`, once the request has settled. An
        empty page marks the end; a page of products moves the counters on
        and marks the end from the last page on; a failure (or a page with
        no container to put it in) sets the error; the load is over in every
        case. */
    method CompleteLoad(outcome: FetchOutcome)
      requires isLoading
      modifies this`currentPage, this`totalProducts, this`isLoading, this`hasReachedEnd, this`hasError,
        this`remainingShown, this`loadedEvents
      ensures !isLoading
      ensures outcome == Page(0) ==> (hasReachedEnd && Counts() == old(Counts()) && hasError == old(hasError) &&
        remainingShown == old(remainingShown) && loadedEvents == old(loadedEvents))
      ensures (outcome.Failed? || (outcome.Page? && outcome.count > 0 && !hasContainer)) ==>
        (hasError && Counts() == old(Counts()) && hasReachedEnd == old(hasReachedEnd) &&
        remainingShown == old(remainingShown) && loadedEvents == old(loadedEvents))
      ensures outcome.Page? && outcome.count > 0 && hasContainer ==>
        (Counts() == AfterPage(old(Counts()), outcome.count) &&
        hasReachedEnd == (old(hasReachedEnd) || currentPage >= totalPages) &&
        hasError == old(hasError) &&
        (hasRemainingCount ==> remainingShown == RemainingDisplay(Counts())) &&
        (!hasRemainingCount ==> remainingShown == old(remainingShown)) &&
        loadedEvents == old(loadedEvents) + [(currentPage, totalProducts)])
    {
      match outcome {
        case Failed =>
          hasError := true;
        case Page(n) =>
          if n == 0 {
            hasReachedEnd := true;
          } else if !hasContainer {
            hasError := true;
          } else {
            currentPage := currentPage + 1;
            totalProducts := totalProducts + n;
            UpdateRemainingCount();
            if currentPage >= totalPages {
              hasReachedEnd := true;
            }
            loadedEvents := loadedEvents + [(currentPage, totalProducts)];
          }
      }
      isLoading := false;
    }

    /** The scroll handler: starts a load when the bottom of the window is
        within the threshold of the end of the document. */
    method HandleScroll(scrollTop: int, windowHeight: int, documentHeight: int) returns (started: bool)
      modifies this`isLoading
      ensures started <==> (!old(isLoading) && !old(hasReachedEnd) &&
        scrollTop + windowHeight >= documentHeight - scrollThreshold)
      ensures isLoading == (old(isLoading) || started)
    {
      if isLoading || hasReachedEnd {
        return false;
      }
      if scrollTop + windowHeight >= documentHeight - scrollThreshold {
        started := StartLoad();
      } else {
        started := false;
      }
    }

    /** `handleRetry`: clears the error, then tries to load. */
    method HandleRetry() returns (started: bool)
      modifies this`hasError, this`isLoading
      ensures !hasError
      ensures started <==> !old(isLoading) && !old(hasReachedEnd)
      ensures isLoading == (old(isLoading) || started)
    {
      hasError := false;
      started := StartLoad();
    }

    /** `handleReset`, up to the page reload: back to page 1 with the end
        and error flags cleared. */
    method HandleReset()
      modifies this`currentPage, this`hasReachedEnd, this`hasError, this`remainingShown
      ensures currentPage == 1 && !hasReachedEnd && !hasError
      ensures hasRemainingCount ==> remainingShown == RemainingDisplay(Counts())
      ensures !hasRemainingCount ==> remainingShown == old(remainingShown)
    {
      currentPage := 1;
      hasReachedEnd := false;
      hasError := false;
      UpdateRemainingCount();
    }
  }
}
