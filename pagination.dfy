/**
 * Looking for and following the next-page control (indeed_scraper.py lines
 * 546-598). The live results page is seen through its element lookups and
 * the outcome of clicking.
 */
module Pagination {
  import opened Wrappers
  import opened Resolver
  import opened Listing

  /** A next-page control found on the page. */
  datatype Control = Control(displayed: bool, enabled: bool)

  /**
   * One results page as the browser shows it: the job cards each selector
   * finds, the next-page control each selector finds, whether
   * `find_elements` with `a[href*="start="]` returns a non-empty list (a
   * pagination link that offsets the results), and whether clicking the
   * next-page control goes through.
   */
  datatype PageView = PageView(
    cards: string -> seq<Card>,
    next: string -> Option<Control>,
    startLinks: bool,  // `find_elements(By.CSS_SELECTOR, 'a[href*="start="]')` is non-empty
    clickOk: bool)

  const NextSelectors: seq<string> := [
    "a[aria-label=\"Next Page\"]", "a[aria-label=\"Next\"]", "a[class*=\"next\"]",
    "a[href*=\"start=\"]", "button[aria-label=\"Next\"]"
  ]

  /** A control can be used when it is both displayed and enabled. */
  function Clickable(next: string -> Option<Control>): string -> bool {
    s => next(s).Some? && next(s).value.displayed && next(s).value.enabled
  }

  /** The result of `check_for_more_pages`: whether there is more, and the control to click. */
  datatype MoreCheck = MoreCheck(hasMore: bool, button: Option<Control>)

  /**
   * The first usable control, in selector order, says there is more and is
   * returned; failing that, any `start=` link says there is more, with no
   * control to click.
   */
  function MoreCheckOf(view: PageView): MoreCheck {
    match FirstAccepted(NextSelectors, Clickable(view.next))
    case Some(i) => MoreCheck(true, view.next(NextSelectors[i]))
    case None => MoreCheck(view.startLinks, None)
  }

  /** `check_for_more_pages` */
  method CheckForMorePages(view: PageView) returns (hasMore: bool, button: Option<Control>)
    ensures MoreCheck(hasMore, button) == MoreCheckOf(view)
  {
    var i := 0;
    while i < |NextSelectors|
      invariant 0 <= i <= |NextSelectors|
      invariant forall j :: 0 <= j < i ==> !Clickable(view.next)(NextSelectors[j])
    {
      var found := view.next(NextSelectors[i]);
      if found.Some? && found.value.displayed && found.value.enabled {
        assert Clickable(view.next)(NextSelectors[i]);
        return true, found;
      }
      i := i + 1;
    }
    if view.startLinks {
      return true, None;
    }
    return false, None;
  }

  /** Whether `go_to_next_page` moves on: there is more, a control to click, and the click goes through. */
  predicate Advances(view: PageView) {
    var c := MoreCheckOf(view);
    c.hasMore && c.button.Some? && view.clickOk
  }

  /** `go_to_next_page` */
  method GoToNextPage(view: PageView) returns (ok: bool)
    ensures ok == Advances(view)
  {
    var hasMore, button := CheckForMorePages(view);
    ok := hasMore && button.Some? && view.clickOk;
  }

  /**
   * There is more exactly when some selector finds a usable control or a
   * `start=` link exists; a control is returned exactly in the first case,
   * and it is usable.
   */
  lemma MoreCheckMeans(view: PageView)
    ensures var c := MoreCheckOf(view);
            && (c.hasMore <==> (exists i :: 0 <= i < |NextSelectors| && Clickable(view.next)(NextSelectors[i]))
                               || view.startLinks)
            && (c.button.Some? <==> exists i :: 0 <= i < |NextSelectors| && Clickable(view.next)(NextSelectors[i]))
            && (c.button.Some? ==> c.hasMore && c.button.value.displayed && c.button.value.enabled)
  {
    var k := FirstAccepted(NextSelectors, Clickable(view.next));
    if k.Some? {
      assert Clickable(view.next)(NextSelectors[k.value]);
    }
  }

  /**
   * Moving on needs a usable control: a page whose only sign of more is a
   * `start=` link reports more pages but cannot be left.
   */
  lemma AdvanceNeedsControl(view: PageView)
    ensures Advances(view) ==> MoreCheckOf(view).hasMore && view.clickOk
    ensures Advances(view) <==> view.clickOk
                                && exists i :: 0 <= i < |NextSelectors| && Clickable(view.next)(NextSelectors[i])
  {
    MoreCheckMeans(view);
  }
}
