/**
 * The page loop of `scrape_all_pages` (indeed_scraper.py lines 600-660):
 * after the gate lets the search through, pages are extracted one after
 * another until the page cap, three consecutive empty pages, the end of
 * the results, a failed advance, or the safety limit of 100 pages.
 */
module Orchestrator {
  import opened Wrappers
  import opened Config
  import opened SearchUrl
  import opened Gate
  import opened Listing
  import opened Page
  import opened Pagination

  const MaxConsecutiveFailures: nat := 3
  const SafetyPages: nat := 100

  /** Why the loop stopped. */
  datatype StopReason = PageCap | TooManyFailures | NoMorePages | AdvanceFailed | SafetyLimit

  /** The jobs collected, the final value of `page_num`, and why the loop stopped. */
  datatype Outcome = Outcome(jobs: seq<Record>, lastPage: nat, reason: StopReason)

  /** `max_pages and page_num > max_pages`: `None` and `0` set no cap. */
  predicate CapReached(maxPages: Option<int>, pageNum: nat) {
    maxPages.Some? && maxPages.value != 0 && pageNum > maxPages.value
  }

  /** The number of pages whose jobs were extracted: the capped page number is not one of them. */
  function Extracted(o: Outcome): nat {
    if o.reason == PageCap && o.lastPage > 0 then o.lastPage - 1 else o.lastPage
  }

  /**
   * What the loop observes of page `p`: the jobs extracted from it, whether
   * more pages are reported, and whether moving on succeeds.
   */
  datatype Observations = Observations(
    jobsOn: nat -> seq<Record>,
    more: nat -> bool,
    advance: nat -> bool)

  /**
   * The loop from the state after `pageNum` pages: `failures` consecutive
   * empty pages so far and `acc` the jobs collected.
   */
  function Run(obs: Observations, maxPages: Option<int>, pageNum: nat, failures: nat, acc: seq<Record>): Outcome
    requires pageNum <= SafetyPages
    decreases SafetyPages - pageNum
  {
    var p := pageNum + 1;
    if CapReached(maxPages, p) then Outcome(acc, p, PageCap)
    else
      var page := obs.jobsOn(p);
      var acc' := if |page| > 0 then acc + page else acc;
      var failures' := if |page| > 0 then 0 else failures + 1;
      if failures' >= MaxConsecutiveFailures then Outcome(acc', p, TooManyFailures)
      else if !obs.more(p) then Outcome(acc', p, NoMorePages)
      else if !obs.advance(p) then Outcome(acc', p, AdvanceFailed)
      else if p > SafetyPages then Outcome(acc', p, SafetyLimit)
      else Run(obs, maxPages, p, failures', acc')
  }

  /** The jobs of pages 1 to `n`, in order. */
  function AllPagesJobs(obs: Observations, n: nat): seq<Record> {
    if n == 0 then [] else AllPagesJobs(obs, n - 1) + obs.jobsOn(n)
  }

  /** The number of consecutive empty pages ending at page `n`. */
  function TrailingEmpty(obs: Observations, n: nat): nat {
    if n == 0 || |obs.jobsOn(n)| > 0 then 0 else TrailingEmpty(obs, n - 1) + 1
  }

  function NonNegative(n: int): nat {
    if n < 0 then 0 else n
  }

  /** The loop from any state it can reach: which pages it extracts and what it collects. */
  lemma {:induction false} RunFacts(obs: Observations, maxPages: Option<int>, pageNum: nat, failures: nat, acc: seq<Record>)
    requires pageNum <= SafetyPages
    requires acc == AllPagesJobs(obs, pageNum)
    requires failures == TrailingEmpty(obs, pageNum) && failures < MaxConsecutiveFailures
    requires maxPages.Some? && maxPages.value != 0 ==> pageNum <= NonNegative(maxPages.value)
    ensures var o := Run(obs, maxPages, pageNum, failures, acc);
            && pageNum <= Extracted(o) <= o.lastPage <= SafetyPages + 1
            && o.jobs == AllPagesJobs(obs, Extracted(o))
            && (maxPages.Some? && maxPages.value != 0 ==> Extracted(o) <= NonNegative(maxPages.value))
            && (forall q :: pageNum < q < Extracted(o) ==> TrailingEmpty(obs, q) < MaxConsecutiveFailures
                                                           && obs.more(q) && obs.advance(q))
    decreases SafetyPages - pageNum
  {
    var p := pageNum + 1;
    if !CapReached(maxPages, p) {
      var page := obs.jobsOn(p);
      var acc' := if |page| > 0 then acc + page else acc;
      var failures' := if |page| > 0 then 0 else failures + 1;
      assert acc' == AllPagesJobs(obs, p);
      assert failures' == TrailingEmpty(obs, p);
      if failures' < MaxConsecutiveFailures && obs.more(p) && obs.advance(p) && p <= SafetyPages {
        RunFacts(obs, maxPages, p, failures', acc');
      }
    }
  }

  /** The loop from any state it can reach: why it stops. */
  lemma {:induction false} RunStops(obs: Observations, maxPages: Option<int>, pageNum: nat, failures: nat, acc: seq<Record>)
    requires pageNum <= SafetyPages
    requires failures == TrailingEmpty(obs, pageNum) && failures < MaxConsecutiveFailures
    ensures var o := Run(obs, maxPages, pageNum, failures, acc);
            && (o.reason == PageCap ==> CapReached(maxPages, o.lastPage))
            && (o.reason == TooManyFailures <==> TrailingEmpty(obs, Extracted(o)) >= MaxConsecutiveFailures)
            && (o.reason == NoMorePages ==> !obs.more(o.lastPage))
            && (o.reason == AdvanceFailed ==> obs.more(o.lastPage) && !obs.advance(o.lastPage))
            && (o.reason == SafetyLimit ==> o.lastPage == SafetyPages + 1)
    decreases SafetyPages - pageNum
  {
    var p := pageNum + 1;
    if !CapReached(maxPages, p) {
      var page := obs.jobsOn(p);
      var acc' := if |page| > 0 then acc + page else acc;
      var failures' := if |page| > 0 then 0 else failures + 1;
      assert failures' == TrailingEmpty(obs, p);
      if failures' < MaxConsecutiveFailures && obs.more(p) && obs.advance(p) && p <= SafetyPages {
        RunStops(obs, maxPages, p, failures', acc');
      }
    }
  }

  /**
   * What a whole run promises: the jobs are the in-order concatenation of
   * the extracted pages; no more than `max_pages` pages (when set) and no
   * more than 101 pages are extracted; the loop stops on three consecutive
   * empty pages and never continues past them; and each other stop,
   * the page cap included, has its cause.
   */
  lemma RunOutcome(obs: Observations, maxPages: Option<int>)
    ensures var o := Run(obs, maxPages, 0, 0, []);
            && Extracted(o) <= o.lastPage <= SafetyPages + 1
            && o.jobs == AllPagesJobs(obs, Extracted(o))
            && (maxPages.Some? && maxPages.value != 0 ==> Extracted(o) <= NonNegative(maxPages.value))
            && (o.reason == TooManyFailures <==> TrailingEmpty(obs, Extracted(o)) >= MaxConsecutiveFailures)
            && (forall q :: 0 < q < Extracted(o) ==> TrailingEmpty(obs, q) < MaxConsecutiveFailures
                                                     && obs.more(q) && obs.advance(q))
            && (o.reason == PageCap ==> CapReached(maxPages, o.lastPage))
            && (o.reason == NoMorePages ==> !obs.more(o.lastPage))
            && (o.reason == AdvanceFailed ==> obs.more(o.lastPage) && !obs.advance(o.lastPage))
            && (o.reason == SafetyLimit ==> o.lastPage == SafetyPages + 1)
  {
    RunFacts(obs, maxPages, 0, 0, []);
    RunStops(obs, maxPages, 0, 0, []);
  }

  /** The counters and the accumulated jobs of `scrape_all_pages`. */
  class PageCursor {
    var pageNum: nat
    var consecutiveFailures: nat
    var allJobs: seq<Record>

    constructor ()
      ensures pageNum == 0 && consecutiveFailures == 0 && allJobs == []
    {
      pageNum := 0;
      consecutiveFailures := 0;
      allJobs := [];
    }

    /** `page_num += 1` */
    method NextPage()
      modifies this
      ensures pageNum == old(pageNum) + 1
      ensures consecutiveFailures == old(consecutiveFailures) && allJobs == old(allJobs)
    {
      pageNum := pageNum + 1;
    }

    /** A non-empty page is appended and resets the failure count; an empty one increments it. */
    method RecordPage(page: seq<Record>)
      modifies this
      ensures pageNum == old(pageNum)
      ensures |page| > 0 ==> allJobs == old(allJobs) + page && consecutiveFailures == 0
      ensures |page| == 0 ==> allJobs == old(allJobs) && consecutiveFailures == old(consecutiveFailures) + 1
    {
      if |page| > 0 {
        allJobs := allJobs + page;
        consecutiveFailures := 0;
      } else {
        consecutiveFailures := consecutiveFailures + 1;
      }
    }
  }

  /** What the loop observes of a browser that shows `views(p)` while on page `p`. */
  function Observe(site: Site, views: nat -> PageView): Observations {
    Observations(
      (p: nat) => PageJobs(site, views(p).cards, p),
      (p: nat) => MoreCheckOf(views(p)).hasMore,
      (p: nat) => Advances(views(p)))
  }

  /** `obs` records what the browser shows on page `p`. */
  predicate Observed(obs: Observations, site: Site, views: nat -> PageView, p: nat) {
    && obs.jobsOn(p) == PageJobs(site, views(p).cards, p)
    && obs.more(p) == MoreCheckOf(views(p)).hasMore
    && obs.advance(p) == Advances(views(p))
  }

  lemma ObserveObserved(site: Site, views: nat -> PageView)
    ensures forall p :: Observed(Observe(site, views), site, views, p)
  {
  }

  /** Extracting page `p`; the more-pages check and the advance are only made when asked for. */
  method ExtractPage(site: Site, views: nat -> PageView, p: nat, ghost obs: Observations) returns (jobs: seq<Record>)
    requires forall q :: Observed(obs, site, views, q)
    ensures jobs == obs.jobsOn(p)
  {
    jobs := ExtractJobsFromPage(site, views(p).cards, p);
    assert Observed(obs, site, views, p);
  }

  method HasMorePages(site: Site, views: nat -> PageView, p: nat, ghost obs: Observations) returns (more: bool)
    requires forall q :: Observed(obs, site, views, q)
    ensures more == obs.more(p)
  {
    var button;
    more, button := CheckForMorePages(views(p));
    assert Observed(obs, site, views, p);
  }

  method Advance(site: Site, views: nat -> PageView, p: nat, ghost obs: Observations) returns (ok: bool)
    requires forall q :: Observed(obs, site, views, q)
    ensures ok == obs.advance(p)
  {
    ok := GoToNextPage(views(p));
    assert Observed(obs, site, views, p);
  }

  /**
   * One pass of the loop body: move to the next page and either stop, with
   * the reason and the jobs so far as the outcome, or continue from the new
   * state with the same outcome ahead.
   */
  method ScrapeStep(cursor: PageCursor, site: Site, views: nat -> PageView, maxPages: Option<int>,
                    ghost obs: Observations) returns (stop: Option<StopReason>)
    requires forall q :: Observed(obs, site, views, q)
    requires cursor.pageNum <= SafetyPages
    modifies cursor
    ensures cursor.pageNum == old(cursor.pageNum) + 1
    ensures stop.None? ==> cursor.pageNum <= SafetyPages
    ensures old(Run(obs, maxPages, cursor.pageNum, cursor.consecutiveFailures, cursor.allJobs))
            == if stop.Some? then Outcome(cursor.allJobs, cursor.pageNum, stop.value)
               else Run(obs, maxPages, cursor.pageNum, cursor.consecutiveFailures, cursor.allJobs)
  {
    cursor.NextPage();
    var p := cursor.pageNum;
    if maxPages.Some? && maxPages.value != 0 && p > maxPages.value {
      return Some(PageCap);
    }
    var pageJobs := ExtractPage(site, views, p, obs);
    cursor.RecordPage(pageJobs);
    if cursor.consecutiveFailures >= MaxConsecutiveFailures {
      return Some(TooManyFailures);
    }
    var hasMore := HasMorePages(site, views, p, obs);
    if !hasMore {
      return Some(NoMorePages);
    }
    var advanced := Advance(site, views, p, obs);
    if !advanced {
      return Some(AdvanceFailed);
    }
    if p > SafetyPages {
      return Some(SafetyLimit);
    }
    return None;
  }

  /** The page loop itself, from the first results page on, for observations `obs` of the browser. */
  method ScrapePages(site: Site, views: nat -> PageView, maxPages: Option<int>, ghost obs: Observations)
    returns (jobs: seq<Record>)
    requires forall q :: Observed(obs, site, views, q)
    ensures jobs == Run(obs, maxPages, 0, 0, []).jobs
  {
    ghost var start := Run(obs, maxPages, 0, 0, []);
    var cursor := new PageCursor();
    while true
      invariant cursor.pageNum <= SafetyPages
      invariant Run(obs, maxPages, cursor.pageNum, cursor.consecutiveFailures, cursor.allJobs) == start
      decreases SafetyPages - cursor.pageNum
    {
      var stop := ScrapeStep(cursor, site, views, maxPages, obs);
      if stop.Some? {
        break;
      }
    }
    jobs := cursor.allJobs;
  }

  /**
   * `scrape_all_pages`: no jobs when the gate does not let the search
   * through; otherwise the page loop's jobs.
   */
  method ScrapeAllPages(site: Site, q: Query, encode: seq<Param> -> string, browser: string -> Screen,
                        views: nat -> PageView, maxPages: Option<int>) returns (jobs: seq<Record>)
    ensures var url := BuildSearchUrl(site, q, encode);
            jobs == if CloudflarePasses(browser(url), GateStart(browser(url)), CloudflareTimeout)
                    then Run(Observe(site, views), maxPages, 0, 0, []).jobs
                    else []
  {
    var ok := NavigateToJobs(site, q, encode, browser);
    if !ok {
      return [];
    }
    ObserveObserved(site, views);
    jobs := ScrapePages(site, views, maxPages, Observe(site, views));
  }
}
