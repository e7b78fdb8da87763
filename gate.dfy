/**
 * The challenge and sign-in gate run after navigating to a search
 * (indeed_scraper.py lines 131-172, 198-265). The browser is an oracle
 * from the time since navigation, in seconds, to what the page shows then;
 * the waits advance that clock only by their sleeps.
 */
module Gate {
  import opened Wrappers
  import opened Text
  import opened Resolver
  import opened Config
  import opened SearchUrl

  /** One reading of the browser: page source and URL, or a read that raised. */
  datatype Snapshot = Page(source: string, url: string) | Unreadable

  /** What the page shows at each second after navigating. */
  type Screen = nat -> Snapshot

  const SettleSeconds: nat := 3
  const CloudflareTimeout: nat := 120
  const CloudflareInterval: nat := 3
  const SigninTimeout: nat := 300
  const SigninInterval: nat := 2

  /** Markers of the anti-bot interstitial, looked for in the lower-cased page source. */
  predicate ChallengeMarked(source: string) {
    var s := Lower(source);
    Contains(s, "cloudflare") || Contains(s, "checking your browser")
    || Contains(s, "additional verification required") || Contains(s, "ray id")
    || Contains(s, "cf-chl-widget")
  }

  /** Markers of a results page: in the lower-cased URL or page source. */
  predicate ResultsMarked(source: string, url: string) {
    var s := Lower(source);
    Contains(Lower(url), "jobs") || (Contains(s, "job") && Contains(s, "company"))
    || Contains(s, "search results")
  }

  datatype PollResult = ChallengeSeen | ResultsReady | StillWaiting | ReadFailed

  /** One iteration of the Cloudflare wait: challenge markers are checked first. */
  function CloudflarePoll(snap: Snapshot): PollResult {
    match snap
    case Unreadable => ReadFailed
    case Page(source, url) =>
      if ChallengeMarked(source) then ChallengeSeen
      else if ResultsMarked(source, url) then ResultsReady
      else StillWaiting
  }

  predicate CloudflareReady(snap: Snapshot) {
    CloudflarePoll(snap) == ResultsReady
  }

  /** A poll ends the wait exactly when the page shows no challenge marker and some results marker. */
  lemma CloudflareReadyMeans(snap: Snapshot)
    ensures CloudflareReady(snap) <==>
              snap.Page? && !ChallengeMarked(snap.source) && ResultsMarked(snap.source, snap.url)
  {
  }

  /** `check_signin_required`: sign-in markers in the lower-cased source; a failed read says no. */
  predicate SigninRequired(snap: Snapshot) {
    match snap
    case Unreadable => false
    case Page(source, _) =>
      var s := Lower(source);
      Contains(s, "sign in") || Contains(s, "login") || Contains(s, "authentication")
      || (Contains(s, "verify") && Contains(s, "human"))
  }

  /** Only the page source decides, and only up to case: the URL and upper-case letters play no part. */
  lemma SigninIgnoresCase(source: string, url: string, url2: string)
    ensures SigninRequired(Page(Lower(source), url2)) == SigninRequired(Page(source, url))
  {
    LowerTwice(source);
  }

  /** A marker, once on the page, keeps the request standing whatever text surrounds it. */
  lemma SigninMarkersStay(before: string, source: string, after: string, url: string, url2: string)
    requires SigninRequired(Page(source, url))
    ensures SigninRequired(Page(before + source + after, url2))
  {
    var s := Lower(source);
    LowerConcat(before, source, after);
    var t := Lower(before + source + after);
    assert t == Lower(before) + s + Lower(after);
    if Contains(s, "sign in") {
      ContainsWithin(Lower(before), s, Lower(after), "sign in");
    } else if Contains(s, "login") {
      ContainsWithin(Lower(before), s, Lower(after), "login");
    } else if Contains(s, "authentication") {
      ContainsWithin(Lower(before), s, Lower(after), "authentication");
    } else {
      ContainsWithin(Lower(before), s, Lower(after), "verify");
      ContainsWithin(Lower(before), s, Lower(after), "human");
    }
  }

  /** The sign-in wait's success test. */
  predicate SigninComplete(snap: Snapshot) {
    snap.Page? && Contains(Lower(snap.url), "jobs") && Contains(Lower(snap.source), "search")
  }

  /** Number of polls a wait makes before `elapsed < timeout` fails. */
  function PollCount(timeout: nat, interval: nat): nat
    requires interval > 0
  {
    (timeout + interval - 1) / interval
  }

  function PollAt(screen: Screen, start: nat, interval: nat, k: nat): Snapshot {
    screen(start + interval * k)
  }

  /** What the successive polls of a wait read. */
  function Polls(screen: Screen, start: nat, interval: nat, count: nat): (ps: seq<Snapshot>)
    ensures |ps| == count
    ensures forall k :: 0 <= k < count ==> ps[k] == PollAt(screen, start, interval, k)
  {
    seq(count, k requires 0 <= k < count => PollAt(screen, start, interval, k))
  }

  /** Whether the Cloudflare wait starting at `start` sees a ready page before its timeout. */
  predicate CloudflarePasses(screen: Screen, start: nat, timeout: nat) {
    FirstAccepted(Polls(screen, start, CloudflareInterval, PollCount(timeout, CloudflareInterval)),
                  CloudflareReady).Some?
  }

  /** Time at which the sign-in wait starting at `start` returns. */
  function SigninEnd(screen: Screen, start: nat, timeout: nat): nat {
    var polls := Polls(screen, start, SigninInterval, PollCount(timeout, SigninInterval));
    match FirstAccepted(polls, SigninComplete)
    case Some(k) => start + SigninInterval * k
    case None => start + SigninInterval * |polls|
  }

  /** The number of sign-in polls covers the timeout and overshoots it by less than one interval. */
  lemma SigninPollsSpan(timeout: nat)
    ensures timeout <= SigninInterval * PollCount(timeout, SigninInterval) <= timeout + SigninInterval - 1
    ensures forall k :: 0 <= k ==> (k < PollCount(timeout, SigninInterval) <==> SigninInterval * k < timeout)
  {
  }

  /**
   * The sign-in wait returns at the first 2-second poll that sees the
   * results page, if one comes before the timeout, and otherwise at the
   * first poll time not before the timeout.
   */
  lemma SigninEndMeans(screen: Screen, start: nat, timeout: nat)
    ensures var end := SigninEnd(screen, start, timeout);
            && start <= end <= start + timeout + SigninInterval - 1
            && (end < start + timeout <==>
                  exists k :: 0 <= k && SigninInterval * k < timeout
                              && SigninComplete(PollAt(screen, start, SigninInterval, k)))
            && (end < start + timeout ==> SigninComplete(screen(end)))
            && (forall k :: 0 <= k && start + SigninInterval * k < end ==>
                  !SigninComplete(PollAt(screen, start, SigninInterval, k)))
  {
    var n := PollCount(timeout, SigninInterval);
    var polls := Polls(screen, start, SigninInterval, n);
    SigninPollsSpan(timeout);
    match FirstAccepted(polls, SigninComplete)
    case Some(k) =>
      assert SigninInterval * k < timeout;
    case None =>
      forall k | 0 <= k && SigninInterval * k < timeout
        ensures !SigninComplete(PollAt(screen, start, SigninInterval, k))
      {
        assert polls[k] == PollAt(screen, start, SigninInterval, k);
      }
  }

  /** `wait_for_cloudflare_challenge`: poll every 3 seconds until ready or timed out. */
  method WaitForCloudflareChallenge(screen: Screen, start: nat, timeout: nat) returns (ok: bool)
    ensures ok == CloudflarePasses(screen, start, timeout)
    ensures ok <==> exists k :: 0 <= k && CloudflareInterval * k < timeout
                                && CloudflareReady(PollAt(screen, start, CloudflareInterval, k))
  {
    ghost var polls := Polls(screen, start, CloudflareInterval, PollCount(timeout, CloudflareInterval));
    var elapsed := 0;
    ghost var k := 0;
    while elapsed < timeout
      invariant elapsed == CloudflareInterval * k
      invariant k <= |polls|
      invariant elapsed < timeout ==> k < |polls|
      invariant forall j :: 0 <= j < k ==> !CloudflareReady(polls[j])
    {
      var snap := screen(start + elapsed);
      assert snap == polls[k];
      match snap {
        case Unreadable =>
        case Page(source, url) =>
          if ChallengeMarked(source) {
          } else if ResultsMarked(source, url) {
            return true;
          }
      }
      elapsed := elapsed + CloudflareInterval;
      k := k + 1;
    }
    assert k == |polls|;
    return false;
  }

  /** `wait_for_manual_signin`: poll every 2 seconds; also reports the clock when it returns. */
  method WaitForManualSignin(screen: Screen, start: nat, timeout: nat) returns (ok: bool, end: nat)
    ensures ok == FirstAccepted(Polls(screen, start, SigninInterval, PollCount(timeout, SigninInterval)),
                                SigninComplete).Some?
    ensures end == SigninEnd(screen, start, timeout)
    ensures !ok ==> end >= start + timeout
  {
    ghost var polls := Polls(screen, start, SigninInterval, PollCount(timeout, SigninInterval));
    var elapsed := 0;
    ghost var k := 0;
    while elapsed < timeout
      invariant elapsed == SigninInterval * k
      invariant k <= |polls|
      invariant elapsed < timeout ==> k < |polls|
      invariant forall j :: 0 <= j < k ==> !SigninComplete(polls[j])
    {
      var snap := screen(start + elapsed);
      assert snap == polls[k];
      if SigninComplete(snap) {
        return true, start + elapsed;
      }
      elapsed := elapsed + SigninInterval;
      k := k + 1;
    }
    assert k == |polls|;
    return false, start + elapsed;
  }

  /** When the Cloudflare wait starts: after the settle delay, and after the sign-in wait if one ran. */
  function GateStart(screen: Screen): nat {
    if SigninRequired(screen(SettleSeconds)) then SigninEnd(screen, SettleSeconds, SigninTimeout)
    else SettleSeconds
  }

  /**
   * The Cloudflare wait starts 3 seconds after navigating when the page
   * asks for no sign-in; otherwise when the sign-in wait returns, which is
   * at most 300 seconds later, and earlier only if sign-in completed.
   */
  lemma GateStartMeans(screen: Screen)
    ensures !SigninRequired(screen(SettleSeconds)) ==> GateStart(screen) == SettleSeconds
    ensures SigninRequired(screen(SettleSeconds)) ==>
              GateStart(screen) == SigninEnd(screen, SettleSeconds, SigninTimeout)
    ensures SettleSeconds <= GateStart(screen) <= SettleSeconds + SigninTimeout
    ensures SigninRequired(screen(SettleSeconds)) ==>
              (GateStart(screen) < SettleSeconds + SigninTimeout <==>
                 exists k :: 0 <= k && SigninInterval * k < SigninTimeout
                             && SigninComplete(PollAt(screen, SettleSeconds, SigninInterval, k)))
    ensures SigninRequired(screen(SettleSeconds)) && GateStart(screen) < SettleSeconds + SigninTimeout ==>
              SigninComplete(screen(GateStart(screen)))
  {
    SigninEndMeans(screen, SettleSeconds, SigninTimeout);
    if SigninRequired(screen(SettleSeconds)) {
      var polls := Polls(screen, SettleSeconds, SigninInterval, PollCount(SigninTimeout, SigninInterval));
      assert |polls| == 150;
    }
  }

  /**
   * `navigate_to_jobs`: open the search URL, wait for sign-in if asked for
   * one (its outcome is not used), then let the Cloudflare wait decide.
   */
  method NavigateToJobs(site: Site, q: Query, encode: seq<Param> -> string, browser: string -> Screen)
    returns (ok: bool)
    ensures ok == CloudflarePasses(browser(BuildSearchUrl(site, q, encode)), GateStart(browser(BuildSearchUrl(site, q, encode))), CloudflareTimeout)
  {
    var url := BuildSearchUrl(site, q, encode);
    var screen := browser(url);
    var now := SettleSeconds;
    if SigninRequired(screen(now)) {
      var _, end := WaitForManualSignin(screen, now, SigninTimeout);
      now := end;
    }
    ok := WaitForCloudflareChallenge(screen, now, CloudflareTimeout);
  }
}
