/**
 * The detail pass (indeed_scraper.py lines 267-405): choose the card's job
 * link, open the job, and read description, company profile, company size,
 * benefits and requirements off the job page. An attempt that raises is
 * retried while fewer than three retries have been made.
 */
module Detail {
  import opened Wrappers
  import opened Text
  import opened Resolver
  import opened Listing

  const MaxRetries: nat := 3

  /** The title chain of the basic pass without its last entry, tried against the live card. */
  const LinkSelectors: seq<string> := [
    "h2 a[data-jk]", "h2 a", "a[data-jk]", ".jobTitle a",
    "a[href*=\"/viewjob\"]", "h3 a", "[data-testid*=\"job-title\"] a", "span[title] a"
  ]

  const DescriptionSelectors: seq<string> := [
    "#jobDescriptionText", ".jobsearch-jobDescriptionText",
    "[data-testid=\"jobsearch-JobComponent-description\"]", ".jobsearch-JobComponent-description",
    ".job-description", ".description", "div[class*=\"jobDescription\"]", "div[class*=\"description\"]"
  ]

  const ProfileSelectors: seq<string> := [
    ".jobsearch-CompanyInfoContainer", ".jobsearch-CompanyReview",
    "[data-testid=\"jobsearch-CompanyInfoContainer\"]", ".company-profile",
    ".company-info", ".employer-info", "div[class*=\"company\"]"
  ]

  const BenefitKeywords: seq<string> := ["benefits", "health", "insurance", "vacation", "pto", "retirement"]
  const RequirementKeywords: seq<string> := ["requirements", "qualifications", "skills", "experience", "education"]
  const BenefitMinLength: nat := 10
  const RequirementMinLength: nat := 20
  const BucketLimit: nat := 5

  const DetailKeys: set<Key> := {FullJobDescription, ProfileInsights, CompanySize, Benefits, JobRequirements}

  // ----- The job link -----

  /** A selector whose element exists and is displayed ends the link search. */
  function Shown(find: string -> Option<Link>): string -> bool {
    s => find(s).Some? && find(s).value.displayed
  }

  /** What the loop variable holds when no displayed link is found: the last element found. */
  function LastFound(chain: seq<string>, find: string -> Option<Link>): (r: Option<Link>)
    ensures r.None? <==> forall i :: 0 <= i < |chain| ==> find(chain[i]).None?
    ensures r.Some? ==> exists i :: 0 <= i < |chain| && find(chain[i]) == r
                                    && forall j :: i < j < |chain| ==> find(chain[j]).None?
  {
    if |chain| == 0 then None
    else if find(chain[|chain| - 1]).Some? then find(chain[|chain| - 1])
    else
      var r := LastFound(chain[..|chain| - 1], find);
      assert forall i :: 0 <= i < |chain| - 1 ==> chain[..|chain| - 1][i] == chain[i];
      r
  }

  /** The link the selector loop over `chain` ends with: the first displayed one, else the last one found. */
  function LinkChoiceIn(chain: seq<string>, find: string -> Option<Link>): Option<Link> {
    match FirstAccepted(chain, Shown(find))
    case Some(i) => find(chain[i])
    case None => LastFound(chain, find)
  }

  /** The link the detail pass clicks. */
  function LinkChoice(find: string -> Option<Link>): Option<Link> {
    LinkChoiceIn(LinkSelectors, find)
  }

  /**
   * A displayed link wins, in selector order; otherwise the link of the last
   * selector that found anything is used; there is none only when no
   * selector finds an element.
   */
  lemma LinkChoiceMeans(find: string -> Option<Link>)
    ensures LinkChoice(find).None? <==> forall i :: 0 <= i < |LinkSelectors| ==> find(LinkSelectors[i]).None?
    ensures (exists i :: 0 <= i < |LinkSelectors| && Shown(find)(LinkSelectors[i]))
            ==> LinkChoice(find).Some? && LinkChoice(find).value.displayed
    ensures (forall i :: 0 <= i < |LinkSelectors| ==> !Shown(find)(LinkSelectors[i]))
            ==> LinkChoice(find) == LastFound(LinkSelectors, find)
  {
    var k := FirstAccepted(LinkSelectors, Shown(find));
    if k.Some? {
      assert Shown(find)(LinkSelectors[k.value]);
    }
  }

  /** The selector loop of the detail pass over `chain`, keeping the last element found. */
  method PickLink(chain: seq<string>, find: string -> Option<Link>) returns (link: Option<Link>)
    ensures link == LinkChoiceIn(chain, find)
  {
    link := None;
    var i := 0;
    while i < |chain|
      invariant 0 <= i <= |chain|
      invariant forall j :: 0 <= j < i ==> !Shown(find)(chain[j])
      invariant link == LastFound(chain[..i], find)
    {
      var found := find(chain[i]);
      assert chain[..i + 1][..i] == chain[..i];
      if found.Some? {
        link := found;
        if found.value.displayed {
          assert Shown(find)(chain[i]);
          return;
        }
      }
      i := i + 1;
    }
    assert chain[..i] == chain;
  }

  // ----- Company size -----

  /** A line of the lower-cased page naming employees and holding a digit. */
  predicate SizeLine(line: string) {
    (Contains(line, "employees") || Contains(line, "employee")) && HasDigit(line)
  }

  /**
   * The company size: looked for only when the lower-cased page text says
   * "employees"; then the first of its lines that qualifies, stripped.
   */
  function CompanySizeOf(text: string): Option<string> {
    var low := Lower(text);
    if !Contains(low, "employees") then None
    else match FirstAccepted(Split(low), SizeLine)
      case None => None
      case Some(i) => Some(Strip(Split(low)[i]))
  }

  method CompanySizeLine(text: string) returns (size: Option<string>)
    ensures size == CompanySizeOf(text)
  {
    size := None;
    var low := Lower(text);
    if Contains(low, "employees") {
      var lines := Split(low);
      var i := Scan(lines, SizeLine);
      if i.Some? {
        size := Some(Strip(lines[i.value]));
      }
    }
  }

  /** The first disjunct of the line test adds nothing: "employees" contains "employee". */
  lemma EmployeesNamesEmployee(line: string)
    requires Contains(line, "employees")
    ensures Contains(line, "employee")
  {
    var i :| 0 <= i <= |line| - |"employees"| && OccursAt(line, "employees", i);
    assert line[i..i + |"employee"|] == line[i..i + |"employees"|][..|"employee"|];
    assert OccursAt(line, "employee", i);
  }

  /** A qualifying line keeps "employee" and its digit once stripped. */
  lemma SizeLineStripped(line: string)
    requires SizeLine(line)
    ensures Contains(Strip(line), "employee") && HasDigit(Strip(line))
  {
    if Contains(line, "employees") {
      EmployeesNamesEmployee(line);
    }
    StripKeepsWord(line, "employee");
    StripKeepsDigit(line);
  }

  /** A company size is the stripped form of a qualifying line of the lower-cased page. */
  lemma CompanySizeFound(text: string)
    ensures var r := CompanySizeOf(text);
            r.Some? ==> Contains(Lower(text), "employees")
                        && exists i :: 0 <= i < |Split(Lower(text))| && SizeLine(Split(Lower(text))[i])
                                       && r.value == Strip(Split(Lower(text))[i])
  {
    var low := Lower(text);
    var lines := Split(low);
    if Contains(low, "employees") {
      var k := FirstAccepted(lines, SizeLine);
      if k.Some? {
        assert SizeLine(lines[k.value]);
      }
    }
  }

  /** There is no company size exactly when the page does not say "employees" or no line qualifies. */
  lemma CompanySizeMissing(text: string)
    ensures CompanySizeOf(text).None? <==>
              !Contains(Lower(text), "employees")
              || forall i :: 0 <= i < |Split(Lower(text))| ==> !SizeLine(Split(Lower(text))[i])
  {
  }

  /**
   * A company size, when there is one, is a stripped line of the lower-cased
   * page that still names "employee" and holds a digit, and the page says
   * "employees"; there is none exactly when the page does not say
   * "employees" or no line qualifies.
   */
  lemma CompanySizeMeans(text: string)
    ensures var r := CompanySizeOf(text);
            r.Some? ==> Contains(Lower(text), "employees")
                        && Contains(r.value, "employee") && HasDigit(r.value)
                        && exists i :: 0 <= i < |Split(Lower(text))| && SizeLine(Split(Lower(text))[i])
                                       && r.value == Strip(Split(Lower(text))[i])
    ensures CompanySizeOf(text).None? <==>
              !Contains(Lower(text), "employees")
              || forall i :: 0 <= i < |Split(Lower(text))| ==> !SizeLine(Split(Lower(text))[i])
  {
    CompanySizeFound(text);
    CompanySizeMissing(text);
    var r := CompanySizeOf(text);
    if r.Some? {
      var lines := Split(Lower(text));
      var i :| 0 <= i < |lines| && SizeLine(lines[i]) && r.value == Strip(lines[i]);
      SizeLineStripped(lines[i]);
    }
  }

  // ----- Benefits and requirements -----

  /** `any(keyword in low for keyword in kws)` */
  predicate HasKeyword(low: string, kws: seq<string>) {
    exists k :: 0 <= k < |kws| && Contains(low, kws[k])
  }

  /** A line is kept when its lower-cased form names a keyword and its stripped form is long enough. */
  predicate Qualifies(line: string, kws: seq<string>, minLength: nat) {
    HasKeyword(Lower(line), kws) && |Strip(line)| > minLength
  }

  function KeepLine(kws: seq<string>, minLength: nat): string -> bool {
    line => Qualifies(line, kws, minLength)
  }

  /** What the collecting loop keeps: the stripped qualifying lines, the first five of them. */
  function Bucket(lines: seq<string>, kws: seq<string>, minLength: nat): seq<string> {
    Head(Picked(lines, KeepLine(kws, minLength), Strip), BucketLimit)
  }

  /** The benefits or requirements loop. */
  method CollectBucket(lines: seq<string>, kws: seq<string>, minLength: nat) returns (b: seq<string>)
    ensures b == Bucket(lines, kws, minLength)
  {
    b := Collect(lines, KeepLine(kws, minLength), Strip, BucketLimit);
  }

  /** Keywords that neither start nor end with whitespace. */
  predicate Solid(kws: seq<string>) {
    forall k :: 0 <= k < |kws| ==> |kws[k]| > 0 && !IsSpace(kws[k][0]) && !IsSpace(kws[k][|kws[k]| - 1])
  }

  lemma KeywordListsSolid()
    ensures Solid(BenefitKeywords) && Solid(RequirementKeywords)
  {
  }

  /** Stripping a qualifying line keeps the keyword that made it qualify. */
  lemma StripKeepsKeyword(line: string, kws: seq<string>)
    requires Solid(kws) && HasKeyword(Lower(line), kws)
    ensures HasKeyword(Lower(Strip(line)), kws)
  {
    var k :| 0 <= k < |kws| && Contains(Lower(line), kws[k]);
    StripKeepsWord(Lower(line), kws[k]);
    LowerStrip(line);
  }

  /**
   * A bucket holds at most five entries, each longer than the minimum and
   * naming a keyword; it is the head of the stripped qualifying lines in
   * page order, and holds every one of them when it is not full.
   */
  lemma BucketMeans(lines: seq<string>, kws: seq<string>, minLength: nat)
    requires Solid(kws)
    ensures var b := Bucket(lines, kws, minLength);
            && |b| <= BucketLimit
            && (forall e :: e in b ==> |e| > minLength && HasKeyword(Lower(e), kws)
                                       && exists j :: 0 <= j < |lines| && Qualifies(lines[j], kws, minLength)
                                                      && e == Strip(lines[j]))
            && (|b| < BucketLimit ==> forall j :: 0 <= j < |lines| && Qualifies(lines[j], kws, minLength)
                                                 ==> Strip(lines[j]) in b)
  {
    var keep := KeepLine(kws, minLength);
    var b := Bucket(lines, kws, minLength);
    var q := Picked(lines, keep, Strip);
    PickedMembers(lines, keep, Strip);
    forall e | e in b
      ensures |e| > minLength && HasKeyword(Lower(e), kws)
      ensures exists j :: 0 <= j < |lines| && Qualifies(lines[j], kws, minLength) && e == Strip(lines[j])
    {
      assert e in q;
      var j :| 0 <= j < |lines| && keep(lines[j]) && e == Strip(lines[j]);
      StripKeepsKeyword(lines[j], kws);
    }
    if |b| < BucketLimit {
      forall j | 0 <= j < |lines| && Qualifies(lines[j], kws, minLength)
        ensures Strip(lines[j]) in b
      {
        assert keep(lines[j]);
      }
    }
  }

  // ----- The job page -----

  /** The detail record, given what each part of the page resolved to. */
  function DetailFrom(desc: Option<Elem>, profile: Option<Elem>, size: Option<string>,
                      benefits: seq<string>, reqs: seq<string>): Record
  {
    WithFound(WithText(WithText(map[], FullJobDescription, desc), ProfileInsights, profile), size, benefits, reqs)
  }

  /** The company size and the two buckets, each set only when found. */
  function WithFound(m: Record, size: Option<string>, benefits: seq<string>, reqs: seq<string>): Record {
    var m := if size.Some? then m[CompanySize := Str(size.value)] else m;
    var m := if |benefits| > 0 then m[Benefits := Str(Join(benefits, "; "))] else m;
    if |reqs| > 0 then m[JobRequirements := Str(Join(reqs, "; "))] else m
  }

  /** The size and bucket fields are set exactly when found, and every other key is left as it was. */
  lemma WithFoundMeans(m: Record, size: Option<string>, benefits: seq<string>, reqs: seq<string>)
    ensures var r := WithFound(m, size, benefits, reqs);
            && (forall k :: k != CompanySize && k != Benefits && k != JobRequirements ==> (k in r <==> k in m))
            && (forall k :: k in m && k != CompanySize && k != Benefits && k != JobRequirements ==> r[k] == m[k])
            && (CompanySize in r <==> size.Some? || CompanySize in m)
            && (Benefits in r <==> |benefits| > 0 || Benefits in m)
            && (JobRequirements in r <==> |reqs| > 0 || JobRequirements in m)
            && (size.Some? ==> r[CompanySize] == Str(size.value))
            && (|benefits| > 0 ==> r[Benefits] == Str(Join(benefits, "; ")))
            && (|reqs| > 0 ==> r[JobRequirements] == Str(Join(reqs, "; ")))
  {
  }

  /** The fields read off an opened job page. */
  function DetailFields(page: DetailPage): Record {
    var lines := Split(page.text);
    DetailFrom(Resolved(DescriptionSelectors, page.select, LongerThan(100)),
               Resolved(ProfileSelectors, page.select, LongerThan(20)),
               CompanySizeOf(page.text),
               Bucket(lines, BenefitKeywords, BenefitMinLength),
               Bucket(lines, RequirementKeywords, RequirementMinLength))
  }

  /** Only the five detail keys appear; the description and the profile are present exactly when found, with their text. */
  lemma DetailFromMeans(desc: Option<Elem>, profile: Option<Elem>, size: Option<string>,
                        benefits: seq<string>, reqs: seq<string>)
    ensures var r := DetailFrom(desc, profile, size, benefits, reqs);
            && r.Keys <= DetailKeys
            && (FullJobDescription in r <==> desc.Some?)
            && (desc.Some? ==> r[FullJobDescription] == Str(desc.value.text))
            && (ProfileInsights in r <==> profile.Some?)
            && (profile.Some? ==> r[ProfileInsights] == Str(profile.value.text))
  {
    var m2 := WithText(WithText(map[], FullJobDescription, desc), ProfileInsights, profile);
    TextPair(desc, profile);
    WithFoundMeans(m2, size, benefits, reqs);
    FoundKeeps(m2, WithFound(m2, size, benefits, reqs));
  }

  /** The description and profile fields, set on an empty record. */
  lemma TextPair(desc: Option<Elem>, profile: Option<Elem>)
    ensures var m := WithText(WithText(map[], FullJobDescription, desc), ProfileInsights, profile);
            && (forall k :: k in m ==> k == FullJobDescription || k == ProfileInsights)
            && (FullJobDescription in m <==> desc.Some?)
            && (desc.Some? ==> m[FullJobDescription] == Str(desc.value.text))
            && (ProfileInsights in m <==> profile.Some?)
            && (profile.Some? ==> m[ProfileInsights] == Str(profile.value.text))
  {
  }

  /** A record whose keys outside the size and bucket keys are those of `m` has only detail keys when `m` has only text keys. */
  lemma FoundKeeps(m: Record, r: Record)
    requires forall k :: k in m ==> k == FullJobDescription || k == ProfileInsights
    requires forall k :: k != CompanySize && k != Benefits && k != JobRequirements ==> (k in r <==> k in m)
    ensures r.Keys <= DetailKeys
  {
  }

  /** The company size and the two buckets are present exactly when found; the buckets joined with `"; "`. */
  lemma DetailFromFound(desc: Option<Elem>, profile: Option<Elem>, size: Option<string>,
                        benefits: seq<string>, reqs: seq<string>)
    ensures var r := DetailFrom(desc, profile, size, benefits, reqs);
            && (CompanySize in r <==> size.Some?)
            && (size.Some? ==> r[CompanySize] == Str(size.value))
            && (Benefits in r <==> |benefits| > 0)
            && (Benefits in r ==> r[Benefits] == Str(Join(benefits, "; ")))
            && (JobRequirements in r <==> |reqs| > 0)
            && (JobRequirements in r ==> r[JobRequirements] == Str(Join(reqs, "; ")))
  {
    var m2 := WithText(WithText(map[], FullJobDescription, desc), ProfileInsights, profile);
    assert CompanySize !in m2 && Benefits !in m2 && JobRequirements !in m2;
    WithFoundMeans(m2, size, benefits, reqs);
  }

  /**
   * The description is the text of the first description selector whose
   * element is longer than 100 characters, the profile that of the first
   * profile selector whose element is longer than 20;
   * no key outside the five detail keys is ever set.
   */
  lemma DetailFieldsMeans(page: DetailPage)
    ensures var r := DetailFields(page);
            && r.Keys <= DetailKeys
            && (FullJobDescription in r <==> Resolved(DescriptionSelectors, page.select, LongerThan(100)).Some?)
            && (FullJobDescription in r ==>
                  r[FullJobDescription] == Str(Resolved(DescriptionSelectors, page.select, LongerThan(100)).value.text)
                  && |r[FullJobDescription].s| > 100)
            && (ProfileInsights in r <==> Resolved(ProfileSelectors, page.select, LongerThan(20)).Some?)
            && (ProfileInsights in r ==>
                  r[ProfileInsights] == Str(Resolved(ProfileSelectors, page.select, LongerThan(20)).value.text)
                  && |r[ProfileInsights].s| > 20)
  {
    var lines := Split(page.text);
    var d := Resolved(DescriptionSelectors, page.select, LongerThan(100));
    var p := Resolved(ProfileSelectors, page.select, LongerThan(20));
    var s := CompanySizeOf(page.text);
    var b := Bucket(lines, BenefitKeywords, BenefitMinLength);
    var q := Bucket(lines, RequirementKeywords, RequirementMinLength);
    assert DetailFields(page) == DetailFrom(d, p, s, b, q);
    DetailFromMeans(d, p, s, b, q);
  }

  /**
   * The company size appears exactly when one is found; benefits and
   * requirements exactly when their bucket is non-empty, joined with "; ".
   */
  lemma DetailFieldsFound(page: DetailPage)
    ensures var r := DetailFields(page);
            var benefits := Bucket(Split(page.text), BenefitKeywords, BenefitMinLength);
            var reqs := Bucket(Split(page.text), RequirementKeywords, RequirementMinLength);
            && (CompanySize in r <==> CompanySizeOf(page.text).Some?)
            && (CompanySize in r ==> r[CompanySize] == Str(CompanySizeOf(page.text).value))
            && (Benefits in r <==> |benefits| > 0)
            && (Benefits in r ==> r[Benefits] == Str(Join(benefits, "; ")))
            && (JobRequirements in r <==> |reqs| > 0)
            && (JobRequirements in r ==> r[JobRequirements] == Str(Join(reqs, "; ")))
  {
    var lines := Split(page.text);
    var d := Resolved(DescriptionSelectors, page.select, LongerThan(100));
    var p := Resolved(ProfileSelectors, page.select, LongerThan(20));
    var s := CompanySizeOf(page.text);
    var b := Bucket(lines, BenefitKeywords, BenefitMinLength);
    var q := Bucket(lines, RequirementKeywords, RequirementMinLength);
    assert DetailFields(page) == DetailFrom(d, p, s, b, q);
    DetailFromFound(d, p, s, b, q);
  }

  /** The writes into `detailed_info`, once each part of the page is resolved. */
  method FillDetail(desc: Option<Elem>, profile: Option<Elem>, size: Option<string>,
                    benefits: seq<string>, reqs: seq<string>) returns (info: Record)
    ensures info == DetailFrom(desc, profile, size, benefits, reqs)
  {
    info := map[];
    if desc.Some? {
      info := info[FullJobDescription := Str(desc.value.text)];
    }
    if profile.Some? {
      info := info[ProfileInsights := Str(profile.value.text)];
    }
    if size.Some? {
      info := info[CompanySize := Str(size.value)];
    }
    if |benefits| > 0 {
      info := info[Benefits := Str(Join(benefits, "; "))];
    }
    if |reqs| > 0 {
      info := info[JobRequirements := Str(Join(reqs, "; "))];
    }
  }

  /** Reading an opened job page. */
  method ReadDetailPage(page: DetailPage) returns (info: Record)
    ensures info == DetailFields(page)
  {
    var desc := Resolve(DescriptionSelectors, page.select, LongerThan(100));
    var profile := Resolve(ProfileSelectors, page.select, LongerThan(20));
    var size := CompanySizeLine(page.text);
    var lines := Split(page.text);
    var benefits := CollectBucket(lines, BenefitKeywords, BenefitMinLength);
    var reqs := CollectBucket(lines, RequirementKeywords, RequirementMinLength);
    info := FillDetail(desc, profile, size, benefits, reqs);
  }

  // ----- Attempts and retries -----

  function RetriesLeft(retryCount: nat): nat {
    if retryCount < MaxRetries then MaxRetries - retryCount else 0
  }

  /** The page of the first attempt, from `retryCount` on, that opens the job; none if all allowed ones raise. */
  function OpenedPage(card: Card, retryCount: nat): Option<DetailPage>
    decreases RetriesLeft(retryCount)
  {
    match card.attempts(retryCount)
    case Opened(page) => Some(page)
    case _ => if retryCount < MaxRetries then OpenedPage(card, retryCount + 1) else None
  }

  /**
   * What `extract_detailed_job_info(card, retryCount)` returns when the link
   * selectors are `chain`: nothing without a link to click, else the fields
   * of the page the first successful attempt opens, and nothing once every
   * allowed attempt raised.
   */
  function DetailRecordIn(chain: seq<string>, card: Card, retryCount: nat): Record
  {
    if LinkChoiceIn(chain, card.find).None? then map[]
    else match OpenedPage(card, retryCount)
      case Some(page) => DetailFields(page)
      case None => map[]
  }

  /** The detail record of a card, with the selectors the detail pass uses. */
  function DetailRecord(card: Card, retryCount: nat): Record
  {
    DetailRecordIn(LinkSelectors, card, retryCount)
  }

  /**
   * The recursive retry over the link selectors `chain`: the link is chosen
   * again on each attempt, and a raising attempt recurses while
   * `retryCount` is below three.
   */
  method ExtractDetailIn(chain: seq<string>, card: Card, retryCount: nat) returns (info: Record)
    ensures info == DetailRecordIn(chain, card, retryCount)
    decreases RetriesLeft(retryCount)
  {
    var link := PickLink(chain, card.find);
    if link.None? {
      return map[];
    }
    match card.attempts(retryCount) {
      case Opened(page) =>
        info := ReadDetailPage(page);
      case _ =>
        if retryCount < MaxRetries {
          info := ExtractDetailIn(chain, card, retryCount + 1);
        } else {
          info := map[];
        }
    }
  }

  /** `extract_detailed_job_info`: the retry above over the detail pass's own link selectors. */
  method ExtractDetailedJobInfo(card: Card, retryCount: nat) returns (info: Record)
    ensures info == DetailRecord(card, retryCount)
  {
    info := ExtractDetailIn(LinkSelectors, card, retryCount);
  }

  /** The first attempt that opens the job decides the page, if it is among the four allowed. */
  lemma {:induction false} RetrySucceeds(card: Card, retryCount: nat, k: nat)
    requires retryCount <= k <= MaxRetries && card.attempts(k).Opened?
    requires forall j :: retryCount <= j < k ==> !card.attempts(j).Opened?
    ensures OpenedPage(card, retryCount) == Some(card.attempts(k).page)
    decreases k - retryCount
  {
    if retryCount < k {
      RetrySucceeds(card, retryCount + 1, k);
    }
  }

  /** Four failed attempts (the first and three retries) leave no page. */
  lemma {:induction false} RetryExhausted(card: Card, retryCount: nat)
    requires retryCount <= MaxRetries
    requires forall j :: retryCount <= j <= MaxRetries ==> !card.attempts(j).Opened?
    ensures OpenedPage(card, retryCount) == None
    decreases MaxRetries - retryCount
  {
    if retryCount < MaxRetries {
      RetryExhausted(card, retryCount + 1);
    }
  }

  /** Attempts after the fourth are never made: cards agreeing on the first four attempts agree. */
  lemma {:induction false} AttemptsBeyondFourthUnused(c1: Card, c2: Card, retryCount: nat)
    requires retryCount <= MaxRetries
    requires forall j: nat :: j <= MaxRetries ==> c1.attempts(j) == c2.attempts(j)
    ensures OpenedPage(c1, retryCount) == OpenedPage(c2, retryCount)
    decreases RetriesLeft(retryCount)
  {
    if retryCount < MaxRetries {
      AttemptsBeyondFourthUnused(c1, c2, retryCount + 1);
    }
  }

  /**
   * The detail record of a card: empty without a link; else the fields of
   * the first of the four attempts that opens the job; empty when all raise.
   */
  lemma DetailOutcome(card: Card, k: nat)
    requires k <= MaxRetries && card.attempts(k).Opened?
    requires forall j :: 0 <= j < k ==> !card.attempts(j).Opened?
    ensures DetailRecord(card, 0) == if LinkChoice(card.find).None? then map[] else DetailFields(card.attempts(k).page)
  {
    RetrySucceeds(card, 0, k);
  }

  lemma DetailExhausted(card: Card)
    requires forall j :: 0 <= j <= MaxRetries ==> !card.attempts(j).Opened?
    ensures DetailRecord(card, 0) == map[]
  {
    RetryExhausted(card, 0);
  }

  /** A detail record only ever holds the five detail keys. */
  lemma DetailKeysOnly(card: Card, retryCount: nat)
    ensures DetailRecord(card, retryCount).Keys <= DetailKeys
  {
    var p := OpenedPage(card, retryCount);
    if LinkChoice(card.find).Some? && p.Some? {
      DetailFieldsMeans(p.value);
    }
  }
}
