/**
 * Listing entries and the basic extraction pass (indeed_scraper.py lines
 * 472-544). A card's markup is seen through an oracle from CSS selector to
 * the first matching element, as BeautifulSoup's `select_one` gives it.
 */
module Listing {
  import opened Wrappers
  import opened Text
  import opened Resolver
  import opened Config

  /** An element: its text (`get_text(strip=True)`) and its attributes. */
  datatype Elem = Elem(text: string, attrs: map<string, string>)

  /** `elem.get(name, '')` */
  function Attr(e: Elem, name: string): string {
    if name in e.attrs then e.attrs[name] else ""
  }

  /** A clickable element found in the live browser. */
  datatype Link = Link(displayed: bool)

  /** The page after a job was opened: `select_one` on it, and its whole text. */
  datatype DetailPage = DetailPage(select: string -> Option<Elem>, text: string)

  /** What the k-th attempt of the detail pass ran into. */
  datatype Attempt = ClickRaised | ReadRaised | Opened(page: DetailPage)

  /**
   * One job card of a results page: its parsed markup, element lookup in
   * the live page, the detail attempts, and the clock reading taken for it.
   */
  datatype Card = Card(
    select: string -> Option<Elem>,
    find: string -> Option<Link>,
    attempts: nat -> Attempt,
    scrapedAt: string)

  /** A record's values are strings, except position and page number. */
  datatype Field = Str(s: string) | Num(n: int)

  /** The keys the scraper ever writes into a job record. */
  datatype Key =
    | Title | Url | JobId | Company | Location | Salary
    | ScrapedAt | Source | ScraperMethod
    | PositionOnPage | PageNumber | CountryName
    | FullJobDescription | ProfileInsights | CompanySize | Benefits | JobRequirements

  /** The dictionary key each one is written under. */
  function KeyName(k: Key): string {
    match k
    case Title => "title"
    case Url => "url"
    case JobId => "job_id"
    case Company => "company"
    case Location => "location"
    case Salary => "salary"
    case ScrapedAt => "scraped_at"
    case Source => "source"
    case ScraperMethod => "scraper_method"
    case PositionOnPage => "position_on_page"
    case PageNumber => "page_number"
    case CountryName => "country"
    case FullJobDescription => "full_job_description"
    case ProfileInsights => "profile_insights"
    case CompanySize => "company_size"
    case Benefits => "benefits"
    case JobRequirements => "job_requirements"
  }

  type Record = map<Key, Field>

  const TitleSelectors: seq<string> := [
    "h2 a[data-jk]", "h2 a", "a[data-jk]", ".jobTitle a",
    "a[href*=\"/viewjob\"]", "h3 a", "[data-testid*=\"job-title\"] a",
    "span[title] a", "div[class*=\"title\"] a"
  ]

  const CompanySelectors: seq<string> := [
    ".companyName a", ".companyName", "span.companyName",
    "[data-testid*=\"company\"] a", "[data-testid*=\"company\"]",
    ".company a", ".company", "div[class*=\"company\"]"
  ]

  const LocationSelectors: seq<string> := [
    ".companyLocation", "[data-testid*=\"location\"]",
    ".locationsContainer", ".location", "div[class*=\"location\"]"
  ]

  const SalarySelectors: seq<string> := [
    ".salaryText", "[data-testid*=\"salary\"]",
    ".salary-snippet", ".salary", "div[class*=\"salary\"]"
  ]

  /** The acceptance test each field puts on a matched element. */
  datatype Guard = TitleGuard | LongerThan(n: nat) | HasDigitGuard

  /** `elem.get('title', '') or elem.get_text(strip=True)` */
  function TitleText(e: Elem): string {
    if Attr(e, "title") != "" then Attr(e, "title") else e.text
  }

  predicate Accepts(g: Guard, e: Elem) {
    match g
    case TitleGuard => |TitleText(e)| > 2
    case LongerThan(n) => |e.text| > n
    case HasDigitGuard => HasDigit(e.text)
  }

  /** A selector passes when it matches an element that passes the guard. */
  function MatchOk(lookup: string -> Option<Elem>, g: Guard): string -> bool {
    s => lookup(s).Some? && Accepts(g, lookup(s).value)
  }

  /**
   * Priority-list resolution of one field: the element of the first
   * selector, in chain order, whose match passes the guard; absent if none.
   */
  function Resolved(chain: seq<string>, lookup: string -> Option<Elem>, g: Guard): (r: Option<Elem>)
    ensures r.Some? ==> Accepts(g, r.value)
  {
    match FirstAccepted(chain, MatchOk(lookup, g))
    case None => None
    case Some(i) => lookup(chain[i])
  }

  /**
   * What resolution means: a result is the match of some selector that
   * passes, with no earlier selector passing; no result only when no
   * selector of the chain passes.
   */
  lemma ResolvedMeans(chain: seq<string>, lookup: string -> Option<Elem>, g: Guard)
    ensures var r := Resolved(chain, lookup, g);
            r.Some? ==> exists i :: 0 <= i < |chain| && lookup(chain[i]) == r
                                    && forall j :: 0 <= j < i ==> !MatchOk(lookup, g)(chain[j])
    ensures Resolved(chain, lookup, g).None? <==> forall i :: 0 <= i < |chain| ==> !MatchOk(lookup, g)(chain[i])
  {
    var k := FirstAccepted(chain, MatchOk(lookup, g));
    if k.Some? {
      assert lookup(chain[k.value]) == Resolved(chain, lookup, g);
    }
  }

  /** The scan over one selector chain. */
  method Resolve(chain: seq<string>, lookup: string -> Option<Elem>, g: Guard) returns (r: Option<Elem>)
    ensures r == Resolved(chain, lookup, g)
  {
    var i := Scan(chain, MatchOk(lookup, g));
    r := if i.Some? then lookup(chain[i.value]) else None;
  }

  /** A selector whose match passes decides the field: nothing after it in the chain matters. */
  lemma ResolvedIsFirst(chain: seq<string>, lookup: string -> Option<Elem>, g: Guard, i: nat)
    requires i < |chain| && lookup(chain[i]).Some? && Accepts(g, lookup(chain[i]).value)
    requires forall j :: 0 <= j < i ==> !MatchOk(lookup, g)(chain[j])
    ensures Resolved(chain, lookup, g) == lookup(chain[i])
  {
    assert MatchOk(lookup, g)(chain[i]);
  }

  /** A relative link is made absolute against the site's base URL. */
  function AbsoluteUrl(baseUrl: string, href: string): string {
    if StartsWith(href, "/") then baseUrl + href else href
  }

  /** A matched title sets the title, the url when the link has an href, and the job id. */
  function WithTitle(m: Record, site: Site, title: Option<Elem>): (r: Record)
    ensures forall k :: k != Title && k != Url && k != JobId ==> (k in r <==> k in m)
    ensures forall k :: k in m && k != Title && k != Url && k != JobId ==> r[k] == m[k]
  {
    match title
    case None => m
    case Some(e) =>
      var href := Attr(e, "href");
      var withUrl := if href != "" then m[Title := Str(TitleText(e))][Url := Str(AbsoluteUrl(site.baseUrl, href))]
                     else m[Title := Str(TitleText(e))];
      withUrl[JobId := Str(Attr(e, "data-jk"))]
  }

  /** A matched element sets `key` to its text. */
  function WithText(m: Record, key: Key, e: Option<Elem>): (r: Record)
    ensures forall k :: k != key ==> (k in r <==> k in m)
    ensures forall k :: k in m && k != key ==> r[k] == m[k]
  {
    match e
    case None => m
    case Some(x) => m[key := Str(x.text)]
  }

  /** The three bookkeeping fields every basic record gets. */
  function Stamped(m: Record, at: Field, source: Field, how: Field): Record {
    m[ScrapedAt := at][Source := source][ScraperMethod := how]
  }

  /** The basic record, given what each field's selector chain resolved to. */
  function BasicFrom(site: Site, scrapedAt: string,
                     title: Option<Elem>, company: Option<Elem>,
                     location: Option<Elem>, salary: Option<Elem>): Record
  {
    var m := WithTitle(map[], site, title);
    var m := WithText(m, Company, company);
    var m := WithText(m, Location, location);
    var m := WithText(m, Salary, salary);
    Stamped(m, Str(scrapedAt), Str("Indeed " + site.name), Str("Indeed Scraper"))
  }

  /** `extract_basic_job_data` as a value. */
  function BasicRecord(site: Site, card: Card): Record {
    BasicFrom(site, card.scrapedAt,
              Resolved(TitleSelectors, card.select, TitleGuard),
              Resolved(CompanySelectors, card.select, LongerThan(1)),
              Resolved(LocationSelectors, card.select, LongerThan(1)),
              Resolved(SalarySelectors, card.select, HasDigitGuard))
  }

  const BasicKeys: set<Key> := {
    Title, Url, JobId, Company, Location, Salary, ScrapedAt, Source, ScraperMethod
  }

  /** `extract_basic_job_data`: resolves each field's chain, then fills the record. */
  method ExtractBasicJobData(site: Site, card: Card) returns (job: Record)
    ensures job == BasicRecord(site, card)
  {
    var title := Resolve(TitleSelectors, card.select, TitleGuard);
    var company := Resolve(CompanySelectors, card.select, LongerThan(1));
    var location := Resolve(LocationSelectors, card.select, LongerThan(1));
    var salary := Resolve(SalarySelectors, card.select, HasDigitGuard);
    job := FillBasic(site, card.scrapedAt, title, company, location, salary);
  }

  /** The field-by-field writes of `extract_basic_job_data`, once each chain is resolved. */
  method FillBasic(site: Site, scrapedAt: string, title: Option<Elem>, company: Option<Elem>,
                   location: Option<Elem>, salary: Option<Elem>) returns (job: Record)
    ensures job == BasicFrom(site, scrapedAt, title, company, location, salary)
  {
    job := map[];
    if title.Some? {
      job := job[Title := Str(TitleText(title.value))];
      var href := Attr(title.value, "href");
      if href != "" {
        job := job[Url := Str(AbsoluteUrl(site.baseUrl, href))];
      }
      job := job[JobId := Str(Attr(title.value, "data-jk"))];
    }
    if company.Some? {
      job := job[Company := Str(company.value.text)];
    }
    if location.Some? {
      job := job[Location := Str(location.value.text)];
    }
    if salary.Some? {
      job := job[Salary := Str(salary.value.text)];
    }
    job := job[ScrapedAt := Str(scrapedAt)];
    job := job[Source := Str("Indeed " + site.name)];
    job := job[ScraperMethod := Str("Indeed Scraper")];
  }

  /** The title fields of a basic record, given what the title chain resolved to. */
  lemma BasicFromTitle(site: Site, scrapedAt: string, t: Option<Elem>, c: Option<Elem>, l: Option<Elem>, s: Option<Elem>)
    ensures var r := BasicFrom(site, scrapedAt, t, c, l, s);
            && (Title in r <==> t.Some?)
            && (JobId in r <==> t.Some?)
            && (t.Some? ==> r[Title] == Str(TitleText(t.value)) && r[JobId] == Str(Attr(t.value, "data-jk")))
            && (Url in r <==> t.Some? && Attr(t.value, "href") != "")
            && (Url in r ==> r[Url] == Str(AbsoluteUrl(site.baseUrl, Attr(t.value, "href"))))
  {
    var m := WithTitle(map[], site, t);
    TitleFields(site, t);
    var m' := WithText(WithText(WithText(m, Company, c), Location, l), Salary, s);
    var r := Stamped(m', Str(scrapedAt), Str("Indeed " + site.name), Str("Indeed Scraper"));
    assert BasicFrom(site, scrapedAt, t, c, l, s) == r;
    KeepsKey(m, m', r, Title);
    KeepsKey(m, m', r, Url);
    KeepsKey(m, m', r, JobId);
  }

  /** A key `r` has exactly as `m` does, when it reaches `r` through `m'` unchanged. */
  lemma KeepsKey(m: Record, m': Record, r: Record, k: Key)
    requires (k in m' <==> k in m) && (k in m ==> m'[k] == m[k])
    requires (k in r <==> k in m') && (k in m' ==> r[k] == m'[k])
    ensures (k in r <==> k in m) && (k in m ==> r[k] == m[k])
  {
  }

  /** The title fields alone: set exactly when a title matched, the url only with a non-empty href. */
  lemma TitleFields(site: Site, t: Option<Elem>)
    ensures var m := WithTitle(map[], site, t);
            && (Title in m <==> t.Some?)
            && (JobId in m <==> t.Some?)
            && (t.Some? ==> m[Title] == Str(TitleText(t.value)) && m[JobId] == Str(Attr(t.value, "data-jk")))
            && (Url in m <==> t.Some? && Attr(t.value, "href") != "")
            && (Url in m ==> m[Url] == Str(AbsoluteUrl(site.baseUrl, Attr(t.value, "href"))))
  {
  }

  /** The bookkeeping fields of a basic record are always set, and no key outside the basic ones appears. */
  lemma BasicFromStamps(site: Site, scrapedAt: string, t: Option<Elem>, c: Option<Elem>, l: Option<Elem>, s: Option<Elem>)
    ensures var r := BasicFrom(site, scrapedAt, t, c, l, s);
            && r.Keys <= BasicKeys
            && ScrapedAt in r && Source in r && ScraperMethod in r
            && r[ScrapedAt] == Str(scrapedAt) && r[Source] == Str("Indeed " + site.name)
            && r[ScraperMethod] == Str("Indeed Scraper")
  {
    var m := WithTitle(map[], site, t);
    var m3 := WithText(WithText(WithText(m, Company, c), Location, l), Salary, s);
    assert BasicFrom(site, scrapedAt, t, c, l, s)
        == Stamped(m3, Str(scrapedAt), Str("Indeed " + site.name), Str("Indeed Scraper"));
    assert m.Keys <= {Title, Url, JobId};
  }

  /** The company, location and salary fields of a basic record, given what their chains resolved to. */
  lemma BasicFromOthers(site: Site, scrapedAt: string, t: Option<Elem>, c: Option<Elem>, l: Option<Elem>, s: Option<Elem>)
    ensures var r := BasicFrom(site, scrapedAt, t, c, l, s);
            && (Company in r <==> c.Some?) && (c.Some? ==> r[Company] == Str(c.value.text))
            && (Location in r <==> l.Some?) && (l.Some? ==> r[Location] == Str(l.value.text))
            && (Salary in r <==> s.Some?) && (s.Some? ==> r[Salary] == Str(s.value.text))
  {
    var m := WithTitle(map[], site, t);
    assert Company !in m && Location !in m && Salary !in m;
    assert BasicFrom(site, scrapedAt, t, c, l, s)
        == Stamped(WithText(WithText(WithText(m, Company, c), Location, l), Salary, s),
                   Str(scrapedAt), Str("Indeed " + site.name), Str("Indeed Scraper"));
    TextFields(m, c, l, s, Str(scrapedAt), Str("Indeed " + site.name), Str("Indeed Scraper"));
  }

  /** Setting the three text fields on a record that has none of them, then stamping it. */
  lemma TextFields(m: Record, c: Option<Elem>, l: Option<Elem>, s: Option<Elem>, at: Field, source: Field, how: Field)
    requires Company !in m && Location !in m && Salary !in m
    ensures var r := Stamped(WithText(WithText(WithText(m, Company, c), Location, l), Salary, s), at, source, how);
            && (Company in r <==> c.Some?) && (c.Some? ==> r[Company] == Str(c.value.text))
            && (Location in r <==> l.Some?) && (l.Some? ==> r[Location] == Str(l.value.text))
            && (Salary in r <==> s.Some?) && (s.Some? ==> r[Salary] == Str(s.value.text))
  {
    var m1 := WithText(m, Company, c);
    var m2 := WithText(m1, Location, l);
    var m3 := WithText(m2, Salary, s);
    var r := Stamped(m3, at, source, how);
    KeepsKey(m1, m2, m3, Company);
    KeepsKey(m2, m3, r, Location);
  }

  /**
   * The title comes from the first title selector whose element has a title
   * text longer than 2; its href, made absolute when it starts with `/`,
   * becomes `url` only when non-empty, and `job_id` is set with it.
   */
  lemma BasicTitle(site: Site, card: Card)
    ensures var r := BasicRecord(site, card);
            var t := Resolved(TitleSelectors, card.select, TitleGuard);
            && (Title in r <==> t.Some?)
            && (JobId in r <==> t.Some?)
            && (t.Some? ==> r[Title] == Str(TitleText(t.value)) && |TitleText(t.value)| > 2
                            && r[JobId] == Str(Attr(t.value, "data-jk")))
            && (Url in r <==> t.Some? && Attr(t.value, "href") != "")
            && (Url in r ==> r[Url] == Str(if StartsWith(Attr(t.value, "href"), "/")
                                           then site.baseUrl + Attr(t.value, "href")
                                           else Attr(t.value, "href")))
  {
    var t := Resolved(TitleSelectors, card.select, TitleGuard);
    var c := Resolved(CompanySelectors, card.select, LongerThan(1));
    var l := Resolved(LocationSelectors, card.select, LongerThan(1));
    var s := Resolved(SalarySelectors, card.select, HasDigitGuard);
    assert BasicRecord(site, card) == BasicFrom(site, card.scrapedAt, t, c, l, s);
    BasicFromTitle(site, card.scrapedAt, t, c, l, s);
  }

  /**
   * Company and location are kept only when longer than one character, the
   * salary only when it holds a digit; each from the first passing selector.
   * The bookkeeping fields are always there, and nothing else is.
   */
  lemma BasicGuards(site: Site, card: Card)
    ensures var r := BasicRecord(site, card);
            && r.Keys <= BasicKeys
            && ScrapedAt in r && Source in r && ScraperMethod in r
            && r[Source] == Str("Indeed " + site.name)
            && (Company in r <==> Resolved(CompanySelectors, card.select, LongerThan(1)).Some?)
            && (Company in r ==> r[Company].Str? && |r[Company].s| > 1)
            && (Location in r <==> Resolved(LocationSelectors, card.select, LongerThan(1)).Some?)
            && (Location in r ==> r[Location].Str? && |r[Location].s| > 1)
            && (Salary in r <==> Resolved(SalarySelectors, card.select, HasDigitGuard).Some?)
            && (Salary in r ==> r[Salary].Str? && HasDigit(r[Salary].s))
  {
    var t := Resolved(TitleSelectors, card.select, TitleGuard);
    var c := Resolved(CompanySelectors, card.select, LongerThan(1));
    var l := Resolved(LocationSelectors, card.select, LongerThan(1));
    var s := Resolved(SalarySelectors, card.select, HasDigitGuard);
    assert BasicRecord(site, card) == BasicFrom(site, card.scrapedAt, t, c, l, s);
    BasicFromStamps(site, card.scrapedAt, t, c, l, s);
    BasicFromOthers(site, card.scrapedAt, t, c, l, s);
    BasicFromGuards(site, card.scrapedAt, t, c, l, s);
  }

  /** The guards of the company, location and salary chains, read off the record built from their results. */
  lemma BasicFromGuards(site: Site, scrapedAt: string, t: Option<Elem>, c: Option<Elem>, l: Option<Elem>, s: Option<Elem>)
    requires c.Some? ==> Accepts(LongerThan(1), c.value)
    requires l.Some? ==> Accepts(LongerThan(1), l.value)
    requires s.Some? ==> Accepts(HasDigitGuard, s.value)
    ensures var r := BasicFrom(site, scrapedAt, t, c, l, s);
            && (Company in r ==> r[Company].Str? && |r[Company].s| > 1)
            && (Location in r ==> r[Location].Str? && |r[Location].s| > 1)
            && (Salary in r ==> r[Salary].Str? && HasDigit(r[Salary].s))
  {
    BasicFromOthers(site, scrapedAt, t, c, l, s);
  }
}
