/**
 * Building the search URL (indeed_scraper.py lines 174-196): an ordered
 * list of query parameters, percent-encoded by the URL library and appended
 * to `<base>/jobs?`. The encoder is a parameter of the model.
 */
module SearchUrl {
  import opened Wrappers
  import opened Config
  import opened Text

  /**
   * A search as the caller gives it. `jobType` is `None` or a string;
   * Python treats `None` and `""` as false.
   */
  datatype Query = Query(
    jobTitle: string,
    location: string,
    datePosted: string,
    salaryMin: Amount,
    jobType: Option<string>)

  /** The minimum salary: absent, a whole number, or text. */
  datatype Amount = NoAmount | Whole(n: int) | AsText(s: string)

  /** `if salary_min:` — `None`, `0` and `""` are false. */
  predicate Given(a: Amount) {
    match a
    case NoAmount => false
    case Whole(n) => n != 0
    case AsText(s) => s != ""
  }

  /** `f"{salary_min}"`: a whole number in decimal, text as it is. */
  function AmountText(a: Amount): string {
    match a
    case NoAmount => "None"
    case Whole(n) => DecimalText(n)
    case AsText(s) => s
  }

  function DigitChar(d: nat): char
    requires d < 10
  {
    ('0' as int + d) as char
  }

  predicate AllDigits(s: string) {
    forall i :: 0 <= i < |s| ==> IsDigit(s[i])
  }

  /** The decimal digits of `n`, most significant first, without leading zeros. */
  function Digits(n: nat): (r: string)
    ensures |r| > 0
    ensures AllDigits(r)
  {
    if n < 10 then [DigitChar(n)] else Digits(n / 10) + [DigitChar(n % 10)]
  }

  /** `str(n)` for an integer: a minus sign for negatives, then the digits. */
  function DecimalText(n: int): string {
    if n < 0 then "-" + Digits(-n) else Digits(n)
  }

  function DigitOf(c: char): nat
    requires IsDigit(c)
  {
    c as int - '0' as int
  }

  /** The number a string of decimal digits denotes. */
  function DigitsValue(s: string): nat
    requires AllDigits(s)
  {
    if |s| == 0 then 0 else DigitsValue(s[..|s| - 1]) * 10 + DigitOf(s[|s| - 1])
  }

  /** The number a decimal text with an optional minus sign denotes. */
  function DecimalValue(s: string): Option<int> {
    if |s| > 0 && s[0] == '-' && AllDigits(s[1..]) then Some(0 - DigitsValue(s[1..]) as int)
    else if AllDigits(s) then Some(DigitsValue(s))
    else None
  }

  /** Reading the digits back gives the number. */
  lemma {:induction false} DigitsRoundTrip(n: nat)
    ensures DigitsValue(Digits(n)) == n
    decreases n
  {
    if n >= 10 {
      DigitsRoundTrip(n / 10);
      var r := Digits(n);
      assert r[..|r| - 1] == Digits(n / 10);
    }
  }

  /** The decimal form of a whole number reads back as that number, so distinct amounts give distinct text. */
  lemma DecimalRoundTrip(n: int)
    ensures DecimalValue(DecimalText(n)) == Some(n)
  {
    var r := DecimalText(n);
    if n < 0 {
      DigitsRoundTrip(-n);
      assert r[0] == '-' && r[1..] == Digits(-n);
    } else {
      DigitsRoundTrip(n);
      assert r == Digits(n) && IsDigit(r[0]);
    }
  }

  type Param = (string, string)

  const ViewJobKey: string := "e71ea2dbddfc21aa"
  const SearchOrigin: string := "searchOnDesktopSerp"

  predicate Truthy(o: Option<string>) {
    o.Some? && o.value != ""
  }

  /** The date filter contributes `fromage` only for a known category other than `any`. */
  predicate UsesDateFilter(q: Query) {
    q.datePosted != "any" && q.datePosted in DateFilters
  }

  /** Dictionary lookup on an ordered parameter list. */
  function Lookup(ps: seq<Param>, key: string): Option<string> {
    if |ps| == 0 then None
    else if ps[0].0 == key then Some(ps[0].1)
    else Lookup(ps[1..], key)
  }

  function KeysOf(ps: seq<Param>): seq<string> {
    seq(|ps|, i requires 0 <= i < |ps| => ps[i].0)
  }

  /**
   * The parameter dictionary in insertion order: `q`, `l`, `from`, then the
   * optional `fromage`, `salary`, `jt`, and last the fixed `vjk`.
   */
  function Params(q: Query): seq<Param> {
    [("q", q.jobTitle), ("l", q.location), ("from", SearchOrigin)]
    + OptionalParams(q)
    + [("vjk", ViewJobKey)]
  }

  function OptionalParams(q: Query): seq<Param> {
    (if UsesDateFilter(q) then [("fromage", DateFilters[q.datePosted])] else [])
    + (if Given(q.salaryMin) then [("salary", AmountText(q.salaryMin) + "+")] else [])
    + (if Truthy(q.jobType) then [("jt", q.jobType.value)] else [])
  }

  /** Lookup finds the first entry carrying the key. */
  lemma {:induction false} LookupFirst(ps: seq<Param>, key: string, i: nat)
    requires i < |ps| && ps[i].0 == key
    requires forall j :: 0 <= j < i ==> ps[j].0 != key
    ensures Lookup(ps, key) == Some(ps[i].1)
  {
    if i > 0 {
      LookupFirst(ps[1..], key, i - 1);
    }
  }

  /** Lookup of a key no entry carries. */
  lemma {:induction false} LookupMissing(ps: seq<Param>, key: string)
    requires forall j :: 0 <= j < |ps| ==> ps[j].0 != key
    ensures Lookup(ps, key) == None
  {
    if |ps| > 0 {
      LookupMissing(ps[1..], key);
    }
  }

  /** The keys appear in the order q, l, from, [fromage], [salary], [jt], vjk. */
  lemma ParamsOrder(q: Query)
    ensures KeysOf(Params(q)) == ["q", "l", "from"]
                                 + (if UsesDateFilter(q) then ["fromage"] else [])
                                 + (if Given(q.salaryMin) then ["salary"] else [])
                                 + (if Truthy(q.jobType) then ["jt"] else [])
                                 + ["vjk"]
  {
  }

  /** The entries before the optional ones, and the fixed last one. */
  lemma ParamsFixed(q: Query)
    ensures Lookup(Params(q), "q") == Some(q.jobTitle)
    ensures Lookup(Params(q), "l") == Some(q.location)
    ensures Lookup(Params(q), "from") == Some(SearchOrigin)
    ensures Lookup(Params(q), "vjk") == Some(ViewJobKey)
  {
    var ps := Params(q);
    var n := |OptionalParams(q)|;
    assert forall j :: 3 <= j < 3 + n ==> ps[j] == OptionalParams(q)[j - 3];
    assert forall j :: 0 <= j < n ==> OptionalParams(q)[j].0 in {"fromage", "salary", "jt"};
    LookupFirst(ps, "q", 0);
    LookupFirst(ps, "l", 1);
    LookupFirst(ps, "from", 2);
    LookupFirst(ps, "vjk", 3 + n);
  }

  /** The keys as a lookup sees them. */
  lemma KeysAt(q: Query)
    ensures forall i :: 0 <= i < |Params(q)| ==> Params(q)[i].0 == KeysOf(Params(q))[i]
  {
  }

  /** `fromage` is present only for a known date category other than `any`. */
  lemma ParamFromage(q: Query)
    ensures Lookup(Params(q), "fromage") == if UsesDateFilter(q) then Some(DateFilters[q.datePosted]) else None
  {
    ParamsOrder(q);
    KeysAt(q);
    if UsesDateFilter(q) {
      LookupFirst(Params(q), "fromage", 3);
    } else {
      LookupMissing(Params(q), "fromage");
    }
  }

  /** `salary` is present only for a truthy minimum. */
  lemma ParamSalary(q: Query)
    ensures Lookup(Params(q), "salary") == if Given(q.salaryMin) then Some(AmountText(q.salaryMin) + "+") else None
  {
    ParamsOrder(q);
    KeysAt(q);
    var n := if UsesDateFilter(q) then 4 else 3;
    if Given(q.salaryMin) {
      LookupFirst(Params(q), "salary", n);
    } else {
      LookupMissing(Params(q), "salary");
    }
  }

  /** `jt` is present only for a truthy job type. */
  lemma ParamJobType(q: Query)
    ensures Lookup(Params(q), "jt") == if Truthy(q.jobType) then Some(q.jobType.value) else None
  {
    ParamsOrder(q);
    KeysAt(q);
    var n := 3 + (if UsesDateFilter(q) then 1 else 0) + (if Given(q.salaryMin) then 1 else 0);
    if Truthy(q.jobType) {
      LookupFirst(Params(q), "jt", n);
    } else {
      LookupMissing(Params(q), "jt");
    }
  }

  /**
   * What each key maps to: `fromage` only for a known date category other
   * than `any`, with the table's value; `salary` only for a truthy minimum,
   * suffixed with `+`; `jt` only for a truthy job type.
   */
  lemma ParamsValues(q: Query)
    ensures Lookup(Params(q), "q") == Some(q.jobTitle)
    ensures Lookup(Params(q), "l") == Some(q.location)
    ensures Lookup(Params(q), "from") == Some(SearchOrigin)
    ensures Lookup(Params(q), "fromage") == if UsesDateFilter(q) then Some(DateFilters[q.datePosted]) else None
    ensures Lookup(Params(q), "salary") == if Given(q.salaryMin) then Some(AmountText(q.salaryMin) + "+") else None
    ensures Lookup(Params(q), "jt") == if Truthy(q.jobType) then Some(q.jobType.value) else None
    ensures Lookup(Params(q), "vjk") == Some(ViewJobKey)
  {
    ParamsFixed(q);
    ParamFromage(q);
    ParamSalary(q);
    ParamJobType(q);
  }

  /** `f"{base_url}/jobs?{urlencode(params, quote_via=quote_plus)}"` */
  function BuildSearchUrl(site: Site, q: Query, encode: seq<Param> -> string): string {
    site.baseUrl + "/jobs?" + encode(Params(q))
  }

  /** The query as far as the URL can express it: unused options read as absent. */
  function Normalize(q: Query): Query {
    Query(q.jobTitle, q.location,
          if UsesDateFilter(q) then q.datePosted else "any",
          if Given(q.salaryMin) then AsText(AmountText(q.salaryMin)) else NoAmount,
          if Truthy(q.jobType) then q.jobType else None)
  }

  /** The date-filter category whose `fromage` value is `code`. */
  function DateCategory(code: string): string {
    if code == "1" then "last_24_hours"
    else if code == "3" then "last_3_days"
    else if code == "7" then "last_7_days"
    else if code == "14" then "last_14_days"
    else if code == "30" then "last_30_days"
    else "any"
  }

  /** Reads a search back from its parameter list. */
  function ParseParams(ps: seq<Param>): Option<Query> {
    match (Lookup(ps, "q"), Lookup(ps, "l"))
    case (Some(title), Some(loc)) =>
      var date := match Lookup(ps, "fromage") case Some(code) => DateCategory(code) case None => "any";
      var salary := match Lookup(ps, "salary")
        case Some(s) => if |s| > 0 && s[|s| - 1] == '+' then AsText(s[..|s| - 1]) else NoAmount
        case None => NoAmount;
      Some(Query(title, loc, date, salary, Lookup(ps, "jt")))
    case _ => None
  }

  lemma DateCategoryInverts(key: string)
    requires key in DateFilters && key != "any"
    ensures DateCategory(DateFilters[key]) == key
  {
  }

  /** The parameter list loses nothing the URL can carry: parsing it gives the normalised query. */
  lemma ParamsRoundTrip(q: Query)
    ensures ParseParams(Params(q)) == Some(Normalize(q))
  {
    ParamsValues(q);
    if UsesDateFilter(q) {
      DateCategoryInverts(q.datePosted);
    }
    if Given(q.salaryMin) {
      var s := AmountText(q.salaryMin) + "+";
      assert s[..|s| - 1] == AmountText(q.salaryMin);
    }
  }

  /** Reads a search back from a URL: it must lie under `<base>/jobs?`, and `decode` reads its query string. */
  function ParseSearchUrl(site: Site, url: string, decode: string -> Option<seq<Param>>): Option<Query> {
    var prefix := site.baseUrl + "/jobs?";
    if StartsWith(url, prefix) then
      match decode(url[|prefix|..])
      case Some(ps) => ParseParams(ps)
      case None => None
    else None
  }

  /**
   * The search URL lies under the site's `/jobs?` path and, with a query
   * string decoder that undoes the encoder, reads back as the normalised
   * query.
   */
  lemma SearchUrlRoundTrip(site: Site, q: Query, encode: seq<Param> -> string, decode: string -> Option<seq<Param>>)
    requires decode(encode(Params(q))) == Some(Params(q))
    ensures StartsWith(BuildSearchUrl(site, q, encode), site.baseUrl + "/jobs?")
    ensures ParseSearchUrl(site, BuildSearchUrl(site, q, encode), decode) == Some(Normalize(q))
  {
    var prefix := site.baseUrl + "/jobs?";
    var url := BuildSearchUrl(site, q, encode);
    assert url[..|prefix|] == prefix;
    assert url[|prefix|..] == encode(Params(q));
    ParamsRoundTrip(q);
  }

  /** Keys are never repeated, so the list is a faithful dictionary. */
  lemma ParamKeysDistinct(q: Query)
    ensures forall i, j :: 0 <= i < j < |Params(q)| ==> Params(q)[i].0 != Params(q)[j].0
  {
    ParamsOrder(q);
    var ks := KeysOf(Params(q));
    assert forall i :: 0 <= i < |Params(q)| ==> Params(q)[i].0 == ks[i];
  }
}
