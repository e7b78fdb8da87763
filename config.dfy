/**
 * The scraper's static configuration: supported country sites, the
 * date-filter table, and choosing the site when a scraper is created
 * (indeed_scraper.py lines 30-56).
 */
module Config {
  import opened Wrappers
  import opened Text

  datatype Country = Country(domain: string, name: string)

  /** Country code to site domain and display name. */
  const Countries: map<string, Country> := map[
    "AU" := Country("au.indeed.com", "Australia"),
    "IN" := Country("in.indeed.com", "India"),
    "US" := Country("indeed.com", "United States"),
    "UK" := Country("uk.indeed.com", "United Kingdom"),
    "CA" := Country("ca.indeed.com", "Canada"),
    "SG" := Country("sg.indeed.com", "Singapore"),
    "DE" := Country("de.indeed.com", "Germany"),
    "FR" := Country("fr.indeed.com", "France")
  ]

  /** Date-filter category to the value of the `fromage` query parameter. */
  const DateFilters: map<string, string> := map[
    "any" := "",
    "last_24_hours" := "1",
    "last_3_days" := "3",
    "last_7_days" := "7",
    "last_14_days" := "14",
    "last_30_days" := "30"
  ]

  /** What a scraper instance knows about the site it targets. */
  datatype Site = Site(code: string, baseUrl: string, name: string)

  datatype ConfigError = UnsupportedCountry(code: string)

  /**
   * The country lookup of the constructor: an unknown code is rejected,
   * a known one yields `https://` + its domain as base URL.
   */
  function ScraperSite(code: string): (r: Result<Site, ConfigError>)
    ensures r.Ok? <==> code in Countries
    ensures r.Err? ==> r.error == UnsupportedCountry(code)
    ensures r.Ok? ==> r.value.code == code && r.value.name == Countries[code].name
    ensures r.Ok? ==> StartsWith(r.value.baseUrl, "https://")
                      && r.value.baseUrl[|"https://"|..] == Countries[code].domain
  {
    if code !in Countries then Err(UnsupportedCountry(code))
    else
      var c := Countries[code];
      var url := "https://" + c.domain;
      assert url[..|"https://"|] == "https://";
      assert url[|"https://"|..] == c.domain;
      Ok(Site(code, url, c.name))
  }

  /** Different supported countries never share a base URL. */
  lemma SupportedSitesDistinct(a: string, b: string)
    requires a in Countries && b in Countries && a != b
    ensures ScraperSite(a).value.baseUrl != ScraperSite(b).value.baseUrl
  {
    assert Countries[a].domain != Countries[b].domain;
  }
}
