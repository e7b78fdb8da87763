# Indeed job scraper: decision logic

This project models the decision logic of `IndeedScraper`, a Selenium-driven
scraper of the Indeed job sites (`indeed_scraper.py`), and proves properties of it.
The browser, the HTML parser and the clock become inputs. What remains is
deterministic:

- **Site choice.** The constructor looks up the country code in the table of
  supported sites (`Config`).
- **Search URL.** `build_search_url` builds the ordered query-parameter list
  (`SearchUrl`). The URL library's percent-encoding is an input function.
- **Gate.** After navigating, `check_signin_required` and
  `wait_for_manual_signin` may run, then `wait_for_cloudflare_challenge`
  polls the page every three seconds until the results show or 120 seconds
  pass (`Gate`).
- **Basic pass.** For every job card, each field is taken from the first
  selector, in priority order, whose match passes that field's test
  (`Listing`).
- **Detail pass.** The scraper clicks the card's job link and reads the
  description, company profile, company size, benefits and requirements off
  the job page. An attempt that raises is retried up to three times
  (`Detail`).
- **Page extraction.** `extract_jobs_from_page` keeps the cards whose basic
  record has a title. It stamps each with its position, the page number and
  the country, and completes it with the detail record (`Page`).
- **Pagination.** `check_for_more_pages` and `go_to_next_page` (`Pagination`).
- **Page loop.** `scrape_all_pages` is a class `PageCursor` holding the
  counters, driven by a `while` loop. It is proved equal to a recursive
  specification `Run` over what each page yields (`Orchestrator`).
- **Output.** `save_results` sanitises the search terms for the file name
  and builds the CSV header, the sorted union of all record keys (`Output`).

`Resolver` holds the two loop shapes the scraper repeats everywhere. One is
"the first selector that passes wins" (`FirstAccepted`/`Scan`). The other is
"collect the passing entries, stop at a limit" (`Picked`/`Head`/`Collect`).
`Text` holds the Python string operations the scraper relies on.

### Behaviours of the code that are easy to misread (the model follows the code)

- **Detail attempts.** The detail pass makes up to four attempts: the first
  one, then three retries while `retry_count < 3`. It does not make three.
- **Challenge markers.** The Cloudflare wait looks for challenge markers in
  the page source only, never in the URL. The challenge test comes before the
  success test.
- **Sign-in outcome.** `navigate_to_jobs` ignores the result of the manual
  sign-in wait. Only the Cloudflare wait decides, and it starts once the
  sign-in wait has returned.
- **`max_pages`.** `None` and `0` set no page cap, because the code tests
  Python truthiness. A negative cap stops before page 1.
- **Page limit.** The safety test `page_num > 100` runs after advancing, so
  up to 101 pages are extracted.
- **Company size.** The line test `'employees' in line or 'employee' in line`
  is the same as `'employee' in line`.
- **Job link.** When no candidate link is displayed, the detail pass clicks
  the last element it found, not the first.

## Model

| member | source | states |
|---|---|---|
| Config.ScraperSite | indeed_scraper.py:50-56 | An unknown country code is rejected with an error naming it. A known code yields its display name and the base URL `https://` followed by the country's domain. |
| Config.SupportedSitesDistinct | indeed_scraper.py:30-39 | Two different supported countries never share a base URL. |
| SearchUrl.ParamsOrder | indeed_scraper.py:176-191 | The parameter keys come in the order q, l, from, then fromage, salary and jt (each only when used), then vjk. |
| SearchUrl.ParamsFixed | indeed_scraper.py:176-191 | q and l carry the title and location, from carries the fixed origin, and vjk carries the fixed view key. |
| SearchUrl.ParamFromage | indeed_scraper.py:182-183 | fromage is present exactly for a known date category other than `any`, with the table's value. |
| SearchUrl.ParamSalary | indeed_scraper.py:185-186 | salary is present exactly for a truthy minimum (not absent, not 0, not empty), with the minimum's decimal or text form and `+` appended. |
| SearchUrl.ParamJobType | indeed_scraper.py:188-189 | jt is present exactly for a truthy job type, with that type. |
| SearchUrl.ParamsValues | indeed_scraper.py:176-191 | q and l carry the title and location, and from carries the fixed origin. fromage is present exactly for a known date category other than `any`, with the table's value. salary is present exactly for a truthy minimum (not absent, not 0, not empty), with its formatted form and `+` appended. jt is present exactly for a truthy job type. vjk carries the fixed view key. |
| SearchUrl.ParamsRoundTrip | indeed_scraper.py:174-193 | Parsing the parameter list back gives the query with unused options normalised away, so the list loses nothing the URL can carry. |
| SearchUrl.Digits | indeed_scraper.py:186 | The decimal form of a whole number is non-empty and made of digits. |
| SearchUrl.DigitsRoundTrip | indeed_scraper.py:186 | Reading the digits of a whole number back gives the number. |
| SearchUrl.DecimalRoundTrip | indeed_scraper.py:186 | The signed decimal form of a whole number reads back as that number, so distinct amounts give distinct salary values. |
| SearchUrl.SearchUrlRoundTrip | indeed_scraper.py:193-194 | The URL lies under the site's `/jobs?` path and, with a decoder that undoes the encoder, reads back as the normalised query. |
| SearchUrl.ParamKeysDistinct | indeed_scraper.py:176-191 | No key occurs twice, so the ordered list is a faithful dictionary. |
| SearchUrl.LookupFirst | indeed_scraper.py:176-191 | A dictionary lookup on the list finds the first entry with that key. |
| SearchUrl.DateCategoryInverts | indeed_scraper.py:41-48 | The date-filter table is invertible on every category other than `any`. |
| Gate.CloudflareReadyMeans | indeed_scraper.py:138-162 | A poll ends the wait with success exactly when the page could be read, its source has no challenge marker, and the URL or source has a results marker. |
| Gate.WaitForCloudflareChallenge | indeed_scraper.py:131-172 | The wait returns true exactly when some poll made before the timeout, at 3-second steps, sees a ready page. A poll that shows a challenge marker never ends it. |
| Gate.SigninIgnoresCase | indeed_scraper.py:226-240 | Whether sign-in is required depends on the page source only, and only up to case. |
| Gate.SigninMarkersStay | indeed_scraper.py:226-240 | Once the lower-cased source holds "sign in", "login", "authentication", or both "verify" and "human", sign-in stays required whatever text is added around it. |
| Gate.SigninEndMeans | indeed_scraper.py:242-265 | The sign-in wait returns at the first 2-second poll showing a jobs URL and "search" in the source, if one comes before the timeout, and otherwise at the first poll time not before the timeout. |
| Gate.GateStartMeans | indeed_scraper.py:207-213 | The Cloudflare wait starts 3 seconds after navigating when no sign-in marker shows then. Otherwise it starts when the sign-in wait returns, at most 300 seconds later, and earlier exactly when sign-in completed. |
| Gate.WaitForManualSignin | indeed_scraper.py:242-265 | The wait succeeds exactly when a poll at 2-second steps before the timeout sees a jobs URL and "search" in the source. It reports when it returned, which is no earlier than the timeout when it fails. |
| Gate.NavigateToJobs | indeed_scraper.py:198-224 | The result is the Cloudflare wait's verdict on the screen of the built URL. That wait starts after the 3-second settle, and also after the sign-in wait when sign-in markers are present. |
| Resolver.FirstAccepted | indeed_scraper.py:484-494 | The index found is accepted, and no earlier index is. There is none exactly when no entry is accepted. |
| Resolver.Scan | indeed_scraper.py:425-431 | The selector loop with `break` returns the first accepted index. |
| Resolver.FirstAcceptedPrefix | indeed_scraper.py:284-290 | Entries after the first accepted one never change the result. |
| Resolver.Collect | indeed_scraper.py:373-378 | The append-until-limit loop returns the first `limit` picked entries, in order. |
| Resolver.Head | indeed_scraper.py:377-378 | The kept entries are a prefix of at most `limit` entries, and all of them when fewer than `limit` exist. |
| Resolver.PickedPrefix | indeed_scraper.py:373-378 | Picking from a prefix of the lines gives a prefix of what is picked from all of them. |
| Resolver.PickedNext | indeed_scraper.py:439-453 | One more entry adds its image at the end exactly when it is accepted. |
| Resolver.PickedMembers | indeed_scraper.py:373-376 | A picked value is exactly the image of some accepted entry. |
| Resolver.PickedIndices | indeed_scraper.py:439-453 | The indices of the accepted entries are in range, accepted, strictly increasing, and include every accepted entry. |
| Resolver.PickedAt | indeed_scraper.py:439-453 | The k-th picked value is the image of the k-th accepted entry. |
| Listing.Resolved | indeed_scraper.py:484-534 | A resolved element always passes the field's test. |
| Listing.ResolvedMeans | indeed_scraper.py:484-534 | A resolved element is the match of some selector that passes, with no earlier selector passing. The field is absent exactly when no selector of the chain passes. |
| Listing.Resolve | indeed_scraper.py:502-508 | The selector loop of one field returns the resolved element. |
| Listing.ResolvedIsFirst | indeed_scraper.py:484-494 | A passing selector with no earlier passing selector decides the field, whatever comes after it. |
| Listing.WithTitle | indeed_scraper.py:486-494 | Accepting a title changes only title, url and job_id. |
| Listing.WithText | indeed_scraper.py:504-508 | Accepting a field changes only that field. |
| Listing.ExtractBasicJobData | indeed_scraper.py:472-540 | The field-by-field fill equals the basic record of the card. |
| Listing.FillBasic | indeed_scraper.py:484-538 | The writes of the basic pass, once each chain is resolved, build the basic record. |
| Listing.BasicFromTitle | indeed_scraper.py:486-494 | title and job_id are present exactly when a title was accepted. url is present exactly when its href is non-empty, and is made absolute when the href starts with `/`. |
| Listing.TitleFields | indeed_scraper.py:486-494 | On an empty record, title and job_id are set exactly when a title matched, and url only when its href is non-empty. |
| Listing.BasicFromOthers | indeed_scraper.py:502-532 | company, location and salary are present exactly when resolved, with the element text. |
| Listing.TextFields | indeed_scraper.py:502-538 | On a record without them, setting company, location and salary and then the bookkeeping fields leaves each present exactly when resolved, with its text. |
| Listing.BasicFromStamps | indeed_scraper.py:535-538 | The three bookkeeping fields are always set to the scrape time, `Indeed <country>` and `Indeed Scraper`, and no key outside the basic ones appears. |
| Listing.BasicTitle | indeed_scraper.py:484-494 | On a card, the title is the first title text longer than 2, and url and job_id follow it as in the source. |
| Listing.BasicFromGuards | indeed_scraper.py:496-538 | When each chain's result passes its test, company and location in the record are longer than one character and salary holds a digit. |
| Listing.BasicGuards | indeed_scraper.py:496-538 | On a card, company and location are longer than one character and salary holds a digit. source is `Indeed <country>`, and only the basic keys appear. |
| Detail.LastFound | indeed_scraper.py:283-290 | With no displayed link, the loop variable is none exactly when no selector finds an element. Otherwise it is an element some selector found. |
| Detail.LinkChoiceMeans | indeed_scraper.py:283-294 | There is no link exactly when no selector finds one. With a displayed link, the first displayed one is chosen, and otherwise the last one found. |
| Detail.PickLink | indeed_scraper.py:283-290 | The link loop over a selector list returns the first displayed link, else the last element found. |
| Detail.CompanySizeLine | indeed_scraper.py:360-368 | The line loop returns the company size of the page. |
| Detail.EmployeesNamesEmployee | indeed_scraper.py:365 | The first disjunct of the line test implies the second. |
| Detail.SizeLineStripped | indeed_scraper.py:365-367 | A qualifying line still names "employee" and holds a digit once stripped. |
| Detail.CompanySizeFound | indeed_scraper.py:360-368 | A company size is the stripped form of a qualifying line of the lower-cased page, and the page says "employees". |
| Detail.CompanySizeMissing | indeed_scraper.py:362-368 | There is no size exactly when the page lacks "employees" or no line qualifies. |
| Detail.CompanySizeMeans | indeed_scraper.py:360-368 | Both directions together: a found size names "employee", holds a digit, and comes from a qualifying line. It is missing exactly when no line qualifies or the page never says "employees". |
| Detail.CollectBucket | indeed_scraper.py:370-393 | The benefits or requirements loop returns the bucket: the first five stripped qualifying lines. |
| Detail.KeywordListsSolid | indeed_scraper.py:370-383 | No keyword starts or ends with whitespace. |
| Detail.StripKeepsKeyword | indeed_scraper.py:374-376 | Stripping a qualifying line keeps the keyword that made it qualify. |
| Detail.BucketMeans | indeed_scraper.py:370-393 | A bucket holds at most five entries. Each is longer than the bucket's minimum, names a keyword case-insensitively, and is the stripped form of a qualifying line. A bucket that is not full holds every qualifying line. |
| Detail.DetailFromMeans | indeed_scraper.py:332-358 | Only the five detail keys appear. The description and profile are present exactly when found, with their text. |
| Detail.DetailFromFound | indeed_scraper.py:360-393 | company_size, benefits and job_requirements are present exactly when found. The buckets are joined with `"; "`. |
| Detail.TextPair | indeed_scraper.py:332-358 | Setting the description and then the profile on an empty record gives exactly those found, with their text. |
| Detail.WithFoundMeans | indeed_scraper.py:360-393 | The size and bucket writes set those keys when found and leave every other key as it was. |
| Detail.FoundKeeps | indeed_scraper.py:319-393 | Keys other than the size and buckets come from the text fields, so only detail keys appear. |
| Detail.DetailFieldsMeans | indeed_scraper.py:332-358 | The description is present exactly when some description selector finds text longer than 100 characters, and its value is the text of the first such selector's element. The profile likewise with its selectors and 20 characters. |
| Detail.DetailFieldsFound | indeed_scraper.py:360-393 | company_size is present exactly when a size is found. benefits and job_requirements are present exactly when their bucket is non-empty. |
| Detail.FillDetail | indeed_scraper.py:332-393 | The writes into `detailed_info` build the detail record of the resolved parts. |
| Detail.ReadDetailPage | indeed_scraper.py:319-393 | Reading an opened job page gives its detail fields. |
| Detail.ExtractDetailIn | indeed_scraper.py:267-405 | The recursive retry, for any list of link selectors, returns the detail record: empty without a link, else the fields of the first attempt that opens the job, and empty once all allowed attempts raise. |
| Detail.ExtractDetailedJobInfo | indeed_scraper.py:267-405 | With the detail pass's own link selectors, the retry returns the card's detail record. |
| Detail.RetrySucceeds | indeed_scraper.py:309-316 | The first attempt that opens the job decides the page, if it is among the four allowed. |
| Detail.RetryExhausted | indeed_scraper.py:309-316 | Four raising attempts (the first and three retries) leave no page. |
| Detail.AttemptsBeyondFourthUnused | indeed_scraper.py:269-316 | No attempt after the fourth is ever made: cards that agree on the first four attempts agree on the outcome. |
| Detail.DetailOutcome | indeed_scraper.py:267-405 | From the start, the record is empty without a link, and otherwise it is the fields of the first page opened. |
| Detail.DetailExhausted | indeed_scraper.py:398-405 | When all four attempts raise, the record is empty. |
| Detail.DetailKeysOnly | indeed_scraper.py:319-393 | A detail record holds only the five detail keys. |
| Page.PageCardsMeans | indeed_scraper.py:425-436 | The cards come from the first selector that finds any. There are none exactly when no selector finds one. |
| Page.Numbered | indeed_scraper.py:439 | Each card is paired with its position, counting from 1. |
| Page.FindCards | indeed_scraper.py:425-431 | The selector loop returns the page's cards. |
| Page.KeptMeans | indeed_scraper.py:445 | A card is kept exactly when its basic record has a title, and that title is a string longer than 2, so it is truthy. |
| Page.NumberedPicked | indeed_scraper.py:439-453 | Over cards numbered from 1, the k-th picked value is the image of the k-th accepted card, its number is its index plus one, and the numbers strictly increase. |
| Page.ProcessCard | indeed_scraper.py:443-453 | A card yields a record exactly when its basic record has a title. The record is the stamped basic record updated by the detail record. |
| Page.ExtractJobsFromPage | indeed_scraper.py:407-466 | The card loop returns the records of the kept cards, in order. |
| Page.JobFromMeans | indeed_scraper.py:445-451 | Stamping and the detail update keep every basic and every detail field, and the keys are exactly the basic keys, the detail keys and the three stamps. |
| Page.JobFromStamps | indeed_scraper.py:447-449 | The record carries the given position, page number and country, whatever the detail record holds. |
| Page.BasicDetailApart | indeed_scraper.py:445-451 | A basic key is neither a detail key nor one of the three stamps, and no detail key is a stamp. |
| Page.StampMerge | indeed_scraper.py:447-451 | Stamping a record and updating it with a record that shares none of its keys keeps both, and the keys are the union plus the stamps. |
| Page.JobRecordMeans | indeed_scraper.py:443-451 | A kept card's record holds its basic and detail fields and the three stamps, and nothing else. |
| Page.CardsJobsMeans | indeed_scraper.py:439-453 | There is one record per kept card index, never more records than cards, and the indices strictly increase, so no card is reported twice. |
| Page.NumberedPickedAt | indeed_scraper.py:439-453 | The k-th picked value is the record builder applied to the k-th accepted card and its 1-based position. |
| Page.CardsJobsAt | indeed_scraper.py:439-453 | The k-th record of a page is the record of the k-th kept card, stamped with that card's 1-based position and the page number, and that card is kept. |
| Page.KeptIndexAt | indeed_scraper.py:445 | The card at the k-th reported index is in range and kept. |
| Page.CardsJobsComplete | indeed_scraper.py:439-453 | Every kept card's index is among those reported. |
| Page.CardsJobsNext | indeed_scraper.py:439-453 | One more card appends its record, stamped with its 1-based position, exactly when it is kept. |
| Pagination.CheckForMorePages | indeed_scraper.py:546-572 | The check returns the first displayed and enabled control in selector order, with more reported. Failing that, any `start=` link reports more with no control. |
| Pagination.GoToNextPage | indeed_scraper.py:574-598 | Moving on succeeds exactly when there is more, a control was returned, and the click goes through. |
| Pagination.MoreCheckMeans | indeed_scraper.py:556-568 | More is reported exactly when some selector finds a usable control or a `start=` link exists. A control is returned exactly in the first case, and it is usable. |
| Pagination.AdvanceNeedsControl | indeed_scraper.py:574-590 | Moving on needs a usable control and a successful click. A page with only `start=` links reports more but cannot be left. |
| Orchestrator.RunFacts | indeed_scraper.py:613-649 | From any reachable loop state, the pages extracted lie between the current page and the 101-page bound and within the cap, the jobs are those of pages 1 to the last extracted, and every page in between continued. |
| Orchestrator.RunStops | indeed_scraper.py:626-649 | From any reachable loop state, the loop stops on failures exactly when three consecutive pages were empty. Each other stop has its cause on the last page: a page-cap stop happens only once the cap is reached, a safety stop only at page 101, a no-more stop only when the page reported no more, and a failed advance only when it reported more but could not move on. |
| Orchestrator.RunOutcome | indeed_scraper.py:613-649 | The jobs are the in-order concatenation of the extracted pages. At most `max_pages` pages (when truthy) and at most 101 are extracted. The loop stops on failures exactly when three consecutive pages were empty. A page-cap stop happens only once the cap is reached, a no-more stop only when the last page reported no more, a failed advance only when it reported more but could not move on, and a safety stop only at page 101. Every page before the last had more pages and advanced. |
| Orchestrator.PageCursor.constructor | indeed_scraper.py:613-614 | The counters start at 0 with no jobs. |
| Orchestrator.PageCursor.NextPage | indeed_scraper.py:617 | The page number goes up by one and nothing else changes. |
| Orchestrator.PageCursor.RecordPage | indeed_scraper.py:626-631 | A non-empty page is appended and resets the failure count. An empty one increments it. |
| Orchestrator.ExtractPage | indeed_scraper.py:624 | Extracting page `p` from the browser yields the jobs `obs` records for that page. |
| Orchestrator.HasMorePages | indeed_scraper.py:636 | The loop's more-pages check on page `p` yields the answer `obs` records. |
| Orchestrator.Advance | indeed_scraper.py:641 | The loop's advance from page `p` yields the answer `obs` records. |
| Orchestrator.ScrapeStep | indeed_scraper.py:616-649 | One pass of the loop body moves to the next page, stays within the 101-page bound while it continues, and either stops with the outcome `Run` predicts from the old state or leaves a state from which `Run` predicts the same outcome. |
| Orchestrator.ScrapePages | indeed_scraper.py:613-649 | The imperative loop over the cursor, driven by the browser's pages, returns the jobs of the recursive specification `Run` over `obs` from the initial state. |
| Orchestrator.ScrapeAllPages | indeed_scraper.py:600-660 | No jobs when the gate does not let the search through. Otherwise the jobs of the page loop. |
| Output.SafeChars | indeed_scraper.py:673 | The filter keeps only letters, digits, space, `-` and `_`, and never lengthens. |
| Output.SafeCharsAppend | indeed_scraper.py:673 | Filtering distributes over concatenation. |
| Output.SafeCharsKeepsSafe | indeed_scraper.py:673 | A string of safe characters passes the filter unchanged. |
| Output.SafeCharsMembers | indeed_scraper.py:673 | A character survives the filter exactly when it occurs in the input and is safe. |
| Output.SanitizeMeans | indeed_scraper.py:673-674 | A sanitised term holds only safe characters of the input and does not end in a space. It is a prefix of the filtered input, and only spaces are cut off. |
| Output.SanitizeIdempotent | indeed_scraper.py:673-674 | Sanitising twice is sanitising once. |
| Output.StrLessIrreflexive | indeed_scraper.py:702 | Python's string order is irreflexive. |
| Output.StrLessTransitive | indeed_scraper.py:702 | Python's string order is transitive. |
| Output.StrLessTotal | indeed_scraper.py:702 | Python's string order is total on distinct strings. |
| Output.Insert | indeed_scraper.py:697-702 | Adding a name to a strictly sorted header keeps it strictly sorted, with exactly the old names plus the new one. |
| Output.SortedUnique | indeed_scraper.py:702 | Two strictly sorted lists with the same members are equal, so `sorted` of a set is determined by the set. |
| Output.FieldSetMeans | indeed_scraper.py:697-699 | A name is in the field set exactly when it is a column name of some record. |
| Output.NamesSoFarNext | indeed_scraper.py:699 | Adding the name of the next key the record holds extends the names collected by exactly that key. |
| Output.NamesSoFarAll | indeed_scraper.py:699 | Once every key has been visited, the names collected are the old ones plus the record's column names. |
| Output.AddNames | indeed_scraper.py:699 | One record's update keeps the header strictly sorted and adds exactly that record's key names. |
| Output.AllKeysComplete | indeed_scraper.py:697-699 | The list the header loop walks holds every record key. |
| Output.FieldNames | indeed_scraper.py:697-702 | The header is strictly sorted and its names are exactly the union of the records' keys. |
| Output.HeaderIsSortedUnion | indeed_scraper.py:697-702 | Any strictly sorted list of the union is the header, and its names are exactly the column names of some record. |
| Output.SaveResults | indeed_scraper.py:666-702 | Nothing is saved for an empty result. Otherwise the file stem is `indeed_<code>_<safe title>_<safe location>_<date>_<timestamp>` and the header is the sorted key union. |
| Text.RStrip | indeed_scraper.py:673 | `rstrip` keeps a prefix that does not end in whitespace and cuts only whitespace. |
| Text.LStrip | indeed_scraper.py:367 | `lstrip` keeps a suffix that does not start with whitespace and cuts only whitespace. |
| Text.StripWindow | indeed_scraper.py:367 | `strip` keeps one window of the line containing every non-whitespace character. |
| Text.PrefixSuffix | indeed_scraper.py:367 | Cutting trailing whitespace and then leading whitespace leaves the window of the line between the two cuts, and every non-whitespace character lies inside it. |
| Text.WindowKeepsWord | indeed_scraper.py:374-376 | A word with non-whitespace ends, occurring in a line, occurs in any window of the line that holds every non-whitespace character, shifted by the window's start. |
| Text.StripKeepsWord | indeed_scraper.py:374-376 | A word without edge whitespace that occurs in a line still occurs once the line is stripped. |
| Text.WindowKeepsDigit | indeed_scraper.py:366-367 | A digit of a line lies in any window that holds every non-whitespace character. |
| Text.StripKeepsDigit | indeed_scraper.py:366-367 | A digit survives `strip`. |
| Text.ContainsWithin | indeed_scraper.py:229-233 | A substring found in a text is still found once text is added on either side. |
| Text.LowerStrip | indeed_scraper.py:374-376 | Lower-casing and stripping commute. |
| Text.Split | indeed_scraper.py:363 | `split('\n')` gives at least one piece, and no piece holds a line feed. |
| Text.JoinSplit | indeed_scraper.py:363 | Joining the pieces with line feeds gives the text back. |

## Left out

- Selenium and undetected-chromedriver setup, `implicitly_wait`, `scrollIntoView`, the JavaScript click fallback and `cleanup` (lines 62-91, 298-307, 580-589, 712-715). These are foreign browser calls. A click is an input that succeeds or raises (`Card.attempts`, `PageView.clickOk`).
- CSS selector matching and BeautifulSoup parsing are not modelled. `select_one`, `find_element` and `find_elements` are oracles from selector to element (`Card.select`, `Card.find`, `DetailPage.select`, `PageView.cards`, `PageView.next`).
- Session pickling, cookies and `save_session_data` (lines 93-129) are not modelled. They are file I/O and have no effect on the decisions.
- `time.sleep` and `random.uniform` delays are not modelled. The waits' wall clock is a poll counter: a poll happens at each multiple of the interval below the timeout, and a read of the page takes no time.
- `datetime.now()` is not modelled. `scraped_at` is a field of the card, and the file-name timestamp is a parameter.
- The exact percent-encoding of `urlencode(..., quote_via=quote_plus)` is not modelled. It is an input function applied to the ordered parameter list.
- Writing the JSON and CSV files, the JSON metadata, `print`, logging and `main` (lines 678-693, 703-710, 717-767) are I/O.
- Unicode `lower`, `isdigit` and `isalnum` are modelled on ASCII only. Python's tables are not available. Whitespace follows `str.isspace` in full.
- Text.Split: Python's `get_text()` output is the page text input, so HTML-to-text conversion is not modelled.
- Exceptions inside loops that the source swallows are not modelled separately, namely the per-card `except ... continue`, the per-selector `except Exception: continue` when looking for job cards, and the outer handlers returning what was collected. A failing selector reads as "no match". A card whose processing raises is not modelled.
- Detail.ExtractDetailedJobInfo: the link search is made again on each attempt, as in the source, but every attempt sees the same card. An exception other than "no such element" raised during the link search is treated like a failed attempt.
- The insertion order of Python dictionaries is not modelled. A record is a map from keys to values, so `job_data.update(...)` is map union, and the CSV column order comes from `sorted`.
- SearchUrl.AmountText: a salary minimum is absent, a whole number or a string. Floats and other Python types, and their formatting, are not modelled.
- Orchestrator.ScrapePages: the sleeps between pages, the progress output and the saved session are left out, and an exception escaping the loop (the critical-error path) is not modelled.
- Output.SaveResults: returns the plan of what would be written (file stem and CSV header) rather than writing files.
