/**
 * Extracting the jobs of one results page (indeed_scraper.py lines
 * 407-470): find the job cards with the first selector that matches any,
 * run the basic pass on each card, and keep the cards that yield a title,
 * stamped with their position, the page number and the country, and
 * completed by the detail pass.
 */
module Page {
  import opened Wrappers
  import opened Resolver
  import opened Config
  import opened Listing
  import opened Detail

  const JobSelectors: seq<string> := [
    ".job_seen_beacon", "div[data-jk]", ".jobsearch-SerpJobCard", ".result",
    "div[class*=\"job\"]", "td[id*=\"job\"]", "article[data-jk]", "li[data-jk]"
  ]

  /** A selector is used when it finds at least one card. */
  function HasCards(find: string -> seq<Card>): string -> bool {
    s => |find(s)| > 0
  }

  /** The cards of the first selector that finds any; none when no selector does. */
  function PageCards(find: string -> seq<Card>): seq<Card> {
    match FirstAccepted(JobSelectors, HasCards(find))
    case None => []
    case Some(i) => find(JobSelectors[i])
  }

  /** The cards come from the first selector, in order, that finds any; there are none only when no selector finds one. */
  lemma PageCardsMeans(find: string -> seq<Card>)
    ensures |PageCards(find)| == 0 <==> forall i :: 0 <= i < |JobSelectors| ==> |find(JobSelectors[i])| == 0
    ensures |PageCards(find)| > 0 ==>
              exists i :: 0 <= i < |JobSelectors| && PageCards(find) == find(JobSelectors[i])
                          && forall j :: 0 <= j < i ==> |find(JobSelectors[j])| == 0
  {
    var k := FirstAccepted(JobSelectors, HasCards(find));
    if k.Some? {
      assert HasCards(find)(JobSelectors[k.value]);
    } else {
      assert forall i :: 0 <= i < |JobSelectors| ==> !HasCards(find)(JobSelectors[i]);
    }
  }

  /** The record of a kept card: its basic record, stamped, then updated with its detail record. */
  function JobFrom(basic: Record, detail: Record, site: Site, position: nat, pageNum: nat): Record {
    basic[PositionOnPage := Num(position)][PageNumber := Num(pageNum)][CountryName := Str(site.name)] + detail
  }

  function JobRecord(site: Site, card: Card, position: nat, pageNum: nat): Record {
    JobFrom(BasicRecord(site, card), DetailRecord(card, 0), site, position, pageNum)
  }

  /** A card is kept when some title selector resolves: exactly when its basic record has a title. */
  predicate Kept(site: Site, card: Card) {
    Resolved(TitleSelectors, card.select, TitleGuard).Some?
  }

  /** A card is kept exactly when its basic record has a title, as the source tests it. */
  lemma KeptMeans(site: Site, card: Card)
    ensures Kept(site, card) <==> Title in BasicRecord(site, card)
    ensures Kept(site, card) ==> BasicRecord(site, card)[Title].Str? && |BasicRecord(site, card)[Title].s| > 2
  {
    BasicTitle(site, card);
  }

  /** The cards with their positions on the page, counting from 1. */
  function Numbered(cards: seq<Card>): (r: seq<(nat, Card)>)
    ensures |r| == |cards|
    ensures forall i :: 0 <= i < |cards| ==> r[i] == (i + 1, cards[i])
  {
    seq(|cards|, i requires 0 <= i < |cards| => (i + 1, cards[i]))
  }

  function KeptAt(site: Site): ((nat, Card)) -> bool {
    (p: (nat, Card)) => Kept(site, p.1)
  }

  function JobAt(site: Site, pageNum: nat): ((nat, Card)) -> Record {
    (p: (nat, Card)) => JobRecord(site, p.1, p.0, pageNum)
  }

  /** The record built for the card numbered `position`. */
  lemma JobAtMeans(site: Site, pageNum: nat, position: nat, card: Card)
    ensures JobAt(site, pageNum)((position, card)) == JobRecord(site, card, position, pageNum)
  {
  }

  /** The records of the kept cards, in page order. */
  function CardsJobs(site: Site, cards: seq<Card>, pageNum: nat): seq<Record> {
    Picked(Numbered(cards), KeptAt(site), JobAt(site, pageNum))
  }

  /** `extract_jobs_from_page` as a value. */
  function PageJobs(site: Site, find: string -> seq<Card>, pageNum: nat): seq<Record> {
    CardsJobs(site, PageCards(find), pageNum)
  }

  /** The selector loop that looks for the page's job cards. */
  method FindCards(find: string -> seq<Card>) returns (cards: seq<Card>)
    ensures cards == PageCards(find)
  {
    var sel := Scan(JobSelectors, HasCards(find));
    cards := if sel.None? then [] else find(JobSelectors[sel.value]);
  }

  /** The body of the card loop: the card's record if it is kept. */
  method ProcessCard(site: Site, card: Card, position: nat, pageNum: nat) returns (job: Option<Record>)
    ensures job == if Kept(site, card) then Some(JobRecord(site, card, position, pageNum)) else None
  {
    var basic := ExtractBasicJobData(site, card);
    BasicTitle(site, card);
    if Title !in basic {
      return None;
    }
    basic := basic[PositionOnPage := Num(position)][PageNumber := Num(pageNum)][CountryName := Str(site.name)];
    var detail := ExtractDetailedJobInfo(card, 0);
    return Some(basic + detail);
  }

  /** One more card adds its record at the end exactly when it is kept. */
  lemma CardsJobsNext(site: Site, cards: seq<Card>, pageNum: nat, i: nat)
    requires i < |cards|
    ensures CardsJobs(site, cards[..i + 1], pageNum)
            == CardsJobs(site, cards[..i], pageNum)
               + if Kept(site, cards[i]) then [JobRecord(site, cards[i], i + 1, pageNum)] else []
  {
    var numbered := Numbered(cards[..i + 1]);
    assert numbered[..i] == Numbered(cards[..i]);
    assert numbered[i] == (i + 1, cards[i]);
    PickedNext(numbered, KeptAt(site), JobAt(site, pageNum), i);
    assert numbered[..i + 1] == numbered;
  }

  /** `extract_jobs_from_page`: the selector scan, then the loop over the cards. */
  method ExtractJobsFromPage(site: Site, find: string -> seq<Card>, pageNum: nat) returns (jobs: seq<Record>)
    ensures jobs == PageJobs(site, find, pageNum)
  {
    jobs := [];
    var cards := FindCards(find);
    var i := 0;
    while i < |cards|
      invariant 0 <= i <= |cards|
      invariant jobs == CardsJobs(site, cards[..i], pageNum)
    {
      CardsJobsNext(site, cards, pageNum, i);
      var job := ProcessCard(site, cards[i], i + 1, pageNum);
      if job.Some? {
        jobs := jobs + [job.value];
      }
      i := i + 1;
    }
    assert cards[..i] == cards;
  }

  /**
   * Stamping keeps every basic field, sets position, page number and
   * country, and the detail update adds only detail fields.
   */
  lemma JobFromMeans(basic: Record, detail: Record, site: Site, position: nat, pageNum: nat)
    requires basic.Keys <= BasicKeys && detail.Keys <= DetailKeys
    ensures var r := JobFrom(basic, detail, site, position, pageNum);
            && (forall k :: k in basic ==> k in r && r[k] == basic[k])
            && (forall k :: k in detail ==> k in r && r[k] == detail[k])
            && r.Keys == basic.Keys + detail.Keys + {PositionOnPage, PageNumber, CountryName}
  {
    BasicDetailApart(basic, detail);
    StampMerge(basic, detail, Num(position), Num(pageNum), Str(site.name));
  }

  /** No basic key is a detail key or one of the three stamped keys. */
  lemma BasicDetailApart(basic: Record, detail: Record)
    requires basic.Keys <= BasicKeys && detail.Keys <= DetailKeys
    ensures forall k :: k in basic ==> k !in detail && k != PositionOnPage && k != PageNumber && k != CountryName
    ensures PositionOnPage !in detail && PageNumber !in detail && CountryName !in detail
  {
  }

  /** Stamping a record and updating it with one that shares none of its keys keeps both. */
  lemma StampMerge(basic: Record, detail: Record, position: Field, page: Field, country: Field)
    requires forall k :: k in basic ==> k !in detail && k != PositionOnPage && k != PageNumber && k != CountryName
    ensures var r := basic[PositionOnPage := position][PageNumber := page][CountryName := country] + detail;
            && (forall k :: k in basic ==> k in r && r[k] == basic[k])
            && (forall k :: k in detail ==> k in r && r[k] == detail[k])
            && r.Keys == basic.Keys + detail.Keys + {PositionOnPage, PageNumber, CountryName}
  {
  }

  /** The position, the page number and the country are those given, whatever the detail record holds. */
  lemma JobFromStamps(basic: Record, detail: Record, site: Site, position: nat, pageNum: nat)
    requires detail.Keys <= DetailKeys
    ensures var r := JobFrom(basic, detail, site, position, pageNum);
            && r[PositionOnPage] == Num(position) && r[PageNumber] == Num(pageNum)
            && r[CountryName] == Str(site.name)
  {
    assert PositionOnPage !in detail && PageNumber !in detail && CountryName !in detail;
  }

  /**
   * A kept card's record keeps every field of its basic record and of its
   * detail record, and carries its position, the page number and the
   * country name.
   */
  lemma JobRecordMeans(site: Site, card: Card, position: nat, pageNum: nat)
    ensures var r := JobRecord(site, card, position, pageNum);
            var basic := BasicRecord(site, card);
            var detail := DetailRecord(card, 0);
            && (forall k :: k in basic ==> k in r && r[k] == basic[k])
            && (forall k :: k in detail ==> k in r && r[k] == detail[k])
            && r[PositionOnPage] == Num(position) && r[PageNumber] == Num(pageNum)
            && r[CountryName] == Str(site.name)
            && r.Keys == basic.Keys + detail.Keys + {PositionOnPage, PageNumber, CountryName}
  {
    var basic := BasicRecord(site, card);
    var detail := DetailRecord(card, 0);
    BasicGuards(site, card);
    DetailKeysOnly(card, 0);
    JobFromMeans(basic, detail, site, position, pageNum);
    JobFromStamps(basic, detail, site, position, pageNum);
  }

  /** Picking from numbered cards, for any test and any record builder. */
  lemma {:induction false} NumberedPicked<U>(cards: seq<Card>, ok: ((nat, Card)) -> bool, f: ((nat, Card)) -> U)
    ensures var out := Picked(Numbered(cards), ok, f);
            var idx := PickedIndices(Numbered(cards), ok);
            && |out| == |idx| <= |cards|
            && (forall a, b :: 0 <= a < b < |idx| ==> idx[a] < idx[b])
            && (forall k :: 0 <= k < |idx| ==>
                  idx[k] < |cards| && ok((idx[k] + 1, cards[idx[k]])) && out[k] == f((idx[k] + 1, cards[idx[k]])))
            && (forall i :: 0 <= i < |cards| && ok((i + 1, cards[i])) ==> i in idx)
  {
    var numbered := Numbered(cards);
    PickedAt(numbered, ok, f);
    var idx := PickedIndices(numbered, ok);
    forall i | 0 <= i < |cards| && ok((i + 1, cards[i]))
      ensures i in idx
    {
      assert ok(numbered[i]);
    }
  }

  /**
   * The records of a page are those of the kept cards, in page order: one
   * record per kept card, and no card is reported twice.
   */
  lemma CardsJobsMeans(site: Site, cards: seq<Card>, pageNum: nat)
    ensures var idx := PickedIndices(Numbered(cards), KeptAt(site));
            && |CardsJobs(site, cards, pageNum)| == |idx| <= |cards|
            && (forall a, b :: 0 <= a < b < |idx| ==> idx[a] < idx[b])
  {
    NumberedPicked(cards, KeptAt(site), JobAt(site, pageNum));
  }

  /** The k-th value picked from numbered cards is the image of the k-th accepted card and its number. */
  lemma NumberedPickedAt(cards: seq<Card>, ok: ((nat, Card)) -> bool, f: ((nat, Card)) -> Record, k: nat)
    ensures var idx := PickedIndices(Numbered(cards), ok);
            k < |idx| ==>
              && idx[k] < |cards| && ok((idx[k] + 1, cards[idx[k]]))
              && k < |Picked(Numbered(cards), ok, f)|
              && Picked(Numbered(cards), ok, f)[k] == f((idx[k] + 1, cards[idx[k]]))
  {
    PickedAt(Numbered(cards), ok, f);
  }

  /** The k-th reported index is that of a kept card. */
  lemma KeptIndexAt(site: Site, cards: seq<Card>, k: nat)
    requires k < |PickedIndices(Numbered(cards), KeptAt(site))|
    ensures PickedIndices(Numbered(cards), KeptAt(site))[k] < |cards|
    ensures Kept(site, cards[PickedIndices(Numbered(cards), KeptAt(site))[k]])
  {
    var i := PickedIndices(Numbered(cards), KeptAt(site))[k];
    assert KeptAt(site)(Numbered(cards)[i]);
  }

  /** Every kept card is reported. */
  lemma CardsJobsComplete(site: Site, cards: seq<Card>, pageNum: nat)
    ensures var idx := PickedIndices(Numbered(cards), KeptAt(site));
            forall i :: 0 <= i < |cards| && Kept(site, cards[i]) ==> i in idx
  {
    NumberedPicked(cards, KeptAt(site), JobAt(site, pageNum));
  }

  /** The k-th record of a page is the record of the k-th kept card, stamped with that card's position. */
  lemma CardsJobsAt(site: Site, cards: seq<Card>, pageNum: nat, k: nat)
    requires k < |PickedIndices(Numbered(cards), KeptAt(site))|
    ensures var i := PickedIndices(Numbered(cards), KeptAt(site))[k];
            && i < |cards| && Kept(site, cards[i]) && k < |CardsJobs(site, cards, pageNum)|
            && CardsJobs(site, cards, pageNum)[k] == JobRecord(site, cards[i], i + 1, pageNum)
  {
    var i := PickedIndices(Numbered(cards), KeptAt(site))[k];
    NumberedPickedAt(cards, KeptAt(site), JobAt(site, pageNum), k);
    KeptIndexAt(site, cards, k);
    JobAtMeans(site, pageNum, i + 1, cards[i]);
  }
}
