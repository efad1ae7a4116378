/**
 * scripts/scrape_naukri.py: the page addresses searched, the cleaning of a
 * scraped company name, the company read from a job link's path, the choice
 * among the detail page, the job card and the link, and the job list kept
 * free of repeated links. The browser is not modelled: what it reads for a
 * job card is the `Card` given.
 */
module NaukriScraper {
  import opened Text
  import opened Patterns
  import opened Seqs

  const SEARCH_QUERY := "Lead Generation"
  const LOCATION := "India"
  const MAX_PAGES: nat := 50

  const UNKNOWN := "Unknown"

  const COMPANY_SUFFIXES: seq<string> :=
    ["Pvt Ltd", "Ltd", "Limited", "Services", "Solutions", "Technologies", "Group", "Enterprises", "India"]

  const JUNK_COMPANY_KEYWORDS: seq<string> := ["Years", "Confidential", "Unknown"]

  /** The junk keywords as `j.lower()` gives them. */
  const JUNK_LOWER: seq<string> := ["years", "confidential", "unknown"]

  lemma JunkLowered()
    ensures |JUNK_LOWER| == |JUNK_COMPANY_KEYWORDS|
    ensures forall i :: 0 <= i < |JUNK_LOWER| ==> JUNK_LOWER[i] == Lower(JUNK_COMPANY_KEYWORDS[i])
  {
    assert Lower(JUNK_COMPANY_KEYWORDS[0]) == JUNK_LOWER[0];
    assert Lower(JUNK_COMPANY_KEYWORDS[1]) == JUNK_LOWER[1];
    assert Lower(JUNK_COMPANY_KEYWORDS[2]) == JUNK_LOWER[2];
  }

  // ---------------------------------------------------------------- page URLs

  /** The query as it appears in the address: lower case, spaces made hyphens. */
  function QuerySlug(): string {
    ReplaceChar(Lower(SEARCH_QUERY), ' ', '-')
  }

  /** The address up to the page number. */
  function PagePrefix(): string {
    "https://www.naukri.com/" + QuerySlug() + "-jobs-in-" + Lower(LOCATION) + "-"
  }

  /** The search page for `page`: the hyphenated query, "-jobs-in-", the location, "-", the number. */
  function PageUrl(page: nat): string {
    "https://www.naukri.com/" + QuerySlug() + "-jobs-in-" + Lower(LOCATION) + "-" + NatText(page)
  }

  /** With the script's query and location, the address starts "https://www.naukri.com/lead-generation-jobs-in-india-". */
  lemma PageUrlText(page: nat)
    ensures QuerySlug() == "lead-generation" && Lower(LOCATION) == "india"
    ensures PageUrl(page) == PagePrefix() + NatText(page)
  {
    assert forall i :: 0 <= i < |SEARCH_QUERY| ==> QuerySlug()[i] == "lead-generation"[i];
    assert forall i :: 0 <= i < |LOCATION| ==> Lower(LOCATION)[i] == "india"[i];
  }

  /** Different pages have different addresses. */
  lemma PageUrlInjective(a: nat, b: nat)
    ensures PageUrl(a) == PageUrl(b) ==> a == b
  {
    var prefix := PagePrefix();
    PageUrlText(a);
    PageUrlText(b);
    if PageUrl(a) == PageUrl(b) {
      assert NatText(a) == PageUrl(a)[|prefix|..];
      assert NatText(b) == PageUrl(b)[|prefix|..];
      NatTextInjective(a, b);
    }
  }

  /** The addresses of pages 1 to `MAX_PAGES`, in the order they are visited. */
  function PageUrls(): (urls: seq<string>)
    ensures |urls| == MAX_PAGES
    ensures forall i :: 0 <= i < MAX_PAGES ==> urls[i] == PageUrl(i + 1)
  {
    seq(MAX_PAGES, i requires 0 <= i < MAX_PAGES => PageUrl(i + 1))
  }

  /** No page is visited twice. */
  lemma PageUrlsDistinct(i: nat, j: nat)
    requires i < j < MAX_PAGES
    ensures PageUrls()[i] != PageUrls()[j]
  {
    PageUrlInjective(i + 1, j + 1);
  }

  // ---------------------------------------------------------- company names

  /** `j.lower() in name.lower()` for some junk keyword `j`. */
  predicate HasJunk(name: string) {
    exists i :: 0 <= i < |JUNK_LOWER| && Contains(Lower(name), JUNK_LOWER[i])
  }

  /** `name = re.sub(rf'\b{suf}\b', '', name, flags=re.I).strip()` for each `suf` of `suffixes` in turn. */
  function DropSuffixes(suffixes: seq<string>, name: string): (r: string)
    ensures NoEdgeSpace(name) ==> NoEdgeSpace(r)
    ensures |r| <= |name|
  {
    if suffixes == [] then name
    else Strip(Sub(Word(suffixes[|suffixes| - 1]), DropSuffixes(suffixes[..|suffixes| - 1], name)))
  }

  /**
   * `clean_company_name(name)`: "Unknown" for an empty name, or when the
   * suffix removal leaves nothing or a junk keyword; otherwise the name with
   * every whitespace run made one space, and none at either end.
   */
  function NameClean(name: string): (r: string)
    ensures r != []
    ensures name == [] ==> r == UNKNOWN
    ensures NoEdgeSpace(r) && NoDoubleSpace(r)
    ensures forall k :: 0 <= k < |r| && IsSpace(r[k]) ==> r[k] == ' '
  {
    if name == [] then UNKNOWN
    else
      var n := DropSuffixes(COMPANY_SUFFIXES, Strip(name));
      if n == [] || HasJunk(n) then UNKNOWN else CollapseSpaces(n)
  }

  /** The junk keywords are non-empty and hold no whitespace. */
  lemma JunkSpaceless(i: nat)
    requires i < |JUNK_LOWER|
    ensures JUNK_LOWER[i] != [] && forall k :: 0 <= k < |JUNK_LOWER[i]| ==> !IsSpace(JUNK_LOWER[i][k])
  {
  }

  /** A junk-free text stays junk-free once its whitespace runs are collapsed. */
  lemma CollapseKeepsNoJunk(n: string)
    requires !HasJunk(n)
    ensures !HasJunk(CollapseSpaces(n))
  {
    LowerCollapseSpaces(n);
    forall i | 0 <= i < |JUNK_LOWER|
      ensures !Contains(Lower(CollapseSpaces(n)), JUNK_LOWER[i])
    {
      JunkSpaceless(i);
      CollapseSpacesContainsIf(Lower(n), JUNK_LOWER[i]);
    }
  }

  /** `CollapseSpacesContains` as an implication. */
  lemma CollapseSpacesContainsIf(s: string, w: string)
    requires w != [] && forall k :: 0 <= k < |w| ==> !IsSpace(w[k])
    ensures Contains(CollapseSpaces(s), w) ==> Contains(s, w)
  {
    if Contains(CollapseSpaces(s), w) {
      CollapseSpacesContains(s, w);
    }
  }

  /** A cleaned name is "Unknown" or holds none of the junk keywords, in any case. */
  lemma NameNoJunk(name: string)
    ensures NameClean(name) == UNKNOWN || !HasJunk(NameClean(name))
  {
    if name != [] {
      var n := DropSuffixes(COMPANY_SUFFIXES, Strip(name));
      if n != [] && !HasJunk(n) {
        CollapseKeepsNoJunk(n);
      }
    }
  }

  lemma LowerUnknown()
    ensures Lower(UNKNOWN) == "unknown"
  {
    var l := Lower(UNKNOWN);
    assert l[0] == 'u' && l[1] == 'n' && l[2] == 'k' && l[3] == 'n' && l[4] == 'o' && l[5] == 'w' && l[6] == 'n';
  }

  /** The first letter of every suffix is absent from "unknown". */
  lemma SuffixInitials(i: nat)
    requires i < |COMPANY_SUFFIXES|
    ensures COMPANY_SUFFIXES[i] != [] && LowerChar(COMPANY_SUFFIXES[i][0]) !in "unknown"
  {
  }

  /** Removing a word whose first letter "Unknown" lacks, then stripping, leaves "Unknown". */
  lemma DropAbsentKeepsUnknown(w: string)
    requires w != [] && LowerChar(w[0]) !in "unknown"
    ensures Strip(Sub(Word(w), UNKNOWN)) == UNKNOWN
  {
    LowerUnknown();
    WordAbsent(w, UNKNOWN);
    StripClean(UNKNOWN);
  }

  /** No suffix occurs in "Unknown": its first letter is not in the word. */
  lemma {:induction false} SuffixesKeepUnknown(i: nat)
    requires i <= |COMPANY_SUFFIXES|
    ensures DropSuffixes(COMPANY_SUFFIXES[..i], UNKNOWN) == UNKNOWN
  {
    if i > 0 {
      SuffixesKeepUnknown(i - 1);
      assert COMPANY_SUFFIXES[..i][..i - 1] == COMPANY_SUFFIXES[..i - 1];
      SuffixInitials(i - 1);
      DropAbsentKeepsUnknown(COMPANY_SUFFIXES[i - 1]);
    }
  }

  /** "Unknown" holds the junk keyword "unknown". */
  lemma UnknownIsJunk()
    ensures HasJunk(UNKNOWN)
  {
    LowerUnknown();
    assert Lower(UNKNOWN) == JUNK_LOWER[2];
    ContainsAt(Lower(UNKNOWN), JUNK_LOWER[2], 0);
  }

  /** Cleaning "Unknown" gives "Unknown" again: it holds the junk keyword "unknown". */
  lemma UnknownStays()
    ensures NameClean(UNKNOWN) == UNKNOWN
  {
    StripClean(UNKNOWN);
    SuffixesKeepUnknown(|COMPANY_SUFFIXES|);
    assert COMPANY_SUFFIXES[..|COMPANY_SUFFIXES|] == COMPANY_SUFFIXES;
    UnknownIsJunk();
  }

  /** The suffix loop of `clean_company_name`: one substitution and strip per suffix, in order. */
  method StripSuffixes(suffixes: seq<string>, name: string) returns (n: string)
    ensures n == DropSuffixes(suffixes, name)
  {
    n := name;
    for i := 0 to |suffixes|
      invariant n == DropSuffixes(suffixes[..i], name)
    {
      assert suffixes[..i + 1][..i] == suffixes[..i];
      n := Strip(Sub(Word(suffixes[i]), n));
    }
    assert suffixes[..|suffixes|] == suffixes;
  }

  /** `clean_company_name` as the script runs it. */
  method CleanCompanyName(name: string) returns (r: string)
    ensures r == NameClean(name)
  {
    if name == [] {
      return UNKNOWN;
    }
    var n := StripSuffixes(COMPANY_SUFFIXES, Strip(name));
    if n == [] || HasJunk(n) {
      return UNKNOWN;
    }
    r := CollapseSpaces(n);
  }

  /** `parts[2:-3]`: empty unless there are more than five parts. */
  function Middle(parts: seq<string>): (m: seq<string>)
    ensures |parts| <= 5 ==> m == []
    ensures |parts| > 5 ==> m == parts[2..|parts| - 3]
  {
    if |parts| > 5 then parts[2..|parts| - 3] else []
  }

  /**
   * `extract_company_from_link(link)`, given the link's path: "Unknown" for an
   * empty link or a path of at most five hyphen-separated parts; otherwise
   * the cleaned, title-cased, space-joined middle parts.
   */
  function FromLink(link: string, path: string): (r: string)
    ensures link == [] || |Split(path, '-')| <= 5 ==> r == UNKNOWN
    ensures link != [] && |Split(path, '-')| > 3 ==> r == NameClean(Title(Join(" ", Middle(Split(path, '-')))))
  {
    if link == [] then UNKNOWN
    else
      var parts := Split(path, '-');
      if |parts| > 3 then NameClean(Title(Join(" ", Middle(parts)))) else UNKNOWN
  }

  // ------------------------------------------------------------------ jobs

  /**
   * What the browser read for one job card: its title, link, location, the
   * company line of its detail page ("" when there is none or the page
   * failed), the company text on the card ("" when absent), and the path of
   * the link.
   */
  datatype Card = Card(title: string, link: string, location: string,
                       detailCompany: string, cardCompany: string, path: string)

  datatype Job = Job(title: string, company: string, location: string, link: string)

  /** A company text that cannot be used: empty or holding a junk keyword. */
  predicate Unusable(company: string) {
    company == [] || HasJunk(company)
  }

  /** The job card's company text without numbers and year words, or else the link's company. */
  function Fallback(card: Card): string {
    var c := Strip(Sub(CountWords, card.cardCompany));
    if Unusable(c) then FromLink(card.link, card.path) else c
  }

  /** The company recorded for a card: the detail page's when usable, else the fallback, cleaned. */
  function CompanyFor(card: Card): (r: string)
    ensures r != [] && NoEdgeSpace(r) && NoDoubleSpace(r)
    ensures r == UNKNOWN || !HasJunk(r)
  {
    var detail := if card.link != [] then card.detailCompany else "";
    var c := if Unusable(detail) then Fallback(card) else detail;
    NameNoJunk(c);
    NameClean(c)
  }

  /** A usable detail-page company is the one cleaned and kept. */
  lemma DetailWins(card: Card)
    requires card.link != [] && !Unusable(card.detailCompany)
    ensures CompanyFor(card) == NameClean(card.detailCompany)
  {
  }

  /** Without a link and without a usable card text, the company is "Unknown". */
  lemma NoLinkNoCard(card: Card)
    requires card.link == [] && Unusable(Strip(Sub(CountWords, card.cardCompany)))
    ensures CompanyFor(card) == UNKNOWN
  {
    UnknownStays();
  }

  /** The card text that is kept has no digit left. */
  lemma FallbackNoDigit(card: Card)
    requires !Unusable(Strip(Sub(CountWords, card.cardCompany)))
    ensures forall k :: 0 <= k < |Fallback(card)| ==> !IsDigit(Fallback(card)[k])
  {
    var t := card.cardCompany;
    assert t[0..] == t;
    CountWordsNoDigit(t, 0);
    StripInfix(Sub(CountWords, t));
    InfixKeeps(Strip(Sub(CountWords, t)), Sub(CountWords, t));
  }

  /** The record appended for a card whose cleaned company is `company`; every field but the link is stripped. */
  function JobOf(card: Card, company: string): Job {
    Job(Strip(card.title), Strip(company), Strip(card.location), card.link)
  }

  /** The company of a record is the cleaned company itself: it has no edge whitespace to strip. */
  lemma JobCompany(card: Card)
    ensures JobOf(card, CompanyFor(card)).company == CompanyFor(card)
  {
    StripClean(CompanyFor(card));
  }

  function LinkOf(j: Job): string { j.link }

  /** The record the scraping loop builds for a card: its company chosen and cleaned as `CompanyFor` says. */
  function Scraped(card: Card): (job: Job)
    ensures job.link == card.link
  {
    JobOf(card, CompanyFor(card))
  }

  /** The records of the cards, in order, each built by `recordOf`. */
  function JobsOf(cards: seq<Card>, recordOf: Card -> Job): (jobs: seq<Job>)
    ensures |jobs| == |cards| && forall i :: 0 <= i < |cards| ==> jobs[i] == recordOf(cards[i])
  {
    seq(|cards|, i requires 0 <= i < |cards| => recordOf(cards[i]))
  }

  /**
   * The job list built over the cards of all pages, in order, each card's
   * record built by `recordOf`: a record whose link is already in the list
   * is skipped.
   */
  method CollectJobs(cards: seq<Card>, recordOf: Card -> Job) returns (jobs: seq<Job>)
    ensures jobs == DedupBy(JobsOf(cards, recordOf), LinkOf)
  {
    jobs := [];
    for i := 0 to |cards|
      invariant jobs == DedupBy(JobsOf(cards, recordOf)[..i], LinkOf)
    {
      var job := recordOf(cards[i]);
      DedupByPrefixStep(JobsOf(cards, recordOf), i, LinkOf);
      if HasKey(jobs, LinkOf, job.link) {
        continue;
      }
      jobs := jobs + [job];
    }
    TakeAll(JobsOf(cards, recordOf));
  }

  /** The scraping loop: every card's record is the one `Scraped` describes. */
  method ScrapeJobs(cards: seq<Card>) returns (jobs: seq<Job>)
    ensures jobs == DedupBy(JobsOf(cards, Scraped), LinkOf)
  {
    jobs := CollectJobs(cards, Scraped);
  }

  /**
   * For records that keep their card's link: the collected jobs have pairwise
   * different links, and every card's link is among them.
   */
  lemma CollectedLinks(cards: seq<Card>, recordOf: Card -> Job)
    requires forall c :: recordOf(c).link == c.link
    ensures DistinctKeys(DedupBy(JobsOf(cards, recordOf), LinkOf), LinkOf)
    ensures forall c :: c in cards ==> HasKey(DedupBy(JobsOf(cards, recordOf), LinkOf), LinkOf, c.link)
  {
    var jobs := JobsOf(cards, recordOf);
    forall c | c in cards ensures HasKey(jobs, LinkOf, c.link) {
      var i :| 0 <= i < |cards| && cards[i] == c;
      assert LinkOf(jobs[i]) == c.link;
    }
  }

  /** For records that keep their card's link: each collected job is the record of the first card with its link. */
  lemma CollectedFirst(cards: seq<Card>, recordOf: Card -> Job, n: nat)
    requires forall c :: recordOf(c).link == c.link
    requires n < |DedupBy(JobsOf(cards, recordOf), LinkOf)|
    ensures var job := DedupBy(JobsOf(cards, recordOf), LinkOf)[n];
            exists i :: 0 <= i < |cards| && job == recordOf(cards[i])
                        && forall j :: 0 <= j < i ==> cards[j].link != job.link
  {
    var jobs := JobsOf(cards, recordOf);
    DedupByFirst(jobs, LinkOf, n);
    var job := DedupBy(jobs, LinkOf)[n];
    var i := FirstIndex(jobs, LinkOf, job.link);
    assert job == jobs[i];
    assert forall j :: 0 <= j < i ==> LinkOf(jobs[j]) == cards[j].link != job.link;
  }

  /** The scraped jobs have pairwise different links, and every card's link is among them. */
  lemma ScrapedLinks(cards: seq<Card>)
    ensures DistinctKeys(DedupBy(JobsOf(cards, Scraped), LinkOf), LinkOf)
    ensures forall c :: c in cards ==> HasKey(DedupBy(JobsOf(cards, Scraped), LinkOf), LinkOf, c.link)
  {
    CollectedLinks(cards, Scraped);
  }
}
