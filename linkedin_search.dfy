/**
 * scripts/linkedin_search.py: the LinkedIn company links a website's page
 * offers, the employee count read from a LinkedIn page's text, and one record
 * per distinct (company, website) pair. The page fetches are parameters; the
 * href list and the page text stand for what BeautifulSoup extracts.
 */
module LinkedinSearch {
  import opened Wrappers
  import opened Text
  import opened Json
  import opened Search
  import opened Seqs

  const COMPANY_MARK := "linkedin.com/company"

  /** The identity, as the key of a duplicate check on whole values. */
  function Self<T>(x: T): T { x }

  lemma HasSelf<T(!new)>(xs: seq<T>, x: T)
    ensures HasKey(xs, Self, x) <==> x in xs
  {
    if x in xs {
      var i :| 0 <= i < |xs| && xs[i] == x;
      assert Self(xs[i]) == x;
    }
  }

  // ---------------------------------------------------------------- links

  /** `href.split("?")[0]`. */
  function CutQuery(href: string): (r: string)
    ensures r <= href && '?' !in r
    ensures '?' !in href ==> r == href
    ensures '?' in href ==> href[|r|] == '?'
  {
    SplitHead(href, '?');
    Split(href, '?')[0]
  }

  predicate IsCompanyLink(href: string) {
    Contains(href, COMPANY_MARK)
  }

  /** The truncated company links, in page order, duplicates included. */
  function Kept(hrefs: seq<string>): (r: seq<string>)
    ensures |r| <= |hrefs|
  {
    if hrefs == [] then []
    else
      var h := hrefs[|hrefs| - 1];
      Kept(hrefs[..|hrefs| - 1]) + (if IsCompanyLink(h) then [CutQuery(h)] else [])
  }

  lemma {:induction false} KeptHas(hrefs: seq<string>, x: string)
    ensures x in Kept(hrefs) <==> exists i :: 0 <= i < |hrefs| && IsCompanyLink(hrefs[i]) && CutQuery(hrefs[i]) == x
  {
    if hrefs != [] {
      var init := hrefs[..|hrefs| - 1];
      KeptHas(init, x);
      assert forall i :: 0 <= i < |init| ==> init[i] == hrefs[i];
      if exists i :: 0 <= i < |hrefs| && IsCompanyLink(hrefs[i]) && CutQuery(hrefs[i]) == x {
        var i :| 0 <= i < |hrefs| && IsCompanyLink(hrefs[i]) && CutQuery(hrefs[i]) == x;
        if i < |init| {
          assert IsCompanyLink(init[i]) && CutQuery(init[i]) == x;
        }
      }
    }
  }

  /** What `extract_linkedin_from_website` returns for a page with these hrefs. */
  function LinkedinLinks(hrefs: seq<string>): seq<string> {
    DedupBy(Kept(hrefs), Self)
  }

  /**
   * The links are exactly the truncations of the hrefs containing
   * "linkedin.com/company", none has a "?", and no link appears twice.
   */
  lemma LinkedinLinksFacts(hrefs: seq<string>)
    ensures forall x :: x in LinkedinLinks(hrefs) <==>
              exists i :: 0 <= i < |hrefs| && IsCompanyLink(hrefs[i]) && CutQuery(hrefs[i]) == x
    ensures forall x :: x in LinkedinLinks(hrefs) ==> '?' !in x
    ensures forall i, j :: 0 <= i < j < |LinkedinLinks(hrefs)| ==> LinkedinLinks(hrefs)[i] != LinkedinLinks(hrefs)[j]
  {
    var k := Kept(hrefs);
    var r := LinkedinLinks(hrefs);
    forall x ensures x in r <==> exists i :: 0 <= i < |hrefs| && IsCompanyLink(hrefs[i]) && CutQuery(hrefs[i]) == x {
      HasSelf(r, x);
      HasSelf(k, x);
      KeptHas(hrefs, x);
    }
    forall i, j | 0 <= i < j < |r| ensures r[i] != r[j] {
      assert Self(r[i]) != Self(r[j]);
    }
  }

  /** Links keep the order of their first occurrence on the page. */
  lemma LinkedinLinksOrder(hrefs: seq<string>, a: nat, b: nat)
    requires a < b < |LinkedinLinks(hrefs)|
    ensures HasKey(Kept(hrefs), Self, LinkedinLinks(hrefs)[a]) && HasKey(Kept(hrefs), Self, LinkedinLinks(hrefs)[b])
    ensures FirstIndex(Kept(hrefs), Self, LinkedinLinks(hrefs)[a]) < FirstIndex(Kept(hrefs), Self, LinkedinLinks(hrefs)[b])
  {
    DedupByOrder(Kept(hrefs), Self, a, b);
  }

  /**
   * A "?" before the marker cuts the marker off: the kept link is then only the
   * text before the "?", which need not be a LinkedIn link at all.
   */
  lemma CutBeforeMark(a: string, b: string)
    requires '?' !in a && IsCompanyLink(b)
    ensures IsCompanyLink(a + "?" + b)
    ensures CutQuery(a + "?" + b) == a
  {
    var h := a + "?" + b;
    assert h[|a| + 1..] == b;
    ContainsSuffix(h, |a| + 1, COMPANY_MARK);
    var r := CutQuery(h);
    assert h[|a|] == '?';
    assert forall k :: 0 <= k < |r| ==> h[k] == r[k];
    assert forall k :: 0 <= k < |a| ==> h[k] == a[k];
    assert r == h[..|a|];
  }

  /** The href loop: truncate each company link and append it unless already there. */
  method ExtractLinks(hrefs: seq<string>) returns (links: seq<string>)
    ensures links == LinkedinLinks(hrefs)
  {
    links := [];
    for i := 0 to |hrefs|
      invariant links == LinkedinLinks(hrefs[..i])
    {
      var href := hrefs[i];
      KeptStep(hrefs, i);
      if IsCompanyLink(href) {
        var cut := CutQuery(href);
        DedupByStep(Kept(hrefs[..i]), cut, Self);
        HasSelf(links, cut);
        if cut !in links {
          links := links + [cut];
        }
        assert links == DedupBy(Kept(hrefs[..i]) + [cut], Self);
      } else {
        assert Kept(hrefs[..i]) + [] == Kept(hrefs[..i]);
      }
      assert links == DedupBy(Kept(hrefs[..i + 1]), Self);
    }
    assert hrefs[..|hrefs|] == hrefs;
  }

  lemma KeptStep(hrefs: seq<string>, i: nat)
    requires i < |hrefs|
    ensures Kept(hrefs[..i + 1]) == Kept(hrefs[..i]) + (if IsCompanyLink(hrefs[i]) then [CutQuery(hrefs[i])] else [])
  {
    assert hrefs[..i + 1][..i] == hrefs[..i];
  }

  /** `extract_linkedin_from_website`: no links unless the page was fetched with status 200. */
  method ExtractLinkedin(page: Fetch<seq<string>>) returns (links: seq<string>)
    ensures links == PageLinks(page)
  {
    if page.Failure? || page.status != 200 {
      return [];
    }
    links := ExtractLinks(page.body);
  }

  function PageLinks(page: Fetch<seq<string>>): (r: seq<string>)
    ensures (page.Failure? || page.status != 200) ==> r == []
  {
    if page.Response? && page.status == 200 then LinkedinLinks(page.body) else []
  }

  // ---------------------------------------------------------------- size

  predicate IsCountChar(c: char) { IsDigit(c) || c == ',' }

  /** Length of the leading run of digits and commas. */
  function CountRun(s: string): (n: nat)
    ensures n <= |s|
    ensures forall k :: 0 <= k < n ==> IsCountChar(s[k])
    ensures n < |s| ==> !IsCountChar(s[n])
  {
    if s != [] && IsCountChar(s[0]) then 1 + CountRun(s[1..]) else 0
  }

  /** "employees", in any case, at position `m`. */
  predicate EmployeesAt(t: string, m: nat) {
    m + 9 <= |t| && Lower(t[m..m + 9]) == "employees"
  }

  /**
   * `([\d,]+)\s+employees` (ignoring case) matches at `i`. Both runs are taken
   * whole: giving back a digit or a blank leaves one where the next token must
   * start, so no backtracking can succeed where the greedy take fails.
   */
  predicate CountMatchAt(t: string, i: nat)
    requires i <= |t|
  {
    i < |t| && IsCountChar(t[i]) &&
    var j := i + CountRun(t[i..]);
    var m := j + SpaceRun(t[j..]);
    m > j && EmployeesAt(t, m)
  }

  /** The least `k` with `i <= k < n` and `p(k)`, if any. */
  function FirstFrom(p: nat -> bool, i: nat, n: nat): (r: Option<nat>)
    ensures r.Some? ==> i <= r.value < n
    decreases n - i
  {
    if i >= n then None
    else if p(i) then Some(i)
    else FirstFrom(p, i + 1, n)
  }

  lemma {:induction false} FirstFromFacts(p: nat -> bool, i: nat, n: nat)
    ensures var r := FirstFrom(p, i, n);
            (r.Some? ==> p(r.value) && forall k :: i <= k < r.value ==> !p(k))
            && (r.None? ==> forall k :: i <= k < n ==> !p(k))
    decreases n - i
  {
    if i < n && !p(i) {
      FirstFromFacts(p, i + 1, n);
    }
  }

  lemma FirstFromIs(p: nat -> bool, n: nat, m: nat)
    requires m < n && p(m) && forall k :: 0 <= k < m ==> !p(k)
    ensures FirstFrom(p, 0, n) == Some(m)
  {
    FirstFromFacts(p, 0, n);
  }

  function Matches(t: string): nat -> bool {
    (k: nat) => k <= |t| && CountMatchAt(t, k)
  }

  /** The leftmost match, where `re.search` finds it. */
  function FirstCountMatch(t: string): (r: Option<nat>)
    ensures r.Some? ==> r.value < |t|
  {
    FirstFrom(Matches(t), 0, |t|)
  }

  /** The match found is the leftmost one; with none found there is none. */
  lemma FirstCountMatchFacts(t: string)
    ensures var r := FirstCountMatch(t);
            (r.Some? ==> CountMatchAt(t, r.value) && forall k :: 0 <= k < r.value ==> !CountMatchAt(t, k))
            && (r.None? ==> forall k :: 0 <= k <= |t| ==> !CountMatchAt(t, k))
  {
    FirstFromFacts(Matches(t), 0, |t|);
    var r := FirstCountMatch(t);
    if r.Some? {
      forall k | 0 <= k < r.value ensures !CountMatchAt(t, k) {
        assert !Matches(t)(k);
      }
    } else {
      forall k | 0 <= k <= |t| ensures !CountMatchAt(t, k) {
        if k < |t| {
          assert !Matches(t)(k);
        }
      }
    }
  }

  /** `s.replace(",", "")`. */
  function DropCommas(s: string): (r: string)
    ensures (forall k :: 0 <= k < |s| ==> IsCountChar(s[k])) ==> forall k :: 0 <= k < |r| ==> IsDigit(r[k])
    ensures ',' !in s ==> r == s
    ensures (forall k :: 0 <= k < |s| ==> s[k] == ',') ==> r == []
  {
    if s == [] then []
    else (if s[0] == ',' then [] else [s[0]]) + DropCommas(s[1..])
  }

  /**
   * `extract_company_size` on a fetched page's text: the number of the first
   * match with its commas removed; no match gives None, and so does a match of
   * commas only, whose `int("")` raises and is caught.
   */
  function EmployeeCount(text: string): (r: Option<nat>) {
    match FirstCountMatch(text)
    case None => None
    case Some(i) => CountOf(text[i..i + CountRun(text[i..])])
  }

  /** `int(run.replace(",", ""))`, None where that raises. */
  function CountOf(run: string): Option<nat>
    requires forall k :: 0 <= k < |run| ==> IsCountChar(run[k])
  {
    var digits := DropCommas(run);
    if digits == [] then None else Some(DigitsValue(digits))
  }

  /** A match contains "employees". */
  lemma MatchHasWord(t: string, i: nat)
    requires i <= |t|
    ensures (forall m :: 0 <= m <= |t| ==> !EmployeesAt(t, m)) ==> !CountMatchAt(t, i)
  {
    if CountMatchAt(t, i) {
      var j := i + CountRun(t[i..]);
      var m := j + SpaceRun(t[j..]);
      assert 0 <= m <= |t| && EmployeesAt(t, m);
    }
  }

  /** Text without "employees" in any case has no employee count. */
  lemma NoEmployeesWord(text: string)
    requires forall m :: 0 <= m <= |text| ==> !EmployeesAt(text, m)
    ensures EmployeeCount(text) == None
  {
    forall k | 0 <= k <= |text| ensures !CountMatchAt(text, k) {
      MatchHasWord(text, k);
    }
    FirstCountMatchFacts(text);
  }

  lemma {:induction false} CountRunPrefix(run: string, rest: string)
    requires forall k :: 0 <= k < |run| ==> IsCountChar(run[k])
    requires rest != [] && !IsCountChar(rest[0])
    ensures CountRun(run + rest) == |run|
  {
    if run != [] {
      assert (run + rest)[1..] == run[1..] + rest;
      CountRunPrefix(run[1..], rest);
    }
  }

  /** In `pre + run + " employees" + rest`, the pattern matches where `run` starts. */
  lemma MatchAtRun(pre: string, run: string, rest: string)
    requires run != [] && forall k :: 0 <= k < |run| ==> IsCountChar(run[k])
    ensures var t := pre + run + " employees" + rest;
            CountMatchAt(t, |pre|) && CountRun(t[|pre|..]) == |run|
  {
    var t := pre + run + " employees" + rest;
    var p := |pre|;
    assert t[p..] == run + (" employees" + rest);
    CountRunPrefix(run, " employees" + rest);
    var j := p + |run|;
    assert t[j..j + 10] == " employees";
    MatchParts(t, p, j);
  }

  /** A run from `p` to `j`, one blank, then "employees": a match at `p`. */
  lemma MatchParts(t: string, p: nat, j: nat)
    requires p < j && j + 10 <= |t| && IsCountChar(t[p]) && CountRun(t[p..]) == j - p
    requires t[j..j + 10] == " employees"
    ensures CountMatchAt(t, p)
  {
    assert t[j] == t[j..j + 10][0] == ' ';
    assert t[j + 1] == t[j..j + 10][1] == 'e';
    assert SpaceRun(t[j..]) == 1 by {
      assert t[j..][1..][0] == 'e';
    }
    assert t[j + 1..j + 10] == "employees";
  }

  /** No match starts at a character that is neither a digit nor a comma. */
  lemma NoMatchInPrefix(t: string, p: nat)
    requires p <= |t| && forall k :: 0 <= k < p ==> !IsCountChar(t[k])
    ensures forall k :: 0 <= k < p ==> !CountMatchAt(t, k)
  {
  }

  /** A match at `p` with none before it is the one found. */
  lemma FirstMatchIs(t: string, p: nat)
    requires p < |t| && CountMatchAt(t, p)
    requires forall k :: 0 <= k < p ==> !CountMatchAt(t, k)
    ensures FirstCountMatch(t) == Some(p)
  {
    assert Matches(t)(p);
    forall k | 0 <= k < p ensures !Matches(t)(k) {
    }
    FirstFromIs(Matches(t), |t|, p);
  }

  /**
   * In `pre + run + " employees" + rest`, with no digit or comma in `pre`, the
   * first match is `run`.
   */
  lemma MatchAfter(pre: string, run: string, rest: string)
    requires forall k :: 0 <= k < |pre| ==> !IsCountChar(pre[k])
    requires run != [] && forall k :: 0 <= k < |run| ==> IsCountChar(run[k])
    ensures var t := pre + run + " employees" + rest;
            FirstCountMatch(t) == Some(|pre|) && CountRun(t[|pre|..]) == |run|
  {
    var t := pre + run + " employees" + rest;
    MatchAtRun(pre, run, rest);
    assert forall k :: 0 <= k < |pre| ==> t[k] == pre[k];
    NoMatchInPrefix(t, |pre|);
    FirstMatchIs(t, |pre|);
  }

  /** The count read from a first match whose run of digits and commas is `run`. */
  lemma CountOfRun(t: string, i: nat, run: string)
    requires FirstCountMatch(t) == Some(i)
    requires i + |run| <= |t| && CountRun(t[i..]) == |run| && t[i..i + |run|] == run
    requires forall k :: 0 <= k < |run| ==> IsCountChar(run[k])
    ensures EmployeeCount(t) == CountOf(run)
  {
    MatchCount(t, i, |run|);
  }

  lemma MatchCount(t: string, i: nat, n: nat)
    requires FirstCountMatch(t) == Some(i) && CountRun(t[i..]) == n
    ensures i + n <= |t| && EmployeeCount(t) == CountOf(t[i..i + n])
  {
  }

  /** A printed number before " employees" is read back. */
  lemma ReadsPrintedCount(pre: string, n: nat, rest: string)
    requires forall k :: 0 <= k < |pre| ==> !IsCountChar(pre[k])
    ensures EmployeeCount(pre + NatText(n) + " employees" + rest) == Some(n)
  {
    var t := pre + NatText(n) + " employees" + rest;
    var digits := NatText(n);
    MatchAfter(pre, digits, rest);
    assert t[|pre|..|pre| + |digits|] == digits;
    assert ',' !in digits by {
      assert forall k :: 0 <= k < |digits| ==> IsDigit(digits[k]);
    }
    CountOfRun(t, |pre|, digits);
    DigitsValueNatText(n);
  }

  /** A first match of commas only gives no count. */
  lemma CommasOnlyNone(pre: string, commas: string, rest: string)
    requires forall k :: 0 <= k < |pre| ==> !IsCountChar(pre[k])
    requires commas != [] && forall k :: 0 <= k < |commas| ==> commas[k] == ','
    ensures EmployeeCount(pre + commas + " employees" + rest) == None
  {
    var t := pre + commas + " employees" + rest;
    MatchAfter(pre, commas, rest);
    assert t[|pre|..|pre| + |commas|] == commas;
    CountOfRun(t, |pre|, commas);
  }

  /** `extract_company_size`: no count unless the page was fetched with status 200. */
  function PageSize(page: Fetch<string>): (r: Option<nat>)
    ensures (page.Failure? || page.status != 200) ==> r.None?
  {
    if page.Response? && page.status == 200 then EmployeeCount(page.body) else None
  }

  // ---------------------------------------------------------------- main loop

  /** One `(company, website)` row of the two-column frame. */
  datatype Pair = Pair(company: Value, website: Value)

  /** The record written for one website. */
  datatype CompanyPage = CompanyPage(companyName: string, website: string, linkedinUrls: seq<string>,
                                     companySize: Option<nat>, sourceUrl: string)

  function PairOf(row: Record): Pair {
    Pair(Get(row, "company"), Get(row, "website"))
  }

  predicate NoEmpty(p: Pair) { !p.company.Null? && !p.website.Null? }

  /** `df[["company", "website"]].dropna().drop_duplicates()`; the first of equal pairs stays. */
  function Candidates(rows: seq<Record>): seq<Pair> {
    DedupBy(Filter(seq(|rows|, i requires 0 <= i < |rows| => PairOf(rows[i])), NoEmpty), Self)
  }

  /** The candidates are the distinct pairs of the rows with both cells filled. */
  lemma CandidatesFacts(rows: seq<Record>)
    ensures forall p :: p in Candidates(rows) <==> NoEmpty(p) && exists i :: 0 <= i < |rows| && PairOf(rows[i]) == p
    ensures forall i, j :: 0 <= i < j < |Candidates(rows)| ==> Candidates(rows)[i] != Candidates(rows)[j]
  {
    var all := seq(|rows|, i requires 0 <= i < |rows| => PairOf(rows[i]));
    var f := Filter(all, NoEmpty);
    var c := Candidates(rows);
    forall p ensures p in c <==> NoEmpty(p) && exists i :: 0 <= i < |rows| && PairOf(rows[i]) == p {
      HasSelf(c, p);
      HasSelf(f, p);
      if exists i :: 0 <= i < |rows| && PairOf(rows[i]) == p {
        var i :| 0 <= i < |rows| && PairOf(rows[i]) == p;
        assert all[i] == p;
      }
      if p in all {
        var i :| 0 <= i < |all| && all[i] == p;
        assert PairOf(rows[i]) == p;
      }
    }
    forall i, j | 0 <= i < j < |c| ensures c[i] != c[j] {
      assert Self(c[i]) != Self(c[j]);
    }
  }

  /** Websites the loop passes over, compared case-insensitively. */
  predicate SkippedWebsite(website: string) {
    var low := Lower(website);
    website == [] || low == "n/a" || low == "not found (only job/social links)" || low == "error"
  }

  /** A plain "Not Found" from the website finder is still crawled. */
  lemma NotFoundCrawled()
    ensures !SkippedWebsite("Not Found")
  {
    assert Lower("Not Found")[0] == 'n' && Lower("Not Found")[1] == 'o';
  }

  /** The crawled URL: "https://" is added unless the website starts with "http". */
  function Normalise(website: string): (r: string)
    ensures StartsWith(r, "http")
    ensures |r| >= |website| && r[|r| - |website|..] == website
  {
    assert ("https://" + website)[8..] == website;
    if StartsWith(website, "http") then website else "https://" + website
  }

  lemma NormaliseIdempotent(website: string)
    ensures Normalise(Normalise(website)) == Normalise(website)
  {
    assert StartsWith(Normalise(website), "http");
  }

  /** `str(row["website"]).strip()`. */
  function WebsiteText(p: Pair): string {
    Strip(Show(p.website))
  }

  /** `row["company"].strip()`; the cell is a string wherever it is filled. */
  function CompanyText(p: Pair): string {
    Strip(Show(p.company))
  }

  /** The links found on each website's page, for the given page fetches. */
  function LinksOf(page: string -> Fetch<seq<string>>): string -> seq<string> {
    (website: string) => PageLinks(page(website))
  }

  /** The size read from each LinkedIn page, for the given page fetches. */
  function SizesOf(profile: string -> Fetch<string>): string -> Option<nat> {
    (url: string) => PageSize(profile(url))
  }

  /** The record for a candidate that is not skipped, given what crawling finds. */
  function PageFor(p: Pair, links: string -> seq<string>, sizes: string -> Option<nat>): (r: CompanyPage) {
    var website := Normalise(WebsiteText(p));
    var urls := links(website);
    CompanyPage(CompanyText(p), website, urls, if urls != [] then sizes(urls[0]) else None, website)
  }

  /**
   * A record's website is the normalised, stripped cell and `source_url`
   * repeats it; its links are the crawled page's, and its size comes from the
   * first link's page, or is None without links.
   */
  lemma PageForFacts(p: Pair, links: string -> seq<string>, sizes: string -> Option<nat>)
    ensures var r := PageFor(p, links, sizes);
            r.companyName == CompanyText(p)
            && r.website == Normalise(WebsiteText(p))
            && r.sourceUrl == r.website && StartsWith(r.website, "http")
            && r.linkedinUrls == links(r.website)
            && (r.linkedinUrls == [] ==> r.companySize.None?)
            && (r.linkedinUrls != [] ==> r.companySize == sizes(r.linkedinUrls[0]))
  {
  }

  /** What the loop adds for one candidate: nothing when its website is skipped, else its record. */
  function Crawl(links: string -> seq<string>, sizes: string -> Option<nat>): Pair -> seq<CompanyPage> {
    (p: Pair) => if SkippedWebsite(WebsiteText(p)) then [] else [PageFor(p, links, sizes)]
  }

  /** The records for the candidates, in order. */
  function Pages(cands: seq<Pair>, links: string -> seq<string>, sizes: string -> Option<nat>): seq<CompanyPage> {
    FlatMap(cands, Crawl(links, sizes))
  }

  /** Every record is the record of a candidate whose website is not skipped. */
  lemma PagesSound(cands: seq<Pair>, links: string -> seq<string>, sizes: string -> Option<nat>, c: CompanyPage)
    requires c in Pages(cands, links, sizes)
    ensures exists p :: p in cands && !SkippedWebsite(WebsiteText(p)) && c == PageFor(p, links, sizes)
  {
    FlatMapFrom(cands, Crawl(links, sizes), c);
    var p :| p in cands && c in Crawl(links, sizes)(p);
    CrawlHas(p, links, sizes, c);
  }

  /** What one candidate's crawl adds is its record, and only when its website is not skipped. */
  lemma CrawlHas(p: Pair, links: string -> seq<string>, sizes: string -> Option<nat>, c: CompanyPage)
    requires c in Crawl(links, sizes)(p)
    ensures !SkippedWebsite(WebsiteText(p)) && c == PageFor(p, links, sizes)
  {
  }

  /** Every candidate whose website is not skipped gets a record. */
  lemma PagesComplete(cands: seq<Pair>, links: string -> seq<string>, sizes: string -> Option<nat>, p: Pair)
    requires p in cands && !SkippedWebsite(WebsiteText(p))
    ensures PageFor(p, links, sizes) in Pages(cands, links, sizes)
  {
    assert PageFor(p, links, sizes) in Crawl(links, sizes)(p);
    FlatMapHas(cands, Crawl(links, sizes), p, PageFor(p, links, sizes));
  }

  /** One candidate's crawl: normalise the website, collect its links, size from the first. */
  method Visit(p: Pair, page: string -> Fetch<seq<string>>, profile: string -> Fetch<string>) returns (c: CompanyPage)
    ensures c == PageFor(p, LinksOf(page), SizesOf(profile))
  {
    var website := Normalise(WebsiteText(p));
    var urls := ExtractLinkedin(page(website));
    var size: Option<nat> := None;
    if urls != [] {
      size := PageSize(profile(urls[0]));
    }
    c := CompanyPage(CompanyText(p), website, urls, size, website);
  }

  /**
   * The main loop: a frame without both columns is refused; otherwise each
   * candidate pair is crawled in order unless its website is skipped.
   * `.strip()` is called on every filled company cell, so those are strings.
   */
  method SearchCompanies(columns: seq<string>, rows: seq<Record>,
                         page: string -> Fetch<seq<string>>, profile: string -> Fetch<string>)
    returns (r: Option<seq<CompanyPage>>)
    requires forall i :: 0 <= i < |rows| ==> Get(rows[i], "company").Str? || Get(rows[i], "company").Null?
    ensures ("website" !in columns || "company" !in columns) ==> r.None?
    ensures "website" in columns && "company" in columns ==>
              r == Some(Pages(Candidates(rows), LinksOf(page), SizesOf(profile)))
  {
    if "website" !in columns || "company" !in columns {
      return None;
    }
    var links, sizes := LinksOf(page), SizesOf(profile);
    var cands := Candidates(rows);
    var results: seq<CompanyPage> := [];
    var rest := cands;
    while rest != []
      invariant results + Pages(rest, links, sizes) == Pages(cands, links, sizes)
      decreases |rest|
    {
      var p := rest[0];
      FlatMapStep(rest, Crawl(links, sizes), results, []);
      if !SkippedWebsite(WebsiteText(p)) {
        var c := Visit(p, page, profile);
        assert Crawl(links, sizes)(p) == [c];
        results := results + [c];
      } else {
        assert Crawl(links, sizes)(p) == [];
      }
      rest := rest[1..];
    }
    assert Pages([], links, sizes) == [];
    assert results + [] == results;
    assert results == Pages(cands, links, sizes);
    r := Some(results);
  }

  /** The JSON object written for a record. */
  function AsRecord(c: CompanyPage): (r: Record)
    ensures r.Keys == {"company_name", "website", "linkedin_urls", "company_size", "source_url"}
    ensures c.sourceUrl == c.website ==> r["source_url"] == r["website"]
  {
    map["company_name" := Str(c.companyName), "website" := Str(c.website),
        "linkedin_urls" := Arr(seq(|c.linkedinUrls|, i requires 0 <= i < |c.linkedinUrls| => Str(c.linkedinUrls[i]))),
        "company_size" := (if c.companySize.Some? then Num(c.companySize.value) else Null),
        "source_url" := Str(c.sourceUrl)]
  }
}
