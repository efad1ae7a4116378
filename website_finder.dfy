/**
 * scripts/fetch_company_websites.py: choosing a company's website from a
 * search reply, and the `website` column built from one search per row.
 * The search call is the parameter `search` (query to reply), and each hit
 * carries the netloc `urlparse` gives for its link.
 */
module WebsiteFinder {
  import opened Wrappers
  import opened Text
  import opened Json
  import opened Search

  /** Job boards and social sites whose links are never a company website. */
  const BLOCKED: seq<string> := ["naukri.com", "linkedin.com", "glassdoor.com", "indeed.com",
                                 "monster.com", "shine.com", "timesjobs.com", "instahyre.com",
                                 "ambitionbox.com", "zippia.com"]

  /** The accepted top-level domains. */
  const TLDS: seq<string> := [".com", ".in", ".org", ".net", ".co", ".io"]

  const NA := "N/A"
  const ERROR := "Error"
  const NOT_FOUND := "Not Found"
  const ONLY_JOB_LINKS := "Not Found (Only job/social links)"

  /** The lower-cased netloc without one leading "www.". */
  function Domain(netloc: string): (d: string)
    ensures StartsWith(Lower(netloc), "www.") ==> "www." + d == Lower(netloc)
    ensures !StartsWith(Lower(netloc), "www.") ==> d == Lower(netloc)
  {
    var low := Lower(netloc);
    if StartsWith(low, "www.") then low[4..] else low
  }

  /** Some blocked domain occurs in `domain`. */
  predicate IsBlocked(domain: string) {
    exists i :: 0 <= i < |BLOCKED| && Contains(domain, BLOCKED[i])
  }

  /** `domain` ends with one of the accepted top-level domains. */
  predicate HasTld(domain: string) {
    exists i :: 0 <= i < |TLDS| && EndsWith(domain, TLDS[i])
  }

  /** `is_valid_company_website` for a hit's link. */
  predicate IsValidWebsite(hit: Hit) {
    hit.link.Some? && hit.link.value != [] && !IsBlocked(Domain(hit.netloc)) && HasTld(Domain(hit.netloc))
  }

  /**
   * A valid website has a non-empty link, no blocked domain anywhere in its
   * lower-cased netloc (a leading "www." cannot hide one), and a netloc that
   * ends with an accepted top-level domain.
   */
  lemma ValidWebsiteFacts(hit: Hit)
    requires IsValidWebsite(hit)
    ensures hit.link.Some? && hit.link.value != []
    ensures forall i :: 0 <= i < |BLOCKED| ==> !Contains(Lower(hit.netloc), BLOCKED[i])
    ensures exists i :: 0 <= i < |TLDS| && EndsWith(Lower(hit.netloc), TLDS[i])
  {
    var low := Lower(hit.netloc);
    var d := Domain(hit.netloc);
    forall i | 0 <= i < |BLOCKED| ensures !Contains(low, BLOCKED[i]) {
      WwwHidesNoBlocked(low, BLOCKED[i]);
    }
    var t :| 0 <= t < |TLDS| && EndsWith(d, TLDS[t]);
    assert low[|low| - |TLDS[t]|..] == d[|d| - |TLDS[t]|..];
  }

  /** A blocked domain in the lower-cased netloc is still there after dropping a leading "www.". */
  lemma WwwHidesNoBlocked(low: string, bad: string)
    requires bad in BLOCKED
    ensures Contains(low, bad) ==> Contains(if StartsWith(low, "www.") then low[4..] else low, bad)
  {
    if StartsWith(low, "www.") && Contains(low, bad) {
      var i := ContainsWitness(low, bad);
      assert low[i] == bad[0] && bad[0] != 'w' && bad[0] != '.';
      assert forall k :: 0 <= k < 4 ==> low[k] == "www."[k];
      assert i >= 4;
      assert low[4..][i - 4..i - 4 + |bad|] == bad;
      ContainsAt(low[4..], bad, i - 4);
    }
  }

  /** The index of the first valid hit, if any. */
  function FirstValid(hits: seq<Hit>): (r: Option<nat>)
    ensures r.Some? ==> r.value < |hits| && IsValidWebsite(hits[r.value])
                        && forall j :: 0 <= j < r.value ==> !IsValidWebsite(hits[j])
    ensures r.None? ==> forall j :: 0 <= j < |hits| ==> !IsValidWebsite(hits[j])
  {
    if hits == [] then None
    else if IsValidWebsite(hits[0]) then Some(0)
    else
      var r := FirstValid(hits[1..]);
      assert forall j :: 1 <= j < |hits| ==> hits[j] == hits[1..][j - 1];
      if r.Some? then Some(r.value + 1) else None
  }

  /** No search is made for an empty company or one that is "unknown" in any case. */
  predicate Skipped(company: Value)
    requires company.Str? || company.Null?
  {
    !Truthy(company) || Lower(company.s) == "unknown"
  }

  /** The query sent for a company. */
  function Query(company: string): string {
    company + " official website"
  }

  /** `fetch_company_website` for a cell that is a string or empty. */
  function WebsiteFor(company: Value, search: string -> Reply): (r: string)
    requires company.Str? || company.Null?
    ensures Skipped(company) ==> r == NA
  {
    if Skipped(company) then NA
    else
      match search(Query(company.s))
      case RequestError => ERROR
      case Body(None) => NOT_FOUND
      case Body(Some(hits)) =>
        match FirstValid(hits)
        case Some(i) => hits[i].link.value
        case None => ONLY_JOB_LINKS
  }

  /** For a skipped company the search reply does not matter: no request is made. */
  lemma SkippedNoRequest(company: Value, s1: string -> Reply, s2: string -> Reply)
    requires company.Str? || company.Null?
    requires Skipped(company)
    ensures WebsiteFor(company, s1) == WebsiteFor(company, s2) == NA
  {
  }

  /**
   * The website is "Error" on a request error, "Not Found" without an
   * `organic` key, and otherwise the link of the first valid organic hit, or
   * "Not Found (Only job/social links)" when there is none.
   */
  lemma WebsiteOutcomes(company: Value, search: string -> Reply)
    requires company.Str? && !Skipped(company)
    ensures var r := WebsiteFor(company, search);
            var reply := search(Query(company.s));
            (reply.RequestError? ==> r == ERROR)
            && (reply == Body(None) ==> r == NOT_FOUND)
            && (reply.Body? && reply.organic.Some? ==>
                  (forall j :: 0 <= j < |reply.organic.value| ==> !IsValidWebsite(reply.organic.value[j]))
                  ==> r == ONLY_JOB_LINKS)
            && (reply.Body? && reply.organic.Some?
                && (exists i :: 0 <= i < |reply.organic.value| && IsValidWebsite(reply.organic.value[i])) ==>
                  exists i :: 0 <= i < |reply.organic.value| && IsValidWebsite(reply.organic.value[i])
                              && (forall j :: 0 <= j < i ==> !IsValidWebsite(reply.organic.value[j]))
                              && reply.organic.value[i].link == Some(r))
  {
    var reply := search(Query(company.s));
    if reply.Body? && reply.organic.Some? {
      var hits := reply.organic.value;
      match FirstValid(hits)
      case Some(i) =>
        assert hits[i].link == Some(WebsiteFor(company, search));
      case None =>
    }
  }

  /** A table: its column names in order, and its rows (a missing key is an empty cell). */
  datatype Frame = Frame(columns: seq<string>, rows: seq<Record>)

  /** `df[col] = values`: the column is added at the end if new, and row `i` gets `values[i]`. */
  function WithColumn(f: Frame, col: string, values: seq<Value>): (r: Frame)
    requires |values| == |f.rows|
    ensures |r.rows| == |f.rows|
    ensures forall i :: 0 <= i < |f.rows| ==> r.rows[i] == f.rows[i][col := values[i]]
    ensures col in f.columns ==> r.columns == f.columns
    ensures col !in f.columns ==> r.columns == f.columns + [col]
  {
    Frame(if col in f.columns then f.columns else f.columns + [col],
          seq(|f.rows|, i requires 0 <= i < |f.rows| => f.rows[i][col := values[i]]))
  }

  /** The strings as cells. */
  function Strs(xs: seq<string>): (r: seq<Value>)
    ensures |r| == |xs| && forall i :: 0 <= i < |xs| ==> r[i] == Str(xs[i])
  {
    seq(|xs|, i requires 0 <= i < |xs| => Str(xs[i]))
  }

  /** The row loop of `main`, with the per-row search `find`: one result per row, in row order. */
  method SearchRows(rows: seq<Record>, find: Record --> string) returns (websites: seq<string>)
    requires forall i :: 0 <= i < |rows| ==> find.requires(rows[i])
    ensures |websites| == |rows|
    ensures forall i :: 0 <= i < |rows| ==> websites[i] == find(rows[i])
  {
    websites := [];
    for i := 0 to |rows|
      invariant |websites| == i
      invariant forall k :: 0 <= k < i ==> websites[k] == find(rows[k])
    {
      websites := websites + [find(rows[i])];
    }
  }

  /**
   * `main`: a table without a `company` column is refused; otherwise one
   * search per row, in row order, and the results become the `website` column.
   * `.lower()` is called on every non-empty company, so those cells are strings.
   */
  method AddWebsites(f: Frame, search: string -> Reply) returns (r: Option<Frame>, websites: seq<string>)
    requires forall i :: 0 <= i < |f.rows| ==> Get(f.rows[i], "company").Str? || Get(f.rows[i], "company").Null?
    ensures "company" !in f.columns ==> r.None? && websites == []
    ensures "company" in f.columns ==>
              |websites| == |f.rows|
              && (forall i :: 0 <= i < |f.rows| ==> websites[i] == WebsiteFor(Get(f.rows[i], "company"), search))
              && r == Some(WithColumn(f, "website", Strs(websites)))
  {
    websites := [];
    if "company" !in f.columns {
      return None, websites;
    }
    websites := SearchRows(f.rows, (row: Record) requires Get(row, "company").Str? || Get(row, "company").Null? =>
                                     WebsiteFor(Get(row, "company"), search));
    r := Some(WithColumn(f, "website", Strs(websites)));
  }
}
