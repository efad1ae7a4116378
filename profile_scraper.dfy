/**
 * scripts/linkedin_profile_scraper.py: loading the company names, the
 * company x role query list, the profile search with its three fallback
 * patterns, and the resumable main loop that splits queries into those with
 * results and those without. The search API is a parameter `search` mapping a
 * query string to its reply; the JSON files are given as values (a missing
 * file reads as an empty list).
 */
module ProfileScraper {
  import opened Wrappers
  import opened Text
  import opened Json
  import opened Search
  import opened Seqs

  const ROLES: seq<string> :=
    ["Founder", "Co-Founder", "CEO", "Marketing Head", "Head of Marketing", "Business Development Head"]

  /** Queries run per session at most. */
  const MAX_QUERIES: nat := 1000

  datatype Query = Query(query: string, company: string, role: string)

  datatype Profile = Profile(query: string, role: string, company: string, title: string, url: string)

  // ---------------------------------------------------------------- load_companies

  /** The CSV `company` column without empty cells and without names equal to "unknown" in any case. */
  function CsvNames(cells: seq<Option<string>>): (r: seq<string>)
    ensures forall x :: x in r <==> Some(x) in cells && Lower(x) != "unknown"
  {
    if cells == [] then []
    else
      var init := cells[..|cells| - 1];
      var c := cells[|cells| - 1];
      assert cells == init + [c];
      CsvNames(init) + (if c.Some? && Lower(c.value) != "unknown" then [c.value] else [])
  }

  /** A JSON record's company name, when `comp["company"]` is present and truthy. */
  function JsonCompany(comp: Record): Option<string> {
    if "company" in comp && Truthy(comp["company"]) && comp["company"].Str? then Some(comp["company"].s) else None
  }

  /** The check-then-append loop over the JSON records. */
  function AddJsonNames(names: seq<string>, data: seq<Record>): (r: seq<string>)
    ensures names <= r
    ensures forall k :: |names| <= k < |r| ==> r[k] !in r[..k]
    ensures forall k :: |names| <= k < |r| ==> exists i :: 0 <= i < |data| && JsonCompany(data[i]) == Some(r[k])
    ensures forall i :: 0 <= i < |data| && JsonCompany(data[i]).Some? ==> JsonCompany(data[i]).value in r
  {
    if data == [] then names
    else
      var prev := AddJsonNames(names, data[..|data| - 1]);
      var c := JsonCompany(data[|data| - 1]);
      assert forall i :: 0 <= i < |data| - 1 ==> data[..|data| - 1][i] == data[i];
      if c.Some? && c.value !in prev then
        assert (prev + [c.value])[..|prev|] == prev;
        prev + [c.value]
      else prev
  }

  /** The final comprehension `[c.strip() for c in companies if c.strip()]`. */
  function StripNonEmpty(names: seq<string>): (r: seq<string>)
    ensures forall k :: 0 <= k < |r| ==> r[k] != [] && NoEdgeSpace(r[k])
    ensures forall x :: x in r <==> exists n :: n in names && x == Strip(n) && x != []
  {
    if names == [] then []
    else
      var init := names[..|names| - 1];
      var s := Strip(names[|names| - 1]);
      assert names == init + [names[|names| - 1]];
      StripNonEmpty(init) + (if s != [] then [s] else [])
  }

  /** What `load_companies` returns. */
  function CompaniesSpec(csv: Option<seq<Option<string>>>, data: seq<Record>): seq<string> {
    StripNonEmpty(AddJsonNames(CsvNames(csv.GetOr([])), data))
  }

  /**
   * `load_companies`. `csv` is the `company` column of the CSV (None when the
   * file or the column is missing; a None cell is an empty cell); `data` is
   * the list in the JSON file. A truthy `company` that is not a string would
   * make `.strip()` raise, so the script needs string names there.
   */
  method LoadCompanies(csv: Option<seq<Option<string>>>, data: seq<Record>) returns (companies: seq<string>)
    requires forall i :: 0 <= i < |data| && "company" in data[i] && Truthy(data[i]["company"]) ==>
      data[i]["company"].Str?
    ensures companies == CompaniesSpec(csv, data)
  {
    var raw: seq<string> := [];
    if csv.Some? {
      raw := ReadCsvNames(csv.value);
    }
    raw := AddJsonLoop(raw, data);
    companies := StripNonEmpty(raw);
  }

  /** The CSV part of `load_companies`: the non-empty cells other than "unknown", in order. */
  method ReadCsvNames(cells: seq<Option<string>>) returns (raw: seq<string>)
    ensures raw == CsvNames(cells)
  {
    raw := [];
    for i := 0 to |cells|
      invariant raw == CsvNames(cells[..i])
    {
      assert cells[..i + 1] == cells[..i] + [cells[i]];
      assert cells[..i + 1][..i] == cells[..i];
      if cells[i].Some? && Lower(cells[i].value) != "unknown" {
        raw := raw + [cells[i].value];
      }
    }
    assert cells[..|cells|] == cells;
  }

  /** The JSON part of `load_companies`: append each truthy company name not yet listed. */
  method AddJsonLoop(names: seq<string>, data: seq<Record>) returns (raw: seq<string>)
    requires forall i :: 0 <= i < |data| && "company" in data[i] && Truthy(data[i]["company"]) ==>
      data[i]["company"].Str?
    ensures raw == AddJsonNames(names, data)
  {
    raw := names;
    for i := 0 to |data|
      invariant raw == AddJsonNames(names, data[..i])
    {
      var comp := data[i];
      AddJsonStep(names, data, i);
      if "company" in comp && Truthy(comp["company"]) && comp["company"].s !in raw {
        raw := raw + [comp["company"].s];
      }
    }
    assert data[..|data|] == data;
  }

  /** One more JSON record: its truthy company is appended when not yet listed. */
  lemma AddJsonStep(names: seq<string>, data: seq<Record>, i: nat)
    requires i < |data|
    ensures var prev := AddJsonNames(names, data[..i]);
            var c := JsonCompany(data[i]);
            AddJsonNames(names, data[..i + 1]) == if c.Some? && c.value !in prev then prev + [c.value] else prev
  {
    assert data[..i + 1][..i] == data[..i];
  }

  /** Every loaded name is stripped and non-empty. */
  lemma CompaniesClean(csv: Option<seq<Option<string>>>, data: seq<Record>, k: nat)
    requires k < |CompaniesSpec(csv, data)|
    ensures CompaniesSpec(csv, data)[k] != []
    ensures NoEdgeSpace(CompaniesSpec(csv, data)[k])
    ensures Strip(CompaniesSpec(csv, data)[k]) == CompaniesSpec(csv, data)[k]
  {
  }

  // ---------------------------------------------------------------- generate_linkedin_queries

  /** The query object for one company and role. */
  function QueryFor(company: string, role: string): (q: Query)
    ensures q.company == company && q.role == role
    ensures q.query == q.role + " at " + q.company
  {
    Query(role + " at " + company, company, role)
  }

  /** The queries for one company, one per role in `ROLES` order. */
  function RoleQueries(company: string): seq<Query> {
    seq(|ROLES|, j requires 0 <= j < |ROLES| => QueryFor(company, ROLES[j]))
  }

  /** The list `generate_linkedin_queries` builds. */
  function QueryList(companies: seq<string>): (qs: seq<Query>)
    ensures |qs| == |companies| * 6
  {
    if companies == [] then [] else QueryList(companies[..|companies| - 1]) + RoleQueries(companies[|companies| - 1])
  }

  /** The query list is the company-major, role-minor cross product (`ROLES` has six entries). */
  lemma {:induction false} QueryListAt(companies: seq<string>, i: nat, j: nat)
    requires i < |companies| && j < |ROLES|
    ensures QueryList(companies)[i * 6 + j] == QueryFor(companies[i], ROLES[j])
  {
    var init := companies[..|companies| - 1];
    var n := |init|;
    var front, last := QueryList(init), RoleQueries(companies[n]);
    assert QueryList(companies) == front + last;
    if i < n {
      QueryListAt(init, i, j);
      assert (front + last)[i * 6 + j] == front[i * 6 + j];
      assert companies[i] == init[i];
    } else {
      assert i * 6 + j == |front| + j;
      assert (front + last)[|front| + j] == last[j];
    }
  }

  /** `generate_linkedin_queries`: for each company, one query per role. */
  method GenerateQueries(companies: seq<string>) returns (queries: seq<Query>)
    ensures queries == QueryList(companies)
    ensures |queries| == |companies| * 6
    ensures forall i, j :: 0 <= i < |companies| && 0 <= j < |ROLES| ==>
      queries[i * 6 + j] == QueryFor(companies[i], ROLES[j])
  {
    queries := [];
    for i := 0 to |companies|
      invariant queries == QueryList(companies[..i])
    {
      ghost var before := queries;
      for j := 0 to |ROLES|
        invariant queries == before + RoleQueries(companies[i])[..j]
      {
        assert RoleQueries(companies[i])[..j + 1] == RoleQueries(companies[i])[..j] + [QueryFor(companies[i], ROLES[j])];
        queries := queries + [QueryFor(companies[i], ROLES[j])];
      }
      assert companies[..i + 1][..i] == companies[..i];
      assert RoleQueries(companies[i])[..|ROLES|] == RoleQueries(companies[i]);
    }
    assert companies[..|companies|] == companies;
    forall i, j | 0 <= i < |companies| && 0 <= j < |ROLES|
      ensures queries[i * 6 + j] == QueryFor(companies[i], ROLES[j])
    {
      QueryListAt(companies, i, j);
    }
  }

  // ---------------------------------------------------------------- search_linkedin_profiles

  /** The prefix that restricts a search to LinkedIn profiles. */
  const SITE := "site:linkedin.com/in "

  /** The three search strings, tried in this order. */
  function SearchPatterns(q: Query): (ps: seq<string>)
    ensures |ps| == 3
    ensures forall k :: 0 <= k < |ps| ==>
      StartsWith(ps[k], SITE) && Contains(ps[k], q.role) && Contains(ps[k], q.company)
    ensures Contains(ps[0], "\"" + q.role + " at " + q.company + "\"")
    ensures EndsWith(ps[2], " LinkedIn")
  {
    QuotedPattern(SITE, q.role, q.company);
    PlainPattern(SITE, q.role, q.company);
    NamedPattern(SITE, q.role, q.company);
    [ SITE + "\"" + q.role + " at " + q.company + "\"",
      SITE + q.role + " " + q.company,
      SITE + q.company + " " + q.role + " LinkedIn" ]
  }

  /** The first pattern holds the prefix, the role, the company and the quoted "role at company". */
  lemma QuotedPattern(site: string, role: string, company: string)
    ensures var p := site + "\"" + role + " at " + company + "\"";
            StartsWith(p, site) && Contains(p, role) && Contains(p, company)
            && Contains(p, "\"" + role + " at " + company + "\"")
  {
    var p := site + "\"" + role + " at " + company + "\"";
    ContainsMiddle(site, "\"" + role + " at " + company + "\"", "");
    assert p == site + ("\"" + role + " at " + company + "\"") + "";
    ContainsMiddle(site + "\"", role, " at " + company + "\"");
    assert p == site + "\"" + role + (" at " + company + "\"");
    ContainsMiddle(site + "\"" + role + " at ", company, "\"");
  }

  /** The second pattern holds the prefix, the role and the company. */
  lemma PlainPattern(site: string, role: string, company: string)
    ensures var p := site + role + " " + company;
            StartsWith(p, site) && Contains(p, role) && Contains(p, company)
  {
    var p := site + role + " " + company;
    ContainsMiddle(site, role, " " + company);
    assert p == site + role + (" " + company);
    ContainsMiddle(site + role + " ", company, "");
    assert p == site + role + " " + company + "";
  }

  /** The third pattern holds the prefix, the company and the role, and ends with " LinkedIn". */
  lemma NamedPattern(site: string, role: string, company: string)
    ensures var p := site + company + " " + role + " LinkedIn";
            StartsWith(p, site) && Contains(p, role) && Contains(p, company) && EndsWith(p, " LinkedIn")
  {
    var p := site + company + " " + role + " LinkedIn";
    ContainsMiddle(site, company, " " + role + " LinkedIn");
    assert p == site + company + (" " + role + " LinkedIn");
    ContainsMiddle(site + company + " ", role, " LinkedIn");
    assert p[|p| - |" LinkedIn"|..] == " LinkedIn";
  }

  function LinkOf(h: Hit): string { h.link.GetOr("") }

  /** The profile record for one organic result. */
  function ProfileOf(q: Query, h: Hit): Profile {
    Profile(q.query, q.role, q.company, h.title.GetOr(""), LinkOf(h))
  }

  /** The profiles one reply contributes: results whose link contains "linkedin.com/in/". */
  function ProfilesOf(q: Query, hits: seq<Hit>): (ps: seq<Profile>)
    ensures forall k :: 0 <= k < |ps| ==>
      Contains(ps[k].url, "linkedin.com/in/")
      && ps[k].query == q.query && ps[k].role == q.role && ps[k].company == q.company
    ensures forall h :: h in hits && Contains(LinkOf(h), "linkedin.com/in/") ==> ProfileOf(q, h) in ps
  {
    if hits == [] then []
    else
      var init := hits[..|hits| - 1];
      var h := hits[|hits| - 1];
      assert hits == init + [h];
      ProfilesOf(q, init) + (if Contains(LinkOf(h), "linkedin.com/in/") then [ProfileOf(q, h)] else [])
  }

  /** The profiles one pattern yields; a request error yields none. */
  function Found(q: Query, reply: Reply): seq<Profile> {
    match reply
    case RequestError => []
    case Body(organic) => ProfilesOf(q, OrganicOrEmpty(organic))
  }

  /** The patterns `ps` tried in order, stopping at the first that yields a profile. */
  function FirstFound(q: Query, ps: seq<string>, search: string -> Reply): (r: seq<Profile>)
    ensures forall k :: 0 <= k < |r| ==>
      Contains(r[k].url, "linkedin.com/in/")
      && r[k].query == q.query && r[k].role == q.role && r[k].company == q.company
  {
    if ps == [] then []
    else if Found(q, search(ps[0])) != [] then Found(q, search(ps[0]))
    else FirstFound(q, ps[1..], search)
  }

  /** What `search_linkedin_profiles` returns for a query. */
  function SearchSpec(q: Query, search: string -> Reply): seq<Profile> {
    FirstFound(q, SearchPatterns(q), search)
  }

  /**
   * The result of the search is the yield of the first pattern that yields
   * anything, and empty exactly when no pattern yields anything.
   */
  lemma {:induction false} FirstFoundIsFirst(q: Query, ps: seq<string>, search: string -> Reply)
    ensures FirstFound(q, ps, search) == [] <==> forall k :: 0 <= k < |ps| ==> Found(q, search(ps[k])) == []
    ensures FirstFound(q, ps, search) != [] ==>
      exists k :: 0 <= k < |ps| && FirstFound(q, ps, search) == Found(q, search(ps[k]))
        && forall j :: 0 <= j < k ==> Found(q, search(ps[j])) == []
  {
    if ps != [] {
      FirstFoundIsFirst(q, ps[1..], search);
      if Found(q, search(ps[0])) == [] && FirstFound(q, ps, search) != [] {
        var k :| 0 <= k < |ps[1..]| && FirstFound(q, ps[1..], search) == Found(q, search(ps[1..][k]))
          && forall j :: 0 <= j < k ==> Found(q, search(ps[1..][j])) == [];
        assert FirstFound(q, ps, search) == Found(q, search(ps[k + 1]));
        forall j | 0 <= j < k + 1 ensures Found(q, search(ps[j])) == [] {
          if j > 0 {
            assert ps[j] == ps[1..][j - 1];
          }
        }
      }
      if FirstFound(q, ps, search) == [] {
        forall k | 0 <= k < |ps| ensures Found(q, search(ps[k])) == [] {
          if k > 0 {
            assert ps[k] == ps[1..][k - 1];
          }
        }
      }
    }
  }

  /** The inner loop over the organic results of one reply. */
  method CollectProfiles(q: Query, hits: seq<Hit>) returns (profiles: seq<Profile>)
    ensures profiles == ProfilesOf(q, hits)
  {
    profiles := [];
    for k := 0 to |hits|
      invariant profiles == ProfilesOf(q, hits[..k])
    {
      assert hits[..k + 1] == hits[..k] + [hits[k]];
      assert hits[..k + 1][..k] == hits[..k];
      if Contains(LinkOf(hits[k]), "linkedin.com/in/") {
        profiles := profiles + [ProfileOf(q, hits[k])];
      }
    }
    assert hits[..|hits|] == hits;
  }

  /** `search_linkedin_profiles`: the pattern loop with its early `break`. */
  method SearchLinkedInProfiles(q: Query, search: string -> Reply) returns (profiles: seq<Profile>)
    ensures profiles == SearchSpec(q, search)
  {
    var rest := SearchPatterns(q);
    profiles := [];
    while rest != []
      invariant profiles == []
      invariant SearchSpec(q, search) == FirstFound(q, rest, search)
      decreases |rest|
    {
      var reply := search(rest[0]);
      if reply.Body? {
        profiles := CollectProfiles(q, OrganicOrEmpty(reply.organic));
        if profiles != [] {
          return;
        }
      }
      rest := rest[1..];
    }
  }

  // ---------------------------------------------------------------- main: resume, limit, partition

  /** The query strings already answered, with or without results. */
  function Processed(results: seq<Profile>, failed: seq<Query>): set<string> {
    (set i | 0 <= i < |results| :: results[i].query) + (set i | 0 <= i < |failed| :: failed[i].query)
  }

  /** The queries not yet answered, in order. */
  function Pending(queries: seq<Query>, done: set<string>): seq<Query> {
    Filter(queries, (q: Query) => q.query !in done)
  }

  /** `queries_to_run`: the first `MAX_QUERIES` unanswered queries, in order, repeated ones included. */
  function QueriesToRun(queries: seq<Query>, results: seq<Profile>, failed: seq<Query>): (r: seq<Query>)
    ensures IsSubseq(r, queries)
    ensures |r| <= MAX_QUERIES
    ensures forall k :: 0 <= k < |r| ==> r[k].query !in Processed(results, failed)
    ensures |r| < MAX_QUERIES ==>
      forall q :: q in queries && q.query !in Processed(results, failed) ==> q in r
    ensures r <= Pending(queries, Processed(results, failed))
    ensures |r| == if |Pending(queries, Processed(results, failed))| <= MAX_QUERIES
                   then |Pending(queries, Processed(results, failed))| else MAX_QUERIES
  {
    var pending := Pending(queries, Processed(results, failed));
    FilterIsSubseq(queries, (q: Query) => q.query !in Processed(results, failed));
    if |pending| <= MAX_QUERIES then
      assert pending[..|pending|] == pending;
      pending
    else
      SubseqPrefix(pending, queries, MAX_QUERIES);
      pending[..MAX_QUERIES]
  }

  /**
   * Below the cap every copy of an unanswered query is run: the names are
   * not deduplicated, so a company listed twice gives its queries twice.
   */
  lemma RepeatsRun(queries: seq<Query>, results: seq<Profile>, failed: seq<Query>, q: Query)
    requires |Pending(queries, Processed(results, failed))| <= MAX_QUERIES
    requires q.query !in Processed(results, failed)
    ensures multiset(QueriesToRun(queries, results, failed))[q] == multiset(queries)[q]
  {
    FilterCount(queries, (q: Query) => q.query !in Processed(results, failed), q);
  }

  /** The answer of the search to each query. */
  function Answers(search: string -> Reply): Query -> seq<Profile> {
    (q: Query) => SearchSpec(q, search)
  }

  /** The profiles the session adds, query by query. */
  function FoundAll(qs: seq<Query>, search: string -> Reply): seq<Profile> {
    FlatMap(qs, Answers(search))
  }

  /** The queries without results, in order. */
  function FailedAll(qs: seq<Query>, search: string -> Reply): seq<Query> {
    Failures(qs, Answers(search))
  }

  /** The session loop: `extend` with the profiles found, or `append` the query to the failures. */
  method RunQueries(toRun: seq<Query>, search: string -> Reply, results0: seq<Profile>, failed0: seq<Query>)
    returns (results: seq<Profile>, failed: seq<Query>)
    ensures results == results0 + FoundAll(toRun, search)
    ensures failed == failed0 + FailedAll(toRun, search)
  {
    results, failed := results0, failed0;
    var rest := toRun;
    while rest != []
      invariant results + FoundAll(rest, search) == results0 + FoundAll(toRun, search)
      invariant failed + FailedAll(rest, search) == failed0 + FailedAll(toRun, search)
      decreases |rest|
    {
      var q := rest[0];
      var profiles := SearchLinkedInProfiles(q, search);
      assert profiles == Answers(search)(q);
      FlatMapStep(rest, Answers(search), results, failed);
      if profiles != [] {
        results := results + profiles;
      } else {
        failed := failed + [q];
      }
      rest := rest[1..];
    }
  }

  /** A query of the session is among the failures exactly when its search found nothing. */
  lemma FailedIff(qs: seq<Query>, search: string -> Reply, q: Query)
    requires q in qs
    ensures q in FailedAll(qs, search) <==> SearchSpec(q, search) == []
  {
    FailuresHas(qs, Answers(search), q);
    assert Answers(search)(q) == SearchSpec(q, search);
  }

  /** All profiles a query of the session finds are among the results. */
  lemma FoundKept(qs: seq<Query>, search: string -> Reply, q: Query, p: Profile)
    requires q in qs && p in SearchSpec(q, search)
    ensures p in FoundAll(qs, search)
  {
    FlatMapHas(qs, Answers(search), q, p);
  }

  /** Every profile the session adds came from a query of the session that found something. */
  lemma FoundFromQuery(qs: seq<Query>, search: string -> Reply, p: Profile)
    requires p in FoundAll(qs, search)
    ensures exists q :: q in qs && p in SearchSpec(q, search) && p.query == q.query
  {
    FlatMapFrom(qs, Answers(search), p);
    var q :| q in qs && p in Answers(search)(q);
    assert p in SearchSpec(q, search);
  }

  /** One session: generate the queries, skip the answered ones, run at most `MAX_QUERIES`. */
  method Session(companies: seq<string>, search: string -> Reply, results0: seq<Profile>, failed0: seq<Query>)
    returns (results: seq<Profile>, failed: seq<Query>)
    ensures var toRun := QueriesToRun(QueryList(companies), results0, failed0);
            results == results0 + FoundAll(toRun, search) && failed == failed0 + FailedAll(toRun, search)
  {
    var queries := GenerateQueries(companies);
    var toRun := QueriesToRun(queries, results0, failed0);
    results, failed := RunQueries(toRun, search, results0, failed0);
  }
}
