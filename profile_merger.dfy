/**
 * scripts/profiles_companies_merger.py: the company details map keyed by
 * stripped company name, and the left join of the cleaned profiles with it.
 * Both inputs are the decoded JSON lists; the file writes are not modelled.
 */
module ProfileMerger {
  import opened Text
  import opened Json
  import opened Seqs

  /** `d.get(k, "")` where the script calls `.strip()` on it: the value must be a string when present. */
  predicate StrOrAbsent(d: Record, k: string) {
    k !in d || d[k].Str?
  }

  /** `d.get(k, "")` for a string-valued key. */
  function StrGet(d: Record, k: string): string {
    if k in d && d[k].Str? then d[k].s else ""
  }

  /** The three details a company contributes. */
  datatype Details = Details(website: Value, size: Value, linkedinUrl: Value)

  function NameKey(c: Record): string {
    Strip(StrGet(c, "company_name"))
  }

  function DetailsOf(c: Record): Details {
    Details(Get(c, "website"), Get(c, "company_size"), Get(c, "linkedin_url"))
  }

  /** `company_map`; when stripped names repeat, the dict comprehension keeps the last company's details. */
  function CompanyMap(companies: seq<Record>): map<string, Details> {
    LastBy(companies, NameKey, DetailsOf)
  }

  /**
   * An output record, with the keys `query`, `title`, `url`, `roles`,
   * `company`, `company_website`, `company_size` and `company_linkedin_url`.
   */
  datatype Merged = Merged(query: Value, title: Value, url: Value, roles: Value, company: string,
                           companyWebsite: Value, companySize: Value, companyLinkedinUrl: Value)

  /** One merged record: the profile's fields, its stripped company, and the matching details. */
  function MergedRecord(p: Record, m: map<string, Details>): Merged {
    var company := Strip(StrGet(p, "company"));
    var details := if company in m then m[company] else Details(Null, Null, Null);
    Merged(Get(p, "query"), Get(p, "title"), Get(p, "url"), Get(p, "roles"), company,
           details.website, details.size, details.linkedinUrl)
  }

  /**
   * The merge loop: one record per profile, in profile order. `.strip()` is
   * called on `company_name` and `company`, so they must be strings when present.
   */
  method Merge(profiles: seq<Record>, companies: seq<Record>) returns (merged: seq<Merged>)
    requires forall i :: 0 <= i < |companies| ==> StrOrAbsent(companies[i], "company_name")
    requires forall i :: 0 <= i < |profiles| ==> StrOrAbsent(profiles[i], "company")
    ensures |merged| == |profiles|
    ensures forall i :: 0 <= i < |profiles| ==> merged[i] == MergedRecord(profiles[i], CompanyMap(companies))
  {
    var companyMap := CompanyMap(companies);
    merged := [];
    for i := 0 to |profiles|
      invariant |merged| == i
      invariant forall k :: 0 <= k < i ==> merged[k] == MergedRecord(profiles[k], companyMap)
    {
      merged := merged + [MergedRecord(profiles[i], companyMap)];
    }
  }

  /** The profile fields are copied unchanged; the company is the stripped profile company. */
  lemma JoinCopies(p: Record, m: map<string, Details>)
    ensures var r := MergedRecord(p, m);
            r.query == Get(p, "query") && r.title == Get(p, "title")
            && r.url == Get(p, "url") && r.roles == Get(p, "roles")
            && r.company == Strip(StrGet(p, "company")) && NoEdgeSpace(r.company)
  {
  }

  /**
   * The details are those of the last company with exactly the profile's
   * stripped company name (a case-sensitive match).
   */
  lemma JoinMatch(p: Record, companies: seq<Record>, i: nat)
    requires i < |companies|
    requires NameKey(companies[i]) == Strip(StrGet(p, "company"))
    requires forall j :: i < j < |companies| ==> NameKey(companies[j]) != NameKey(companies[i])
    ensures var r := MergedRecord(p, CompanyMap(companies));
            r.companyWebsite == Get(companies[i], "website")
            && r.companySize == Get(companies[i], "company_size")
            && r.companyLinkedinUrl == Get(companies[i], "linkedin_url")
  {
    LastByLast(companies, NameKey, DetailsOf, i);
  }

  /** Without a company of exactly that stripped name, all three details are None. */
  lemma JoinMiss(p: Record, companies: seq<Record>)
    requires forall i :: 0 <= i < |companies| ==> NameKey(companies[i]) != Strip(StrGet(p, "company"))
    ensures var r := MergedRecord(p, CompanyMap(companies));
            r.companyWebsite == Null && r.companySize == Null && r.companyLinkedinUrl == Null
  {
    assert !HasKey(companies, NameKey, Strip(StrGet(p, "company")));
  }

  /** `company_linkedin_url` is None unless the matching company record has a `linkedin_url` key. */
  lemma LinkedinUrlKey(p: Record, companies: seq<Record>)
    requires forall i :: 0 <= i < |companies| ==> "linkedin_url" !in companies[i]
    ensures MergedRecord(p, CompanyMap(companies)).companyLinkedinUrl == Null
  {
    var company := Strip(StrGet(p, "company"));
    if HasKey(companies, NameKey, company) {
      LastByValue(companies, NameKey, DetailsOf, company);
      var l := LastIndex(companies, NameKey, company);
      assert DetailsOf(companies[l]).linkedinUrl == Null;
    }
  }
}
