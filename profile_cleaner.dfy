/**
 * `clean_profiles` of scripts/profile_cleaner_v2.py: keeps the search results
 * whose title mentions their role or company, merges results with the same
 * profile URL (first result's fields, union of roles), and writes the roles
 * of each profile as one ", "-joined sorted string.
 */
module ProfileCleaner {
  import opened Text
  import opened Seqs
  import opened Sorting

  /** One raw search result (the keys the cleaner reads). */
  datatype RawProfile = RawProfile(query: string, role: string, company: string, title: string, url: string)

  /** A `seen_urls` value while merging: the first result's fields and the set of roles seen so far. */
  datatype Merged = Merged(query: string, company: string, url: string, title: string, roles: set<string>)

  /** One cleaned record. */
  datatype CleanProfile = CleanProfile(query: string, company: string, url: string, title: string, roles: string)

  /** The relevance check: the lower-cased title contains the lower-cased role or company. */
  predicate Relevant(e: RawProfile) {
    Contains(Lower(e.title), Lower(e.role)) || Contains(Lower(e.title), Lower(e.company))
  }

  function UrlOf(e: RawProfile): string { e.url }

  /** The relevant results, in input order. */
  function Relevants(data: seq<RawProfile>): seq<RawProfile> {
    Filter(data, Relevant)
  }

  /** The roles of the results in `rs` with profile URL `url`. */
  ghost function RoleSet(rs: seq<RawProfile>, url: string): set<string> {
    set i | 0 <= i < |rs| && rs[i].url == url :: rs[i].role
  }

  /** The cleaned list as the script defines it: one record per URL, in order of first relevant occurrence. */
  ghost function CleanSpec(data: seq<RawProfile>): seq<CleanProfile> {
    CleanOf(Relevants(data))
  }

  /** One record per URL of the relevant results `rs`, first result's fields, all roles sorted. */
  ghost function CleanOf(rs: seq<RawProfile>): seq<CleanProfile> {
    var firsts := DedupBy(rs, UrlOf);
    seq(|firsts|, k requires 0 <= k < |firsts| =>
      CleanProfile(firsts[k].query, firsts[k].company, firsts[k].url, firsts[k].title,
                   Join(", ", SortedOf(RoleSet(rs, firsts[k].url)))))
  }

  lemma RoleSetAppend(rs: seq<RawProfile>, e: RawProfile, url: string)
    ensures RoleSet(rs + [e], url) == RoleSet(rs, url) + (if e.url == url then {e.role} else {})
  {
    var l := RoleSet(rs + [e], url);
    var r := RoleSet(rs, url) + (if e.url == url then {e.role} else {});
    forall y | y in l ensures y in r {
      var i :| 0 <= i < |rs + [e]| && (rs + [e])[i].url == url && (rs + [e])[i].role == y;
      if i < |rs| {
        assert rs[i] == (rs + [e])[i];
      }
    }
    forall y | y in r ensures y in l {
      if y in RoleSet(rs, url) {
        var i :| 0 <= i < |rs| && rs[i].url == url && rs[i].role == y;
        assert (rs + [e])[i] == rs[i];
      } else {
        assert (rs + [e])[|rs|] == e;
      }
    }
  }

  lemma RoleSetHasKey(rs: seq<RawProfile>, url: string)
    ensures RoleSet(rs, url) != {} ==> HasKey(rs, UrlOf, url)
  {
    if RoleSet(rs, url) != {} {
      var y :| y in RoleSet(rs, url);
      var i :| 0 <= i < |rs| && rs[i].url == url && rs[i].role == y;
      assert UrlOf(rs[i]) == url;
    }
  }

  /**
   * The state of the first loop once the relevant results `rs` are merged:
   * `order` lists the URLs in order of first occurrence and `seen` holds,
   * for each, the first result's fields and all its roles.
   */
  ghost predicate MergeState(rs: seq<RawProfile>, seen: map<string, Merged>, order: seq<string>) {
    var d := DedupBy(rs, UrlOf);
    |order| == |d|
    && (forall u :: u in seen <==> HasKey(rs, UrlOf, u))
    && (forall k :: 0 <= k < |d| ==> order[k] == d[k].url)
    && (forall k :: 0 <= k < |d| ==>
          d[k].url in seen
          && seen[d[k].url] == Merged(d[k].query, d[k].company, d[k].url, d[k].title, RoleSet(rs, d[k].url)))
  }

  /** A relevant result with a URL already seen only adds its role. */
  lemma MergeSeen(rs: seq<RawProfile>, e: RawProfile, seen: map<string, Merged>, order: seq<string>)
    requires MergeState(rs, seen, order) && e.url in seen
    ensures MergeState(rs + [e], seen[e.url := seen[e.url].(roles := seen[e.url].roles + {e.role})], order)
  {
    var d := DedupBy(rs, UrlOf);
    var rs2 := rs + [e];
    var seen2 := seen[e.url := seen[e.url].(roles := seen[e.url].roles + {e.role})];
    assert rs2[..|rs2| - 1] == rs;
    assert HasKey(d, UrlOf, e.url);
    assert DedupBy(rs2, UrlOf) == d;
    forall u ensures u in seen2 <==> HasKey(rs2, UrlOf, u) {
      HasKeyAppend(rs, e, UrlOf, u);
    }
    forall k | 0 <= k < |d|
      ensures d[k].url in seen2
      ensures seen2[d[k].url] == Merged(d[k].query, d[k].company, d[k].url, d[k].title, RoleSet(rs2, d[k].url))
    {
      RoleSetAppend(rs, e, d[k].url);
    }
  }

  /** A relevant result with a new URL opens a record with its own fields and role. */
  lemma MergeNew(rs: seq<RawProfile>, e: RawProfile, seen: map<string, Merged>, order: seq<string>)
    requires MergeState(rs, seen, order) && e.url !in seen
    ensures MergeState(rs + [e], seen[e.url := Merged(e.query, e.company, e.url, e.title, {e.role})], order + [e.url])
  {
    var d := DedupBy(rs, UrlOf);
    var rs2 := rs + [e];
    var d2 := d + [e];
    var seen2 := seen[e.url := Merged(e.query, e.company, e.url, e.title, {e.role})];
    var order2 := order + [e.url];
    assert rs2[..|rs2| - 1] == rs;
    RoleSetHasKey(rs, e.url);
    assert !HasKey(d, UrlOf, e.url);
    assert DedupBy(rs2, UrlOf) == d2;
    forall u ensures u in seen2 <==> HasKey(rs2, UrlOf, u) {
      HasKeyAppend(rs, e, UrlOf, u);
    }
    forall k | 0 <= k < |d2| ensures order2[k] == d2[k].url {
      if k < |d| {
        assert d2[k] == d[k];
      }
    }
    forall k | 0 <= k < |d2|
      ensures d2[k].url in seen2
      ensures seen2[d2[k].url] == Merged(d2[k].query, d2[k].company, d2[k].url, d2[k].title, RoleSet(rs2, d2[k].url))
    {
      RoleSetAppend(rs, e, d2[k].url);
      if k < |d| {
        assert d2[k] == d[k];
      }
    }
  }

  lemma RelevantsAppend(done: seq<RawProfile>, e: RawProfile)
    ensures Relevants(done + [e]) == Relevants(done) + (if Relevant(e) then [e] else [])
  {
    assert (done + [e])[..|done|] == done;
  }

  /** After the first loop, the k-th output record is built from the k-th merged entry. */
  lemma MergedOutput(data: seq<RawProfile>, seen: map<string, Merged>, order: seq<string>, k: nat)
    requires MergeState(Relevants(data), seen, order) && k < |order|
    ensures |order| == |CleanSpec(data)|
    ensures order[k] in seen
    ensures var v := seen[order[k]];
            CleanSpec(data)[k] == CleanProfile(v.query, v.company, v.url, v.title, Join(", ", SortedOf(v.roles)))
  {
  }

  /** The first loop of `clean_profiles`: filter and merge into `seen_urls` (kept in insertion order). */
  method MergeRelevant(data: seq<RawProfile>) returns (seen: map<string, Merged>, order: seq<string>)
    ensures MergeState(Relevants(data), seen, order)
  {
    seen := map[];
    order := [];
    ghost var rs: seq<RawProfile> := [];
    for i := 0 to |data|
      invariant rs == Relevants(data[..i])
      invariant MergeState(rs, seen, order)
    {
      var e := data[i];
      assert data[..i + 1] == data[..i] + [e];
      RelevantsAppend(data[..i], e);
      if Relevant(e) {
        if e.url in seen {
          MergeSeen(rs, e, seen, order);
          seen := seen[e.url := seen[e.url].(roles := seen[e.url].roles + {e.role})];
        } else {
          MergeNew(rs, e, seen, order);
          seen := seen[e.url := Merged(e.query, e.company, e.url, e.title, {e.role})];
          order := order + [e.url];
        }
        rs := rs + [e];
      }
    }
    assert data[..|data|] == data;
  }

  /** `clean_profiles`: the relevance filter, the URL-keyed merge and the sorted role join. */
  method CleanProfiles(data: seq<RawProfile>) returns (cleaned: seq<CleanProfile>)
    ensures cleaned == CleanSpec(data)
  {
    var seen, order := MergeRelevant(data);
    cleaned := [];
    if order == [] {
      assert DedupBy(Relevants(data), UrlOf) == [];
      return;
    }
    ghost var spec := CleanSpec(data);
    MergedOutput(data, seen, order, 0);
    for k := 0 to |order|
      invariant |order| == |spec|
      invariant cleaned == spec[..k]
    {
      MergedOutput(data, seen, order, k);
      var v := seen[order[k]];
      var sorted := SortSet(v.roles);
      var record := CleanProfile(v.query, v.company, v.url, v.title, Join(", ", sorted));
      assert record == spec[k];
      TakeStep(spec, k);
      cleaned := cleaned + [record];
    }
    TakeAll(spec);
  }

  /** An irrelevant result, wherever it stands, has no effect on the output. */
  lemma DropIrrelevant(a: seq<RawProfile>, e: RawProfile, b: seq<RawProfile>)
    requires !Relevant(e)
    ensures CleanSpec(a + [e] + b) == CleanSpec(a + b)
  {
    FilterSkip(a, e, b, Relevant);
  }

  /** The output URLs are pairwise distinct. */
  lemma UrlsDistinct(data: seq<RawProfile>, j: nat, k: nat)
    requires j < k < |CleanSpec(data)|
    ensures CleanSpec(data)[j].url != CleanSpec(data)[k].url
  {
    var d := DedupBy(Relevants(data), UrlOf);
    assert UrlOf(d[j]) != UrlOf(d[k]);
  }

  /**
   * Each output record is the first relevant result with its URL, up to `roles`:
   * that result is relevant, comes from the input, and no earlier relevant
   * result has the same URL.
   */
  lemma FieldsFromFirst(data: seq<RawProfile>, k: nat)
    requires k < |CleanSpec(data)|
    ensures HasKey(Relevants(data), UrlOf, CleanSpec(data)[k].url)
    ensures var rs := Relevants(data);
            var f := rs[FirstIndex(rs, UrlOf, CleanSpec(data)[k].url)];
            f in data && Relevant(f) &&
            CleanSpec(data)[k] == CleanProfile(f.query, f.company, f.url, f.title, CleanSpec(data)[k].roles)
  {
    var rs := Relevants(data);
    var d := DedupBy(rs, UrlOf);
    DedupByFirst(rs, UrlOf, k);
    assert UrlOf(d[k]) == CleanSpec(data)[k].url;
    assert d[k] in rs;
  }

  /**
   * `roles` is the ", "-join of the roles of all relevant results with that
   * URL, duplicates removed, in ascending order.
   */
  lemma RolesJoined(data: seq<RawProfile>, k: nat, xs: seq<string>)
    requires k < |CleanSpec(data)|
    requires StrictlySorted(xs)
    requires forall y :: y in xs <==>
      exists i :: 0 <= i < |data| && Relevant(data[i]) && data[i].url == CleanSpec(data)[k].url && data[i].role == y
    ensures CleanSpec(data)[k].roles == Join(", ", xs)
  {
    var rs := Relevants(data);
    var d := DedupBy(rs, UrlOf);
    var url := d[k].url;
    assert CleanSpec(data)[k].url == url;
    var s := RoleSet(rs, url);
    forall y ensures y in xs <==> y in s {
      if y in s {
        var i :| 0 <= i < |rs| && rs[i].url == url && rs[i].role == y;
        assert rs[i] in data;
        var m :| 0 <= m < |data| && data[m] == rs[i];
      }
      if y in xs {
        var i :| 0 <= i < |data| && Relevant(data[i]) && data[i].url == url && data[i].role == y;
        assert data[i] in rs;
        var m :| 0 <= m < |rs| && rs[m] == data[i];
      }
    }
    SortedUnique(xs, SortedOf(s));
  }

  /** Output order is the order in which each URL first occurs among the relevant results. */
  lemma OrderOfFirstOccurrence(data: seq<RawProfile>, j: nat, k: nat)
    requires j < k < |CleanSpec(data)|
    ensures HasKey(Relevants(data), UrlOf, CleanSpec(data)[j].url)
    ensures HasKey(Relevants(data), UrlOf, CleanSpec(data)[k].url)
    ensures FirstIndex(Relevants(data), UrlOf, CleanSpec(data)[j].url)
          < FirstIndex(Relevants(data), UrlOf, CleanSpec(data)[k].url)
  {
    var rs := Relevants(data);
    var d := DedupBy(rs, UrlOf);
    DedupByOrder(rs, UrlOf, j, k);
    assert UrlOf(d[j]) == CleanSpec(data)[j].url && UrlOf(d[k]) == CleanSpec(data)[k].url;
  }

  /** A relevant result's URL is in the output. */
  lemma RelevantKept(data: seq<RawProfile>, i: nat)
    requires i < |data| && Relevant(data[i])
    ensures exists k :: 0 <= k < |CleanSpec(data)| && CleanSpec(data)[k].url == data[i].url
  {
    var rs := Relevants(data);
    var d := DedupBy(rs, UrlOf);
    assert data[i] in rs;
    var m :| 0 <= m < |rs| && rs[m] == data[i];
    assert HasKey(rs, UrlOf, data[i].url);
    assert HasKey(d, UrlOf, data[i].url);
    var k :| 0 <= k < |d| && UrlOf(d[k]) == data[i].url;
    assert CleanSpec(data)[k].url == data[i].url;
  }

  /** The output has one record per distinct URL of the relevant results, so no more than the input. */
  lemma CountIsDistinctUrls(data: seq<RawProfile>)
    ensures |CleanSpec(data)| == |KeySet(Relevants(data), UrlOf)|
    ensures |CleanSpec(data)| <= |data|
  {
    DedupByCount(Relevants(data), UrlOf);
  }
}
