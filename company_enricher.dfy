/**
 * scripts/company_enricher_it.py: enriching each profile entry once per
 * company. The website fetch and the LLM call are parameters: `fetch` gives
 * the outcome of the HTTP GET (with the page's stripped strings already
 * joined by spaces), `llm` gives the decoded JSON reply, or None when the
 * call raises. The JSON file reads and writes are not modelled.
 */
module CompanyEnricher {
  import opened Wrappers
  import opened Json
  import opened Search

  /** The website text handed to the LLM is cut to this many characters. */
  const MAX_TEXT: nat := 20000

  /** `s[:n]`. */
  function Truncate(s: string, n: nat): (r: string)
    ensures r <= s
    ensures |r| == if |s| <= n then |s| else n
  {
    if |s| <= n then s else s[..n]
  }

  /** `fetch_website_text`: the page text for a 200 response, cut to 20000 characters; "" otherwise. */
  function WebsiteText(fetch: Fetch<string>): (r: string)
    ensures |r| <= MAX_TEXT
    ensures !(fetch.Response? && fetch.status == 200) ==> r == ""
    ensures fetch.Response? && fetch.status == 200 ==> r <= fetch.body
    ensures fetch.Response? && fetch.status == 200 && |fetch.body| <= MAX_TEXT ==> r == fetch.body
  {
    if fetch.Response? && fetch.status == 200 then Truncate(fetch.body, MAX_TEXT) else ""
  }

  /** The record `llm_enrich_company` returns when the LLM call raises. */
  function Fallback(entry: Record): (r: Record)
    ensures r.Keys == {"is_it_services", "industry_summary", "company_summary",
                       "technologies_used", "company_size", "company_linkedin_url"}
    ensures r["is_it_services"] == Null && r["industry_summary"] == Null && r["company_summary"] == Null
    ensures r["technologies_used"] == GetOr(entry, "technologies_used", Arr([]))
    ensures r["company_size"] == Get(entry, "company_size")
    ensures r["company_linkedin_url"] == Get(entry, "company_linkedin_url")
  {
    map["is_it_services" := Null, "industry_summary" := Null, "company_summary" := Null,
        "technologies_used" := GetOr(entry, "technologies_used", Arr([])),
        "company_size" := Get(entry, "company_size"),
        "company_linkedin_url" := Get(entry, "company_linkedin_url")]
  }

  /** `entry.get("company", "")`. */
  function CompanyName(entry: Record): Value {
    GetOr(entry, "company", Str(""))
  }

  /** `website or company_name`: the cache key. */
  function Key(entry: Record): (k: Value)
    ensures Truthy(Get(entry, "company_website")) ==> k == Get(entry, "company_website")
    ensures !Truthy(Get(entry, "company_website")) ==> k == CompanyName(entry)
  {
    var website := Get(entry, "company_website");
    if Truthy(website) then website else CompanyName(entry)
  }

  /**
   * What one cache miss computes for `entry`: the website is fetched only when
   * it is truthy, and a failed LLM call gives the fallback record.
   */
  function Enrichment(entry: Record, fetch: Value -> Fetch<string>,
                      llm: (Value, string, Record) -> Option<Record>): (r: Record)
    ensures llm(CompanyName(entry), if Truthy(Get(entry, "company_website")) then WebsiteText(fetch(Get(entry, "company_website"))) else "", entry).None?
            ==> r == Fallback(entry)
  {
    var website := Get(entry, "company_website");
    var text := if Truthy(website) then WebsiteText(fetch(website)) else "";
    match llm(CompanyName(entry), text, entry)
    case Some(reply) => reply
    case None => Fallback(entry)
  }

  /** The keys the update may write. */
  predicate Updated(k: string) {
    k == "is_it_services" || k == "industry" || k == "company_summary"
    || k == "technologies_used" || k == "company_size" || k == "company_linkedin_url"
  }

  /** Key `k` is as it was: present in both with the same value, or absent from both. */
  predicate Keeps(before: Record, after: Record, k: string) {
    (k in after <==> k in before) && (k in before ==> after[k] == before[k])
  }

  /** Key `k` holds `v`. */
  predicate Sets(after: Record, k: string, v: Value) {
    k in after && after[k] == v
  }

  /** `d[k] = v` when `cond` holds. */
  function SetIf(d: Record, cond: bool, k: string, v: Value): (r: Record)
  {
    if cond then d[k := v] else d
  }

  /** The first four assignments: they overwrite whatever the entry holds. */
  function Overwrite(entry: Record, enriched: Record): Record {
    var e1 := SetIf(entry, Get(enriched, "is_it_services") != Null,
                    "is_it_services", Get(enriched, "is_it_services"));
    var e2 := SetIf(e1, Truthy(Get(enriched, "industry_summary")),
                    "industry", Get(enriched, "industry_summary"));
    var e3 := SetIf(e2, Truthy(Get(enriched, "company_summary")),
                    "company_summary", Get(enriched, "company_summary"));
    SetIf(e3, Truthy(Get(enriched, "technologies_used")),
          "technologies_used", Get(enriched, "technologies_used"))
  }

  /** The last two assignments: they only fill a falsy value. */
  function FillBlanks(e4: Record, enriched: Record): Record {
    var e5 := SetIf(e4, !Truthy(Get(e4, "company_size")) && Truthy(Get(enriched, "company_size")),
                    "company_size", Get(enriched, "company_size"));
    SetIf(e5, !Truthy(Get(e5, "company_linkedin_url")) && Truthy(Get(enriched, "company_linkedin_url")),
          "company_linkedin_url", Get(enriched, "company_linkedin_url"))
  }

  /** The field-by-field update of `entry` from `enriched`, one conditional assignment after the other. */
  function Apply(entry: Record, enriched: Record): Record {
    FillBlanks(Overwrite(entry, enriched), enriched)
  }

  /** The update touches no key outside the six it may write. */
  lemma ApplyFrame(entry: Record, enriched: Record, k: string)
    requires !Updated(k)
    ensures Keeps(entry, Apply(entry, enriched), k)
  {
  }

  /**
   * `is_it_services` is overwritten by any non-None value; `industry` (from
   * `industry_summary`), `company_summary` and `technologies_used` by any
   * truthy value, whatever the entry held before.
   */
  lemma ApplyOverwrites(entry: Record, enriched: Record)
    ensures var r := Apply(entry, enriched);
            (Get(enriched, "is_it_services") != Null ==> Sets(r, "is_it_services", enriched["is_it_services"]))
            && (Get(enriched, "is_it_services") == Null ==> Keeps(entry, r, "is_it_services"))
            && (Truthy(Get(enriched, "industry_summary")) ==> Sets(r, "industry", enriched["industry_summary"]))
            && (!Truthy(Get(enriched, "industry_summary")) ==> Keeps(entry, r, "industry"))
            && (Truthy(Get(enriched, "company_summary")) ==> Sets(r, "company_summary", enriched["company_summary"]))
            && (!Truthy(Get(enriched, "company_summary")) ==> Keeps(entry, r, "company_summary"))
            && (Truthy(Get(enriched, "technologies_used")) ==> Sets(r, "technologies_used", enriched["technologies_used"]))
            && (!Truthy(Get(enriched, "technologies_used")) ==> Keeps(entry, r, "technologies_used"))
  {
    var e4 := Overwrite(entry, enriched);
    assert Keeps(e4, Apply(entry, enriched), "is_it_services") && Keeps(e4, Apply(entry, enriched), "industry");
    assert Keeps(e4, Apply(entry, enriched), "company_summary") && Keeps(e4, Apply(entry, enriched), "technologies_used");
  }

  /** `company_size` and `company_linkedin_url` are written only over a falsy value, and only with a truthy one. */
  lemma ApplyFillsBlanks(entry: Record, enriched: Record)
    ensures var r := Apply(entry, enriched);
            (!Truthy(Get(entry, "company_size")) && Truthy(Get(enriched, "company_size"))
             ==> Sets(r, "company_size", enriched["company_size"]))
            && (!(!Truthy(Get(entry, "company_size")) && Truthy(Get(enriched, "company_size")))
                ==> Keeps(entry, r, "company_size"))
            && (!Truthy(Get(entry, "company_linkedin_url")) && Truthy(Get(enriched, "company_linkedin_url"))
                ==> Sets(r, "company_linkedin_url", enriched["company_linkedin_url"]))
            && (!(!Truthy(Get(entry, "company_linkedin_url")) && Truthy(Get(enriched, "company_linkedin_url")))
                ==> Keeps(entry, r, "company_linkedin_url"))
  {
    var e4 := Overwrite(entry, enriched);
    assert Keeps(entry, e4, "company_size") && Keeps(entry, e4, "company_linkedin_url");
  }

  /** Records that agree on every key are equal. */
  lemma SameRecord(a: Record, b: Record)
    requires forall k :: Keeps(a, b, k)
    ensures a == b
  {
    forall k ensures (k in a <==> k in b) && (k in a ==> a[k] == b[k]) {
      assert Keeps(a, b, k);
    }
    assert a.Keys == b.Keys;
  }

  /** Updating twice from the same enrichment changes nothing more. */
  lemma ApplyIdempotent(entry: Record, enriched: Record)
    ensures Apply(Apply(entry, enriched), enriched) == Apply(entry, enriched)
  {
    var r := Apply(entry, enriched);
    var r2 := Apply(r, enriched);
    ApplyOverwrites(entry, enriched);
    ApplyOverwrites(r, enriched);
    ApplyFillsBlanks(entry, enriched);
    ApplyFillsBlanks(r, enriched);
    assert Keeps(r, r2, "is_it_services") && Keeps(r, r2, "industry") && Keeps(r, r2, "company_summary");
    assert Keeps(r, r2, "technologies_used");
    assert Keeps(r, r2, "company_size") && Keeps(r, r2, "company_linkedin_url");
    forall k ensures Keeps(r, r2, k) {
      if !Updated(k) {
        ApplyFrame(r, enriched, k);
      }
    }
    SameRecord(r, r2);
  }

  /** The fallback record built from an entry leaves that entry as it is. */
  lemma FallbackNoChange(entry: Record)
    ensures Apply(entry, Fallback(entry)) == entry
  {
    var r := Apply(entry, Fallback(entry));
    ApplyOverwrites(entry, Fallback(entry));
    ApplyFillsBlanks(entry, Fallback(entry));
    forall k ensures Keeps(entry, r, k) {
      if !Updated(k) {
        ApplyFrame(entry, Fallback(entry), k);
      } else if k == "technologies_used" && Truthy(GetOr(entry, "technologies_used", Arr([]))) {
        assert "technologies_used" in entry;
      }
    }
    SameRecord(entry, r);
  }

  /** The index of the first element of `data` with the same key as `data[i]`. */
  function FirstSameKey<T, K(==,!new)>(data: seq<T>, key: T -> K, i: nat): (j: nat)
    requires i < |data|
    ensures j <= i
    decreases i
  {
    if i == 0 || key(data[0]) == key(data[i]) then 0 else FirstSameKey(data[1..], key, i - 1) + 1
  }

  /** `FirstSameKey` finds an element with the key, and no earlier element has it. */
  lemma {:induction false} FirstSameKeyFacts<T, K(!new)>(data: seq<T>, key: T -> K, i: nat)
    requires i < |data|
    ensures key(data[FirstSameKey(data, key, i)]) == key(data[i])
    ensures forall k :: 0 <= k < FirstSameKey(data, key, i) ==> key(data[k]) != key(data[i])
    decreases i
  {
    if !(i == 0 || key(data[0]) == key(data[i])) {
      FirstSameKeyFacts(data[1..], key, i - 1);
      assert forall k :: 0 < k < |data| ==> data[k] == data[1..][k - 1];
    }
  }

  /** Elements with the same key share their first element. */
  lemma SameKeySameFirst<T, K(!new)>(data: seq<T>, key: T -> K, i: nat, j: nat)
    requires i < |data| && j < |data| && key(data[i]) == key(data[j])
    ensures FirstSameKey(data, key, i) == FirstSameKey(data, key, j)
  {
    FirstSameKeyFacts(data, key, i);
    FirstSameKeyFacts(data, key, j);
    var a, b := FirstSameKey(data, key, i), FirstSameKey(data, key, j);
    assert !(a < b) && !(b < a);
  }

  /**
   * The cache after the first `n` elements: it holds exactly their keys, each
   * with the enrichment computed for the first element with that key, and
   * `calls` lists its keys without repetition.
   */
  ghost predicate CacheFor<T, K(!new), E>(data: seq<T>, key: T -> K, compute: T -> E, n: nat,
                                        cache: map<K, E>, calls: seq<K>)
    requires n <= |data|
  {
    (forall i {:trigger key(data[i])} :: 0 <= i < n ==>
       key(data[i]) in cache && cache[key(data[i])] == compute(data[FirstSameKey(data, key, i)]))
    && (forall k :: k in cache ==> exists i :: 0 <= i < n && key(data[i]) == k)
    && (forall k :: k in calls <==> k in cache)
    && (forall a, b :: 0 <= a < b < |calls| ==> calls[a] != calls[b])
  }

  /** One cache lookup: a hit reuses the cached enrichment, a miss computes and caches it. */
  method Lookup<T, K(==,!new), E>(data: seq<T>, key: T -> K, compute: T -> E, n: nat,
                             cache: map<K, E>, calls: seq<K>)
    returns (enriched: E, cache': map<K, E>, calls': seq<K>)
    requires n < |data| && CacheFor(data, key, compute, n, cache, calls)
    ensures enriched == compute(data[FirstSameKey(data, key, n)])
    ensures CacheFor(data, key, compute, n + 1, cache', calls')
    ensures key(data[n]) in cache ==> cache' == cache && calls' == calls
    ensures key(data[n]) !in cache ==> cache' == cache[key(data[n]) := enriched] && calls' == calls + [key(data[n])]
  {
    var k := key(data[n]);
    if k in cache {
      enriched, cache', calls' := cache[k], cache, calls;
      var i :| 0 <= i < n && key(data[i]) == k;
      SameKeySameFirst(data, key, i, n);
    } else {
      FirstSameKeyFacts(data, key, n);
      assert FirstSameKey(data, key, n) == n;
      enriched := compute(data[n]);
      cache', calls' := cache[k := enriched], calls + [k];
    }
  }

  /**
   * The loop of `main`, over any entries, key, enrichment and update: it runs
   * until `stop` holds of the 1-based entry number, and updates each entry
   * from the enrichment the cache gives for its key. `calls` lists the cache
   * keys in insertion order, one per computed enrichment.
   */
  method CachedLoop<T, K(==,!new), E>(data: seq<T>, stop: nat -> bool, key: T -> K, compute: T -> E,
                                 update: (T, E) -> T)
    returns (results: seq<T>, calls: seq<K>)
    ensures |results| <= |data|
    ensures forall i :: 1 <= i <= |results| ==> !stop(i)
    ensures |results| < |data| ==> stop(|results| + 1)
    ensures forall i :: 0 <= i < |results| ==>
              results[i] == update(data[i], compute(data[FirstSameKey(data, key, i)]))
    ensures forall k :: k in calls <==> exists i :: 0 <= i < |results| && key(data[i]) == k
    ensures forall a, b :: 0 <= a < b < |calls| ==> calls[a] != calls[b]
  {
    results, calls := [], [];
    var cache: map<K, E> := map[];
    var n := 0;
    while n < |data| && !stop(n + 1)
      invariant n <= |data| && |results| == n
      invariant forall i :: 1 <= i <= n ==> !stop(i)
      invariant forall i {:trigger results[i]} :: 0 <= i < n ==>
                  results[i] == update(data[i], compute(data[FirstSameKey(data, key, i)]))
      invariant CacheFor(data, key, compute, n, cache, calls)
    {
      var enriched;
      enriched, cache, calls := Lookup(data, key, compute, n, cache, calls);
      results := results + [update(data[n], enriched)];
      n := n + 1;
    }
  }

  /**
   * `main`'s loop over the loaded entries. `LIMIT` is falsy (None or 0:
   * every entry) or an `int` (the loop breaks at entry number LIMIT + 1,
   * counting from 1, so a negative limit processes nothing). Each processed
   * entry is updated from the enrichment of the first entry with its cache
   * key, and the LLM is called once per distinct key.
   */
  method Enrich(data: seq<Record>, limit: Option<int>, fetch: Value -> Fetch<string>,
                llm: (Value, string, Record) -> Option<Record>)
    returns (results: seq<Record>, calls: seq<Value>)
    ensures |results| <= |data|
    ensures limit.None? || limit.value == 0 ==> |results| == |data|
    ensures limit.Some? && limit.value < 0 ==> results == []
    ensures limit.Some? && limit.value > 0 ==> |results| == if |data| <= limit.value then |data| else limit.value
    ensures forall i :: 0 <= i < |results| ==>
              results[i] == Apply(data[i], Enrichment(data[FirstSameKey(data, Key, i)], fetch, llm))
    ensures forall k :: k in calls <==> exists i :: 0 <= i < |results| && Key(data[i]) == k
    ensures forall a, b :: 0 <= a < b < |calls| ==> calls[a] != calls[b]
  {
    var stop := (i: nat) => limit.Some? && limit.value != 0 && i > limit.value;
    var compute := (entry: Record) => Enrichment(entry, fetch, llm);
    results, calls := CachedLoop(data, stop, Key, compute, Apply);
    if |results| > 0 {
      assert !stop(|results|) && !stop(1);
    }
  }
}
