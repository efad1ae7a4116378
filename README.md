# Lead-generation pipeline scripts, modelled in Dafny

The repository is a chain of Python scripts for lead generation:

- scrape job cards from Naukri;
- clean the company and location names of the cards;
- find each company's website;
- crawl the website for LinkedIn company pages and read the employee count from them;
- search Serper for LinkedIn profiles of founders and marketing heads;
- deduplicate the profiles and merge them with the company data;
- fill in missing websites and enrich each company through an LLM.

This project models the record-processing logic of those scripts. The outside world is a parameter:

- a Serper search is a function from the query text to a `Reply` (a request error, or a body with or without an `organic` list of hits);
- a page fetch is a `Fetch` value (a failure, or a status and a body);
- the LLM call is a function returning `Option<Record>`, where `None` is the exception path.

Each script is one module.

- `ProfileCleaner`: `profile_cleaner_v2.py`.
- `ProfileScraper`: `linkedin_profile_scraper.py`.
- `ProfileMerger`: `profiles_companies_merger.py`.
- `UnknownCompanies`: `update_unknown_companies.py`.
- `CompanyEnricher`: `company_enricher_it.py`.
- `WebsiteFinder`: `fetch_company_websites.py`.
- `LinkedinSearch`: `linkedin_search.py`.
- `JobsCleaner`: `naukri_jobs_cleaner.py`.
- `NaukriScraper`: `scrape_naukri.py`.

Shared modules hold what several scripts use:

- `Wrappers`: `Option`.
- `Json`: JSON values and records, Python truthiness, `dict.get`, `str` and `repr`.
- `Search`: the Serper reply.
- `Text`: `strip`, `lower`, `split`, `join`, `title`, the whitespace substitutions and decimal text.
- `Patterns`: the regular expressions of the two Naukri scripts, modelled exactly on ASCII text.
- `Seqs`: first-wins deduplication, filters, dict comprehensions.
- `Sorting`: Python's string order and `sorted` on a set.

Where a script loops and updates state, the model is a method with a loop. Each such method is proved equal to a function that states the result. The properties the scripts promise are proved about those functions as lemmas.

The CSV table that `update_unknown_companies.py` edits cell by cell with `df.at` is a class, `UnknownCompanies.Table`. Its methods have `modifies` clauses.

## Model

| member | source | states |
|---|---|---|
| ProfileCleaner.MergeSeen | scripts/profile_cleaner_v2.py:24-26 | a relevant entry whose URL was seen only adds its role to that URL's role set; the first entry's fields and the URL order stay |
| ProfileCleaner.MergeNew | scripts/profile_cleaner_v2.py:27-34 | a relevant entry with a new URL opens a record with its own query, company, url, title and the set of its role, and its URL goes last in insertion order |
| ProfileCleaner.MergedOutput | scripts/profile_cleaner_v2.py:36-39 | after the merge loop, the k-th output record is the k-th inserted entry with its role set sorted and joined with ", " |
| ProfileCleaner.MergeRelevant | scripts/profile_cleaner_v2.py:11-34 | the filter-and-merge loop leaves `seen_urls` holding, for each URL in order of first relevant occurrence, the first entry's fields and all roles of that URL |
| ProfileCleaner.CleanProfiles | scripts/profile_cleaner_v2.py:7-39 | `clean_profiles` returns exactly the specified list: one record per URL of the relevant entries |
| ProfileCleaner.DropIrrelevant | scripts/profile_cleaner_v2.py:17-22 | an entry whose lower-cased title contains neither its lower-cased role nor its lower-cased company changes nothing in the output, wherever it stands |
| ProfileCleaner.UrlsDistinct | scripts/profile_cleaner_v2.py:24-39 | the output URLs are pairwise distinct |
| ProfileCleaner.FieldsFromFirst | scripts/profile_cleaner_v2.py:24-34 | every output record has the query, company, url and title of the first relevant input entry with its URL |
| ProfileCleaner.RolesJoined | scripts/profile_cleaner_v2.py:24-38 | `roles` is the ", "-join of the strictly increasing list of the roles of all relevant entries with that URL |
| ProfileCleaner.OrderOfFirstOccurrence | scripts/profile_cleaner_v2.py:24-39 | output order is the order of each URL's first relevant occurrence |
| ProfileCleaner.RelevantKept | scripts/profile_cleaner_v2.py:20-34 | the URL of every relevant entry is in the output |
| ProfileCleaner.CountIsDistinctUrls | scripts/profile_cleaner_v2.py:24-44 | the output count is the number of distinct URLs among the relevant entries, so at most the input count |
| ProfileScraper.CsvNames | scripts/linkedin_profile_scraper.py:24-29 | the CSV names are exactly the non-empty cells whose lower-cased text is not "unknown" |
| ProfileScraper.AddJsonNames | scripts/linkedin_profile_scraper.py:31-36 | the JSON loop keeps the earlier names as a prefix; each name it appends is a truthy JSON company and was not yet in the list; every truthy JSON company ends up in the list |
| ProfileScraper.StripNonEmpty | scripts/linkedin_profile_scraper.py:38 | the final list holds exactly the stripped names that are non-empty, each without edge whitespace |
| ProfileScraper.ReadCsvNames | scripts/linkedin_profile_scraper.py:24-29 | the CSV part of `load_companies` yields the specified names in row order |
| ProfileScraper.AddJsonLoop | scripts/linkedin_profile_scraper.py:31-36 | the check-then-append loop over the JSON records yields the specified list |
| ProfileScraper.AddJsonStep | scripts/linkedin_profile_scraper.py:34-36 | one more JSON record appends its truthy company exactly when it is not yet listed |
| ProfileScraper.LoadCompanies | scripts/linkedin_profile_scraper.py:21-39 | `load_companies` returns the specified list |
| ProfileScraper.CompaniesClean | scripts/linkedin_profile_scraper.py:38-39 | every loaded name is non-empty, has no edge whitespace and is unchanged by `strip()` |
| ProfileScraper.QueryFor | scripts/linkedin_profile_scraper.py:46-50 | a query object carries its company and role, and its `query` is role + " at " + company, built from its own fields |
| ProfileScraper.QueryList | scripts/linkedin_profile_scraper.py:42-51 | the query list has exactly six queries per company |
| ProfileScraper.QueryListAt | scripts/linkedin_profile_scraper.py:44-50 | query i*6+j is the query for company i and role j: company-major, role-minor order |
| ProfileScraper.GenerateQueries | scripts/linkedin_profile_scraper.py:42-51 | the nested loop builds |companies| x 6 queries, query i*6+j for company i and role j |
| ProfileScraper.SearchPatterns | scripts/linkedin_profile_scraper.py:58-62 | there are three search strings; each starts with "site:linkedin.com/in " and holds the role and the company; the first holds the quoted "role at company"; the last ends with " LinkedIn" |
| ProfileScraper.QuotedPattern | scripts/linkedin_profile_scraper.py:59 | the first pattern holds the prefix, the role, the company and the quoted "role at company" |
| ProfileScraper.PlainPattern | scripts/linkedin_profile_scraper.py:60 | the second pattern holds the prefix, the role and the company |
| ProfileScraper.NamedPattern | scripts/linkedin_profile_scraper.py:61 | the third pattern holds the prefix, the company and the role, and ends with " LinkedIn" |
| ProfileScraper.ProfilesOf | scripts/linkedin_profile_scraper.py:76-86 | every profile from one reply has a URL containing "linkedin.com/in/" and the input's query, role and company; every such organic result gives a profile |
| ProfileScraper.FirstFound | scripts/linkedin_profile_scraper.py:69-92 | every profile the pattern loop returns has a LinkedIn profile URL and carries the input's query, role and company |
| ProfileScraper.FirstFoundIsFirst | scripts/linkedin_profile_scraper.py:69-94 | the result is empty exactly when no pattern yields a profile; otherwise it is the yield of the first pattern that yields one, request errors counting as yielding nothing |
| ProfileScraper.CollectProfiles | scripts/linkedin_profile_scraper.py:76-86 | the loop over the organic results builds the specified profiles |
| ProfileScraper.SearchLinkedInProfiles | scripts/linkedin_profile_scraper.py:54-94 | the pattern loop with its `break` and error `continue` returns the specified profiles |
| ProfileScraper.QueriesToRun | scripts/linkedin_profile_scraper.py:123-127 | the queries to run are the first `MAX_QUERIES` unanswered queries in order (all of them when there are fewer), repeated copies included; none was answered before; with fewer than `MAX_QUERIES`, every unanswered query is there |
| ProfileScraper.RepeatsRun | scripts/linkedin_profile_scraper.py:124-127 | below the cap, an unanswered query is run as many times as it occurs in the generated list |
| ProfileScraper.RunQueries | scripts/linkedin_profile_scraper.py:131-139 | the session loop keeps the earlier results and failures as prefixes, extends the results with each query's profiles and appends each query without profiles to the failures |
| ProfileScraper.FailedIff | scripts/linkedin_profile_scraper.py:133-138 | a query of the session is among the failures exactly when its search found nothing |
| ProfileScraper.FoundKept | scripts/linkedin_profile_scraper.py:133-135 | every profile a query of the session finds is among the results |
| ProfileScraper.FoundFromQuery | scripts/linkedin_profile_scraper.py:133-135 | every profile added comes from a query of the session that found it, with that query's text |
| ProfileScraper.Session | scripts/linkedin_profile_scraper.py:117-139 | a session generates the queries, skips the answered ones, runs at most `MAX_QUERIES` and extends the two lists |
| ProfileMerger.Merge | scripts/profiles_companies_merger.py:22-44 | the merged list has one record per profile, in profile order, each joined with `company_map` |
| ProfileMerger.JoinCopies | scripts/profiles_companies_merger.py:33-40 | `query`, `title`, `url` and `roles` are copied unchanged; `company` is the stripped profile company |
| ProfileMerger.JoinMatch | scripts/profiles_companies_merger.py:22-29 | with a company of exactly that stripped name, the details are those of the last such company |
| ProfileMerger.JoinMiss | scripts/profiles_companies_merger.py:34-43 | without an exact, case-sensitive match, website, size and LinkedIn URL are all None |
| ProfileMerger.LinkedinUrlKey | scripts/profiles_companies_merger.py:26 | `company_linkedin_url` is None when no company record has the key `linkedin_url` (as for the records the LinkedIn search writes, which use `linkedin_urls`) |
| UnknownCompanies.LookupKeys | scripts/update_unknown_companies.py:26-33 | the lookup's keys are exactly the stripped, lower-cased names of the companies with a truthy name |
| UnknownCompanies.LookupLastWins | scripts/update_unknown_companies.py:26-33 | a named company with no later named company of the same key supplies that key's website and size |
| UnknownCompanies.FillRowMiss | scripts/update_unknown_companies.py:61-63 | Pass 1 leaves a row whose key is not in the lookup unchanged |
| UnknownCompanies.FillRowOthers | scripts/update_unknown_companies.py:61-72 | Pass 1 changes no cell other than the website and the size |
| UnknownCompanies.FillRowWebsite | scripts/update_unknown_companies.py:66-68 | the website is replaced exactly when it is falsy, "", "Unknown" or "unknown" and the lookup's is truthy, so never by a falsy value |
| UnknownCompanies.FillRowSize | scripts/update_unknown_companies.py:70-72 | the size is overwritten whenever the lookup's size is truthy, whatever the row held |
| UnknownCompanies.PersonNameParts | scripts/update_unknown_companies.py:78 | the person name has no "-" and no edge whitespace, and is the stripped text before the first "-" of the title (the stripped title when there is no "-") |
| UnknownCompanies.FirstTruthyLink | scripts/update_unknown_companies.py:46-51 | the link is "" exactly when no organic result has a truthy link; otherwise it is the first truthy one |
| UnknownCompanies.UnknownFillRules | scripts/update_unknown_companies.py:75-83 | Pass 2 leaves rows other than "Unknown" rows alone, changes only the website, and writes only a non-empty found link |
| UnknownCompanies.AddColumn | scripts/update_unknown_companies.py:58 | writing a cell of a column adds the column at the end if it is new and keeps the other columns |
| UnknownCompanies.Table.constructor | scripts/update_unknown_companies.py:57-58 | the table starts with the columns and rows read |
| UnknownCompanies.Table.SetCell | scripts/update_unknown_companies.py:68 | `df.at[idx, col] = v` changes one cell of one row and adds the column if it is new |
| UnknownCompanies.Table.EnsureSizeColumn | scripts/update_unknown_companies.py:56-58 | afterwards `company_size` is a column; when it was missing, every row gets an empty size |
| UnknownCompanies.Table.FillRowAt | scripts/update_unknown_companies.py:62-72 | the Pass 1 body rewrites row n as the fill rule says and no other row |
| UnknownCompanies.Table.FillFromLookup | scripts/update_unknown_companies.py:60-72 | Pass 1 keeps the row count and rewrites each row from its state before the pass |
| UnknownCompanies.Table.FillUnknownAt | scripts/update_unknown_companies.py:78-83 | the Pass 2 body changes row n as the Pass 2 rule says and no other row |
| UnknownCompanies.Table.FillUnknown | scripts/update_unknown_companies.py:74-86 | Pass 2 keeps the row count and rewrites each row by the Pass 2 rule |
| UnknownCompanies.UnknownStep | scripts/update_unknown_companies.py:77-83 | one more row of Pass 2 keeps the loop's invariant |
| UnknownCompanies.UnknownFillColumns | scripts/update_unknown_companies.py:79 | Pass 2's result for a row does not depend on the website column that Pass 1 may add |
| UnknownCompanies.SomeUnknownFilledColumns | scripts/update_unknown_companies.py:76-83 | whether Pass 2 writes some website cell does not depend on the website column that Pass 1 may add |
| UnknownCompanies.FillKeepsNames | scripts/update_unknown_companies.py:61-72 | Pass 1 keeps every row's company name, so Pass 2 sees the same "Unknown" rows |
| UnknownCompanies.PassesCompose | scripts/update_unknown_companies.py:56-86 | the size column, Pass 1 and Pass 2 compose row by row |
| UnknownCompanies.UpdateUnknownCompanies | scripts/update_unknown_companies.py:26-90 | the row count is kept; the written header is the input columns plus `company_size` if new, then `company_website` if new and exactly when Pass 1 or Pass 2 writes a website cell; each row is the size column, Pass 1 and Pass 2 applied in turn |
| CompanyEnricher.Truncate | scripts/company_enricher_it.py:42 | `s[:n]` is a prefix of `s` of length min(|s|, n) |
| CompanyEnricher.WebsiteText | scripts/company_enricher_it.py:34-45 | the fetched text is at most 20000 characters, a prefix of the page text for a 200 response, and "" otherwise |
| CompanyEnricher.Fallback | scripts/company_enricher_it.py:82-91 | the failure record has None for the three summary fields and copies `technologies_used` (default []), `company_size` and `company_linkedin_url` from the entry |
| CompanyEnricher.Key | scripts/company_enricher_it.py:107-109 | the cache key is the website when it is truthy, else the company name |
| CompanyEnricher.Enrichment | scripts/company_enricher_it.py:114-119 | a cache miss whose LLM call fails yields the fallback record |
| CompanyEnricher.ApplyFrame | scripts/company_enricher_it.py:122-134 | the update touches no key other than the six it may write |
| CompanyEnricher.ApplyOverwrites | scripts/company_enricher_it.py:123-130 | `is_it_services` is overwritten exactly when the enriched value is not None; `industry`, `company_summary` and `technologies_used` exactly when the enriched value is truthy, whatever the entry held |
| CompanyEnricher.ApplyFillsBlanks | scripts/company_enricher_it.py:131-134 | `company_size` and `company_linkedin_url` change exactly when the entry's value is falsy and the enriched value is truthy |
| CompanyEnricher.ApplyIdempotent | scripts/company_enricher_it.py:122-134 | updating twice from the same enrichment changes nothing more |
| CompanyEnricher.FallbackNoChange | scripts/company_enricher_it.py:82-91 | updating an entry from its own fallback record leaves it as it was |
| CompanyEnricher.FirstSameKeyFacts | scripts/company_enricher_it.py:107-116 | the entry whose enrichment is reused has the same cache key, and no earlier entry has that key |
| CompanyEnricher.SameKeySameFirst | scripts/company_enricher_it.py:107-116 | entries with the same cache key share one enrichment |
| CompanyEnricher.Lookup | scripts/company_enricher_it.py:113-119 | a cache hit reuses the stored enrichment, a miss computes, stores and records it; either way the enrichment is that of the first entry with the key |
| CompanyEnricher.CachedLoop | scripts/company_enricher_it.py:103-136 | the loop stops at the first entry number the limit rejects, updates each entry from the enrichment of the first entry with its key, and computes once per distinct key |
| CompanyEnricher.Enrich | scripts/company_enricher_it.py:103-136 | every entry is processed when `LIMIT` is falsy, none for a negative limit, min(|data|, LIMIT) otherwise; each result is its entry updated from its key's first enrichment; the LLM is called once per distinct key |
| WebsiteFinder.Domain | scripts/fetch_company_websites.py:24-26 | the domain is the lower-cased netloc with one leading "www." removed when present, and the lower-cased netloc otherwise |
| WebsiteFinder.ValidWebsiteFacts | scripts/fetch_company_websites.py:21-32 | a valid website has a non-empty link, no blocked domain in its lower-cased netloc, and a netloc ending with an accepted top-level domain |
| WebsiteFinder.WwwHidesNoBlocked | scripts/fetch_company_websites.py:24-29 | dropping a leading "www." cannot hide a blocked domain |
| WebsiteFinder.FirstValid | scripts/fetch_company_websites.py:53-57 | the chosen hit is valid and no earlier hit is; with none chosen, no hit is valid |
| WebsiteFinder.WebsiteFor | scripts/fetch_company_websites.py:34-36 | an empty company, or one equal to "unknown" in any case, gives "N/A" |
| WebsiteFinder.SkippedNoRequest | scripts/fetch_company_websites.py:34-36 | for such a company the search reply does not matter: no request is made |
| WebsiteFinder.WebsiteOutcomes | scripts/fetch_company_websites.py:48-64 | "Error" on a request error, "Not Found" without an `organic` key; with an `organic` list, the link of the first valid hit when there is a valid hit, and "Not Found (Only job/social links)" when there is none |
| WebsiteFinder.WithColumn | scripts/fetch_company_websites.py:79 | assigning a column gives row i the i-th value and adds the column at the end if new |
| WebsiteFinder.SearchRows | scripts/fetch_company_websites.py:79 | the row loop gives one search result per row, in row order |
| WebsiteFinder.AddWebsites | scripts/fetch_company_websites.py:66-79 | a table without a `company` column is refused; otherwise there is one website per row, in row order, and they become the `website` column |
| LinkedinSearch.CutQuery | scripts/linkedin_search.py:23 | the text before the first "?" is a prefix without "?", the whole href when it has none |
| LinkedinSearch.KeptHas | scripts/linkedin_search.py:20-23 | a link is kept exactly when it is the cut of some href containing "linkedin.com/company" |
| LinkedinSearch.LinkedinLinksFacts | scripts/linkedin_search.py:19-26 | the links are exactly the cut hrefs containing "linkedin.com/company"; none has a "?"; none appears twice |
| LinkedinSearch.LinkedinLinksOrder | scripts/linkedin_search.py:24-25 | links keep the order of their first occurrence on the page |
| LinkedinSearch.CutBeforeMark | scripts/linkedin_search.py:22-23 | a "?" before the marker cuts the marker off, so a kept link need not be a LinkedIn link |
| LinkedinSearch.ExtractLinks | scripts/linkedin_search.py:19-26 | the href loop with its membership check builds the specified links |
| LinkedinSearch.KeptStep | scripts/linkedin_search.py:20-23 | one more href adds its cut exactly when it contains "linkedin.com/company" |
| LinkedinSearch.ExtractLinkedin | scripts/linkedin_search.py:12-29 | `extract_linkedin_from_website` returns the specified links for the fetched page |
| LinkedinSearch.PageLinks | scripts/linkedin_search.py:16-17 | a failed fetch or a status other than 200 gives no links |
| LinkedinSearch.FirstCountMatchFacts | scripts/linkedin_search.py:39 | the match found is the leftmost match of `([\d,]+)\s+employees`, ignoring case; with none found there is none |
| LinkedinSearch.DropCommas | scripts/linkedin_search.py:41 | removing commas from digits and commas leaves only digits, changes nothing without commas, and leaves nothing of commas only |
| LinkedinSearch.NoEmployeesWord | scripts/linkedin_search.py:39-43 | text without "employees" in any case gives no count |
| LinkedinSearch.ReadsPrintedCount | scripts/linkedin_search.py:39-42 | a number printed before " employees", after text without digits or commas, is read back |
| LinkedinSearch.CommasOnlyNone | scripts/linkedin_search.py:41-46 | a first match of commas only gives None: `int("")` raises and the error is caught |
| LinkedinSearch.PageSize | scripts/linkedin_search.py:35-36 | a failed fetch or a status other than 200 gives no size |
| LinkedinSearch.CandidatesFacts | scripts/linkedin_search.py:55-56 | the candidates are the distinct (company, website) pairs of the rows with both cells filled, each once |
| LinkedinSearch.NotFoundCrawled | scripts/linkedin_search.py:62-63 | a plain "Not Found" website is not skipped |
| LinkedinSearch.Normalise | scripts/linkedin_search.py:65-66 | the crawled URL starts with "http" and ends with the website |
| LinkedinSearch.NormaliseIdempotent | scripts/linkedin_search.py:65-66 | normalising twice is normalising once |
| LinkedinSearch.PageForFacts | scripts/linkedin_search.py:59-82 | a record has the stripped company, the normalised website repeated as `source_url`, the crawled page's links, and the size of the first link's page, or None without links |
| LinkedinSearch.CrawlHas | scripts/linkedin_search.py:62-82 | a candidate adds its own record, and only when its website is not skipped |
| LinkedinSearch.PagesSound | scripts/linkedin_search.py:58-82 | every record belongs to a candidate whose website is not skipped |
| LinkedinSearch.PagesComplete | scripts/linkedin_search.py:58-82 | every candidate whose website is not skipped gets its record |
| LinkedinSearch.Visit | scripts/linkedin_search.py:65-82 | one crawl normalises the website, collects its links and reads the size from the first |
| LinkedinSearch.SearchCompanies | scripts/linkedin_search.py:49-82 | a table without both columns is refused; otherwise the records of the candidates, in order, skipped websites left out |
| LinkedinSearch.AsRecord | scripts/linkedin_search.py:76-82 | the JSON record has exactly the five keys, `source_url` equal to `website` |
| JobsCleaner.Tidy | scripts/naukri_jobs_cleaner.py:44-46 | the tidy-up is never empty and leaves no whitespace at either end or twice in a row |
| JobsCleaner.CompanyClean | scripts/naukri_jobs_cleaner.py:23-46 | the cleaned company is never empty, is "Unknown" for an empty name, and has no whitespace at either end or twice in a row |
| JobsCleaner.CompanyChain | scripts/naukri_jobs_cleaner.py:41-43 | the last three substitutions follow the word removals in order |
| JobsCleaner.WordsRemovedNoNewline | scripts/naukri_jobs_cleaner.py:27-39 | the title and word removals bring no newline into a newline-free name |
| JobsCleaner.TidyNoChar | scripts/naukri_jobs_cleaner.py:44-46 | the tidy-up brings in no character other than a space or one of "Unknown" |
| JobsCleaner.TidyNoPair | scripts/naukri_jobs_cleaner.py:44-46 | the tidy-up keeps "no `(` followed later by `)`" |
| JobsCleaner.DashTidy | scripts/naukri_jobs_cleaner.py:43-46 | on newline-free text, the hyphen cut and the tidy-up leave no hyphen and keep "no `(` before `)`" |
| JobsCleaner.TailNoHyphenNoParens | scripts/naukri_jobs_cleaner.py:41-46 | on newline-free text, the last three substitutions and the tidy-up leave no hyphen and no `(` followed later by `)` |
| JobsCleaner.CompanyNoHyphenNoParens | scripts/naukri_jobs_cleaner.py:42-43 | for a newline-free name, the cleaned company has no hyphen and no `(` followed later by `)` |
| JobsCleaner.RemoveWords | scripts/naukri_jobs_cleaner.py:32-39 | each keyword loop removes its words one by one, in list order |
| JobsCleaner.RemovedInTurn | scripts/naukri_jobs_cleaner.py:32-39 | the three loops in turn remove the one list of junk keywords, cities and leftover fragments |
| JobsCleaner.CleanCompanyName | scripts/naukri_jobs_cleaner.py:23-46 | the step-by-step reassignment of `text` gives the specified cleaned company |
| JobsCleaner.LocationClean | scripts/naukri_jobs_cleaner.py:48-56 | the cleaned location is never empty and is "Unknown" for an empty location |
| JobsCleaner.UnparenthesisedTidy | scripts/naukri_jobs_cleaner.py:52-54 | stripping before collapsing leaves no whitespace at either end or twice in a row |
| JobsCleaner.LocationTidy | scripts/naukri_jobs_cleaner.py:52-56 | the cleaned location has no whitespace at either end or twice in a row |
| JobsCleaner.UnparenthesisedNoPair | scripts/naukri_jobs_cleaner.py:52-54 | for a newline-free location, no `(` is followed later by `)` after the parentheses are removed |
| JobsCleaner.LocationNoParens | scripts/naukri_jobs_cleaner.py:52-56 | for a newline-free location, no `(` in the cleaned location is followed later by `)` |
| JobsCleaner.Rewrite | scripts/naukri_jobs_cleaner.py:67-71 | the rewritten row has the row's fields plus `company` and `location` |
| JobsCleaner.RewriteOnly | scripts/naukri_jobs_cleaner.py:67-71 | only `company` and `location` change, to the cleaned texts |
| JobsCleaner.WritableIff | scripts/naukri_jobs_cleaner.py:62-72 | a rewritten row can be written exactly when the header has `company` and `location` and the row has no field outside the header |
| JobsCleaner.Line | scripts/naukri_jobs_cleaner.py:72 | the written line has one cell per header field, in header order |
| JobsCleaner.LineKeepsColumns | scripts/naukri_jobs_cleaner.py:62-72 | every column other than company and location keeps the cell read; those two hold the new texts |
| JobsCleaner.CleanRow | scripts/naukri_jobs_cleaner.py:67-71 | the loop body's two assignments give the cleaned row |
| JobsCleaner.WriteRows | scripts/naukri_jobs_cleaner.py:66-72 | the row loop writes each rewritten row in order until one cannot be written; it stops there exactly then |
| JobsCleaner.CleanRows | scripts/naukri_jobs_cleaner.py:58-72 | the script writes each cleaned row in order and stops with a `ValueError` at the first cleaned row that cannot be written (see `WritableIff`) |
| NaukriScraper.JunkLowered | scripts/scrape_naukri.py:13 | the model's lower-case junk words are the script's junk keywords lower-cased |
| NaukriScraper.PageUrlText | scripts/scrape_naukri.py:7-8 | with the script's query and location, the address is "https://www.naukri.com/lead-generation-jobs-in-india-" and the page number |
| NaukriScraper.PageUrlInjective | scripts/scrape_naukri.py:45 | different pages have different addresses |
| NaukriScraper.PageUrls | scripts/scrape_naukri.py:44-45 | pages 1 to 50 are visited in order |
| NaukriScraper.PageUrlsDistinct | scripts/scrape_naukri.py:44-45 | no page is visited twice |
| NaukriScraper.DropSuffixes | scripts/scrape_naukri.py:19-20 | the suffix removals never lengthen the name and keep it free of edge whitespace |
| NaukriScraper.NameClean | scripts/scrape_naukri.py:15-23 | the cleaned name is never empty, "Unknown" for an empty name, has no whitespace at either end or twice in a row, and only spaces as whitespace |
| NaukriScraper.NameNoJunk | scripts/scrape_naukri.py:21-23 | the cleaned name is "Unknown" or contains none of "years", "confidential", "unknown" in any case |
| NaukriScraper.CollapseKeepsNoJunk | scripts/scrape_naukri.py:21-23 | collapsing whitespace does not create a junk keyword |
| NaukriScraper.SuffixesKeepUnknown | scripts/scrape_naukri.py:19-20 | no suffix removal changes "Unknown" |
| NaukriScraper.UnknownIsJunk | scripts/scrape_naukri.py:13 | "Unknown" holds the junk keyword "unknown" |
| NaukriScraper.UnknownStays | scripts/scrape_naukri.py:15-22 | cleaning "Unknown" gives "Unknown" |
| NaukriScraper.StripSuffixes | scripts/scrape_naukri.py:19-20 | the suffix loop removes the suffixes one by one, in list order, stripping after each |
| NaukriScraper.CleanCompanyName | scripts/scrape_naukri.py:15-23 | the step-by-step reassignment of `name` gives the specified cleaned name |
| NaukriScraper.Middle | scripts/scrape_naukri.py:31 | `parts[2:-3]` is empty for five parts or fewer and the middle parts otherwise |
| NaukriScraper.FromLink | scripts/scrape_naukri.py:25-36 | "Unknown" for an empty link or a path of at most five hyphen-separated parts (for four or five the empty slice cleans to "Unknown"); otherwise the cleaned, title-cased, space-joined `parts[2:-3]` |
| NaukriScraper.CompanyFor | scripts/scrape_naukri.py:96-103 | the chosen company is never empty, has no edge or doubled whitespace, and is "Unknown" or junk-free |
| NaukriScraper.DetailWins | scripts/scrape_naukri.py:67-96 | a usable detail-page company is the one cleaned and kept |
| NaukriScraper.NoLinkNoCard | scripts/scrape_naukri.py:96-103 | without a link and without a usable card text the company is "Unknown" |
| NaukriScraper.FallbackNoDigit | scripts/scrape_naukri.py:98-100 | the card text that is kept has no digit left |
| NaukriScraper.JobCompany | scripts/scrape_naukri.py:110-115 | the record's company is the cleaned company itself |
| NaukriScraper.Scraped | scripts/scrape_naukri.py:110-115 | the record keeps the card's link unchanged |
| NaukriScraper.JobsOf | scripts/scrape_naukri.py:56-115 | one record per card, in card order |
| NaukriScraper.CollectJobs | scripts/scrape_naukri.py:107-115 | the check-then-append loop keeps, in card order, the first record for each link |
| NaukriScraper.ScrapeJobs | scripts/scrape_naukri.py:44-115 | `all_jobs` is the first record per link of the scraped cards, in order |
| NaukriScraper.CollectedLinks | scripts/scrape_naukri.py:107-115 | the links in `all_jobs` are pairwise distinct and every card's link is among them |
| NaukriScraper.CollectedFirst | scripts/scrape_naukri.py:107-115 | each job is the record of the first card with its link |
| NaukriScraper.ScrapedLinks | scripts/scrape_naukri.py:107-115 | for the scraped records: distinct links, and every card's link present |
| Patterns.Sub | scripts/naukri_jobs_cleaner.py:30-55 | `re.sub` with an empty or one-character replacement never lengthens the text, and every character of the result comes from the text or the replacement |
| Patterns.SubNoMatch | scripts/naukri_jobs_cleaner.py:33 | where the pattern matches nowhere the substitution changes nothing |
| Patterns.WordAbsent | scripts/naukri_jobs_cleaner.py:33 | a word whose first letter, in any case, is not in the text is never removed |
| Patterns.SubAllConcat | scripts/naukri_jobs_cleaner.py:32-39 | two chains of substitutions in turn are one chain |
| Patterns.DashTailCut | scripts/naukri_jobs_cleaner.py:43 | on newline-free text, `\s*-\s*.*$` cuts everything from the first hyphen on with the whitespace before it; without a hyphen nothing changes |
| Patterns.DashTailFacts | scripts/naukri_jobs_cleaner.py:43 | on newline-free text, the cut leaves no hyphen and a contiguous slice of the text |
| Patterns.ParensNoPair | scripts/naukri_jobs_cleaner.py:42 | on newline-free text, removing `\(.*?\)` leaves no `(` followed later by `)` |
| Patterns.CommasEdges | scripts/naukri_jobs_cleaner.py:55 | the comma substitution is empty only for empty text, and starts and ends with a comma or with the text's own first and last character |
| Patterns.CommasNoDouble | scripts/naukri_jobs_cleaner.py:55 | the comma substitution creates no two adjacent whitespace characters |
| Patterns.CommasTidy | scripts/naukri_jobs_cleaner.py:55 | on text without edge or doubled whitespace, the comma substitution keeps both absent |
| Patterns.CommasNoPair | scripts/naukri_jobs_cleaner.py:55 | the comma substitution keeps "no `a` before a later `b`" for a `b` that is not a comma |
| Patterns.CountWordsNoDigit | scripts/scrape_naukri.py:99 | removing `(\d+|years|yrs|0 to \d+)` leaves no digit |
| Text.Lower | scripts/profile_cleaner_v2.py:17-21 | `lower()` keeps the length and lower-cases each ASCII letter in place |
| Text.Strip | scripts/linkedin_profile_scraper.py:38 | `strip()` leaves no whitespace at either end, and is empty exactly for all-whitespace text |
| Text.StripClean | scripts/linkedin_profile_scraper.py:38 | `strip()` leaves a string without edge whitespace as it is |
| Text.Split | scripts/scrape_naukri.py:29 | `split` gives a non-empty list of parts, none holding the separator |
| Text.JoinSplit | scripts/scrape_naukri.py:29-32 | joining the parts of a split with the separator gives back the string |
| Text.SplitHead | scripts/update_unknown_companies.py:78 | the first part of a split is the text before the first separator |
| Text.CollapseSpaces | scripts/scrape_naukri.py:23 | `\s+` to one space leaves no two whitespace characters in a row and only spaces |
| Text.CollapseLongRuns | scripts/naukri_jobs_cleaner.py:44 | `\s{2,}` to one space leaves no two whitespace characters in a row |
| Text.CollapseSpacesContains | scripts/scrape_naukri.py:21-23 | a whitespace-free word in the collapsed text was in the original |
| Text.DigitsValueNatText | scripts/linkedin_search.py:41-42 | `int(str(n)) == n` |
| Text.NatTextInjective | scripts/scrape_naukri.py:45 | distinct numbers print differently |
| Text.Title | scripts/scrape_naukri.py:32 | `title()` keeps the length and every non-letter; a letter is upper-cased at the start or after a non-letter and lower-cased after a letter |
| Sorting.Insert | scripts/profile_cleaner_v2.py:38 | inserting into a strictly increasing list keeps it strictly increasing, with the old elements and the new one and nothing else |
| Sorting.SortedUnique | scripts/profile_cleaner_v2.py:38 | strictly increasing lists with the same elements are equal, so `sorted` of a set is determined |
| Sorting.SortedOf | scripts/profile_cleaner_v2.py:38 | `sorted(s)` is strictly increasing and holds exactly the elements of the set |
| Sorting.SortSet | scripts/profile_cleaner_v2.py:38 | sorting a set gives `SortedOf` |
| Seqs.DedupBy | scripts/profile_cleaner_v2.py:24-34 | first-wins deduplication keeps exactly the keys of the input, each once |
| Seqs.DedupByFirst | scripts/profile_cleaner_v2.py:24-34 | each kept element is the first input element with its key |
| Seqs.DedupByOrder | scripts/profile_cleaner_v2.py:28 | kept elements are in order of the first occurrence of their keys |
| Seqs.DedupByCount | scripts/profile_cleaner_v2.py:37-44 | one element is kept per distinct key |
| Seqs.Filter | scripts/linkedin_profile_scraper.py:124 | a filter keeps exactly the passing elements of the input and is no longer than it |
| Seqs.FilterIsSubseq | scripts/linkedin_profile_scraper.py:124 | a filter's result is a subsequence of its input |
| Seqs.FilterCount | scripts/linkedin_profile_scraper.py:124 | a filter keeps every copy of a passing element and drops every copy of a failing one |
| Seqs.LastByValue | scripts/profiles_companies_merger.py:22-29 | in a dict comprehension, a key's entry holds the value of the last element with that key |
| Seqs.LastByFilter | scripts/update_unknown_companies.py:26-33 | in a filtered dict comprehension, a passing element with no later passing element of the same key supplies that key's value |

## Left out

- I/O is not modelled: files, CSV and JSON reading and writing, partial saves, `print`, `time.sleep`/`asyncio.sleep`, environment variables and `load_dotenv`.
- The scripts that exit when `SERPER_KEY` is missing do not have that exit modelled: it makes no decision about the data.
- Network calls, Playwright and BeautifulSoup are not modelled. Their results are parameters: search replies, page fetches, href lists, page texts, and the detail-page and card texts of a job card.
- `urlparse` is not modelled. The netloc or path is given with the hit or the card.
- The LLM prompt is not modelled. The shape of the JSON that comes back is not something the script guarantees, so the LLM is a function into `Option<Record>`.
- Only ASCII case is modelled. `lower()`, `title()`, `re.IGNORECASE`, `\s`, `\b` and `\d` (with the `int()` that reads a `\d` match) are given on ASCII; Unicode case folding, Unicode whitespace and non-ASCII decimal digits are not modelled.
- Pandas NaN cells are modelled as Python `None`: an empty DataFrame cell is the JSON `Null` here. Where this differs from the script:
  - NaN is a truthy float, so a NaN cell behaves differently in the `not row.get(...)` tests of `update_unknown_companies.py`.
  - It also behaves differently under `.lower()` in `fetch_company_websites.py`.
  - UnknownCompanies.RowKey: `str()` of a NaN cell is "nan", but the model's `Show(Null)` is "None". An empty company cell gets the Pass 1 key "none" where the script has "nan", so a lookup entry named "nan" or "None" matches differently (update_unknown_companies.py line 62).
  - UnknownCompanies.PersonName: an empty title gives "None" where the script gives "nan", so the Pass 2 query text differs (update_unknown_companies.py line 78). An empty `roles` cell likewise appears as "None" in the query the model builds, where the script's f-string writes "nan" (lines 79-80 and 37).
- DataFrame key order and column dtypes are not modelled. An empty CSV is not modelled either.
- Rows of `csv.DictReader` with more fields than the header are not modelled. The extra cells go under the key `None`.
- Json.Value: JSON floats and nested objects are not modelled. A `company_size` of `0.0`, or an object-valued field in the companies JSON or in the LLM reply, has no value in the model.
- Json.Show: `repr` escape sequences inside quoted strings are not modelled.
- CompanyEnricher.Enrich: a cache key that Python cannot hash (a list or dict website) would raise; the model treats every value as a key.
- CompanyEnricher.CachedLoop: the entries are values, so the in-place mutation of `entry` (which `data` shares) is not modelled. `results` holds the updated entries, which is what the script writes.
- LinkedinSearch.SearchCompanies: a filled company cell is required to be a string. `.strip()` would raise on any other value.
- ProfileScraper.LoadCompanies: a truthy JSON `company` that is not a string is excluded by `requires`. The script would append it and then raise in `.strip()`.
- ProfileScraper.AddJsonLoop: the same `requires` as LoadCompanies, for the same reason.
- ProfileMerger.Merge: a `company_name` or `company` that is present but not a string, for example null, is excluded by `requires`. The script's `.strip()` raises on it.
- UnknownCompanies.Table.FillUnknown: a table without a `company_name` column is excluded by `requires`, and so is a table without a `title` column when it has an "Unknown" row. The script raises `KeyError` there.
- UnknownCompanies.UpdateUnknownCompanies: the same column `requires` as Table.FillUnknown, for the same reason.
- WebsiteFinder.AddWebsites: a company cell that is neither a string nor empty is excluded by `requires`. The script's `.lower()` raises on it.
- LinkedinSearch.CutBeforeMark: a kept link is not always a LinkedIn link. This is stated as a property of the script, not corrected.
- `scrape_naukri.py` lines 38-95 are given as the fields of a `Card`: the browser session, the selectors and the detail-page visit.
  - The cards of all pages form one sequence in page order.
  - A missing title element gives "" for the title and the link.
  - Card.link is a string. `get_attribute("href")` returns None for a title element without an href, and the model reads that None as "". The script's duplicate test tells None and "" apart, so NaukriScraper.CollectJobs drops a later card that the script keeps: a card without an href after a card with an empty href, or the reverse.
  - A failed detail-page visit gives an empty detail company.
- NaukriScraper.FromLink: the path is given, so the `try`/`except` around `urlparse` is not modelled.
- JobsCleaner.LocationClean: `re.sub(r",\s*,", ",", ...)` leaves ",," from ",,,": the match that ends on the second comma cannot use it again. The model keeps this behaviour and states no "no doubled comma" property.
