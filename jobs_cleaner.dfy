/**
 * scripts/naukri_jobs_cleaner.py: the clean-up of the company and location
 * columns of the scraped job table. A company name loses the job title, the
 * junk words, the city names and the leftover fragments (whole words, any
 * case), then salary ranges, parenthesised parts and everything from a hyphen
 * on; a location loses its parenthesised parts and doubled commas.
 */
module JobsCleaner {
  import opened Wrappers
  import opened Text
  import opened Patterns

  const UNKNOWN := "Unknown"

  const CITY_PATTERNS: seq<string> :=
    ["Mumbai", "Navi Mumbai", "Thane", "Pune", "Delhi", "Noida", "Gurgaon",
     "Gurugram", "Hyderabad", "Bangalore", "Bengaluru", "Chennai", "Kolkata",
     "Lucknow", "Bhubaneswar", "Ahmedabad", "Indore", "Jaipur", "Nagpur", "Surat",
     "Chandigarh", "Ambala", "Vadodara", "Coimbatore", "Ranchi", "Gandhinagar",
     "Turbhe", "Delhi Ncr", "Delhi / Ncr"]

  const JUNK_KEYWORDS: seq<string> :=
    ["Hiring", "Urgent", "Executive", "Specialist", "Associate", "Manager",
     "Lead Generation", "Process", "Sales", "Voice", "Business Development",
     "Telesales", "Internship", "Freshers", "Software Inside"]

  const LEFTOVER_FRAGMENTS: seq<string> := ["Navi", "Ncr", "All Areas", "Hybrid", "Remote"]

  /** The stripped company with the job title removed, in any case, when there is a title. */
  function Untitled(raw: string, title: string): string {
    var text := Strip(raw);
    if title != "" then Sub(Literal(title), text) else text
  }

  /** Every word removed from a company name: junk keywords, then cities, then leftover fragments. */
  const REMOVED_WORDS: seq<string> := JUNK_KEYWORDS + CITY_PATTERNS + LEFTOVER_FRAGMENTS

  /**
   * The substitutions a company name goes through after the title: the word
   * removals, then the salary range, the parenthesised parts and the hyphen tail.
   */
  const COMPANY_PATTERNS: seq<Pattern> := Words(REMOVED_WORDS) + [NumberRange, Parens, DashTail]

  /** The final tidy-up: long whitespace runs collapsed, stripped, "Unknown" when empty. */
  function Tidy(c: string): (r: string)
    ensures r != []
    ensures NoEdgeSpace(r) && NoDoubleSpace(r)
  {
    var text := Strip(CollapseLongRuns(c));
    StripInfix(CollapseLongRuns(c));
    InfixKeeps(text, CollapseLongRuns(c));
    if text == [] then UNKNOWN else text
  }

  /**
   * `clean_company_name(company_raw, job_title)`, with an empty cell read as
   * the empty string: "Unknown" for an empty name or when nothing is left;
   * otherwise a name without whitespace at either end or twice in a row.
   */
  function CompanyClean(raw: string, title: string): (r: string)
    ensures r != []
    ensures raw == [] ==> r == UNKNOWN
    ensures NoEdgeSpace(r) && NoDoubleSpace(r)
  {
    if raw == [] then UNKNOWN else Tidy(SubAll(COMPANY_PATTERNS, Untitled(raw, title)))
  }

  /** The last three substitutions of the chain, peeled off. */
  lemma CompanyChain(t: string)
    ensures var w := SubAll(Words(REMOVED_WORDS), t);
            SubAll(COMPANY_PATTERNS, t) == Sub(DashTail, Sub(Parens, Sub(NumberRange, w)))
  {
    var p := COMPANY_PATTERNS;
    var n := |REMOVED_WORDS|;
    assert p[..n] == Words(REMOVED_WORDS);
    assert p[..n + 3] == p;
    assert p[n] == NumberRange && p[n + 1] == Parens && p[n + 2] == DashTail;
    SubAllStep(p, n, t);
    SubAllStep(p, n + 1, t);
    SubAllStep(p, n + 2, t);
  }

  /** The title and word removals keep a newline-free name newline-free. */
  lemma WordsRemovedNoNewline(raw: string, title: string)
    requires '\n' !in raw
    ensures '\n' !in SubAll(Words(REMOVED_WORDS), Untitled(raw, title))
  {
    StripInfix(raw);
    InfixKeeps(Strip(raw), raw);
    var u := Untitled(raw, title);
    assert '\n' !in u;
    WordsKeepChars(REMOVED_WORDS, u);
  }

  /** The tidy-up brings in no character other than a space or those of "Unknown". */
  lemma TidyNoChar(d: string, x: char)
    requires x !in d && x != ' ' && x !in UNKNOWN
    ensures x !in Tidy(d)
  {
    var c := CollapseLongRuns(d);
    assert x !in c;
    StripInfix(c);
    InfixKeeps(Strip(c), c);
  }

  /** The tidy-up keeps "no `(` followed later by `)`". */
  lemma TidyNoPair(d: string)
    requires NoPairAfter(d, '(', ')')
    ensures NoPairAfter(Tidy(d), '(', ')')
  {
    var c := CollapseLongRuns(d);
    CollapseLongRunsNoPair(d, '(', ')');
    StripInfix(c);
    InfixKeeps(Strip(c), c);
  }

  /** On newline-free text without `(` before `)`, the hyphen cut and the tidy-up leave no hyphen and keep that order. */
  lemma DashTidy(t: string)
    requires '\n' !in t && NoPairAfter(t, '(', ')')
    ensures var r := Tidy(Sub(DashTail, t));
            '-' !in r && NoPairAfter(r, '(', ')')
  {
    var d := Sub(DashTail, t);
    DashTailFacts(t);
    InfixKeeps(d, t);
    TidyNoChar(d, '-');
    TidyNoPair(d);
  }

  /**
   * The last three substitutions and the tidy-up leave, on newline-free text,
   * no hyphen and no `(` followed later by `)`.
   */
  lemma TailNoHyphenNoParens(w: string)
    requires '\n' !in w
    ensures var r := Tidy(Sub(DashTail, Sub(Parens, Sub(NumberRange, w))));
            '-' !in r && NoPairAfter(r, '(', ')')
  {
    var t3 := Sub(NumberRange, w);
    ParensNoPair(t3);
    DashTidy(Sub(Parens, t3));
  }

  /**
   * For a newline-free name, the cleaned name holds no hyphen (everything from
   * the first one on is cut) and no `(` followed later by `)`.
   */
  lemma CompanyNoHyphenNoParens(raw: string, title: string)
    requires '\n' !in raw
    ensures '-' !in CompanyClean(raw, title)
    ensures NoPairAfter(CompanyClean(raw, title), '(', ')')
  {
    if raw != [] {
      WordsRemovedNoNewline(raw, title);
      CompanyChain(Untitled(raw, title));
      TailNoHyphenNoParens(SubAll(Words(REMOVED_WORDS), Untitled(raw, title)));
    }
  }

  /** Removing the words of `words` one by one, as each of the script's three loops does. */
  method RemoveWords(words: seq<string>, t: string) returns (text: string)
    ensures text == SubAll(Words(words), t)
  {
    text := t;
    for i := 0 to |words|
      invariant text == SubAll(Words(words)[..i], t)
    {
      SubAllStep(Words(words), i, t);
      text := Sub(Word(words[i]), text);
    }
    assert Words(words)[..|words|] == Words(words);
  }

  /** The three word lists removed in turn are the one list of removed words. */
  lemma RemovedInTurn(t: string)
    ensures SubAll(Words(LEFTOVER_FRAGMENTS), SubAll(Words(CITY_PATTERNS), SubAll(Words(JUNK_KEYWORDS), t)))
            == SubAll(Words(REMOVED_WORDS), t)
  {
    assert Words(REMOVED_WORDS) == Words(JUNK_KEYWORDS) + Words(CITY_PATTERNS) + Words(LEFTOVER_FRAGMENTS);
    SubAllConcat(Words(JUNK_KEYWORDS), Words(CITY_PATTERNS), t);
    SubAllConcat(Words(JUNK_KEYWORDS) + Words(CITY_PATTERNS), Words(LEFTOVER_FRAGMENTS), t);
  }

  /**
   * `clean_company_name` as the script runs it: the text is reassigned once
   * per junk keyword, city and leftover fragment, then once per remaining pattern.
   */
  method CleanCompanyName(raw: string, title: string) returns (name: string)
    ensures name == CompanyClean(raw, title)
  {
    if raw == [] {
      return UNKNOWN;
    }
    var text := Strip(raw);
    if title != [] {
      text := Sub(Literal(title), text);
    }
    ghost var t0 := text;
    text := RemoveWords(JUNK_KEYWORDS, text);
    text := RemoveWords(CITY_PATTERNS, text);
    text := RemoveWords(LEFTOVER_FRAGMENTS, text);
    RemovedInTurn(t0);
    CompanyChain(t0);
    text := Sub(NumberRange, text);
    text := Sub(Parens, text);
    text := Sub(DashTail, text);
    text := Strip(CollapseLongRuns(text));
    name := if text != [] then text else UNKNOWN;
  }

  /** The location without parenthesised parts, stripped, and with long whitespace runs collapsed. */
  function Unparenthesised(raw: string): string {
    CollapseLongRuns(Strip(Sub(Parens, raw)))
  }

  /**
   * `clean_location(location_raw)`: "Unknown" for an empty location or when
   * nothing is left; otherwise a location without whitespace at either end or
   * twice in a row.
   */
  function LocationClean(raw: string): (r: string)
    ensures r != []
    ensures raw == [] ==> r == UNKNOWN
  {
    if raw == [] then UNKNOWN
    else
      var text := Sub(DoubleComma, Unparenthesised(raw));
      if text == [] then UNKNOWN else text
  }

  /** Stripping before collapsing leaves no whitespace at either end and never two in a row. */
  lemma UnparenthesisedTidy(raw: string)
    ensures NoEdgeSpace(Unparenthesised(raw)) && NoDoubleSpace(Unparenthesised(raw))
  {
    var s := Strip(Sub(Parens, raw));
    if s != [] {
      CollapseLongRunsLast(s);
    }
  }

  /** A cleaned location has no whitespace at either end and never two in a row. */
  lemma LocationTidy(raw: string)
    ensures NoEdgeSpace(LocationClean(raw)) && NoDoubleSpace(LocationClean(raw))
  {
    if raw != [] {
      UnparenthesisedTidy(raw);
      CommasTidy(Unparenthesised(raw));
    }
  }

  /** For a newline-free location, no `(` is followed later by `)` once parentheses are removed. */
  lemma UnparenthesisedNoPair(raw: string)
    requires '\n' !in raw
    ensures NoPairAfter(Unparenthesised(raw), '(', ')')
  {
    var p := Sub(Parens, raw);
    ParensNoPair(raw);
    StripNoPair(p, '(', ')');
    CollapseLongRunsNoPair(Strip(p), '(', ')');
  }

  /** For a newline-free location, no `(` in the cleaned location is followed later by `)`. */
  lemma LocationNoParens(raw: string)
    requires '\n' !in raw
    ensures NoPairAfter(LocationClean(raw), '(', ')')
  {
    if raw != [] {
      UnparenthesisedNoPair(raw);
      var c := Unparenthesised(raw);
      assert c[0..] == c;
      CommasNoPair(c, 0, '(', ')');
    }
  }

  /** A CSV row as `csv.DictReader` gives it: a missing trailing cell is `None`. */
  type Row = map<string, Option<string>>

  /** `row.get(col, "")` where both `None` and a missing key count as the empty text. */
  function CellText(row: Row, col: string): string {
    if col in row && row[col].Some? then row[col].value else ""
  }

  /** `row["company"] = company` and then `row["location"] = location`. */
  function Rewrite(row: Row, company: string, location: string): (r: Row)
    ensures r.Keys == row.Keys + {"company", "location"}
  {
    row["company" := Some(company)]["location" := Some(location)]
  }

  /** The row with its company and location cleaned; every other field is as read. */
  function Cleaned(row: Row): Row {
    Rewrite(row, CompanyClean(CellText(row, "company"), CellText(row, "title")), LocationClean(CellText(row, "location")))
  }

  /** Only the company and location fields change, to the given texts. */
  lemma RewriteOnly(row: Row, company: string, location: string, k: string)
    ensures k != "company" && k != "location" && k in row ==> Rewrite(row, company, location)[k] == row[k]
    ensures Rewrite(row, company, location)["company"] == Some(company)
    ensures Rewrite(row, company, location)["location"] == Some(location)
  {
  }

  /** `csv.DictWriter` refuses a row with a field that is not a column. */
  predicate Writable(fieldnames: seq<string>, row: Row) {
    forall k :: k in row ==> k in fieldnames
  }

  /**
   * A rewritten row can be written exactly when the table has both a company
   * and a location column and the row has no field outside the header.
   */
  lemma WritableIff(fieldnames: seq<string>, row: Row, company: string, location: string)
    ensures Writable(fieldnames, Rewrite(row, company, location))
            <==> "company" in fieldnames && "location" in fieldnames && Writable(fieldnames, row)
  {
    var r := Rewrite(row, company, location);
    if Writable(fieldnames, r) {
      assert "company" in r && "location" in r;
    }
  }

  /** The line written for a row: its cells in header order, `None` as the empty text. */
  function Line(fieldnames: seq<string>, row: Row): (line: seq<string>)
    ensures |line| == |fieldnames|
    ensures forall i :: 0 <= i < |fieldnames| ==> line[i] == CellText(row, fieldnames[i])
  {
    seq(|fieldnames|, i requires 0 <= i < |fieldnames| => CellText(row, fieldnames[i]))
  }

  /**
   * The rewritten line keeps the header's order: each column other than the
   * company and location holds the cell read, and those two hold the new texts.
   */
  lemma LineKeepsColumns(fieldnames: seq<string>, row: Row, company: string, location: string, i: nat)
    requires i < |fieldnames|
    ensures var line := Line(fieldnames, Rewrite(row, company, location));
            (fieldnames[i] != "company" && fieldnames[i] != "location" ==> line[i] == CellText(row, fieldnames[i]))
            && (fieldnames[i] == "company" ==> line[i] == company)
            && (fieldnames[i] == "location" ==> line[i] == location)
  {
  }

  /** The body of the main loop for one row: both cells are cleaned and written back in place. */
  method CleanRow(row: Row) returns (r: Row)
    ensures r == Cleaned(row)
  {
    var company := CleanCompanyName(CellText(row, "company"), CellText(row, "title"));
    var location := LocationClean(CellText(row, "location"));
    r := row["company" := Some(company)];
    r := r["location" := Some(location)];
  }

  /**
   * The main loop with the per-row rewrite `clean`: every row is rewritten
   * and written under the header `fieldnames`, until a row cannot be
   * written; `failed` says the run stopped there with a `ValueError`.
   */
  method WriteRows(fieldnames: seq<string>, rows: seq<Row>, clean: Row -> Row) returns (lines: seq<seq<string>>, failed: bool)
    ensures |lines| <= |rows|
    ensures forall j :: 0 <= j < |lines| ==>
              Writable(fieldnames, clean(rows[j])) && lines[j] == Line(fieldnames, clean(rows[j]))
    ensures failed <==> |lines| < |rows|
    ensures failed ==> !Writable(fieldnames, clean(rows[|lines|]))
  {
    lines := [];
    failed := false;
    var i := 0;
    while i < |rows|
      invariant i <= |rows| && |lines| == i
      invariant forall j :: 0 <= j < i ==>
                  Writable(fieldnames, clean(rows[j])) && lines[j] == Line(fieldnames, clean(rows[j]))
    {
      var row := clean(rows[i]);
      if !Writable(fieldnames, row) {
        failed := true;
        return;
      }
      lines := lines + [Line(fieldnames, row)];
      i := i + 1;
    }
  }

  /** The script's main loop, each row cleaned as `CleanRow` does it. */
  method CleanRows(fieldnames: seq<string>, rows: seq<Row>) returns (lines: seq<seq<string>>, failed: bool)
    ensures |lines| <= |rows|
    ensures forall j :: 0 <= j < |lines| ==>
              Writable(fieldnames, Cleaned(rows[j])) && lines[j] == Line(fieldnames, Cleaned(rows[j]))
    ensures failed <==> |lines| < |rows|
    ensures failed ==> !Writable(fieldnames, Cleaned(rows[|lines|]))
  {
    lines, failed := WriteRows(fieldnames, rows, Cleaned);
  }
}
