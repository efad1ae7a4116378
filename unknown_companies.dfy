/**
 * scripts/update_unknown_companies.py: the lower-cased company lookup, the
 * `company_size` column, Pass 1 (fill from the lookup) and Pass 2 (search for
 * the website of rows whose company is "Unknown"). The CSV table is a class
 * whose rows are updated cell by cell, as `df.at[idx, col] = v` does.
 */
module UnknownCompanies {
  import opened Wrappers
  import opened Text
  import opened Json
  import opened Search
  import opened Seqs

  const NAME := "company_name"
  const WEBSITE := "company_website"
  const SIZE := "company_size"

  /** A table cell; a key missing from a row is an empty cell. */
  function Cell(row: Record, col: string): Value {
    if col in row then row[col] else Null
  }

  /** `row.get(col, default)` on a row of a table with these columns. */
  function RowGet(columns: seq<string>, row: Record, col: string, default: Value): Value {
    if col in columns then Cell(row, col) else default
  }

  // ---------------------------------------------------------------- company_lookup

  datatype Info = Info(website: Value, size: Value)

  /** `comp.get("company_name")` is truthy. */
  predicate Named(comp: Record) {
    Truthy(Get(comp, NAME))
  }

  /** `str(comp.get("company_name", "")).strip().lower()`. */
  function LookupKey(comp: Record): string {
    Lower(Strip(Show(GetOr(comp, NAME, Str("")))))
  }

  function InfoOf(comp: Record): Info {
    Info(GetOr(comp, "website", Str("")), GetOr(comp, SIZE, Str("")))
  }

  /** `company_lookup`, a dict comprehension over the named companies. */
  function CompanyLookup(data: seq<Record>): map<string, Info> {
    LastBy(Filter(data, Named), LookupKey, InfoOf)
  }

  /** The lookup's keys are the keys of the named companies. */
  lemma LookupKeys(data: seq<Record>, k: string)
    ensures k in CompanyLookup(data) <==> exists i :: 0 <= i < |data| && Named(data[i]) && LookupKey(data[i]) == k
  {
    FilterHasKey(data, Named, LookupKey, k);
  }

  /** A later named company with the same key overwrites an earlier one. */
  lemma LookupLastWins(data: seq<Record>, i: nat)
    requires i < |data| && Named(data[i])
    requires forall j :: i < j < |data| && Named(data[j]) ==> LookupKey(data[j]) != LookupKey(data[i])
    ensures LookupKey(data[i]) in CompanyLookup(data)
    ensures CompanyLookup(data)[LookupKey(data[i])] == InfoOf(data[i])
  {
    LastByFilter(data, Named, LookupKey, InfoOf, i);
  }

  // ---------------------------------------------------------------- Pass 1

  /** `(not row.get("company_website")) or row["company_website"] in ["", "Unknown", "unknown"]`. */
  predicate WebsiteMissing(w: Value) {
    !Truthy(w) || w == Str("Unknown") || w == Str("unknown")
  }

  /** The Pass 1 lookup key of a row. */
  function RowKey(columns: seq<string>, row: Record): string {
    Lower(Strip(Show(RowGet(columns, row, NAME, Str("")))))
  }

  /** Pass 1 writes the website of this row. */
  predicate FillsWebsite(columns: seq<string>, row: Record, lookup: map<string, Info>) {
    var key := RowKey(columns, row);
    key in lookup && WebsiteMissing(RowGet(columns, row, WEBSITE, Null)) && Truthy(lookup[key].website)
  }

  /** Pass 1 writes the size of this row. */
  predicate FillsSize(columns: seq<string>, row: Record, lookup: map<string, Info>) {
    var key := RowKey(columns, row);
    key in lookup && Truthy(lookup[key].size)
  }

  /** One row after Pass 1. */
  function FillRow(columns: seq<string>, row: Record, lookup: map<string, Info>): Record {
    var key := RowKey(columns, row);
    var row1 := if FillsWebsite(columns, row, lookup) then row[WEBSITE := lookup[key].website] else row;
    if FillsSize(columns, row, lookup) then row1[SIZE := lookup[key].size] else row1
  }

  /** `FillRow` as a function value. */
  function FillWith(columns: seq<string>, lookup: map<string, Info>): Record -> Record {
    (row: Record) => FillRow(columns, row, lookup)
  }

  /** Pass 1 leaves a row whose key is not in the lookup unchanged. */
  lemma FillRowMiss(columns: seq<string>, row: Record, lookup: map<string, Info>)
    requires RowKey(columns, row) !in lookup
    ensures FillRow(columns, row, lookup) == row
  {
  }

  /** Pass 1 changes no cell other than the website and the size. */
  lemma FillRowOthers(columns: seq<string>, row: Record, lookup: map<string, Info>, k: string)
    requires k != WEBSITE && k != SIZE
    ensures k in FillRow(columns, row, lookup) <==> k in row
    ensures Cell(FillRow(columns, row, lookup), k) == Cell(row, k)
  {
    var r := FillRow(columns, row, lookup);
    if FillsWebsite(columns, row, lookup) || FillsSize(columns, row, lookup) {
      var key := RowKey(columns, row);
      var row1 := if FillsWebsite(columns, row, lookup) then row[WEBSITE := lookup[key].website] else row;
      assert k in row1 <==> k in row;
      assert Cell(row1, k) == Cell(row, k);
      assert r == if FillsSize(columns, row, lookup) then row1[SIZE := lookup[key].size] else row1;
    }
  }

  /**
   * The website is replaced by the lookup's exactly when the row's website is
   * missing and the lookup's is truthy; it is never replaced by a falsy value.
   */
  lemma FillRowWebsite(columns: seq<string>, row: Record, lookup: map<string, Info>)
    ensures var r := FillRow(columns, row, lookup);
            Cell(r, WEBSITE) == if FillsWebsite(columns, row, lookup)
                                then lookup[RowKey(columns, row)].website else Cell(row, WEBSITE)
    ensures var r := FillRow(columns, row, lookup);
            Truthy(Cell(r, WEBSITE)) || Cell(r, WEBSITE) == Cell(row, WEBSITE)
  {
  }

  /** The size is overwritten whenever the lookup's size is truthy, whatever the row held. */
  lemma FillRowSize(columns: seq<string>, row: Record, lookup: map<string, Info>)
    ensures var r := FillRow(columns, row, lookup);
            Cell(r, SIZE) == if FillsSize(columns, row, lookup)
                             then lookup[RowKey(columns, row)].size else Cell(row, SIZE)
  {
  }

  // ---------------------------------------------------------------- Pass 2

  /** The company cell is a string equal to "unknown" in any case (`.str.lower() == "unknown"`). */
  predicate IsUnknown(v: Value) {
    v.Str? && Lower(v.s) == "unknown"
  }

  /** `str(row["title"]).split("-")[0].strip()`. */
  function PersonName(title: Value): string {
    Strip(Split(Show(title), '-')[0])
  }

  /** The person name is the stripped text before the first "-" of the title. */
  lemma PersonNameParts(title: Value)
    ensures '-' !in PersonName(title)
    ensures NoEdgeSpace(PersonName(title))
    ensures exists h :: (h <= Show(title) && PersonName(title) == Strip(h) && '-' !in h
                         && (|h| < |Show(title)| ==> Show(title)[|h|] == '-'))
    ensures '-' !in Show(title) ==> PersonName(title) == Strip(Show(title))
  {
    var t := Show(title);
    SplitHead(t, '-');
    var h := Split(t, '-')[0];
    StripInfix(h);
    InfixKeeps(PersonName(title), h);
    forall k | 0 <= k < |PersonName(title)|
      ensures PersonName(title)[k] != '-'
    {
      assert PersonName(title)[k] in h;
    }
  }

  /** The search query of `fetch_unknown_company_website`. */
  function UnknownQuery(columns: seq<string>, row: Record): string {
    PersonName(Cell(row, "title")) + " " + Show(RowGet(columns, row, "roles", Str(""))) + " official company website"
  }

  /** The first truthy `link` of the organic results, or "". */
  function FirstTruthyLink(hits: seq<Hit>): (r: string)
    ensures r == [] <==> forall k :: 0 <= k < |hits| ==> hits[k].link.GetOr([]) == []
    ensures r != [] ==> exists k :: (0 <= k < |hits| && hits[k].link == Some(r)
                                     && forall j :: 0 <= j < k ==> hits[j].link.GetOr([]) == [])
  {
    if hits == [] then []
    else if hits[0].link.Some? && hits[0].link.value != [] then
      assert hits[0].link == Some(hits[0].link.value);
      hits[0].link.value
    else
      var r := FirstTruthyLink(hits[1..]);
      assert forall k :: 1 <= k < |hits| ==> hits[k] == hits[1..][k - 1];
      if r != [] then
        var k :| 0 <= k < |hits[1..]| && hits[1..][k].link == Some(r)
          && forall j :: 0 <= j < k ==> hits[1..][j].link.GetOr([]) == [];
        assert hits[k + 1].link == Some(r);
        r
      else r
  }

  /** `fetch_unknown_company_website` on a search reply: "" on a request error or without `organic`. */
  function FirstLink(reply: Reply): string {
    match reply
    case RequestError => ""
    case Body(None) => ""
    case Body(Some(hits)) => FirstTruthyLink(hits)
  }

  /** One row after Pass 2: an "Unknown" row gets the found website, if one was found. */
  function UnknownFill(columns: seq<string>, row: Record, search: string -> Reply): Record {
    if !IsUnknown(Cell(row, NAME)) then row
    else
      var website := FirstLink(search(UnknownQuery(columns, row)));
      if website != [] then row[WEBSITE := Str(website)] else row
  }

  /** Pass 2 touches only the website of "Unknown" rows, and writes only a non-empty link. */
  lemma UnknownFillRules(columns: seq<string>, row: Record, search: string -> Reply)
    ensures var r := UnknownFill(columns, row, search);
            (!IsUnknown(Cell(row, NAME)) ==> r == row)
            && (forall k :: k != WEBSITE ==> Cell(r, k) == Cell(row, k))
            && (r != row ==> r == row[WEBSITE := Str(FirstLink(search(UnknownQuery(columns, row))))]
                             && FirstLink(search(UnknownQuery(columns, row))) != [])
  {
  }

  // ---------------------------------------------------------------- the table

  /** Every row's keys are columns of the table. */
  ghost predicate RowsInColumns(columns: seq<string>, rows: seq<Record>) {
    forall i, k :: 0 <= i < |rows| && k in rows[i] ==> k in columns
  }

  /** Some row satisfies `FillsWebsite`. */
  ghost predicate SomeFillsWebsite(columns: seq<string>, rows: seq<Record>, lookup: map<string, Info>) {
    Any(rows, FillsIn(columns, lookup))
  }

  function FillsIn(columns: seq<string>, lookup: map<string, Info>): Record -> bool {
    (row: Record) => FillsWebsite(columns, row, lookup)
  }

  /** Some row gets a website in Pass 2. */
  ghost predicate SomeUnknownFilled(columns: seq<string>, rows: seq<Record>, search: string -> Reply) {
    Any(rows, FilledIn(columns, search))
  }

  function FilledIn(columns: seq<string>, search: string -> Reply): Record -> bool {
    (row: Record) => UnknownFill(columns, row, search) != row
  }

  /** `AddColumn(cols, c)`: the columns after a cell of column `c` is written. */
  function AddColumn(columns: seq<string>, c: string): (r: seq<string>)
    ensures c in r && columns <= r
    ensures c in columns ==> r == columns
  {
    if c in columns then columns else columns + [c]
  }

  class Table {
    var columns: seq<string>
    var rows: seq<Record>

    ghost predicate Valid()
      reads this
    {
      RowsInColumns(columns, rows)
    }

    /** The table as `pd.read_csv` gives it. */
    constructor(columns: seq<string>, rows: seq<Record>)
      requires RowsInColumns(columns, rows)
      ensures Valid()
      ensures this.columns == columns && this.rows == rows
    {
      this.columns := columns;
      this.rows := rows;
    }

    /** `df.at[idx, col] = v`; a new column is appended, empty in the other rows. */
    method SetCell(i: nat, col: string, v: Value)
      requires Valid() && i < |rows|
      modifies this
      ensures Valid()
      ensures columns == AddColumn(old(columns), col)
      ensures rows == old(rows)[i := old(rows)[i][col := v]]
    {
      rows := rows[i := rows[i][col := v]];
      columns := AddColumn(columns, col);
    }

    /** `df["company_size"] = ""` when the column is missing. */
    method EnsureSizeColumn()
      requires Valid()
      modifies this
      ensures Valid()
      ensures SIZE in columns
      ensures SIZE in old(columns) ==> columns == old(columns) && rows == old(rows)
      ensures SIZE !in old(columns) ==>
        columns == old(columns) + [SIZE] && |rows| == |old(rows)|
        && forall i :: 0 <= i < |rows| ==> rows[i] == old(rows)[i][SIZE := Str("")]
    {
      if SIZE !in columns {
        var n := 0;
        ghost var rows0 := rows;
        while n < |rows|
          invariant 0 <= n <= |rows| == |rows0|
          invariant columns == old(columns)
          invariant forall i :: 0 <= i < n ==> rows[i] == rows0[i][SIZE := Str("")]
          invariant forall i :: n <= i < |rows| ==> rows[i] == rows0[i]
        {
          rows := rows[n := rows[n][SIZE := Str("")]];
          n := n + 1;
        }
        columns := columns + [SIZE];
      }
    }

    /** The loop body of Pass 1 on row `n`, judged with the columns as they were before the pass. */
    method FillRowAt(n: nat, cols0: seq<string>, lookup: map<string, Info>)
      requires Valid() && n < |rows| && SIZE in columns
      modifies this
      ensures Valid()
      ensures |rows| == |old(rows)| && rows[n] == FillWith(cols0, lookup)(old(rows)[n])
      ensures forall i :: 0 <= i < |rows| && i != n ==> rows[i] == old(rows)[i]
      ensures columns == if FillsIn(cols0, lookup)(old(rows)[n])
                         then AddColumn(old(columns), WEBSITE) else old(columns)
    {
      var row := rows[n];
      var key := RowKey(cols0, row);
      if key in lookup {
        var info := lookup[key];
        if WebsiteMissing(RowGet(cols0, row, WEBSITE, Null)) && Truthy(info.website) {
          SetCell(n, WEBSITE, info.website);
        }
        if Truthy(info.size) {
          SetCell(n, SIZE, info.size);
        }
      }
    }

    /** Pass 1: fill rows from the lookup, on each row as it was before the pass. */
    method FillFromLookup(lookup: map<string, Info>)
      requires Valid() && SIZE in columns
      modifies this
      ensures Valid()
      ensures |rows| == |old(rows)|
      ensures forall i :: 0 <= i < |rows| ==> rows[i] == FillRow(old(columns), old(rows)[i], lookup)
      ensures columns == if SomeFillsWebsite(old(columns), old(rows), lookup)
                         then AddColumn(old(columns), WEBSITE) else old(columns)
      ensures columns == old(columns) || columns == AddColumn(old(columns), WEBSITE)
    {
      var cols0 := columns;
      ghost var rows0 := rows;
      var n := 0;
      while n < |rows|
        invariant 0 <= n <= |rows| == |rows0|
        invariant Valid() && SIZE in columns
        invariant forall i :: 0 <= i < n ==> rows[i] == FillWith(cols0, lookup)(rows0[i])
        invariant forall i :: n <= i < |rows| ==> rows[i] == rows0[i]
        invariant columns == if SomeFillsWebsite(cols0, rows0[..n], lookup) then AddColumn(cols0, WEBSITE) else cols0
      {
        AnyStep(rows0, n, FillsIn(cols0, lookup));
        FillRowAt(n, cols0, lookup);
        n := n + 1;
      }
      assert rows0[..|rows0|] == rows0;
      assert columns == cols0 || columns == AddColumn(cols0, WEBSITE);
    }

    /** The loop body of Pass 2 on row `n`, judged with the columns as they were before the pass. */
    method FillUnknownAt(n: nat, cols0: seq<string>, search: string -> Reply)
      requires Valid() && n < |rows|
      modifies this
      ensures Valid()
      ensures rows == old(rows)[n := UnknownFill(cols0, old(rows)[n], search)]
      ensures columns == if UnknownFill(cols0, old(rows)[n], search) != old(rows)[n]
                         then AddColumn(old(columns), WEBSITE) else old(columns)
    {
      var row := rows[n];
      if IsUnknown(Cell(row, NAME)) {
        var website := FirstLink(search(UnknownQuery(cols0, row)));
        if website != [] {
          // rewriting a cell with its own value leaves the columns as they were
          assert row[WEBSITE := Str(website)] == row ==> WEBSITE in row;
          SetCell(n, WEBSITE, Str(website));
        }
      }
    }

    /** Pass 2: look up the website of every "Unknown" row. */
    method FillUnknown(search: string -> Reply)
      requires Valid() && NAME in columns
      requires forall i :: 0 <= i < |rows| && IsUnknown(Cell(rows[i], NAME)) ==> "title" in columns
      modifies this
      ensures Valid()
      ensures |rows| == |old(rows)|
      ensures forall i :: 0 <= i < |rows| ==> rows[i] == UnknownFill(old(columns), old(rows)[i], search)
      ensures columns == if SomeUnknownFilled(old(columns), old(rows), search)
                         then AddColumn(old(columns), WEBSITE) else old(columns)
      ensures columns == old(columns) || columns == AddColumn(old(columns), WEBSITE)
    {
      var cols0 := columns;
      ghost var rows0 := rows;
      var n := 0;
      while n < |rows|
        invariant Valid() && UnknownDone(cols0, rows0, search, n, rows, columns)
        decreases |rows| - n
      {
        ghost var rowsB, colsB := rows, columns;
        FillUnknownAt(n, cols0, search);
        UnknownStep(cols0, rows0, search, n, rowsB, colsB, rows, columns);
        n := n + 1;
      }
      assert rows0[..|rows0|] == rows0;
    }
  }

  /** Pass 2 has handled the first `n` rows of `rows0`, giving `rows` and `columns`. */
  ghost predicate UnknownDone(cols0: seq<string>, rows0: seq<Record>, search: string -> Reply, n: nat,
                              rows: seq<Record>, columns: seq<string>) {
    n <= |rows0| && |rows| == |rows0|
    && (forall i :: 0 <= i < n ==> rows[i] == UnknownFill(cols0, rows0[i], search))
    && (forall i :: n <= i < |rows| ==> rows[i] == rows0[i])
    && columns == if SomeUnknownFilled(cols0, rows0[..n], search) then AddColumn(cols0, WEBSITE) else cols0
  }

  /** One row more of Pass 2. */
  lemma UnknownStep(cols0: seq<string>, rows0: seq<Record>, search: string -> Reply, n: nat,
                    rows: seq<Record>, columns: seq<string>, rows1: seq<Record>, columns1: seq<string>)
    requires UnknownDone(cols0, rows0, search, n, rows, columns) && n < |rows0|
    requires rows1 == rows[n := UnknownFill(cols0, rows[n], search)]
    requires columns1 == if UnknownFill(cols0, rows[n], search) != rows[n] then AddColumn(columns, WEBSITE) else columns
    ensures UnknownDone(cols0, rows0, search, n + 1, rows1, columns1)
  {
    AnyStep(rows0, n, FilledIn(cols0, search));
    assert rows[n] == rows0[n];
    assert FilledIn(cols0, search)(rows0[n]) == (UnknownFill(cols0, rows0[n], search) != rows0[n]);
  }

  /** A row after `df["company_size"] = ""`, when that column was missing. */
  function Sized(columns: seq<string>, row: Record): Record {
    if SIZE in columns then row else row[SIZE := Str("")]
  }

  /** Pass 2 consults the columns only to see whether `roles` is one; adding the website column does not change that. */
  lemma UnknownFillColumns(columns: seq<string>, row: Record, search: string -> Reply)
    ensures UnknownFill(AddColumn(columns, WEBSITE), row, search) == UnknownFill(columns, row, search)
  {
    assert "roles" in AddColumn(columns, WEBSITE) <==> "roles" in columns;
  }

  /** Pass 1 keeps every row's company name. */
  lemma FillKeepsNames(cols1: seq<string>, rows1: seq<Record>, rows2: seq<Record>, lookup: map<string, Info>)
    requires |rows2| == |rows1|
    requires forall i :: 0 <= i < |rows1| ==> rows2[i] == FillRow(cols1, rows1[i], lookup)
    ensures forall i :: 0 <= i < |rows2| ==> Cell(rows2[i], NAME) == Cell(rows1[i], NAME)
  {
    forall i | 0 <= i < |rows2| ensures Cell(rows2[i], NAME) == Cell(rows1[i], NAME) {
      FillRowOthers(cols1, rows1[i], lookup, NAME);
    }
  }

  /** The size column, Pass 1 and Pass 2 composed row by row. */
  lemma PassesCompose(columns: seq<string>, rows: seq<Record>, cols1: seq<string>, rows1: seq<Record>,
                      cols2: seq<string>, rows2: seq<Record>, rows3: seq<Record>,
                      lookup: map<string, Info>, search: string -> Reply)
    requires cols1 == AddColumn(columns, SIZE)
    requires |rows1| == |rows| && forall i :: 0 <= i < |rows| ==> rows1[i] == Sized(columns, rows[i])
    requires |rows2| == |rows1| && forall i :: 0 <= i < |rows1| ==> rows2[i] == FillRow(cols1, rows1[i], lookup)
    requires cols2 == cols1 || cols2 == AddColumn(cols1, WEBSITE)
    requires |rows3| == |rows2| && forall i :: 0 <= i < |rows2| ==> rows3[i] == UnknownFill(cols2, rows2[i], search)
    ensures forall i :: 0 <= i < |rows| ==>
      rows3[i] == UnknownFill(cols1, FillRow(cols1, Sized(columns, rows[i]), lookup), search)
  {
    forall i | 0 <= i < |rows|
      ensures rows3[i] == UnknownFill(cols1, FillRow(cols1, Sized(columns, rows[i]), lookup), search)
    {
      UnknownFillColumns(cols1, rows2[i], search);
    }
  }

  /** The rows after `df["company_size"] = ""`. */
  function SizedRows(columns: seq<string>, rows: seq<Record>): seq<Record> {
    seq(|rows|, i requires 0 <= i < |rows| => Sized(columns, rows[i]))
  }

  /** The rows after Pass 1. */
  function FilledRows(columns: seq<string>, rows: seq<Record>, lookup: map<string, Info>): seq<Record> {
    seq(|rows|, i requires 0 <= i < |rows| => FillRow(columns, rows[i], lookup))
  }

  /** Whether Pass 2 fills some row does not depend on a website column that Pass 1 added. */
  lemma SomeUnknownFilledColumns(columns: seq<string>, rows: seq<Record>, search: string -> Reply)
    ensures SomeUnknownFilled(AddColumn(columns, WEBSITE), rows, search) == SomeUnknownFilled(columns, rows, search)
  {
    forall i | 0 <= i < |rows|
      ensures FilledIn(AddColumn(columns, WEBSITE), search)(rows[i]) == FilledIn(columns, search)(rows[i])
    {
      UnknownFillColumns(columns, rows[i], search);
    }
  }

  /**
   * The whole script on the CSV table and the companies JSON: the row count
   * is kept, `company_size` exists afterwards, and each row is the result of
   * the size column, Pass 1 and Pass 2 applied to it in turn.
   */
  method UpdateUnknownCompanies(columns: seq<string>, rows: seq<Record>, data: seq<Record>, search: string -> Reply)
    returns (t: Table)
    requires RowsInColumns(columns, rows) && NAME in columns
    requires forall i :: 0 <= i < |rows| && IsUnknown(Cell(rows[i], NAME)) ==> "title" in columns
    ensures t.Valid()
    ensures SIZE in t.columns && columns <= t.columns
    ensures t.columns == AddColumn(columns, SIZE) || t.columns == AddColumn(AddColumn(columns, SIZE), WEBSITE)
    ensures var cols1 := AddColumn(columns, SIZE);
            var rows1 := SizedRows(columns, rows);
            t.columns == if SomeFillsWebsite(cols1, rows1, CompanyLookup(data))
                            || SomeUnknownFilled(cols1, FilledRows(cols1, rows1, CompanyLookup(data)), search)
                         then AddColumn(cols1, WEBSITE) else cols1
    ensures |t.rows| == |rows|
    ensures forall i :: 0 <= i < |rows| ==>
      t.rows[i] == UnknownFill(AddColumn(columns, SIZE),
                               FillRow(AddColumn(columns, SIZE), Sized(columns, rows[i]), CompanyLookup(data)),
                               search)
  {
    t := new Table(columns, rows);
    var lookup := CompanyLookup(data);
    t.EnsureSizeColumn();
    ghost var cols1, rows1 := t.columns, t.rows;
    t.FillFromLookup(lookup);
    ghost var cols2, rows2 := t.columns, t.rows;
    FillKeepsNames(cols1, rows1, rows2, lookup);
    assert cols1 == AddColumn(columns, SIZE) && rows1 == SizedRows(columns, rows);
    assert rows2 == FilledRows(cols1, rows1, lookup);
    SomeUnknownFilledColumns(cols1, rows2, search);
    t.FillUnknown(search);
    PassesCompose(columns, rows, cols1, rows1, cols2, rows2, t.rows, lookup, search);
  }
}
