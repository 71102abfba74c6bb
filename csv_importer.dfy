/**
 * The Crunchbase CSV reader and row mapping (backend/src/services/csvImporter.ts).
 *
 * The reader is deliberately simple: a line is split on commas outside
 * double quotes, quote characters only toggle the "inside quotes" flag and
 * are dropped, and every field is trimmed. There is no doubled-quote escape
 * and no line break inside a quoted field (so it is not an RFC 4180 reader).
 */
module CsvImporter {
  import opened Wrappers
  import opened JsStrings
  import opened Seqs
  import opened Types

  /** A parsed row: header name to cell text. */
  type Row = map<string, string>

  // ---------------------------------------------------------------------------
  // parseCSVLine

  /** The loop variables of `parseCSVLine` after a prefix of the line. */
  datatype ScanState = ScanState(fields: seq<string>, current: string, inQuotes: bool)

  /** The state after scanning `line` from an empty start. */
  function Scan(line: string): ScanState
    decreases |line|
  {
    if line == [] then ScanState([], "", false)
    else
      var st := Scan(line[..|line| - 1]);
      var c := line[|line| - 1];
      if c == '"' then st.(inQuotes := !st.inQuotes)
      else if c == ',' && !st.inQuotes then ScanState(st.fields + [Trim(st.current)], "", st.inQuotes)
      else st.(current := st.current + [c])
  }

  /** The fields `parseCSVLine(line)` returns. */
  function SplitFields(line: string): seq<string> {
    var st := Scan(line);
    st.fields + [Trim(st.current)]
  }

  /** Commas not preceded by an odd number of quotes: the field separators. */
  function UnquotedCommas(line: string): nat
    decreases |line|
  {
    if line == [] then 0
    else
      var prefix := line[..|line| - 1];
      UnquotedCommas(prefix) + (if line[|line| - 1] == ',' && CountOf(prefix, '"') % 2 == 0 then 1 else 0)
  }

  lemma {:induction false} ScanQuoteParity(line: string)
    ensures Scan(line).inQuotes <==> CountOf(line, '"') % 2 == 1
    decreases |line|
  {
    if line != [] {
      var prefix := line[..|line| - 1];
      ScanQuoteParity(prefix);
      var n := CountOf(prefix, '"');
      if line[|line| - 1] == '"' {
        assert CountOf(line, '"') == n + 1;
        assert Scan(line).inQuotes == !Scan(prefix).inQuotes;
        assert (n + 1) % 2 == 1 <==> n % 2 == 0;
      } else {
        assert CountOf(line, '"') == n;
        assert Scan(line).inQuotes == Scan(prefix).inQuotes;
      }
    }
  }

  lemma {:induction false} ScanFieldCount(line: string)
    ensures |Scan(line).fields| == UnquotedCommas(line)
    decreases |line|
  {
    if line != [] {
      ScanFieldCount(line[..|line| - 1]);
      ScanQuoteParity(line[..|line| - 1]);
    }
  }

  lemma {:induction false} ScanFieldsClean(line: string)
    ensures '"' !in Scan(line).current
    ensures forall k :: 0 <= k < |Scan(line).fields| ==> '"' !in Scan(line).fields[k] && IsTrimmed(Scan(line).fields[k])
    decreases |line|
  {
    if line != [] {
      ScanFieldsClean(line[..|line| - 1]);
    }
  }

  lemma {:induction false} ScanCommas(line: string)
    ensures CountIn(Scan(line).fields, ',') + CountOf(Scan(line).current, ',') + |Scan(line).fields| == CountOf(line, ',')
    decreases |line|
  {
    if line != [] {
      var prefix := line[..|line| - 1];
      var c := line[|line| - 1];
      assert line == prefix + [c];
      ScanCommas(prefix);
      CountOfSnoc(prefix, c, ',');
      var st := Scan(prefix);
      if c == '"' {
        assert Scan(line) == st.(inQuotes := !st.inQuotes);
      } else if c == ',' && !st.inQuotes {
        assert Scan(line) == ScanState(st.fields + [Trim(st.current)], "", st.inQuotes);
        CountInSnoc(st.fields, Trim(st.current), ',');
        TrimKeepsComma(st.current);
      } else {
        assert Scan(line) == st.(current := st.current + [c]);
        CountOfSnoc(st.current, c, ',');
      }
    }
  }

  /** Trimming keeps the commas of a field. */
  lemma TrimKeepsComma(s: string)
    ensures CountOf(Trim(s), ',') == CountOf(s, ',')
  {
    TrimKeeps(s, ',');
  }

  /**
   * `parseCSVLine` returns one field more than there are unquoted commas,
   * and every field is trimmed and free of quote characters.
   */
  lemma SplitFieldsShape(line: string)
    ensures |SplitFields(line)| == UnquotedCommas(line) + 1
    ensures forall k :: 0 <= k < |SplitFields(line)| ==> '"' !in SplitFields(line)[k]
    ensures forall k :: 0 <= k < |SplitFields(line)| ==> IsTrimmed(SplitFields(line)[k])
  {
    var st := Scan(line);
    ScanFieldCount(line);
    ScanFieldsClean(line);
    assert SplitFields(line)[|st.fields|] == Trim(st.current);
  }

  /** Every comma between quotes is kept inside a field. */
  lemma SplitFieldsKeepQuotedCommas(line: string)
    ensures CountIn(SplitFields(line), ',') == CountOf(line, ',') - UnquotedCommas(line)
  {
    var st := Scan(line);
    ScanFieldCount(line);
    ScanCommas(line);
    CountInSnoc(st.fields, Trim(st.current), ',');
    TrimKeeps(st.current, ',');
  }

  /** A line without a quote character splits at every comma. */
  lemma SplitFieldsWithoutQuotes(line: string)
    requires '"' !in line
    ensures |SplitFields(line)| == CountOf(line, ',') + 1
  {
    SplitFieldsShape(line);
    UnquotedIsAllWithoutQuotes(line);
  }

  lemma {:induction false} UnquotedIsAllWithoutQuotes(line: string)
    requires '"' !in line
    ensures UnquotedCommas(line) == CountOf(line, ',')
    decreases |line|
  {
    if line != [] {
      var prefix := line[..|line| - 1];
      UnquotedIsAllWithoutQuotes(prefix);
      CountOfAbsent(prefix, '"');
    }
  }

  /** `parseCSVLine`: the character loop over `line`. */
  method ParseCsvLine(line: string) returns (result: seq<string>)
    ensures result == SplitFields(line)
  {
    result := [];
    var current := "";
    var inQuotes := false;
    for i := 0 to |line|
      invariant ScanState(result, current, inQuotes) == Scan(line[..i])
    {
      var c := line[i];
      assert line[..i + 1][..i] == line[..i];
      if c == '"' {
        inQuotes := !inQuotes;
      } else if c == ',' && !inQuotes {
        result := result + [Trim(current)];
        current := "";
      } else {
        current := current + [c];
      }
    }
    assert line[..|line|] == line;
    result := result + [Trim(current)];
  }

  // ---------------------------------------------------------------------------
  // parseCSV

  /** `values[index] || ''`. */
  function ValueAt(values: seq<string>, index: nat): string {
    if index < |values| then values[index] else ""
  }

  /** The row built by `headers.forEach((header, index) => row[header] = ...)`. */
  function RowOf(headers: seq<string>, values: seq<string>): (row: Row)
    ensures row.Keys == set h | h in headers
    decreases |headers|
  {
    if headers == [] then map[]
    else
      var init := headers[..|headers| - 1];
      assert headers == init + [headers[|headers| - 1]];
      RowOf(init, values)[headers[|headers| - 1] := ValueAt(values, |headers| - 1)]
  }

  /** A header takes the value at its last position: a repeated header's later column wins. */
  lemma {:induction false} RowOfValue(headers: seq<string>, values: seq<string>, k: nat)
    requires k < |headers|
    requires forall m :: k < m < |headers| ==> headers[m] != headers[k]
    ensures RowOf(headers, values)[headers[k]] == ValueAt(values, k)
    decreases |headers|
  {
    if k < |headers| - 1 {
      var init := headers[..|headers| - 1];
      assert init[k] == headers[k];
      RowOfValue(init, values, k);
    }
  }

  /** The line is blank once trimmed, so `parseCSV` skips it. */
  predicate IsBlank(line: string) {
    Trim(line) == ""
  }

  /** The rows for the data lines after the header line. */
  function RowsOf(headers: seq<string>, lines: seq<string>): (rows: seq<Row>)
    ensures |rows| <= |lines|
    ensures forall r :: r in rows ==> r.Keys == set h | h in headers
    decreases |lines|
  {
    if lines == [] then []
    else
      var line := lines[|lines| - 1];
      var rows := RowsOf(headers, lines[..|lines| - 1]);
      if IsBlank(line) then rows else rows + [RowOf(headers, SplitFields(Trim(line)))]
  }

  /** The rows read from the lines of the text: none without a data line, else the header line keys them. */
  function RowsOfLines(lines: seq<string>): seq<Row> {
    if |lines| < 2 then [] else RowsOf(SplitFields(lines[0]), lines[1..])
  }

  /** The rows `parseCSV(csv)` returns. */
  function ParseCsvRows(csv: string): seq<Row> {
    RowsOfLines(SplitOn(csv, '\n'))
  }

  /**
   * `parseCSV` yields nothing for input without a line break, at most one row
   * per line after the first, and every row has exactly the header line's
   * fields as keys.
   */
  lemma ParseCsvRowsShape(csv: string)
    ensures CountOf(csv, '\n') == 0 ==> ParseCsvRows(csv) == []
    ensures |ParseCsvRows(csv)| <= CountOf(csv, '\n')
    ensures forall r :: r in ParseCsvRows(csv) ==>
              r.Keys == set h | h in SplitFields(SplitOn(csv, '\n')[0])
  {
  }

  /** A data line that is blank contributes no row; a non-blank one contributes exactly one. */
  lemma {:induction false} RowsOfCountsNonBlank(headers: seq<string>, lines: seq<string>, line: string)
    ensures |RowsOf(headers, lines + [line])| == |RowsOf(headers, lines)| + (if IsBlank(line) then 0 else 1)
  {
    assert (lines + [line])[..|lines + [line]| - 1] == lines;
  }

  /** The `headers.forEach` loop that fills one row. */
  method BuildRow(headers: seq<string>, values: seq<string>) returns (row: Row)
    ensures row == RowOf(headers, values)
  {
    row := map[];
    for index := 0 to |headers|
      invariant row == RowOf(headers[..index], values)
    {
      assert headers[..index + 1][..index] == headers[..index];
      row := row[headers[index] := ValueAt(values, index)];
    }
    assert headers[..|headers|] == headers;
  }

  /** `parseCSV`: splits the text into lines and reads the header line. */
  method ParseCsv(csv: string) returns (rows: seq<Row>)
    ensures rows == ParseCsvRows(csv)
  {
    var lines := SplitOn(csv, '\n');
    rows := ParseLines(lines);
  }

  /** The body of `parseCSV` after the split: the header line, then the data lines. */
  method ParseLines(lines: seq<string>) returns (rows: seq<Row>)
    ensures rows == RowsOfLines(lines)
  {
    if |lines| < 2 {
      return [];
    }
    var headers := ParseCsvLine(lines[0]);
    rows := ParseDataLines(headers, lines);
  }

  /** The loop of `parseCSV` over the lines after the header line. */
  method ParseDataLines(headers: seq<string>, lines: seq<string>) returns (rows: seq<Row>)
    requires |lines| >= 1
    ensures rows == RowsOf(headers, lines[1..])
  {
    rows := [];
    for i := 1 to |lines|
      invariant rows == RowsOf(headers, lines[1..i])
    {
      RowsOfStep(headers, lines, i);
      var line := Trim(lines[i]);
      if line != "" {
        var values := ParseCsvLine(line);
        var row := BuildRow(headers, values);
        rows := rows + [row];
      }
    }
    assert lines[1..|lines|] == lines[1..];
  }

  /** One more data line adds its row unless it is blank. */
  lemma RowsOfStep(headers: seq<string>, lines: seq<string>, i: nat)
    requires 1 <= i < |lines|
    ensures RowsOf(headers, lines[1..i + 1]) ==
      if IsBlank(lines[i]) then RowsOf(headers, lines[1..i])
      else RowsOf(headers, lines[1..i]) + [RowOf(headers, SplitFields(Trim(lines[i])))]
  {
    assert lines[1..i + 1][..i - 1] == lines[1..i];
  }

  // ---------------------------------------------------------------------------
  // mapFundingType

  /** The keywords `mapFundingType` looks for, in the order it tries them. */
  const StageKeywords: seq<string> := [
    "pre-seed", "pre seed", "seed", "series a", "series b", "series c",
    "series d", "series e", "series f", "growth", "private equity", "post-ipo"]

  /** `mapFundingType`: the first matching keyword of the lower-cased type decides. */
  function MapFundingType(crunchbaseType: string): (stage: Stage)
    ensures Contains(ToLower(crunchbaseType), "pre-seed") ==> stage == PreSeed
    ensures Contains(ToLower(crunchbaseType), "pre seed") ==> stage == PreSeed
  {
    var t := ToLower(crunchbaseType);
    if Contains(t, "pre-seed") || Contains(t, "pre seed") then PreSeed
    else if Contains(t, "seed") then Seed
    else if Contains(t, "series a") then SeriesA
    else if Contains(t, "series b") then SeriesB
    else if Contains(t, "series c") then SeriesC
    else if Contains(t, "series d") || Contains(t, "series e") || Contains(t, "series f") then SeriesDPlus
    else if Contains(t, "growth") || Contains(t, "private equity") || Contains(t, "post-ipo") then Growth
    else Seed
  }

  /** A type containing none of the keywords is classified as Seed. */
  lemma MapFundingTypeDefault(crunchbaseType: string)
    requires forall k :: 0 <= k < |StageKeywords| ==> !Contains(ToLower(crunchbaseType), StageKeywords[k])
    ensures MapFundingType(crunchbaseType) == Seed
  {
    var t := ToLower(crunchbaseType);
    assert !Contains(t, StageKeywords[0]) && !Contains(t, StageKeywords[1]) && !Contains(t, StageKeywords[2]);
    assert !Contains(t, StageKeywords[3]) && !Contains(t, StageKeywords[4]) && !Contains(t, StageKeywords[5]);
    assert !Contains(t, StageKeywords[6]) && !Contains(t, StageKeywords[7]) && !Contains(t, StageKeywords[8]);
    assert !Contains(t, StageKeywords[9]) && !Contains(t, StageKeywords[10]) && !Contains(t, StageKeywords[11]);
  }

  /** Each keyword classifies as the source's table says, when no earlier keyword is present. */
  lemma MapFundingTypeSeriesA(crunchbaseType: string)
    requires Contains(ToLower(crunchbaseType), "series a")
    requires forall k :: 0 <= k < 3 ==> !Contains(ToLower(crunchbaseType), StageKeywords[k])
    ensures MapFundingType(crunchbaseType) == SeriesA
  {
    var t := ToLower(crunchbaseType);
    assert !Contains(t, StageKeywords[0]) && !Contains(t, StageKeywords[1]) && !Contains(t, StageKeywords[2]);
  }

  /** The classification does not depend on letter case. */
  lemma MapFundingTypeIgnoresCase(crunchbaseType: string)
    ensures MapFundingType(ToUpper(crunchbaseType)) == MapFundingType(crunchbaseType)
    ensures MapFundingType(ToLower(crunchbaseType)) == MapFundingType(crunchbaseType)
  {
    LowerOfCaseChange(crunchbaseType);
  }

  // ---------------------------------------------------------------------------
  // parseInvestors

  /** A row cell, or `undefined` when the header line has no such column. */
  function Cell(row: Row, column: string): Option<string> {
    if column in row then Some(row[column]) else None
  }

  /** JavaScript truthiness of a string that may be `undefined`. */
  predicate Present(v: Option<string>) {
    v.Some? && v.value != ""
  }

  /** `a || b` on strings that may be `undefined`. */
  function Or(a: Option<string>, b: Option<string>): (r: Option<string>)
    ensures Present(a) ==> r == a
    ensures !Present(a) ==> r == b
  {
    if Present(a) then a else b
  }

  /** `a || fallback` with a string fallback. */
  function OrElse(a: Option<string>, fallback: string): (r: string)
    ensures Present(a) ==> r == a.value
    ensures !Present(a) ==> r == fallback
  {
    if Present(a) then a.value else fallback
  }

  function TrimEach(pieces: seq<string>): (r: seq<string>)
    ensures |r| == |pieces|
    ensures forall k :: 0 <= k < |r| ==> r[k] == Trim(pieces[k])
  {
    seq(|pieces|, k requires 0 <= k < |pieces| => Trim(pieces[k]))
  }

  predicate NonEmpty(s: string) {
    s != ""
  }

  /** Trimmed comma-free pieces stay so after dropping the empty ones. */
  lemma CleanPieces(split: seq<string>)
    requires forall k :: 0 <= k < |split| ==> ',' !in split[k]
    ensures forall x :: x in Filter(TrimEach(split), NonEmpty) ==> x != "" && IsTrimmed(x) && ',' !in x
  {
    var pieces := TrimEach(split);
    forall x | x in Filter(pieces, NonEmpty) ensures x != "" && IsTrimmed(x) && ',' !in x {
      var k :| 0 <= k < |pieces| && pieces[k] == x;
      assert x == Trim(split[k]);
    }
  }

  /** `parseInvestors`: comma-separated names, trimmed, without empty entries. */
  function ParseInvestors(investorString: Option<string>): (r: seq<string>)
    ensures !Present(investorString) || Trim(investorString.value) == "" ==> r == []
    ensures forall x :: x in r ==> x != "" && IsTrimmed(x) && ',' !in x
  {
    if !Present(investorString) || Trim(investorString.value) == "" then []
    else InvestorNames(investorString.value)
  }

  /** `s.split(',').map((s) => s.trim()).filter(Boolean)`. */
  function InvestorNames(s: string): (r: seq<string>)
    ensures forall x :: x in r ==> x != "" && IsTrimmed(x) && ',' !in x
  {
    CleanPieces(SplitOn(s, ','));
    Filter(TrimEach(SplitOn(s, ',')), NonEmpty)
  }

  lemma {:induction false} TrimEachKeepsCount(pieces: seq<string>, c: char)
    requires !IsWhitespace(c)
    ensures CountIn(TrimEach(pieces), c) == CountIn(pieces, c)
    decreases |pieces|
  {
    if pieces != [] {
      TrimKeeps(pieces[0], c);
      assert TrimEach(pieces)[1..] == TrimEach(pieces[1..]);
      TrimEachKeepsCount(pieces[1..], c);
    }
  }

  lemma {:induction false} FilterNonEmptyKeepsCount(pieces: seq<string>, c: char)
    ensures CountIn(Filter(pieces, NonEmpty), c) == CountIn(pieces, c)
    decreases |pieces|
  {
    if pieces != [] {
      FilterNonEmptyKeepsCount(pieces[1..], c);
      if NonEmpty(pieces[0]) {
        assert ([pieces[0]] + Filter(pieces[1..], NonEmpty))[1..] == Filter(pieces[1..], NonEmpty);
      }
    }
  }

  /** No investor name loses a character: only commas and whitespace are dropped. */
  lemma ParseInvestorsKeepsNames(investorString: string, c: char)
    requires c != ',' && !IsWhitespace(c)
    ensures CountIn(ParseInvestors(Some(investorString)), c) == CountOf(investorString, c)
  {
    if investorString == "" || Trim(investorString) == "" {
      TrimKeeps(investorString, c);
      CountOfPositive(investorString, c);
      CountOfPositive(Trim(investorString), c);
    } else {
      var split := SplitOn(investorString, ',');
      SplitOnKeepsCount(investorString, ',', c);
      TrimEachKeepsCount(split, c);
      FilterNonEmptyKeepsCount(TrimEach(split), c);
    }
  }

  // ---------------------------------------------------------------------------
  // mapCrunchbaseRow and importFromCSV

  /**
   * What a row mapping needs from outside: the clock reading `now`, the date
   * parser behind `new Date(s).toISOString()` (`None` where it throws), and
   * `formatAmount`, which is not part of this model.
   */
  datatype Context = Context(now: int, parseDate: string -> Option<int>, formatAmount: Option<string> -> string)

  /**
   * `mapCrunchbaseRow(row)`. `None` stands for the exceptions it can raise:
   * `toLowerCase` of a missing 'Funding Type' column, and `toISOString` of an
   * announced date that does not parse.
   */
  function MapCrunchbaseRow(row: Row, id: string, ctx: Context): (r: Option<Fundraise>)
    ensures r.None? <==>
              "Funding Type" !in row ||
              (Present(Cell(row, "Announced Date")) && ctx.parseDate(row["Announced Date"]).None?)
    ensures r.Some? ==> r.value.id == id && r.value.createdAt == ctx.now
    ensures r.Some? ==> r.value.companyName != "" && r.value.description != ""
  {
    var fundingType := Cell(row, "Funding Type");
    var date := Cell(row, "Announced Date");
    var announced := if Present(date) then ctx.parseDate(date.value) else Some(ctx.now);
    if fundingType.None? || announced.None? then None
    else Some(Fundraise(
      id := id,
      companyName := OrElse(Cell(row, "Organization Name"), "Unknown"),
      description := OrElse(Cell(row, "Organization Description"), "No description available"),
      stage := MapFundingType(fundingType.value),
      amountRaised := ctx.formatAmount(Cell(row, "Money Raised (in USD)")),
      announcedAt := announced.value,
      sourceUrl := OrElse(Or(Cell(row, "Transaction Name URL"), Cell(row, "Organization Name URL")), ""),
      createdAt := ctx.now,
      investors := Some(ParseInvestors(Or(Cell(row, "Lead Investors"), Cell(row, "Investor Names")))),
      geography := Some("")))
  }

  /** The fallbacks of `mapCrunchbaseRow`, field by field. */
  lemma MapCrunchbaseRowFallbacks(row: Row, id: string, ctx: Context)
    requires MapCrunchbaseRow(row, id, ctx).Some?
    ensures var f := MapCrunchbaseRow(row, id, ctx).value;
      && f.companyName == (if Present(Cell(row, "Organization Name")) then row["Organization Name"] else "Unknown")
      && f.description ==
           (if Present(Cell(row, "Organization Description")) then row["Organization Description"]
            else "No description available")
      && f.stage == MapFundingType(row["Funding Type"])
      && (!Present(Cell(row, "Announced Date")) ==> f.announcedAt == ctx.now)
      && f.sourceUrl ==
           (if Present(Cell(row, "Transaction Name URL")) then row["Transaction Name URL"]
            else if Present(Cell(row, "Organization Name URL")) then row["Organization Name URL"]
            else "")
      && f.investors ==
           Some(if Present(Cell(row, "Lead Investors")) then ParseInvestors(Cell(row, "Lead Investors"))
                else ParseInvestors(Cell(row, "Investor Names")))
      && f.geography == Some("")
  {
  }

  /** `xs.map(f)` for an `f` that may throw (`None`), which aborts the whole map; the `k`-th element is mapped with index `first + k`. */
  function MapEach<A, B>(xs: seq<A>, f: (A, nat) -> Option<B>, first: nat): (r: Option<seq<B>>)
    ensures r.Some? ==> |r.value| == |xs|
    decreases |xs|
  {
    if xs == [] then Some([])
    else
      match f(xs[0], first)
      case None => None
      case Some(y) =>
        var rest := MapEach(xs[1..], f, first + 1);
        if rest.None? then None else Some([y] + rest.value)
  }

  /** The map fails exactly when `f` throws on some element. */
  lemma {:induction false} MapEachFails<A, B>(xs: seq<A>, f: (A, nat) -> Option<B>, first: nat)
    ensures MapEach(xs, f, first).None? <==> exists k :: 0 <= k < |xs| && f(xs[k], first + k).None?
    decreases |xs|
  {
    if xs != [] {
      MapEachFails(xs[1..], f, first + 1);
      if MapEach(xs[1..], f, first + 1).None? {
        var j :| 0 <= j < |xs| - 1 && f(xs[1..][j], first + 1 + j).None?;
        assert xs[1..][j] == xs[j + 1];
      } else if f(xs[0], first).Some? {
        forall k | 0 <= k < |xs| ensures f(xs[k], first + k).Some? {
          if k > 0 {
            assert xs[1..][k - 1] == xs[k];
          }
        }
      }
    }
  }

  /** On success the `k`-th result is `f` of the `k`-th element. */
  lemma {:induction false} MapEachElementwise<A, B>(xs: seq<A>, f: (A, nat) -> Option<B>, first: nat, k: nat)
    requires k < |xs| && MapEach(xs, f, first).Some?
    ensures f(xs[k], first + k) == Some(MapEach(xs, f, first).value[k])
    decreases |xs|
  {
    if k > 0 {
      MapEachElementwise(xs[1..], f, first + 1, k - 1);
      assert xs[1..][k - 1] == xs[k];
    }
  }

  /** `mapCrunchbaseRow` with the id for row index `n`. */
  function RowMapper(ids: nat -> string, ctx: Context): (Row, nat) -> Option<Fundraise> {
    (row: Row, n: nat) => MapCrunchbaseRow(row, ids(n), ctx)
  }

  /** `rows.map(mapCrunchbaseRow)`; the `k`-th row gets id `ids(first + k)`, and a throw aborts the whole map. */
  function MapRows(rows: seq<Row>, ids: nat -> string, first: nat, ctx: Context): (r: Option<seq<Fundraise>>)
    ensures r.Some? ==> |r.value| == |rows|
  {
    MapEach(rows, RowMapper(ids, ctx), first)
  }

  /** The mapping of the `k`-th row. */
  function MappedAt(rows: seq<Row>, ids: nat -> string, first: nat, ctx: Context, k: nat): Option<Fundraise>
    requires k < |rows|
  {
    MapCrunchbaseRow(rows[k], ids(first + k), ctx)
  }

  /** Mapping fails exactly when some row's mapping throws. */
  lemma MapRowsFails(rows: seq<Row>, ids: nat -> string, first: nat, ctx: Context)
    ensures MapRows(rows, ids, first, ctx).None? <==>
              exists k :: 0 <= k < |rows| && MappedAt(rows, ids, first, ctx, k).None?
  {
    MapEachFails(rows, RowMapper(ids, ctx), first);
    forall k | 0 <= k < |rows| ensures MappedAt(rows, ids, first, ctx, k) == RowMapper(ids, ctx)(rows[k], first + k) {
    }
  }

  /** On success the `k`-th record is the mapping of the `k`-th row. */
  lemma MapRowsElementwise(rows: seq<Row>, ids: nat -> string, first: nat, ctx: Context, k: nat)
    requires k < |rows| && MapRows(rows, ids, first, ctx).Some?
    ensures MappedAt(rows, ids, first, ctx, k) == Some(MapRows(rows, ids, first, ctx).value[k])
  {
    MapEachElementwise(rows, RowMapper(ids, ctx), first, k);
  }

  /** `importFromCSV`: one record per parsed row, or `None` if mapping a row throws. */
  function ImportFromCsv(csv: string, ids: nat -> string, ctx: Context): (r: Option<seq<Fundraise>>)
    ensures r.Some? ==> |r.value| == |ParseCsvRows(csv)|
  {
    MapRows(ParseCsvRows(csv), ids, 0, ctx)
  }
}
