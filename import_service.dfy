// The import service: the quote-aware CSV line splitter, the mapping of a
// parsed row onto a trade through a column mapping, the import loop with its
// counters and error list, the supported extensions and the suggested mapping.

module ImportServices {
  import opened Common
  import opened Domain
  import opened Text

  // ---------------------------------------------------------------------------
  // Splitting a CSV line

  /** What the splitter has after reading part of a line: the finished fields,
    * the field being read and whether it is inside quotes. */
  datatype CsvScan = CsvScan(fields: seq<string>, current: string, inQuotes: bool)

  /** The splitter's state after reading `line` from left to right: a quote
    * toggles quoting and is dropped, a delimiter outside quotes ends the
    * field, any other character is kept. */
  function ScanCsv(line: string, delimiter: char): CsvScan {
    if line == [] then CsvScan([], "", false)
    else
      var st := ScanCsv(line[..|line| - 1], delimiter);
      var c := line[|line| - 1];
      if c == '"' then st.(inQuotes := !st.inQuotes)
      else if c == delimiter && !st.inQuotes then CsvScan(st.fields + [st.current], "", st.inQuotes)
      else st.(current := st.current + [c])
  }

  /** The fields of a line: the finished ones and the last one. */
  function CsvFields(line: string, delimiter: char): (r: seq<string>)
    ensures |r| >= 1
  {
    var st := ScanCsv(line, delimiter);
    st.fields + [st.current]
  }

  /** Number of quote characters before position i (read left to right). */
  function QuotesBefore(line: string, i: nat): nat
    requires i <= |line|
  {
    if i == 0 then 0 else QuotesBefore(line, i - 1) + (if line[i - 1] == '"' then 1 else 0)
  }

  /** The character at position i ends a field: it is the delimiter, it is not
    * a quote, and an even number of quotes precede it. */
  predicate IsSeparator(line: string, delimiter: char, i: nat)
    requires i < |line|
  {
    line[i] == delimiter && line[i] != '"' && QuotesBefore(line, i) % 2 == 0
  }

  /** Number of field-ending delimiters in the line. */
  function Separators(line: string, delimiter: char, n: nat): nat
    requires n <= |line|
  {
    if n == 0 then 0 else Separators(line, delimiter, n - 1) + (if IsSeparator(line, delimiter, n - 1) then 1 else 0)
  }

  /** The characters that end up in some field: quotes and separators dropped. */
  function Kept(line: string, delimiter: char, n: nat): string
    requires n <= |line|
  {
    if n == 0 then []
    else
      var kept := if line[n - 1] == '"' || IsSeparator(line, delimiter, n - 1) then [] else [line[n - 1]];
      Kept(line, delimiter, n - 1) + kept
  }

  /** All fields run together. */
  function Concat(parts: seq<string>): string {
    if parts == [] then [] else Concat(parts[..|parts| - 1]) + parts[|parts| - 1]
  }

  /** The counts up to k are the same over the line and over any prefix that holds position k. */
  lemma {:induction false} PrefixAgrees(line: string, delimiter: char, m: nat, k: nat)
    requires k <= m <= |line|
    ensures QuotesBefore(line[..m], k) == QuotesBefore(line, k)
    ensures Separators(line[..m], delimiter, k) == Separators(line, delimiter, k)
    ensures Kept(line[..m], delimiter, k) == Kept(line, delimiter, k)
  {
    if k > 0 {
      PrefixAgrees(line, delimiter, m, k - 1);
      assert line[..m][k - 1] == line[k - 1];
    }
  }

  /** The splitter's reading of a line, stated as counts over the line:
    * it is inside quotes after an odd number of quotes, it has finished one
    * field per separator, no field holds a quote, and the fields hold exactly
    * the line's characters other than quotes and separators, in order. */
  lemma ScanCsvMeaning(line: string, delimiter: char)
    ensures var st := ScanCsv(line, delimiter);
      && (st.inQuotes <==> QuotesBefore(line, |line|) % 2 == 1)
      && |st.fields| == Separators(line, delimiter, |line|)
      && (forall k :: 0 <= k < |st.fields| ==> '"' !in st.fields[k])
      && '"' !in st.current
      && Concat(st.fields) + st.current == Kept(line, delimiter, |line|)
  {
    ScanQuoting(line, delimiter);
    ScanFieldCount(line, delimiter);
    ScanDropsQuotes(line, delimiter);
    ScanKeeps(line, delimiter);
  }

  lemma {:induction false} ScanQuoting(line: string, delimiter: char)
    ensures ScanCsv(line, delimiter).inQuotes <==> QuotesBefore(line, |line|) % 2 == 1
  {
    if line != [] {
      var n := |line| - 1;
      ScanQuoting(line[..n], delimiter);
      PrefixAgrees(line, delimiter, n, n);
    }
  }

  lemma {:induction false} ScanFieldCount(line: string, delimiter: char)
    ensures |ScanCsv(line, delimiter).fields| == Separators(line, delimiter, |line|)
  {
    if line != [] {
      var n := |line| - 1;
      ScanFieldCount(line[..n], delimiter);
      ScanQuoting(line[..n], delimiter);
      PrefixAgrees(line, delimiter, n, n);
    }
  }

  lemma {:induction false} ScanDropsQuotes(line: string, delimiter: char)
    ensures var st := ScanCsv(line, delimiter);
      (forall k :: 0 <= k < |st.fields| ==> '"' !in st.fields[k]) && '"' !in st.current
  {
    if line != [] {
      ScanDropsQuotes(line[..|line| - 1], delimiter);
    }
  }

  lemma {:induction false} ScanKeeps(line: string, delimiter: char)
    ensures var st := ScanCsv(line, delimiter);
      Concat(st.fields) + st.current == Kept(line, delimiter, |line|)
  {
    if line != [] {
      var n := |line| - 1;
      var init := line[..n];
      ScanKeeps(init, delimiter);
      ScanQuoting(init, delimiter);
      PrefixAgrees(line, delimiter, n, n);
      var st := ScanCsv(init, delimiter);
      var c := line[n];
      if c == '"' {
      } else if c == delimiter && !st.inQuotes {
        assert Concat(st.fields + [st.current]) == Concat(st.fields) + st.current;
      } else {
        AppendAssoc(Concat(st.fields), st.current, [c]);
      }
    }
  }

  /** `ParseCsvLine` returns one field more than there are delimiters outside quotes. */
  lemma CsvFieldCount(line: string, delimiter: char)
    ensures |CsvFields(line, delimiter)| == Separators(line, delimiter, |line|) + 1
  {
    ScanCsvMeaning(line, delimiter);
  }

  /** Quotes never reach a field, and the fields are the kept characters in order:
    * a delimiter inside quotes stays in its field. */
  lemma CsvFieldContents(line: string, delimiter: char)
    ensures forall k :: 0 <= k < |CsvFields(line, delimiter)| ==> '"' !in CsvFields(line, delimiter)[k]
    ensures Concat(CsvFields(line, delimiter)) == Kept(line, delimiter, |line|)
  {
    ScanCsvMeaning(line, delimiter);
    var st := ScanCsv(line, delimiter);
    assert CsvFields(line, delimiter)[..|st.fields|] == st.fields;
  }

  /** `ParseCsvLine`. */
  method ParseCsvLine(line: string, delimiter: char) returns (result: seq<string>)
    ensures result == CsvFields(line, delimiter)
    ensures |result| == Separators(line, delimiter, |line|) + 1
  {
    result := [];
    var current := "";
    var inQuotes := false;
    for i := 0 to |line|
      invariant ScanCsv(line[..i], delimiter) == CsvScan(result, current, inQuotes)
    {
      assert line[..i + 1][..i] == line[..i];
      var c := line[i];
      if c == '"' {
        inQuotes := !inQuotes;
      } else if c == delimiter && !inQuotes {
        result := result + [current];
        current := "";
      } else {
        current := current + [c];
      }
    }
    assert line[..|line|] == line;
    result := result + [current];
    CsvFieldCount(line, delimiter);
  }

  // ---------------------------------------------------------------------------
  // From a row to a trade

  /** `Trim('"')`: quote characters removed from both ends. */
  function TrimQuotes(s: string): (r: string)
    ensures |r| <= |s|
    ensures r == [] || (r[0] != '"' && r[|r| - 1] != '"')
  {
    if |s| > 0 && s[0] == '"' then TrimQuotes(s[1..])
    else if |s| > 0 && s[|s| - 1] == '"' then TrimQuotes(s[..|s| - 1])
    else s
  }

  /** A column mapping: file column name to trade field name, in enumeration order. */
  type Mapping = seq<(string, string)>

  /** `GetDefaultMapping`; its keys are compared ignoring case. */
  const DefaultMapping: Mapping := [
    ("symbol", "Symbol"), ("pair", "Symbol"), ("instrument", "Symbol"),
    ("direction", "Direction"), ("type", "Direction"), ("side", "Direction"),
    ("volume", "Volume"), ("lots", "Volume"), ("size", "Volume"),
    ("entry_price", "EntryPrice"), ("open_price", "EntryPrice"), ("price", "EntryPrice"),
    ("exit_price", "ExitPrice"), ("close_price", "ExitPrice"),
    ("stop_loss", "StopLoss"), ("sl", "StopLoss"),
    ("take_profit", "TakeProfit"), ("tp", "TakeProfit"),
    ("entry_time", "EntryTime"), ("open_time", "EntryTime"), ("time", "EntryTime"),
    ("exit_time", "ExitTime"), ("close_time", "ExitTime"),
    ("profit", "ProfitLoss"), ("pnl", "ProfitLoss"), ("profit_loss", "ProfitLoss"),
    ("commission", "Commission"), ("swap", "Swap"),
    ("comment", "Notes"), ("notes", "Notes")]

  /** One parsed row: the header names and the field values. The row's
    * dictionary ignores case in its keys, and a later column with the same
    * name overwrites an earlier one. */
  datatype Row = Row(headers: seq<string>, values: seq<string>)

  /** The value the row's dictionary holds for `key`: the last column whose
    * header matches, its value trimmed of white space and then of quotes. */
  function RowValue(row: Row, key: string): (r: Option<string>)
    ensures r.Some? <==> exists i :: 0 <= i < |row.headers| && i < |row.values| && EqualsIgnoreCase(row.headers[i], key)
  {
    RowValueBefore(row, key, if |row.headers| < |row.values| then |row.headers| else |row.values|)
  }

  function RowValueBefore(row: Row, key: string, n: nat): (r: Option<string>)
    requires n <= |row.headers| && n <= |row.values|
    ensures r.Some? <==> exists i :: 0 <= i < n && EqualsIgnoreCase(row.headers[i], key)
  {
    if n == 0 then None
    else if EqualsIgnoreCase(row.headers[n - 1], key) then Some(TrimQuotes(Trim(row.values[n - 1])))
    else RowValueBefore(row, key, n - 1)
  }

  /** `mapping.Keys.FirstOrDefault(k => data.ContainsKey(k) && mapping[k] == field)`,
    * then `data[key]`: the value of the first mapped column of the row that
    * names the field. */
  function FieldText(mapping: Mapping, row: Row, field: string): (r: Option<string>)
    ensures r.Some? ==> exists k :: 0 <= k < |mapping| && mapping[k].1 == field && RowValue(row, mapping[k].0) == r
    ensures r.None? <==> forall k :: 0 <= k < |mapping| && mapping[k].1 == field ==> RowValue(row, mapping[k].0).None?
  {
    if mapping == [] then None
    else if mapping[0].1 == field && RowValue(row, mapping[0].0).Some? then RowValue(row, mapping[0].0)
    else
      var r := FieldText(mapping[1..], row, field);
      MappedInTail(mapping, row, field, r);
      r
  }

  /** What the rest of the mapping finds, the whole mapping holds too. */
  lemma MappedInTail(mapping: Mapping, row: Row, field: string, r: Option<string>)
    requires mapping != []
    requires r.Some? ==> exists k :: 0 <= k < |mapping[1..]| && mapping[1..][k].1 == field && RowValue(row, mapping[1..][k].0) == r
    requires r.None? <==> forall k :: 0 <= k < |mapping[1..]| && mapping[1..][k].1 == field ==> RowValue(row, mapping[1..][k].0).None?
    requires !(mapping[0].1 == field && RowValue(row, mapping[0].0).Some?)
    ensures r.Some? ==> exists k :: 0 <= k < |mapping| && mapping[k].1 == field && RowValue(row, mapping[k].0) == r
    ensures r.None? <==> forall k :: 0 <= k < |mapping| && mapping[k].1 == field ==> RowValue(row, mapping[k].0).None?
  {
    if r.Some? {
      var k :| 0 <= k < |mapping[1..]| && mapping[1..][k].1 == field && RowValue(row, mapping[1..][k].0) == r;
      assert mapping[k + 1] == mapping[1..][k];
    }
    forall k | 1 <= k < |mapping| ensures mapping[k] == mapping[1..][k - 1] { }
  }

  /** The number a mapped field holds, when it parses. */
  function FieldNumber(mapping: Mapping, row: Row, field: string): (r: Option<real>)
    ensures r.Some? ==> FieldText(mapping, row, field).Some?
  {
    match FieldText(mapping, row, field)
    case None => None
    case Some(s) => ParseDecimal(s)
  }

  /** The direction text means a buy when it contains "buy" or "long" or is "1",
    * ignoring case; any other text means a sell. */
  function DirectionFromText(s: string): (d: int)
    ensures d == BuyValue || d == SellValue
    ensures d == BuyValue <==> Contains(ToLower(s), "buy") || Contains(ToLower(s), "long") || ToLower(s) == "1"
  {
    var v := ToLower(s);
    if Contains(v, "buy") || Contains(v, "long") || v == "1" then BuyValue else SellValue
  }

  /** The two date formats the importer tries (the configured exact format,
    * then general parsing) are one parameter here: `parseDate`. */
  datatype ImportContext = ImportContext(
    accountId: int,
    mapping: Mapping,
    parseDate: string -> Option<int>,
    now: int)

  /** A date field's text parsed; a missing or empty text gives no time. */
  function ParsedTime(ctx: ImportContext, row: Row, field: string): (r: Option<int>)
    ensures FieldText(ctx.mapping, row, field).None? ==> r.None?
    ensures FieldText(ctx.mapping, row, field) == Some("") ==> r.None?
    ensures r.Some? ==> ctx.parseDate(FieldText(ctx.mapping, row, field).value) == r
  {
    match FieldText(ctx.mapping, row, field)
    case None => None
    case Some(s) => if s == "" then None else ctx.parseDate(s)
  }

  /** The entry time: the parsed one, or the current time when there is none
    * or it is `DateTime.MinValue` (`default`). */
  function EntryTimeOf(ctx: ImportContext, row: Row): int {
    var parsed := ParsedTime(ctx, row, "EntryTime");
    if parsed.None? || parsed.value == DateTimeMinValue then ctx.now else parsed.value
  }

  /** The trade a row with the given symbol text describes. */
  function TradeFromRow(ctx: ImportContext, row: Row, symbol: string): (t: Trade)
    ensures t.symbol == ToUpper(symbol) && t.accountId == ctx.accountId
    ensures !t.isDeleted && t.createdAt == ctx.now && t.tags.None?
    ensures t.exitPrice == FieldNumber(ctx.mapping, row, "ExitPrice") && (t.isClosed <==> t.exitPrice.Some?)
    ensures t.direction == (if FieldText(ctx.mapping, row, "Direction").Some?
                            then DirectionFromText(FieldText(ctx.mapping, row, "Direction").value) else 0)
    ensures t.entryTime == EntryTimeOf(ctx, row)
  {
    var dir := FieldText(ctx.mapping, row, "Direction");
    var exitPrice := FieldNumber(ctx.mapping, row, "ExitPrice");
    Trade(0, ctx.accountId, None, ToUpper(symbol),
      if dir.Some? then DirectionFromText(dir.value) else 0,
      FieldNumber(ctx.mapping, row, "Volume").GetOr(0.0),
      FieldNumber(ctx.mapping, row, "EntryPrice").GetOr(0.0),
      exitPrice,
      FieldNumber(ctx.mapping, row, "StopLoss"),
      FieldNumber(ctx.mapping, row, "TakeProfit"),
      EntryTimeOf(ctx, row),
      ParsedTime(ctx, row, "ExitTime"),
      FieldNumber(ctx.mapping, row, "Commission").GetOr(0.0),
      FieldNumber(ctx.mapping, row, "Swap").GetOr(0.0),
      FieldNumber(ctx.mapping, row, "ProfitLoss"), None, None,
      exitPrice.Some?,
      None, FieldText(ctx.mapping, row, "Notes"), None, None, None, None, None, None, None, None, None,
      ctx.now, None, false, None)
  }

  /** `CreateTradeFromData`: a trade from one row, or a failure when the row
    * has no symbol (the row's symbol text is missing or empty). */
  function CreateTradeFromData(ctx: ImportContext, row: Row): (r: Result<Trade>)
    ensures r.Success? <==> FieldText(ctx.mapping, row, "Symbol").Some? && FieldText(ctx.mapping, row, "Symbol").value != ""
    ensures r.Success? ==> r.value == TradeFromRow(ctx, row, FieldText(ctx.mapping, row, "Symbol").value)
    ensures r.Success? ==> r.value.symbol != ""
  {
    var symbol := FieldText(ctx.mapping, row, "Symbol");
    if symbol.None? || ToUpper(symbol.value) == "" then Failure(Custom("ParseError", "symbol not found"))
    else Success(TradeFromRow(ctx, row, symbol.value))
  }

  // ---------------------------------------------------------------------------
  // The import loop

  datatype ImportErrorType = ParseError | Unknown

  datatype ImportError = ImportError(rowNumber: int, message: string, errorType: ImportErrorType)

  datatype ImportOptions = ImportOptions(
    columnMapping: Option<Mapping>,
    hasHeader: bool,
    csvDelimiter: char,
    skipDuplicates: bool,
    ignoreErrors: bool,
    maxErrors: int,
    autoTag: Option<string>)

  /** The counters and lists the import builds. */
  datatype ImportResult = ImportResult(
    totalRows: int,
    successCount: nat,
    skippedCount: nat,
    errors: seq<ImportError>,
    importedTrades: seq<Trade>)

  /** The duplicate test: a stored, not deleted trade of the account with the
    * same symbol, entry time and entry price. */
  predicate IsDuplicate(stored: seq<Trade>, t: Trade, accountId: int) {
    exists s :: s in stored && s.accountId == accountId && s.symbol == t.symbol
      && s.entryTime == t.entryTime && s.entryPrice == t.entryPrice && !s.isDeleted
  }

  /** The automatic tag appended to the trade's tags. */
  function WithAutoTag(t: Trade, tag: Option<string>): Trade {
    if IsNullOrEmpty(tag) then t
    else if IsNullOrEmpty(t.tags) then t.(tags := tag)
    else t.(tags := Some(t.tags.value + "," + tag.value))
  }

  /** The loop stops once the errors reach the maximum, unless errors are ignored. */
  predicate Stopped(st: ImportResult, options: ImportOptions) {
    |st.errors| >= options.maxErrors && !options.ignoreErrors
  }

  /** One data row: a row that gives no trade is an error, a duplicate is
    * skipped, any other trade is imported. */
  function ImportRow(st: ImportResult, rowNumber: int, t: Result<Trade>, options: ImportOptions, stored: seq<Trade>, accountId: int)
    : (r: ImportResult)
    ensures r.totalRows == st.totalRows
    ensures t.Failure? ==> (r.errors == st.errors + [ImportError(rowNumber, "the row could not be processed", ParseError)]
                            && r.importedTrades == st.importedTrades)
    ensures t.Success? ==> r.errors == st.errors
  {
    if t.Failure? then
      st.(errors := st.errors + [ImportError(rowNumber, "the row could not be processed", ParseError)])
    else if options.skipDuplicates && IsDuplicate(stored, t.value, accountId) then
      st.(skippedCount := st.skippedCount + 1)
    else
      st.(successCount := st.successCount + 1, importedTrades := st.importedTrades + [WithAutoTag(t.value, options.autoTag)])
  }

  /** The parsed trade of data line k. */
  function RowTrade(ctx: ImportContext, headers: seq<string>, delimiter: char, line: string): Result<Trade> {
    CreateTradeFromData(ctx, Row(headers, CsvFields(line, delimiter)))
  }

  /** The result after the first n data lines (lines are numbered from
    * `firstRow`); once stopped, later lines change nothing. */
  function ImportLines(ctx: ImportContext, headers: seq<string>, options: ImportOptions, stored: seq<Trade>,
                       lines: seq<string>, firstRow: int, n: nat, total: int): (r: ImportResult)
    requires n <= |lines|
    ensures r.totalRows == total
  {
    if n == 0 then ImportResult(total, 0, 0, [], [])
    else
      var st := ImportLines(ctx, headers, options, stored, lines, firstRow, n - 1, total);
      if Stopped(st, options) then st
      else ImportRow(st, firstRow + n, RowTrade(ctx, headers, options.csvDelimiter, lines[n - 1]), options, stored, ctx.accountId)
  }

  /** Every line looked at gives exactly one success, skip or error; a line is
    * left unread only once the loop has stopped. */
  lemma {:induction false} ImportLinesCounts(ctx: ImportContext, headers: seq<string>, options: ImportOptions, stored: seq<Trade>,
                                             lines: seq<string>, firstRow: int, n: nat, total: int)
    requires n <= |lines|
    ensures var st := ImportLines(ctx, headers, options, stored, lines, firstRow, n, total);
      && st.successCount + st.skippedCount + |st.errors| <= n
      && (st.successCount + st.skippedCount + |st.errors| < n ==> Stopped(st, options))
      && |st.importedTrades| == st.successCount
      && st.totalRows == total
      && (!options.ignoreErrors ==> |st.errors| <= if options.maxErrors < 0 then 0 else options.maxErrors)
  {
    if n > 0 {
      ImportLinesCounts(ctx, headers, options, stored, lines, firstRow, n - 1, total);
      var prev := ImportLines(ctx, headers, options, stored, lines, firstRow, n - 1, total);
      ImportRowCounts(prev, firstRow + n, RowTrade(ctx, headers, options.csvDelimiter, lines[n - 1]), options, stored, ctx.accountId);
    }
  }

  /** A row adds exactly one success, skip or error, and a trade only with a success. */
  lemma ImportRowCounts(st: ImportResult, rowNumber: int, t: Result<Trade>, options: ImportOptions, stored: seq<Trade>, accountId: int)
    ensures var s := ImportRow(st, rowNumber, t, options, stored, accountId);
      && s.successCount + s.skippedCount + |s.errors| == st.successCount + st.skippedCount + |st.errors| + 1
      && |s.importedTrades| - s.successCount == |st.importedTrades| - st.successCount
      && s.totalRows == st.totalRows
      && |st.errors| <= |s.errors| <= |st.errors| + 1
  {
  }

  /** What every imported trade satisfies. */
  predicate ImportedShape(t: Trade, ctx: ImportContext, options: ImportOptions, stored: seq<Trade>) {
    && t.symbol != "" && ToUpper(t.symbol) == t.symbol
    && t.accountId == ctx.accountId && !t.isDeleted
    && (options.skipDuplicates ==> !IsDuplicate(stored, t, ctx.accountId))
  }

  /** An upper-cased, non-empty symbol, the account's id and not deleted. */
  predicate ParsedShape(t: Trade, accountId: int) {
    t.symbol != "" && ToUpper(t.symbol) == t.symbol && t.accountId == accountId && !t.isDeleted
  }

  /** A parsed trade, tagged or not, has an upper-cased, non-empty symbol and
    * belongs to the account. */
  lemma ParsedTradeShape(ctx: ImportContext, row: Row, tag: Option<string>)
    requires CreateTradeFromData(ctx, row).Success?
    ensures ParsedShape(WithAutoTag(CreateTradeFromData(ctx, row).value, tag), ctx.accountId)
  {
    var t := CreateTradeFromData(ctx, row).value;
    CaseMappingsIdempotent(FieldText(ctx.mapping, row, "Symbol").value);
    assert WithAutoTag(t, tag).symbol == t.symbol;
  }

  /** The trade a data line gives, when it parses, is in shape once tagged. */
  lemma RowTradeShape(ctx: ImportContext, headers: seq<string>, delimiter: char, line: string, tag: Option<string>)
    ensures RowTrade(ctx, headers, delimiter, line).Success? ==>
      ParsedShape(WithAutoTag(RowTrade(ctx, headers, delimiter, line).value, tag), ctx.accountId)
  {
    if RowTrade(ctx, headers, delimiter, line).Success? {
      ParsedTradeShape(ctx, Row(headers, CsvFields(line, delimiter)), tag);
    }
  }

  /** Importing a row whose trade, once tagged, is in shape keeps every
    * imported trade in shape. */
  lemma ImportRowKeepsShape(st: ImportResult, rowNumber: int, t: Result<Trade>, ctx: ImportContext,
                            options: ImportOptions, stored: seq<Trade>)
    requires forall x :: x in st.importedTrades ==> ImportedShape(x, ctx, options, stored)
    requires t.Success? ==> ParsedShape(WithAutoTag(t.value, options.autoTag), ctx.accountId)
    ensures forall x :: x in ImportRow(st, rowNumber, t, options, stored, ctx.accountId).importedTrades ==>
      ImportedShape(x, ctx, options, stored)
  {
    if t.Success? && !(options.skipDuplicates && IsDuplicate(stored, t.value, ctx.accountId)) {
      assert WithAutoTag(t.value, options.autoTag) == t.value.(tags := WithAutoTag(t.value, options.autoTag).tags);
    }
  }

  /** Every imported trade has an upper-cased, non-empty symbol, belongs to the
    * account, and (when duplicates are skipped) matches no stored trade. */
  lemma {:induction false} ImportedTradesShape(ctx: ImportContext, headers: seq<string>, options: ImportOptions, stored: seq<Trade>,
                                               lines: seq<string>, firstRow: int, n: nat, total: int)
    requires n <= |lines|
    ensures forall t :: t in ImportLines(ctx, headers, options, stored, lines, firstRow, n, total).importedTrades ==>
      ImportedShape(t, ctx, options, stored)
  {
    if n > 0 {
      ImportedTradesShape(ctx, headers, options, stored, lines, firstRow, n - 1, total);
      var prev := ImportLines(ctx, headers, options, stored, lines, firstRow, n - 1, total);
      var r := RowTrade(ctx, headers, options.csvDelimiter, lines[n - 1]);
      RowTradeShape(ctx, headers, options.csvDelimiter, lines[n - 1], options.autoTag);
      ImportRowKeepsShape(prev, firstRow + n, r, ctx, options, stored);
    }
  }

  /** `Split('\n', RemoveEmptyEntries)`. */
  function NonEmptyLines(text: string): (r: seq<string>)
    ensures forall i :: 0 <= i < |r| ==> r[i] != "" && '\n' !in r[i]
  {
    Nonempty(Split(text, '\n'))
  }

  function Nonempty(parts: seq<string>): (r: seq<string>)
    ensures |r| <= |parts|
    ensures forall i :: 0 <= i < |r| ==> r[i] != "" && r[i] in parts
  {
    if parts == [] then []
    else Nonempty(parts[..|parts| - 1]) + if parts[|parts| - 1] == "" then [] else [parts[|parts| - 1]]
  }

  /** The header names: the first line split at every delimiter (quotes are
    * not interpreted here), each trimmed of white space and quotes. */
  function Headers(line: string, delimiter: char): (r: seq<string>)
    ensures |r| == Count(line, delimiter) + 1
  {
    var parts := Split(line, delimiter);
    seq(|parts|, i requires 0 <= i < |parts| => TrimQuotes(Trim(parts[i])))
  }

  /** The data lines of the text and the header names, as the import reads them. */
  function DataLines(lines: seq<string>, options: ImportOptions): seq<string>
    requires |lines| > 0
  {
    if options.hasHeader then lines[1..] else lines
  }

  function HeaderNames(lines: seq<string>, options: ImportOptions): seq<string>
    requires |lines| > 0
  {
    if options.hasHeader then Headers(lines[0], options.csvDelimiter) else []
  }

  /** `ImportFromCsvTextAsync`: an empty text is refused; otherwise every data
    * line is parsed and imported until the errors reach the maximum.
    * `stored` is the trade table the duplicate test consults. */
  method ImportFromCsvText(csvText: string, accountId: int, options: ImportOptions, stored: seq<Trade>,
                           parseDate: string -> Option<int>, now: int)
    returns (r: Result<ImportResult>)
    ensures NonEmptyLines(csvText) == [] <==> r.Failure?
    ensures r.Failure? ==> r.error == Validation("the file is empty")
    ensures r.Success? ==>
      var lines := NonEmptyLines(csvText);
      var rows := DataLines(lines, options);
      var ctx := ImportContext(accountId, options.columnMapping.GetOr(DefaultMapping), parseDate, now);
      && r.value.totalRows == |rows|
      && r.value == ImportLines(ctx, HeaderNames(lines, options), options, stored, rows, |lines| - |rows|, |rows|, |rows|)
  {
    var lines := NonEmptyLines(csvText);
    if |lines| == 0 {
      return Failure(Validation("the file is empty"));
    }
    var ctx := ImportContext(accountId, options.columnMapping.GetOr(DefaultMapping), parseDate, now);
    var rows := DataLines(lines, options);
    var st := ImportLoop(ctx, HeaderNames(lines, options), options, stored, rows, |lines| - |rows|);
    ImportLinesCounts(ctx, HeaderNames(lines, options), options, stored, rows, |lines| - |rows|, |rows|, |rows|);
    r := Success(st);
  }

  /** The loop over the data lines; it breaks as soon as the errors reach the maximum. */
  method ImportLoop(ctx: ImportContext, headers: seq<string>, options: ImportOptions, stored: seq<Trade>,
                    rows: seq<string>, firstRow: int)
    returns (st: ImportResult)
    ensures st == ImportLines(ctx, headers, options, stored, rows, firstRow, |rows|, |rows|)
  {
    st := ImportResult(|rows|, 0, 0, [], []);
    var i := 0;
    while i < |rows|
      invariant 0 <= i <= |rows|
      invariant st == ImportLines(ctx, headers, options, stored, rows, firstRow, i, |rows|)
    {
      if |st.errors| >= options.maxErrors && !options.ignoreErrors {
        StoppedStaysStopped(ctx, headers, options, stored, rows, firstRow, i, |rows|, |rows|);
        return;
      }
      var values := ParseCsvLine(rows[i], options.csvDelimiter);
      var t := CreateTradeFromData(ctx, Row(headers, values));
      st := ImportRow(st, firstRow + i + 1, t, options, stored, ctx.accountId);
      i := i + 1;
    }
  }

  /** Once stopped, the result no longer changes. */
  lemma {:induction false} StoppedStaysStopped(ctx: ImportContext, headers: seq<string>, options: ImportOptions, stored: seq<Trade>,
                                               lines: seq<string>, firstRow: int, n: nat, m: nat, total: int)
    requires n <= m <= |lines|
    requires Stopped(ImportLines(ctx, headers, options, stored, lines, firstRow, n, total), options)
    ensures ImportLines(ctx, headers, options, stored, lines, firstRow, m, total)
         == ImportLines(ctx, headers, options, stored, lines, firstRow, n, total)
    decreases m - n
  {
    if n < m {
      StoppedStaysStopped(ctx, headers, options, stored, lines, firstRow, n, m - 1, total);
      StoppedStep(ctx, headers, options, stored, lines, firstRow, m, total);
    }
  }

  /** One line after a stop changes nothing. */
  lemma StoppedStep(ctx: ImportContext, headers: seq<string>, options: ImportOptions, stored: seq<Trade>,
                    lines: seq<string>, firstRow: int, m: nat, total: int)
    requires 0 < m <= |lines|
    requires Stopped(ImportLines(ctx, headers, options, stored, lines, firstRow, m - 1, total), options)
    ensures ImportLines(ctx, headers, options, stored, lines, firstRow, m, total)
         == ImportLines(ctx, headers, options, stored, lines, firstRow, m - 1, total)
  {
  }

  // ---------------------------------------------------------------------------
  // Formats and mapping suggestions

  const SupportedExtensions: seq<string> := [".csv", ".json"]

  /** `SupportsFormat`: the extension, lower-cased, is one of the supported ones. */
  function SupportsFormat(extension: string): (b: bool)
    ensures b <==> EqualsIgnoreCase(extension, ".csv") || EqualsIgnoreCase(extension, ".json")
  {
    assert ToLower(".csv") == ".csv" && ToLower(".json") == ".json";
    ToLower(extension) in SupportedExtensions
  }

  /** A column name as the suggestion looks it up: lower-cased, with spaces
    * and hyphens turned into underscores. */
  function NormalizeColumn(column: string): (r: string)
    ensures |r| == |column|
    ensures forall i :: 0 <= i < |r| ==> r[i] != ' ' && r[i] != '-' && !('A' <= r[i] <= 'Z')
    ensures forall i :: 0 <= i < |r| ==>
      r[i] == (if column[i] == ' ' || column[i] == '-' then '_' else LowerChar(column[i]))
  {
    var lower := ToLower(column);
    ReplaceCharByChar(lower, ' ', '_');
    var spaced := Replace(lower, " ", "_");
    ReplaceCharByChar(spaced, '-', '_');
    Replace(spaced, "-", "_")
  }

  /** The field a mapping gives a key, ignoring case: the first matching entry. */
  function LookupIgnoreCase(m: Mapping, key: string): (r: Option<string>)
    ensures r.Some? <==> exists k :: 0 <= k < |m| && EqualsIgnoreCase(m[k].0, key)
    ensures r.Some? ==> exists k :: 0 <= k < |m| && EqualsIgnoreCase(m[k].0, key) && m[k].1 == r.value
  {
    if m == [] then None
    else if EqualsIgnoreCase(m[0].0, key) then Some(m[0].1)
    else
      var r := LookupIgnoreCase(m[1..], key);
      assert forall k :: 1 <= k < |m| ==> m[k] == m[1..][k - 1];
      r
  }

  /** `SuggestMapping`, given the default mapping: each detected column whose
    * normalised name is a key of the mapping is mapped to that key's field;
    * other columns are left out. */
  method SuggestMapping(columns: seq<string>, defaults: Mapping) returns (result: map<string, string>)
    ensures forall c :: c in result <==> c in columns && LookupIgnoreCase(defaults, NormalizeColumn(c)).Some?
    ensures forall c :: c in result ==> result[c] == LookupIgnoreCase(defaults, NormalizeColumn(c)).value
  {
    result := map[];
    for i := 0 to |columns|
      invariant forall c :: c in result <==> c in columns[..i] && LookupIgnoreCase(defaults, NormalizeColumn(c)).Some?
      invariant forall c :: c in result ==> result[c] == LookupIgnoreCase(defaults, NormalizeColumn(c)).value
    {
      assert columns[..i + 1] == columns[..i] + [columns[i]];
      var field := LookupIgnoreCase(defaults, NormalizeColumn(columns[i]));
      if field.Some? {
        result := result[columns[i] := field.value];
      }
    }
    assert columns[..|columns|] == columns;
  }
}
