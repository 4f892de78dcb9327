/**
 * The `log` endpoint: a poll mode that asks the live log for entries newer
 * than a cursor, and a list mode that pages backwards through the stored
 * error log with `DumpTable`, the generic paginated table reader.
 */
module LogData {
  import opened Wrappers
  import opened Text
  import opened Payload
  import opened WebServer

  /** A request's query string: parameter name to value; an absent parameter has a null value. */
  type QueryString = map<string, string>

  function Param(query: QueryString, name: string): Option<string> {
    if name in query then Some(query[name]) else None
  }

  const DefaultPageSize: int := 100
  const MaxPageSize: int := 500
  const PollMinPageSize: int := 1
  const DumpMinPageSize: int := 10

  const ErrorLogTable: string := "ErrorLog"
  const ErrorLogPagingField: string := "Timestamp"

  function Min(a: int, b: int): int { if a <= b then a else b }
  function Max(a: int, b: int): int { if a >= b then a else b }

  /** `Math.Max(lo, Math.Min(hi, v))`. */
  function Clamp(lo: int, hi: int, v: int): int { Max(lo, Min(hi, v)) }

  // ---------------------------------------------------------------------------
  // Poll mode

  /** The sub-key selecting poll mode: `"poll"`, in any letter case. */
  predicate IsPoll(key: Option<string>) {
    EqualsIgnoreCase("poll", key)
  }

  lemma IsPollSpec(key: Option<string>)
    ensures IsPoll(key) <==> key.Some? && Lower(key.value) == "poll"
  {
    if key.Some? {
      EqualsIgnoreCaseLower("poll", key.value);
    }
  }

  /** The poll page size: an `int`, 100 when it does not parse, then clamped to [1, 500]. */
  function PollPageSize(s: Option<string>): (n: int)
    ensures PollMinPageSize <= n <= MaxPageSize
    ensures TryParseInt(s).None? ==> n == DefaultPageSize
    ensures TryParseInt(s).Some? ==>
      var v := TryParseInt(s).value;
      (v < PollMinPageSize ==> n == PollMinPageSize) &&
      (v > MaxPageSize ==> n == MaxPageSize) &&
      (PollMinPageSize <= v <= MaxPageSize ==> n == v)
  {
    var parsed := TryParseInt(s);
    Clamp(PollMinPageSize, MaxPageSize, if parsed.Some? then parsed.value else DefaultPageSize)
  }

  /** The poll cursor: a `long`, 0 when the (null-as-empty) `id` does not parse. */
  function PollCursor(s: Option<string>): (id: int)
    ensures Int64Min <= id <= Int64Max
    ensures TryParseLong(s).Some? ==> id == TryParseLong(s).value
    ensures TryParseLong(s).None? ==> id == 0
  {
    BlankIsNotANumber(Some(""), Int64Min, Int64Max);
    TryParseLong(Some(s.GetOr(""))).GetOr(0)
  }

  /** The poll level: the (null-as-empty) `level` parsed ignoring case, `default(LogMessageType)` when that fails. */
  function PollLevel(s: Option<string>, parseLevel: string -> Option<LogLevel>): (level: LogLevel)
    ensures parseLevel(s.GetOr("")).None? ==> level == DefaultLevel
    ensures parseLevel(s.GetOr("")).Some? ==> level == parseLevel(s.GetOr("")).value
  {
    parseLevel(s.GetOr("")).GetOr(DefaultLevel)
  }

  // ---------------------------------------------------------------------------
  // Dispatch

  /** What the handler does with a request. */
  datatype LogRequest =
    | Poll(id: int, level: LogLevel, pageSize: int)
    | List(table: string, pagingField: string, offsetText: Option<string>, pageSizeText: Option<string>)

  function Route(key: Option<string>, query: QueryString, parseLevel: string -> Option<LogLevel>): (r: LogRequest)
    ensures r.Poll? <==> key.Some? && Lower(key.value) == "poll"
    ensures r.Poll? ==>
      var size := TryParseInt(Param(query, "pagesize"));
      var id := TryParseLong(Param(query, "id"));
      var level := parseLevel(Param(query, "level").GetOr(""));
      PollMinPageSize <= r.pageSize <= MaxPageSize &&
      (size.None? ==> r.pageSize == DefaultPageSize) &&
      (size.Some? && size.value < PollMinPageSize ==> r.pageSize == PollMinPageSize) &&
      (size.Some? && size.value > MaxPageSize ==> r.pageSize == MaxPageSize) &&
      (size.Some? && PollMinPageSize <= size.value <= MaxPageSize ==> r.pageSize == size.value) &&
      (id.None? ==> r.id == 0) && (id.Some? ==> r.id == id.value) &&
      (level.None? ==> r.level == DefaultLevel) && (level.Some? ==> r.level == level.value)
    ensures r.List? ==>
      r.table == ErrorLogTable && r.pagingField == ErrorLogPagingField &&
      r.offsetText == Param(query, "offset") && r.pageSizeText == Param(query, "pagesize")
  {
    IsPollSpec(key);
    if IsPoll(key) then
      Poll(PollCursor(Param(query, "id")), PollLevel(Param(query, "level"), parseLevel),
           PollPageSize(Param(query, "pagesize")))
    else
      List(ErrorLogTable, ErrorLogPagingField, Param(query, "offset"), Param(query, "pagesize"))
  }

  /** A poll with an unparsable page size, no cursor and no level asks for the first 100 entries at the default level. */
  lemma PollDefaults(parseLevel: string -> Option<LogLevel>)
    requires parseLevel("") == None
    ensures Route(Some("poll"), map["id" := "0", "level" := "", "pagesize" := "abc"], parseLevel)
         == Poll(0, DefaultLevel, DefaultPageSize)
  {
    var q := map["id" := "0", "level" := "", "pagesize" := "abc"];
    assert Param(q, "pagesize") == Some("abc");
    assert Param(q, "id") == Some("0");
    assert Param(q, "level") == Some("");
    NotANumber("abc", Int32Min, Int32Max);
    assert Decimal(0) == "0";
    DecimalRoundTrip(0, Int64Min, Int64Max);
    assert IsPoll(Some("poll"));
  }

  // ---------------------------------------------------------------------------
  // DumpTable: the command

  /** The query `DumpTable` issues: the offset is present exactly when the `WHERE` clause is. */
  datatype Query = Query(table: string, pagingField: string, offset: Option<int>, limit: int)

  /** The dump page size: a `long`, 100 when it does not parse, then clamped to [10, 500]. */
  function DumpPageSize(s: Option<string>): (n: int)
    ensures DumpMinPageSize <= n <= MaxPageSize
    ensures TryParseLong(s).None? ==> n == DefaultPageSize
    ensures TryParseLong(s).Some? ==>
      var v := TryParseLong(s).value;
      (v < DumpMinPageSize ==> n == DumpMinPageSize) &&
      (v > MaxPageSize ==> n == MaxPageSize) &&
      (DumpMinPageSize <= v <= MaxPageSize ==> n == v)
  {
    var parsed := TryParseLong(s);
    Clamp(DumpMinPageSize, MaxPageSize, if parsed.Some? then parsed.value else DefaultPageSize)
  }

  /** The condition under which `DumpTable` filters on the paging field. */
  predicate Filters(pagingField: string, offset: Option<string>) {
    !IsNullOrWhiteSpace(offset) && TryParseLong(offset).Some? && pagingField != ""
  }

  function PlanDump(table: string, pagingField: string, offset: Option<string>, pageSize: Option<string>): (q: Query)
    ensures q.table == table && q.pagingField == pagingField
    ensures DumpMinPageSize <= q.limit <= MaxPageSize
    ensures TryParseLong(pageSize).None? ==> q.limit == DefaultPageSize
    ensures TryParseLong(pageSize).Some? ==>
      var v := TryParseLong(pageSize).value;
      (v < DumpMinPageSize ==> q.limit == DumpMinPageSize) &&
      (v > MaxPageSize ==> q.limit == MaxPageSize) &&
      (DumpMinPageSize <= v <= MaxPageSize ==> q.limit == v)
    ensures q.offset.Some? <==> TryParseLong(offset).Some? && pagingField != ""
    ensures q.offset.Some? ==> q.offset == TryParseLong(offset)
  {
    FiltersSpec(pagingField, offset);
    Query(table, pagingField,
          if Filters(pagingField, offset) then TryParseLong(offset) else None,
          DumpPageSize(pageSize))
  }

  /** The blank-offset test is subsumed by the parse: filtering needs exactly a parsable offset and a paging field. */
  lemma FiltersSpec(pagingField: string, offset: Option<string>)
    ensures Filters(pagingField, offset) <==> TryParseLong(offset).Some? && pagingField != ""
  {
    if IsNullOrWhiteSpace(offset) {
      BlankIsNotANumber(offset, Int64Min, Int64Max);
    }
  }

  function SelectClause(table: string): string { "SELECT * FROM \"" + table + "\"" }

  function WhereClause(q: Query): string {
    if q.offset.Some? then " WHERE \"" + q.pagingField + "\" < ?" else ""
  }

  function OrderClause(q: Query): string {
    if q.pagingField != "" then " ORDER BY \"" + q.pagingField + "\" DESC" else ""
  }

  function LimitClause(limit: int): string {
    " LIMIT " + (if limit >= 0 then Decimal(limit) else "-" + Decimal(-limit))
  }

  /** The command text, clause by clause, as `DumpTable` appends it. */
  function CommandText(q: Query): string {
    SelectClause(q.table) + WhereClause(q) + OrderClause(q) + LimitClause(q.limit)
  }

  /** The parameters `DumpTable` binds: the offset, when it filters. */
  function Parameters(q: Query): seq<Value> {
    if q.offset.Some? then [Integer(q.offset.value)] else []
  }

  /**
   * The statement always selects from the named table and always ends with
   * the clamped page size as its limit, which reads back as that number.
   */
  lemma DumpCommandBounds(table: string, pagingField: string, offset: Option<string>, pageSize: Option<string>)
    ensures var text := CommandText(PlanDump(table, pagingField, offset, pageSize));
      var n := DumpPageSize(pageSize);
      var head := SelectClause(table);
      var tail := " LIMIT " + Decimal(n);
      |text| >= |head| + |tail| &&
      text[..|head|] == head &&
      text[|text| - |tail|..] == tail &&
      TryParseLong(Some(Decimal(n))) == Some(n) &&
      DumpMinPageSize <= n <= MaxPageSize
  {
    var n := DumpPageSize(pageSize);
    CommandTextEnds(PlanDump(table, pagingField, offset, pageSize));
    DecimalRoundTrip(n, Int64Min, Int64Max);
  }

  lemma CommandTextEnds(q: Query)
    requires q.limit >= 0
    ensures var text := CommandText(q);
      var head := SelectClause(q.table);
      var tail := " LIMIT " + Decimal(q.limit);
      |text| >= |head| + |tail| &&
      text[..|head|] == head &&
      text[|text| - |tail|..] == tail
  {
    PrefixSuffixOfFour(SelectClause(q.table), WhereClause(q), OrderClause(q), LimitClause(q.limit));
  }

  /** The first and last of four concatenated parts are a prefix and a suffix of the whole. */
  lemma PrefixSuffixOfFour(a: string, b: string, c: string, d: string)
    ensures var s := a + b + c + d;
      |s| >= |a| + |d| && s[..|a|] == a && s[|s| - |d|..] == d
  {
    var s := a + b + c + d;
    assert s == a + (b + c + d);
    assert s == (a + b + c) + d;
  }

  /**
   * The `WHERE` clause and its single parameter are there exactly when the
   * offset parses and a paging field is named; `ORDER BY ... DESC` is there
   * exactly when a paging field is named, and comes after the `WHERE` clause
   * and before the limit.
   */
  lemma DumpCommandClauses(table: string, pagingField: string, offset: Option<string>, pageSize: Option<string>)
    ensures var q := PlanDump(table, pagingField, offset, pageSize);
      var filters := TryParseLong(offset).Some? && pagingField != "";
      var where := if filters then " WHERE \"" + pagingField + "\" < ?" else "";
      var order := if pagingField != "" then " ORDER BY \"" + pagingField + "\" DESC" else "";
      CommandText(q) == "SELECT * FROM \"" + table + "\"" + where + order + " LIMIT " + Decimal(DumpPageSize(pageSize)) &&
      Parameters(q) == (if filters then [Integer(TryParseLong(offset).value)] else [])
  {
    FiltersSpec(pagingField, offset);
  }

  /** The listing scenario: no offset and a page size above the cap give the newest 500 rows. */
  lemma DumpErrorLogFirstPage()
    ensures var q := PlanDump(ErrorLogTable, ErrorLogPagingField, Some(""), Some("1000"));
      CommandText(q) == "SELECT * FROM \"ErrorLog\"" + " ORDER BY \"Timestamp\" DESC" + " LIMIT 500" &&
      Parameters(q) == []
  {
    PageSizeAboveCap();
    assert IsNullOrWhiteSpace(Some(""));
    var q := PlanDump(ErrorLogTable, ErrorLogPagingField, Some(""), Some("1000"));
    assert q == Query(ErrorLogTable, ErrorLogPagingField, None, 500);
    ErrorLogFirstPageText(q);
  }

  /** A page size of 1000 is capped at 500. */
  lemma PageSizeAboveCap()
    ensures DumpPageSize(Some("1000")) == MaxPageSize
  {
    assert Decimal(1000) == "1000" by {
      assert Decimal(1000) == Decimal(100) + [DigitChar(0)];
      assert Decimal(100) == Decimal(10) + [DigitChar(0)];
      assert Decimal(10) == Decimal(1) + [DigitChar(0)];
    }
    DecimalRoundTrip(1000, Int64Min, Int64Max);
  }

  lemma FiveHundred()
    ensures Decimal(500) == "500"
  {
    assert Decimal(500) == Decimal(50) + [DigitChar(0)];
    assert Decimal(50) == Decimal(5) + [DigitChar(0)];
  }

  lemma ErrorLogFirstPageText(q: Query)
    requires q == Query(ErrorLogTable, ErrorLogPagingField, None, 500)
    ensures CommandText(q) == "SELECT * FROM \"ErrorLog\"" + " ORDER BY \"Timestamp\" DESC" + " LIMIT 500"
  {
    FiveHundred();
    var select, order, limit := "SELECT * FROM \"ErrorLog\"", " ORDER BY \"Timestamp\" DESC", " LIMIT 500";
    assert SelectClause(q.table) == select;
    assert WhereClause(q) == "";
    assert OrderClause(q) == order;
    assert LimitClause(q.limit) == limit;
    assert select + "" == select;
  }

  // ---------------------------------------------------------------------------
  // Reading the command back

  /**
   * Identifiers are pasted into the command verbatim, so the text is
   * unambiguous only for identifiers without a double quote; the callers
   * pass fixed names.
   */
  predicate QuoteFree(s: string) {
    forall i :: 0 <= i < |s| ==> s[i] != '"'
  }

  function AfterPrefix(prefix: string, s: string): Option<string> {
    if |prefix| <= |s| && s[..|prefix|] == prefix then Some(s[|prefix|..]) else None
  }

  /** The text before the first double quote, and the text after it. */
  function SplitAtQuote(s: string): Option<(string, string)> {
    if s == [] then None
    else if s[0] == '"' then Some(([], s[1..]))
    else
      match SplitAtQuote(s[1..])
      case None => None
      case Some(p) => Some(([s[0]] + p.0, p.1))
  }

  /** What a command says: the table, the field it filters on, the field it orders by, and its limit. */
  datatype Statement = Statement(table: string, filterField: Option<string>, orderField: Option<string>, limit: nat)

  /** An identifier in double quotes followed by `suffix`, at the start of `s`, after `prefix`. */
  function QuotedClause(prefix: string, suffix: string, s: string): Option<(Option<string>, string)> {
    match AfterPrefix(prefix, s)
    case None => Some((None, s))
    case Some(inner) =>
      match SplitAtQuote(inner)
      case None => None
      case Some(p) =>
        match AfterPrefix(suffix, p.1)
        case None => None
        case Some(rest) => Some((Some(p.0), rest))
  }

  function ParseLimit(s: string): Option<nat> {
    match AfterPrefix(" LIMIT ", s)
    case None => None
    case Some(ds) => if ds != [] && AllDigits(ds) then Some(DigitsValue(ds)) else None
  }

  /** Reads a command of the shape `DumpTable` builds. */
  function ParseCommand(text: string): Option<Statement> {
    match AfterPrefix("SELECT * FROM \"", text)
    case None => None
    case Some(afterSelect) =>
      match SplitAtQuote(afterSelect)
      case None => None
      case Some(t) =>
        match QuotedClause(" WHERE \"", " < ?", t.1)
        case None => None
        case Some(w) =>
          match QuotedClause(" ORDER BY \"", " DESC", w.1)
          case None => None
          case Some(o) =>
            match ParseLimit(o.1)
            case None => None
            case Some(n) => Some(Statement(t.0, w.0, o.0, n))
  }

  lemma AfterPrefixConcat(prefix: string, s: string)
    ensures AfterPrefix(prefix, prefix + s) == Some(s)
  {
    assert (prefix + s)[..|prefix|] == prefix;
    assert (prefix + s)[|prefix|..] == s;
  }

  lemma AfterPrefixMismatch(prefix: string, s: string, i: nat)
    requires i < |prefix| && i < |s| && prefix[i] != s[i]
    ensures AfterPrefix(prefix, s) == None
  {
    assert |prefix| <= |s| ==> s[..|prefix|][i] == s[i];
  }

  lemma {:induction false} SplitAtQuoteConcat(id: string, s: string)
    requires QuoteFree(id)
    ensures SplitAtQuote(id + ("\"" + s)) == Some((id, s))
  {
    if id == [] {
      assert id + ("\"" + s) == "\"" + s;
      assert ("\"" + s)[1..] == s;
    } else {
      var whole := id + ("\"" + s);
      assert whole[0] == id[0] && whole[1..] == id[1..] + ("\"" + s);
      SplitAtQuoteConcat(id[1..], s);
      assert [id[0]] + id[1..] == id;
    }
  }

  /** A clause `prefix "id" suffix` in front of `rest` reads back as `id` and `rest`. */
  lemma QuotedClauseConcat(prefix: string, suffix: string, id: string, rest: string)
    requires |prefix| > 0 && prefix[|prefix| - 1] == '"' && QuoteFree(id)
    ensures QuotedClause(prefix, suffix, (prefix + id + "\"" + suffix) + rest) == Some((Some(id), rest))
  {
    var whole := (prefix + id + "\"" + suffix) + rest;
    assert whole == prefix + (id + ("\"" + (suffix + rest)));
    AfterPrefixConcat(prefix, id + ("\"" + (suffix + rest)));
    SplitAtQuoteConcat(id, suffix + rest);
    AfterPrefixConcat(suffix, rest);
  }

  lemma LimitClauseReads(n: nat)
    ensures ParseLimit(LimitClause(n)) == Some(n)
    ensures |LimitClause(n)| > 1 && LimitClause(n)[1] == 'L'
  {
    AfterPrefixConcat(" LIMIT ", Decimal(n));
    DecimalValue(n);
  }

  /**
   * For quote-free identifiers the command text determines the query's
   * table, the field it filters on (present exactly when an offset is
   * bound), the field it orders by, and the limit.
   */
  lemma CommandTextReads(q: Query)
    requires QuoteFree(q.table) && QuoteFree(q.pagingField)
    requires q.limit >= 0
    requires q.offset.Some? ==> q.pagingField != ""
    ensures ParseCommand(CommandText(q)) == Some(Statement(
      q.table,
      if q.offset.Some? then Some(q.pagingField) else None,
      if q.pagingField != "" then Some(q.pagingField) else None,
      q.limit))
  {
    var lim := LimitClause(q.limit);
    var order := OrderClause(q);
    var where := WhereClause(q);
    var head := "SELECT * FROM \"";
    var rest := where + (order + lim);
    assert SelectClause(q.table) == head + (q.table + "\"");
    Regroup(head, q.table, where, order, lim);
    AfterPrefixConcat(head, q.table + ("\"" + rest));
    SplitAtQuoteConcat(q.table, rest);
    WhereClauseReads(q, order + lim);
    OrderClauseReads(q, lim);
    LimitClauseReads(q.limit);
  }

  lemma Regroup(head: string, table: string, where: string, order: string, lim: string)
    ensures head + (table + "\"") + where + order + lim == head + (table + ("\"" + (where + (order + lim))))
  {
  }

  lemma WhereClauseReads(q: Query, rest: string)
    requires QuoteFree(q.pagingField)
    requires |rest| > 1 && rest[1] != 'W'
    ensures QuotedClause(" WHERE \"", " < ?", WhereClause(q) + rest) ==
      Some((if q.offset.Some? then Some(q.pagingField) else None, rest))
  {
    if q.offset.Some? {
      assert WhereClause(q) == " WHERE \"" + q.pagingField + "\"" + " < ?";
      QuotedClauseConcat(" WHERE \"", " < ?", q.pagingField, rest);
    } else {
      assert WhereClause(q) + rest == rest;
      AfterPrefixMismatch(" WHERE \"", rest, 1);
    }
  }

  lemma OrderClauseReads(q: Query, lim: string)
    requires QuoteFree(q.pagingField)
    requires |lim| > 1 && lim[1] == 'L'
    ensures |OrderClause(q) + lim| > 1 && (OrderClause(q) + lim)[1] != 'W'
    ensures QuotedClause(" ORDER BY \"", " DESC", OrderClause(q) + lim) ==
      Some((if q.pagingField != "" then Some(q.pagingField) else None, lim))
  {
    if q.pagingField != "" {
      assert OrderClause(q) == " ORDER BY \"" + q.pagingField + "\"" + " DESC";
      QuotedClauseConcat(" ORDER BY \"", " DESC", q.pagingField, lim);
      assert (OrderClause(q) + lim)[1] == 'O';
    } else {
      assert OrderClause(q) + lim == lim;
      AfterPrefixMismatch(" ORDER BY \"", lim, 1);
    }
  }

  /**
   * The filter in the text reads back exactly when `DumpTable` filters, and
   * the order clause exactly when a paging field is named.
   */
  lemma DumpCommandReads(table: string, pagingField: string, offset: Option<string>, pageSize: Option<string>)
    requires QuoteFree(table) && QuoteFree(pagingField)
    ensures var parsed := ParseCommand(CommandText(PlanDump(table, pagingField, offset, pageSize)));
      parsed.Some? &&
      parsed.value.table == table &&
      (parsed.value.filterField.Some? <==> TryParseLong(offset).Some? && pagingField != "") &&
      (parsed.value.orderField.Some? <==> pagingField != "") &&
      parsed.value.limit == DumpPageSize(pageSize)
  {
    FiltersSpec(pagingField, offset);
    CommandTextReads(PlanDump(table, pagingField, offset, pageSize));
  }

  // ---------------------------------------------------------------------------
  // DumpTable: the rows

  /** What the database returns for a command: column names, and rows of values in column order. */
  datatype Reader = Reader(names: seq<string>, rows: seq<seq<Value>>) {
    predicate Valid() {
      forall r :: 0 <= r < |rows| ==> |rows[r]| == |names|
    }
  }

  type ValidReader = rd: Reader | rd.Valid() witness Reader([], [])

  /** The `IDbCommand` `DumpTable` fills in: its text and parameters; executing it is the database's business. */
  class Command {
    var commandText: string
    var parameters: seq<Value>
    const execute: (string, seq<Value>) -> ValidReader

    constructor (execute: (string, seq<Value>) -> ValidReader)
      ensures commandText == "" && parameters == [] && this.execute == execute
    {
      commandText := "";
      parameters := [];
      this.execute := execute;
    }

    method ExecuteReader() returns (rd: ValidReader)
      ensures rd == execute(commandText, parameters)
    {
      rd := execute(commandText, parameters);
    }
  }

  /** The dictionary built from one row: `dict[names[i]] = row[i]` for i from first to last. */
  function RowDict(names: seq<string>, row: seq<Value>): map<string, Value>
    requires |row| == |names|
  {
    if names == [] then map[]
    else RowDict(names[..|names| - 1], row[..|row| - 1])[names[|names| - 1] := row[|row| - 1]]
  }

  /** Position `i` is the last one that carries its name. */
  predicate IsLastOccurrence(names: seq<string>, i: int)
    requires 0 <= i < |names|
  {
    forall j :: i < j < |names| ==> names[j] != names[i]
  }

  lemma {:induction false} RowDictKeys(names: seq<string>, row: seq<Value>)
    requires |row| == |names|
    ensures RowDict(names, row).Keys == set n | n in names
  {
    if names != [] {
      var k := |names| - 1;
      RowDictKeys(names[..k], row[..k]);
      assert names == names[..k] + [names[k]];
      assert (set n | n in names) == (set n | n in names[..k]) + {names[k]};
    }
  }

  lemma {:induction false} RowDictLast(names: seq<string>, row: seq<Value>, i: nat)
    requires |row| == |names| && i < |names| && IsLastOccurrence(names, i)
    ensures names[i] in RowDict(names, row) && RowDict(names, row)[names[i]] == row[i]
  {
    var k := |names| - 1;
    if i < k {
      var init := names[..k];
      assert names[k] != names[i];
      assert init[i] == names[i];
      assert IsLastOccurrence(init, i) by {
        forall j | i < j < |init| ensures init[j] != init[i] {
          assert init[j] == names[j];
        }
      }
      RowDictLast(init, row[..k], i);
      assert row[..k][i] == row[i];
    }
  }

  /**
   * A row's dictionary has exactly the column names as keys, and maps each
   * name to the value of the last column with that name.
   */
  lemma RowDictSpec(names: seq<string>, row: seq<Value>)
    requires |row| == |names|
    ensures RowDict(names, row).Keys == set n | n in names
    ensures forall i :: 0 <= i < |names| && IsLastOccurrence(names, i) ==> RowDict(names, row)[names[i]] == row[i]
  {
    RowDictKeys(names, row);
    forall i | 0 <= i < |names| && IsLastOccurrence(names, i)
      ensures RowDict(names, row)[names[i]] == row[i]
    {
      RowDictLast(names, row, i);
    }
  }

  /** With distinct column names, every column's value is in the row's dictionary under its name. */
  lemma RowDictDistinct(names: seq<string>, row: seq<Value>)
    requires |row| == |names|
    requires forall i, j :: 0 <= i < j < |names| ==> names[i] != names[j]
    ensures forall i :: 0 <= i < |names| ==> names[i] in RowDict(names, row) && RowDict(names, row)[names[i]] == row[i]
  {
    RowDictSpec(names, row);
    forall i | 0 <= i < |names|
      ensures names[i] in RowDict(names, row) && RowDict(names, row)[names[i]] == row[i]
    {
      assert IsLastOccurrence(names, i);
    }
  }

  /** The reading half of `DumpTable`: column names first, then one dictionary per row, in reader order. */
  method ReadRows(rd: ValidReader) returns (result: seq<map<string, Value>>)
    ensures |result| == |rd.rows|
    ensures forall r :: 0 <= r < |result| ==> result[r] == RowDict(rd.names, rd.rows[r])
  {
    var names: seq<string> := [];
    var i := 0;
    while i < |rd.names|
      invariant 0 <= i <= |rd.names|
      invariant names == rd.names[..i]
    {
      names := names + [rd.names[i]];
      i := i + 1;
    }
    assert names == rd.names;
    result := [];
    var r := 0;
    while r < |rd.rows|
      invariant 0 <= r <= |rd.rows|
      invariant |result| == r
      invariant forall k :: 0 <= k < r ==> result[k] == RowDict(names, rd.rows[k])
    {
      var row := rd.rows[r];
      var dict: map<string, Value> := map[];
      var j := 0;
      while j < |names|
        invariant 0 <= j <= |names|
        invariant dict == RowDict(names[..j], row[..j])
      {
        assert names[..j + 1][..j] == names[..j] && row[..j + 1][..j] == row[..j];
        dict := dict[names[j] := row[j]];
        j := j + 1;
      }
      assert names[..j] == names && row[..j] == row;
      result := result + [dict];
      r := r + 1;
    }
  }

  /**
   * `DumpTable`: builds the command for one page of `table`, newest first by
   * `pagingField`, older than `offset`, and returns the rows the database
   * answers with.
   */
  method DumpTable(cmd: Command, table: string, pagingField: string, offset: Option<string>, pageSize: Option<string>)
    returns (result: seq<map<string, Value>>)
    modifies cmd
    ensures var q := PlanDump(table, pagingField, offset, pageSize);
      cmd.commandText == CommandText(q) &&
      cmd.parameters == old(cmd.parameters) + Parameters(q)
    ensures var rd := cmd.execute(cmd.commandText, cmd.parameters);
      |result| == |rd.rows| &&
      forall r :: 0 <= r < |result| ==> result[r] == RowDict(rd.names, rd.rows[r])
  {
    ghost var q := PlanDump(table, pagingField, offset, pageSize);
    var parsedSize := TryParseLong(pageSize);
    var size := if parsedSize.Some? then parsedSize.value else DefaultPageSize;
    size := Max(DumpMinPageSize, Min(MaxPageSize, size));
    assert size == q.limit;

    cmd.commandText := "SELECT * FROM \"" + table + "\"";
    var parsedOffset := TryParseLong(offset);
    if !IsNullOrWhiteSpace(offset) && parsedOffset.Some? && pagingField != "" {
      cmd.parameters := cmd.parameters + [Integer(parsedOffset.value)];
      cmd.commandText := cmd.commandText + (" WHERE \"" + pagingField + "\" < ?");
    }
    assert cmd.commandText == SelectClause(table) + WhereClause(q);
    assert cmd.parameters == old(cmd.parameters) + Parameters(q);
    if pagingField != "" {
      cmd.commandText := cmd.commandText + (" ORDER BY \"" + pagingField + "\" DESC");
    }
    assert cmd.commandText == SelectClause(table) + WhereClause(q) + OrderClause(q);
    cmd.commandText := cmd.commandText + (" LIMIT " + Decimal(size));
    assert cmd.commandText == CommandText(q);

    var rd := cmd.ExecuteReader();
    result := ReadRows(rd);
  }

  // ---------------------------------------------------------------------------
  // The handler

  /**
   * `GET /log/<key>`: a poll answers with the log handler's entries after the
   * cursor; anything else answers with a page of the stored error log.
   * `afterId` is the log handler, `cmd` the database command of this request.
   */
  method Get(key: Option<string>, query: QueryString, parseLevel: string -> Option<LogLevel>,
             afterId: (int, LogLevel, int) -> seq<LogEntry>, cmd: Command, w: BodyWriter)
    returns (ok: bool)
    requires w.Valid()
    modifies cmd, w, w.resp
    ensures w.Valid() && ok == !old(w.disposed)
    ensures w.resp.status == StatusOK && w.resp.reason == "OK"
    ensures ok ==> w.disposed && w.resp.headersSent
    ensures ok ==>
      w.resp.State() == Answered(old(w.resp.State()), w.resp.body) &&
      w.resp.sends == old(w.resp.sends) + (if old(w.resp.headersSent) then 0 else 1)
    ensures !ok ==>
      w.resp.State() == old(w.resp.State()).(status := StatusOK, reason := "OK") &&
      w.resp.sends == old(w.resp.sends) && w.disposed && w.buffer == old(w.buffer)
    ensures match Route(key, query, parseLevel)
      case Poll(id, level, n) =>
        cmd.commandText == old(cmd.commandText) && cmd.parameters == old(cmd.parameters) &&
        (ok ==> w.resp.body == old(w.resp.body) + old(w.buffer) + Frame(w.jsonp, w.json(Entries(afterId(id, level, n)))))
      case List(table, field, offset, size) =>
        var q := PlanDump(table, field, offset, size);
        var rd := cmd.execute(CommandText(q), old(cmd.parameters) + Parameters(q));
        cmd.commandText == CommandText(q) && cmd.parameters == old(cmd.parameters) + Parameters(q) &&
        exists rows: seq<map<string, Value>> ::
          |rows| == |rd.rows| &&
          (forall r :: 0 <= r < |rows| ==> rows[r] == RowDict(rd.names, rd.rows[r])) &&
          (ok ==> w.resp.body == old(w.resp.body) + old(w.buffer) + Frame(w.jsonp, w.json(Rows(rows))))
  {
    var request := Route(key, query, parseLevel);
    if request.Poll? {
      ok := w.OutputOK(Some(Entries(afterId(request.id, request.level, request.pageSize))));
    } else {
      var res := DumpTable(cmd, request.table, request.pagingField, request.offsetText, request.pageSizeText);
      ghost var rd := cmd.execute(cmd.commandText, cmd.parameters);
      ok := w.OutputOK(Some(Rows(res)));
      assert |res| == |rd.rows| && forall r :: 0 <= r < |res| ==> res[r] == RowDict(rd.names, rd.rows[r]);
    }
  }
}
