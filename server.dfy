/** The request logic of the SQLite telemetry server: the checks on a
    posted sensor reading, the parameters of the per-mine history query,
    the filtered export query and the CSV export body. Running the SQL and
    the HTTP plumbing are not modelled. */
module Server {
  import opened JsString

  /** The JavaScript values a request body, a query string or a database
      row can carry. `Composite` is an array (a query key given twice) or
      an object (a nested JSON value); `text` is what a template literal
      makes of it. */
  datatype JsValue = Undefined | Null | Bool(b: bool) | Num(x: real) | Str(s: string) | Composite(text: string)

  /** JavaScript truthiness (NaN is not modelled). */
  predicate Truthy(v: JsValue) {
    match v
    case Undefined => false
    case Null => false
    case Bool(b) => b
    case Num(x) => x != 0.0
    case Str(s) => s != ""
    case Composite(_) => true
  }

  /** Template-literal conversion; numbers go through `show`. */
  function ToStr(v: JsValue, show: real -> string): string {
    match v
    case Undefined => "undefined"
    case Null => "null"
    case Bool(b) => if b then "true" else "false"
    case Num(x) => show(x)
    case Str(s) => s
    case Composite(text) => text
  }

  /** The answer to `POST /api/sensor-readings` before the insert: a 400
      error, or the four insert parameters. */
  datatype Validation = Rejected(status: int, error: string) | Accepted(params: seq<JsValue>)

  /** A reading needs a truthy `mine_id` and `ph`, `lead`, `pm25` that are
      not undefined (null and 0 pass). */
  function ValidateReading(mineId: JsValue, ph: JsValue, lead: JsValue, pm25: JsValue): (v: Validation)
    ensures v.Rejected? <==> !Truthy(mineId) || ph.Undefined? || lead.Undefined? || pm25.Undefined?
    ensures v.Rejected? ==> v == Rejected(400, "Missing required fields")
    ensures v.Accepted? ==> v.params == [mineId, ph, lead, pm25]
  {
    if !Truthy(mineId) || ph.Undefined? || lead.Undefined? || pm25.Undefined? then
      Rejected(400, "Missing required fields")
    else
      Accepted([mineId, ph, lead, pm25])
  }

  /** Zero readings are stored; mine id 0 is refused as missing. */
  lemma ZeroHandling()
    ensures ValidateReading(Num(1.0), Num(0.0), Num(0.0), Num(0.0)).Accepted?
    ensures ValidateReading(Num(0.0), Num(7.0), Num(10.0), Num(5.0)).Rejected?
    ensures ValidateReading(Num(1.0), Null, Num(10.0), Num(5.0)).Accepted?
  {
  }

  /** An array or object is truthy, so it passes as a mine id and, in the
      export, as a filter whose value goes to the query as it is. */
  lemma CompositePasses(v: JsValue, startDate: JsValue, endDate: JsValue)
    requires v.Composite?
    ensures ValidateReading(v, Num(7.0), Num(10.0), Num(5.0)) == Accepted([v, Num(7.0), Num(10.0), Num(5.0)])
    ensures FilterConditions(v, startDate, endDate)[0] == MineIdFilter
    ensures FilterParams(v, startDate, endDate)[0] == v
  {
  }

  /** The parameters of `GET /api/sensor-readings/:mine_id`: the id, then
      `limit` (default 100) and `offset` (default 0) from the query string,
      where a key that is absent is undefined. */
  function HistoryParams(mineId: string, limit: JsValue, offset: JsValue): (params: seq<JsValue>)
    ensures |params| == 3 && params[0] == Str(mineId)
    ensures params[1] == (if limit.Undefined? then Num(100.0) else limit)
    ensures params[2] == (if offset.Undefined? then Num(0.0) else offset)
  {
    [Str(mineId), if limit.Undefined? then Num(100.0) else limit, if offset.Undefined? then Num(0.0) else offset]
  }

  /** `rows.reverse()`. */
  function Reverse<T>(xs: seq<T>): (r: seq<T>)
    ensures |r| == |xs|
    ensures forall k :: 0 <= k < |xs| ==> r[k] == xs[|xs| - 1 - k]
  {
    seq(|xs|, k requires 0 <= k < |xs| => xs[|xs| - 1 - k])
  }

  /** Rows fetched newest first come back oldest first, and nothing is
      lost, added or duplicated. */
  lemma ReverseChronological<T>(rows: seq<T>, time: T -> int)
    requires forall i, j :: 0 <= i < j < |rows| ==> time(rows[i]) >= time(rows[j])
    ensures forall i, j :: 0 <= i < j < |rows| ==> time(Reverse(rows)[i]) <= time(Reverse(rows)[j])
    ensures multiset(Reverse(rows)) == multiset(rows)
    ensures Reverse(Reverse(rows)) == rows
  {
    ReversePermutes(rows);
  }

  lemma {:induction false} ReversePermutes<T>(xs: seq<T>)
    ensures multiset(Reverse(xs)) == multiset(xs)
    decreases |xs|
  {
    if |xs| > 0 {
      var init := xs[..|xs| - 1];
      ReversePermutes(init);
      assert Reverse(xs) == [xs[|xs| - 1]] + Reverse(init);
      assert xs == init + [xs[|xs| - 1]];
    }
  }

  /** The fixed SQL texts of `GET /api/sensor-readings`. Each is one literal
      in the server; the concatenations below spell the same strings and only
      keep the proofs about their characters small. */
  const SelectReadings: string :=
    "SELECT sr.*, m.name" + " FROM sensor_readings" + " sr LEFT JOIN mines m" + " ON sr.mine_id = m.id"
  const NewestFirst: string := " ORDER BY" + " sr.timestamp DESC"

  const MineIdFilter: string := "sr.mine_id = " + "?"
  const StartFilter: string := "sr.timestamp >= " + "?"
  const EndFilter: string := "sr.timestamp <= " + "?"

  /** The filters of `GET /api/sensor-readings`, in the order mine id,
      start date, end date, each present only when its query value is
      truthy. */
  function FilterConditions(mineId: JsValue, startDate: JsValue, endDate: JsValue): seq<string> {
    (if Truthy(mineId) then [MineIdFilter] else [])
    + (if Truthy(startDate) then [StartFilter] else [])
    + (if Truthy(endDate) then [EndFilter] else [])
  }

  /** The parameters that go with those filters, in the same order. */
  function FilterParams(mineId: JsValue, startDate: JsValue, endDate: JsValue): seq<JsValue> {
    (if Truthy(mineId) then [mineId] else [])
    + (if Truthy(startDate) then [startDate] else [])
    + (if Truthy(endDate) then [endDate] else [])
  }

  /** The WHERE clause: empty without filters, else the filters joined
      with AND. */
  function WhereClause(conditions: seq<string>): string {
    if |conditions| > 0 then " WHERE " + Join(conditions, " AND ") else ""
  }

  /** The query and its parameters, built by pushing onto `conditions` and
      `params` and appending to `query`. */
  method BuildFilterQuery(mineId: JsValue, startDate: JsValue, endDate: JsValue)
    returns (query: string, params: seq<JsValue>)
    ensures query == SelectReadings + WhereClause(FilterConditions(mineId, startDate, endDate)) + NewestFirst
    ensures params == FilterParams(mineId, startDate, endDate)
    ensures Count(query, '?') == |params|
  {
    query := SelectReadings;
    params := [];
    var conditions: seq<string> := [];
    if Truthy(mineId) {
      conditions := conditions + [MineIdFilter];
      params := params + [mineId];
    }
    ghost var conditions1, params1 := conditions, params;
    if Truthy(startDate) {
      conditions := conditions + [StartFilter];
      params := params + [startDate];
    }
    assert conditions == conditions1 + (if Truthy(startDate) then [StartFilter] else []);
    assert params == params1 + (if Truthy(startDate) then [startDate] else []);
    ghost var conditions2, params2 := conditions, params;
    if Truthy(endDate) {
      conditions := conditions + [EndFilter];
      params := params + [endDate];
    }
    assert conditions == conditions2 + (if Truthy(endDate) then [EndFilter] else []);
    assert params == params2 + (if Truthy(endDate) then [endDate] else []);
    assert conditions == FilterConditions(mineId, startDate, endDate);
    assert params == FilterParams(mineId, startDate, endDate);
    if |conditions| > 0 {
      query := query + (" WHERE " + Join(conditions, " AND "));
    }
    query := query + NewestFirst;
    PlaceholdersMatch(mineId, startDate, endDate);
  }

  /** One `?` per parameter, all in the WHERE clause, and a WHERE clause
      exactly when there is a parameter. */
  lemma PlaceholdersMatch(mineId: JsValue, startDate: JsValue, endDate: JsValue)
    ensures var conditions := FilterConditions(mineId, startDate, endDate);
      && |conditions| == |FilterParams(mineId, startDate, endDate)|
      && (WhereClause(conditions) == "" <==> |conditions| == 0)
      && Count(SelectReadings + WhereClause(conditions) + NewestFirst, '?') == |conditions|
  {
    var conditions := FilterConditions(mineId, startDate, endDate);
    FilterPlaceholders(mineId, startDate, endDate);
    WhereCount(conditions);
    FixedTextsHaveNoPlaceholder();
    CountAppend(SelectReadings, WhereClause(conditions), '?');
    CountAppend(SelectReadings + WhereClause(conditions), NewestFirst, '?');
  }

  /** A WHERE clause has the placeholders of its filters. */
  lemma WhereCount(conditions: seq<string>)
    requires forall k :: 0 <= k < |conditions| ==> Count(conditions[k], '?') == 1
    ensures Count(WhereClause(conditions), '?') == |conditions|
  {
    if |conditions| > 0 {
      assert '?' !in " WHERE " && '?' !in " AND ";
      CountNone(" WHERE ");
      CountNone(" AND ");
      CountJoin(conditions, " AND ");
      CountAppend(" WHERE ", Join(conditions, " AND "), '?');
    }
  }

  /** Each filter carries one `?`. */
  lemma FilterPlaceholders(mineId: JsValue, startDate: JsValue, endDate: JsValue)
    ensures forall k :: 0 <= k < |FilterConditions(mineId, startDate, endDate)| ==>
      Count(FilterConditions(mineId, startDate, endDate)[k], '?') == 1
  {
    CountOne("sr.mine_id = ");
    CountOne("sr.timestamp >= ");
    CountOne("sr.timestamp <= ");
  }

  lemma FixedTextsHaveNoPlaceholder()
    ensures Count(SelectReadings, '?') == 0 && Count(NewestFirst, '?') == 0
  {
    assert '?' !in "SELECT sr.*, m.name" && '?' !in " FROM sensor_readings";
    assert '?' !in " sr LEFT JOIN mines m" && '?' !in " ON sr.mine_id = m.id";
    assert '?' !in " ORDER BY" && '?' !in " sr.timestamp DESC";
    CountNone(SelectReadings);
    CountNone(NewestFirst);
  }

  lemma CountNone(s: string)
    requires '?' !in s
    ensures Count(s, '?') == 0
  {
    if |s| > 0 {
      CountNone(s[1..]);
    }
  }

  lemma CountOne(s: string)
    requires '?' !in s
    ensures Count(s + "?", '?') == 1
  {
    CountNone(s);
    CountAppend(s, "?", '?');
  }

  /** The `?` of a join are those of its pieces when the separator has
      none. */
  lemma {:induction false} CountJoin(parts: seq<string>, sep: string)
    requires Count(sep, '?') == 0
    requires forall k :: 0 <= k < |parts| ==> Count(parts[k], '?') == 1
    ensures Count(Join(parts, sep), '?') == |parts|
    decreases |parts|
  {
    if |parts| > 1 {
      CountJoin(parts[1..], sep);
      CountAppend(parts[0], sep, '?');
      CountAppend(parts[0] + sep, Join(parts[1..], sep), '?');
    }
  }

  /** A row of the export query. */
  datatype ExportRow = ExportRow(name: JsValue, mineId: JsValue, ph: JsValue, lead: JsValue, pm25: JsValue, timestamp: JsValue)

  const ExportFields: seq<string> := ["Mine Name", "Mine ID", "pH", "Lead (ppm)", "PM2.5 (µg/m³)", "Timestamp"]
  const ExportHeader: string := Join(ExportFields, ",") + "\n"

  /** One line of the export: the name (or `Unknown` when falsy) and the
      timestamp in double quotes, nothing escaped, and a closing line
      break. */
  function ExportLine(row: ExportRow, show: real -> string): string {
    LineFields(row, show) + "\n"
  }

  function LineFields(row: ExportRow, show: real -> string): string {
    "\"" + (if Truthy(row.name) then ToStr(row.name, show) else "Unknown") + "\","
    + ToStr(row.mineId, show) + "," + ToStr(row.ph, show) + "," + ToStr(row.lead, show) + ","
    + ToStr(row.pm25, show) + ",\"" + ToStr(row.timestamp, show) + "\""
  }

  /** The lines of the first `n` rows, in order. */
  function ExportLines(rows: seq<ExportRow>, n: nat, show: real -> string): (body: string)
    requires n <= |rows|
  {
    if n == 0 then "" else ExportLines(rows, n - 1, show) + ExportLine(rows[n - 1], show)
  }

  lemma AppendAssociative<T>(a: seq<T>, b: seq<T>, c: seq<T>)
    ensures (a + b) + c == a + (b + c)
  {
  }

  /** No field of the row, as written, holds a line break. */
  predicate LineFree(row: ExportRow, show: real -> string) {
    && '\n' !in (if Truthy(row.name) then ToStr(row.name, show) else "Unknown")
    && '\n' !in ToStr(row.mineId, show) && '\n' !in ToStr(row.ph, show)
    && '\n' !in ToStr(row.lead, show) && '\n' !in ToStr(row.pm25, show)
    && '\n' !in ToStr(row.timestamp, show)
  }

  /** `GET /api/export/csv`: the header, then each row's line appended
      with `+=`. */
  method ExportCsv(rows: seq<ExportRow>, show: real -> string) returns (csv: string)
    ensures csv == ExportHeader + ExportLines(rows, |rows|, show)
  {
    csv := ExportHeader;
    var i := 0;
    while i < |rows|
      invariant 0 <= i <= |rows|
      invariant csv == ExportHeader + ExportLines(rows, i, show)
    {
      ExportLinesStep(rows, i, show);
      csv := csv + ExportLine(rows[i], show);
      i := i + 1;
    }
  }

  /** Appending one row's line extends the body by that row. */
  lemma ExportLinesStep(rows: seq<ExportRow>, i: nat, show: real -> string)
    requires i < |rows|
    ensures ExportHeader + ExportLines(rows, i + 1, show)
      == (ExportHeader + ExportLines(rows, i, show)) + ExportLine(rows[i], show)
  {
    var line := ExportLine(rows[i], show);
    assert ExportLines(rows, i + 1, show) == ExportLines(rows, i, show) + line;
    AppendAssociative(ExportHeader, ExportLines(rows, i, show), line);
  }

  /** When no field holds a line break, the body has exactly one line per
      row after the header: the header's break plus one per row. */
  lemma ExportLineCount(rows: seq<ExportRow>, n: nat, show: real -> string)
    requires n <= |rows|
    requires forall k :: 0 <= k < |rows| ==> LineFree(rows[k], show)
    ensures Count(ExportHeader + ExportLines(rows, n, show), '\n') == n + 1
  {
    forall k | 0 <= k < |rows| ensures Count(ExportLine(rows[k], show), '\n') == 1 {
      CountLine(rows[k], show);
    }
    BodyLineCount(rows, n, show);
    CountHeader();
    CountAppend(ExportHeader, ExportLines(rows, n, show), '\n');
  }

  /** Each row contributes exactly its closing line break. */
  lemma {:induction false} BodyLineCount(rows: seq<ExportRow>, n: nat, show: real -> string)
    requires n <= |rows|
    requires forall k :: 0 <= k < |rows| ==> Count(ExportLine(rows[k], show), '\n') == 1
    ensures Count(ExportLines(rows, n, show), '\n') == n
  {
    if n == 0 {
      assert ExportLines(rows, n, show) == "";
    } else {
      var before, line := ExportLines(rows, n - 1, show), ExportLine(rows[n - 1], show);
      BodyLineCount(rows, n - 1, show);
      assert ExportLines(rows, n, show) == before + line;
      CountStep(before, line, n - 1);
    }
  }

  lemma CountStep(before: string, line: string, m: nat)
    requires Count(before, '\n') == m && Count(line, '\n') == 1
    ensures Count(before + line, '\n') == m + 1
  {
    CountAppend(before, line, '\n');
  }

  lemma CountHeader()
    ensures Count(ExportHeader, '\n') == 1
  {
    var line := Join(ExportFields, ",");
    JoinFree(ExportFields, ',', '\n');
    CountNoBreak(line);
    CountAppend(line, "\n", '\n');
  }

  lemma CountLine(row: ExportRow, show: real -> string)
    requires LineFree(row, show)
    ensures Count(ExportLine(row, show), '\n') == 1
  {
    CountNoBreak(LineFields(row, show));
    CountAppend(LineFields(row, show), "\n", '\n');
  }

  lemma CountNoBreak(s: string)
    requires '\n' !in s
    ensures Count(s, '\n') == 0
  {
    if |s| > 0 {
      CountNoBreak(s[1..]);
    }
  }
}
