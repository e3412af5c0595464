/**
 * The earlier fetch script index_improved.js: for every configured URL it
 * queries the GA4 report by page path alone, sums views, sessions and active
 * users over the rows, checks the totals and writes one CSV row per URL
 * under the same timestamped name as index_final.js, with its own column
 * titles.
 *
 * The GA4 client is a parameter (`query`, the outcome of the main report
 * and, after an empty one, of the backup query); the floating-point mean bounce
 * rate only enters through its comparison with 100 (`bounceAbove100`), and
 * it is 0 when there are no sessions.
 */
module FetchImproved {
  import opened Wrappers
  import opened JsStrings
  import opened Seqs
  import opened GaQuery
  import opened Timestamps
  import Consolidator

  // ----- report rows -----

  /** One row of the report: the five metric cells, in query order. */
  datatype GaRow = GaRow(views: string, sessions: string, duration: string, bounce: string, users: string)

  /** `parseInt(cell) || 0` of the integer metrics of a row. */
  function RowViews(r: GaRow): int { ParseIntOrZero(r.views) }
  function RowSessions(r: GaRow): int { ParseIntOrZero(r.sessions) }
  function RowUsers(r: GaRow): int { ParseIntOrZero(r.users) }

  /** `totalViews`, `totalSessions`, `totalActiveUsers`. */
  datatype Totals = Totals(views: int, sessions: int, activeUsers: int)

  const NoTotals := Totals(0, 0, 0)

  /** The integer totals: each metric summed over the rows. */
  function TotalsOf(rows: seq<GaRow>): Totals
  {
    Totals(SumOf(rows, RowViews), SumOf(rows, RowSessions), SumOf(rows, RowUsers))
  }

  /** The `forEach` of `getGA4DataForUrl` over the rows of a non-empty report. */
  method AccumulateRows(rows: seq<GaRow>) returns (totals: Totals)
    ensures totals == TotalsOf(rows)
  {
    var totalViews, totalSessions, totalActiveUsers := 0, 0, 0;
    for i := 0 to |rows|
      invariant totalViews == SumOf(rows[..i], RowViews)
      invariant totalSessions == SumOf(rows[..i], RowSessions)
      invariant totalActiveUsers == SumOf(rows[..i], RowUsers)
    {
      var row := rows[i];
      var views := ParseIntOrZero(row.views);
      var sessions := ParseIntOrZero(row.sessions);
      var users := ParseIntOrZero(row.users);
      assert rows[..i + 1][..i] == rows[..i];
      totalViews := totalViews + views;
      totalSessions := totalSessions + sessions;
      totalActiveUsers := totalActiveUsers + users;
    }
    assert rows[..|rows|] == rows;
    totals := Totals(totalViews, totalSessions, totalActiveUsers);
  }

  /** The totals of a report split in two are the sums of the totals of the parts. */
  lemma TotalsConcat(a: seq<GaRow>, b: seq<GaRow>)
    ensures TotalsOf(a + b).views == TotalsOf(a).views + TotalsOf(b).views
    ensures TotalsOf(a + b).sessions == TotalsOf(a).sessions + TotalsOf(b).sessions
    ensures TotalsOf(a + b).activeUsers == TotalsOf(a).activeUsers + TotalsOf(b).activeUsers
  {
    SumConcat(a, b, RowViews);
    SumConcat(a, b, RowSessions);
    SumConcat(a, b, RowUsers);
  }

  /** The totals do not depend on the order the report returns its rows in. */
  lemma TotalsPermutation(a: seq<GaRow>, b: seq<GaRow>)
    requires multiset(a) == multiset(b)
    ensures TotalsOf(a) == TotalsOf(b)
  {
    SumPerm(a, b, RowViews);
    SumPerm(a, b, RowSessions);
    SumPerm(a, b, RowUsers);
  }

  // ----- validation -----

  /** The messages of the checks and of a failed query. */
  datatype Message =
    | ViewsWithoutSessions
    | MoreSessionsThanViews
    | BounceAbove100
    | QueryError(message: string)

  /** The text of a message, as it is logged and written into the CSV. */
  function MessageText(m: Message): string
  {
    match m
    case ViewsWithoutSessions => "\U{26A0}\U{FE0F} Hay vistas pero no sesiones - posible inconsistencia"
    case MoreSessionsThanViews => "\U{26A0}\U{FE0F} M\U{00E1}s sesiones que vistas - revisar configuraci\U{00F3}n"
    case BounceAbove100 => "\U{26A0}\U{FE0F} Tasa de rebote > 100% - posible error de c\U{00E1}lculo"
    case QueryError(message) => ErrorWarning(message)
  }

  function Texts(ms: seq<Message>): (r: seq<string>)
    ensures |r| == |ms| && forall i :: 0 <= i < |ms| ==> r[i] == MessageText(ms[i])
  {
    seq(|ms|, i requires 0 <= i < |ms| => MessageText(ms[i]))
  }

  /** The warnings `validateDataConsistency` collects, in the order it tests for them. */
  function WarningsOf(t: Totals, bounceAbove100: bool): seq<Message>
  {
    (if t.views > 0 && t.sessions == 0 then [ViewsWithoutSessions] else [])
      + (if t.sessions > t.views then [MoreSessionsThanViews] else [])
      + (if bounceAbove100 then [BounceAbove100] else [])
  }

  /** `validateDataConsistency(url, data)`, without its console output. */
  method ValidateDataConsistency(t: Totals, bounceAbove100: bool) returns (warnings: seq<Message>)
    ensures warnings == WarningsOf(t, bounceAbove100)
  {
    warnings := [];
    if t.views > 0 && t.sessions == 0 {
      warnings := warnings + [ViewsWithoutSessions];
    }
    if t.sessions > t.views {
      warnings := warnings + [MoreSessionsThanViews];
    }
    if bounceAbove100 {
      warnings := warnings + [BounceAbove100];
    }
  }

  /**
   * Each warning is raised exactly under its condition; "more sessions than
   * views" is a warning here, with no lower bound on the views, and it never
   * comes together with "views but no sessions".
   */
  lemma WarningRules(t: Totals, bounceAbove100: bool)
    ensures var w := WarningsOf(t, bounceAbove100);
      && (ViewsWithoutSessions in w <==> t.views > 0 && t.sessions == 0)
      && (MoreSessionsThanViews in w <==> t.sessions > t.views)
      && (BounceAbove100 in w <==> bounceAbove100)
      && !(ViewsWithoutSessions in w && MoreSessionsThanViews in w)
      && |w| <= 2
      && (forall i :: 0 <= i < |w| ==> !w[i].QueryError?)
  {
    var w1: seq<Message> := if t.views > 0 && t.sessions == 0 then [ViewsWithoutSessions] else [];
    var w2: seq<Message> := if t.sessions > t.views then [MoreSessionsThanViews] else [];
    var w3: seq<Message> := if bounceAbove100 then [BounceAbove100] else [];
    assert WarningsOf(t, bounceAbove100) == w1 + w2 + w3;
  }

  // ----- one URL -----

  /** The object `getGA4DataForUrl` returns, without its floating-point fields. */
  datatype UrlData = UrlData(
    url: string,
    queryDate: string,
    totals: Totals,
    dataFound: bool,
    warnings: seq<Message>,
    error: Option<string>)

  /**
   * `getGA4DataForUrl(url)`, with `queryDate` the day `getDateRange` picks,
   * `outcome` the outcome of its GA4 calls (`WithBackup`) and `bounceAbove100` the comparison with 100 of the mean bounce rate
   * weighted by sessions; with no sessions the mean is 0.
   */
  function DataForUrl(url: string, queryDate: string, outcome: QueryOutcome<GaRow>,
                      bounceAbove100: seq<GaRow> -> bool): UrlData
  {
    match outcome
    case QueryFailed(message) => UrlData(url, queryDate, NoTotals, false, [QueryError(message)], Some(message))
    case QueryRows(rows) =>
      if rows == [] then UrlData(url, queryDate, NoTotals, false, [], None)
      else
        var t := TotalsOf(rows);
        UrlData(url, queryDate, t, true, WarningsOf(t, t.sessions > 0 && bounceAbove100(rows)), None)
  }

  /**
   * The three records: a failed query gives the error as the only warning,
   * an empty report gives zeros and no warnings, and only a report with rows
   * counts as data found, with its totals and checks.
   */
  lemma DataForUrlCases(url: string, queryDate: string, outcome: QueryOutcome<GaRow>,
                        bounceAbove100: seq<GaRow> -> bool)
    ensures var r := DataForUrl(url, queryDate, outcome, bounceAbove100);
      && r.url == url && r.queryDate == queryDate
      && (r.dataFound <==> outcome.QueryRows? && outcome.rows != [])
      && (!r.dataFound ==> r.totals == NoTotals)
      && (outcome.QueryFailed? ==> r.warnings == [QueryError(outcome.message)] && r.error == Some(outcome.message))
      && (outcome == QueryRows([]) ==> r.warnings == [] && r.error.None?)
      && (r.dataFound ==>
            && r.error.None?
            && r.totals == TotalsOf(outcome.rows)
            && r.warnings == WarningsOf(r.totals, r.totals.sessions > 0 && bounceAbove100(outcome.rows))
            && (BounceAbove100 in r.warnings ==> r.totals.sessions > 0)
            && !(ViewsWithoutSessions in r.warnings && BounceAbove100 in r.warnings))
  {
    if outcome.QueryRows? && outcome.rows != [] {
      var t := TotalsOf(outcome.rows);
      WarningRules(t, t.sessions > 0 && bounceAbove100(outcome.rows));
    }
  }

  /**
   * An empty main report gives the no-data record only when the backup
   * query answers; when it throws, the catch gives the error record.
   */
  lemma EmptyReportBackup(url: string, queryDate: string, backup: BackupOutcome,
                          bounceAbove100: seq<GaRow> -> bool)
    ensures var r := DataForUrl(url, queryDate, WithBackup(QueryRows([]), backup), bounceAbove100);
      && !r.dataFound && r.totals == NoTotals
      && (backup.BackupFailed? ==> r.warnings == [QueryError(backup.message)] && r.error == Some(backup.message))
      && (backup.BackupAnswered? ==> r.warnings == [] && r.error.None?)
  {
    DataForUrlCases(url, queryDate, WithBackup(QueryRows([]), backup), bounceAbove100);
  }

  method GetDataForUrl(url: string, queryDate: string, outcome: QueryOutcome<GaRow>,
                       bounceAbove100: seq<GaRow> -> bool) returns (data: UrlData)
    ensures data == DataForUrl(url, queryDate, outcome, bounceAbove100)
  {
    match outcome
    case QueryFailed(message) =>
      data := UrlData(url, queryDate, NoTotals, false, [QueryError(message)], Some(message));
    case QueryRows(rows) =>
      if |rows| == 0 {
        data := UrlData(url, queryDate, NoTotals, false, [], None);
      } else {
        var totals := AccumulateRows(rows);
        var warnings := ValidateDataConsistency(totals, totals.sessions > 0 && bounceAbove100(rows));
        data := UrlData(url, queryDate, totals, true, warnings, None);
      }
  }

  // ----- the run -----

  /** The `summary` object of `main`. */
  datatype RunSummary = RunSummary(totalUrls: nat, successful: int, withWarnings: int, errors: int)

  function FoundOne(d: UrlData): int { if d.dataFound then 1 else 0 }
  function ErrorOne(d: UrlData): int { if d.dataFound then 0 else 1 }
  function WarnedOne(d: UrlData): int { if |d.warnings| > 0 then 1 else 0 }

  /** The counters after the records `ds`, with `totalUrls` set up front. */
  function SummaryOf(totalUrls: nat, ds: seq<UrlData>): RunSummary
  {
    RunSummary(totalUrls, SumOf(ds, FoundOne), SumOf(ds, WarnedOne), SumOf(ds, ErrorOne))
  }

  /** Each URL is either successful or an error; at most every URL has warnings. */
  lemma {:induction false} SummaryCounts(ds: seq<UrlData>)
    ensures var s := SummaryOf(|ds|, ds);
      && s.successful + s.errors == s.totalUrls
      && 0 <= s.successful && 0 <= s.errors
      && 0 <= s.withWarnings <= s.totalUrls
      && (s.errors == 0 <==> forall k :: 0 <= k < |ds| ==> ds[k].dataFound)
      && (s.withWarnings == 0 <==> forall k :: 0 <= k < |ds| ==> ds[k].warnings == [])
  {
    if ds != [] {
      var init := ds[..|ds| - 1];
      SummaryCounts(init);
      assert forall k :: 0 <= k < |init| ==> init[k] == ds[k];
    }
  }

  /** One more record moves each counter by its share. */
  lemma SummarySnoc(totalUrls: nat, ds: seq<UrlData>, d: UrlData)
    ensures var s := SummaryOf(totalUrls, ds);
      SummaryOf(totalUrls, ds + [d])
        == RunSummary(totalUrls, s.successful + FoundOne(d), s.withWarnings + WarnedOne(d), s.errors + ErrorOne(d))
  {
    assert (ds + [d])[..|ds|] == ds;
  }

  /** The records of the URLs, in order. */
  function Results(urls: seq<string>, queryDate: string, query: string -> QueryOutcome<GaRow>,
                   bounceAbove100: seq<GaRow> -> bool): seq<UrlData>
  {
    if urls == [] then []
    else
      var init, last := urls[..|urls| - 1], urls[|urls| - 1];
      Results(init, queryDate, query, bounceAbove100) + [DataForUrl(last, queryDate, query(last), bounceAbove100)]
  }

  /** `dataForCsv`: the record with its warnings joined into one cell. */
  datatype CsvRecord = CsvRecord(data: UrlData, warnings: string)

  function ForCsv(d: UrlData): CsvRecord
  {
    CsvRecord(d, JoinList(Texts(d.warnings)))
  }

  /** `allData`: the CSV records of the records, in order. */
  function CsvRecords(ds: seq<UrlData>): (r: seq<CsvRecord>)
    ensures |r| == |ds| && forall k :: 0 <= k < |ds| ==> r[k] == ForCsv(ds[k])
  {
    seq(|ds|, k requires 0 <= k < |ds| => ForCsv(ds[k]))
  }

  /** The counter updates of `main` for one record. */
  method CountRecord(s: RunSummary, data: UrlData) returns (r: RunSummary)
    ensures r == RunSummary(s.totalUrls, s.successful + FoundOne(data), s.withWarnings + WarnedOne(data),
      s.errors + ErrorOne(data))
  {
    r := s;
    if data.dataFound {
      r := r.(successful := r.successful + 1);
    } else {
      r := r.(errors := r.errors + 1);
    }
    if |data.warnings| > 0 {
      r := r.(withWarnings := r.withWarnings + 1);
    }
  }

  /**
   * `main()`: the report path, the summary counters and the rows handed to
   * `csvWriter.writeRecords`. `clock` is the local time of `new Date()`.
   */
  method RunReport(urls: seq<string>, queryDate: string, clock: LocalTime, query: string -> QueryOutcome<GaRow>,
              bounceAbove100: seq<GaRow> -> bool)
    returns (outputPath: string, summary: RunSummary, allData: seq<CsvRecord>)
    ensures outputPath == CsvFilename(clock)
    ensures summary == SummaryOf(|urls|, Results(urls, queryDate, query, bounceAbove100))
    ensures |allData| == |urls|
    ensures forall k :: 0 <= k < |urls| ==>
      allData[k] == ForCsv(DataForUrl(urls[k], queryDate, query(urls[k]), bounceAbove100))
  {
    outputPath := CsvFilename(clock);
    allData := [];
    summary := RunSummary(|urls|, 0, 0, 0);
    for i := 0 to |urls|
      invariant summary == SummaryOf(|urls|, Results(urls[..i], queryDate, query, bounceAbove100))
      invariant allData == CsvRecords(Results(urls[..i], queryDate, query, bounceAbove100))
    {
      var data := GetDataForUrl(urls[i], queryDate, query(urls[i]), bounceAbove100);
      ghost var before := Results(urls[..i], queryDate, query, bounceAbove100);
      ResultsStep(urls, i, queryDate, query, bounceAbove100);
      SummarySnoc(|urls|, before, data);
      CsvRecordsSnoc(before, data);
      summary := CountRecord(summary, data);
      allData := allData + [ForCsv(data)];
    }
    assert urls[..|urls|] == urls;
    ResultsAt(urls, queryDate, query, bounceAbove100);
  }

  /** One more URL appends its record. */
  lemma ResultsStep(urls: seq<string>, i: nat, queryDate: string, query: string -> QueryOutcome<GaRow>,
                    bounceAbove100: seq<GaRow> -> bool)
    requires i < |urls|
    ensures Results(urls[..i + 1], queryDate, query, bounceAbove100)
      == Results(urls[..i], queryDate, query, bounceAbove100) + [DataForUrl(urls[i], queryDate, query(urls[i]), bounceAbove100)]
  {
    assert urls[..i + 1][..i] == urls[..i];
  }

  lemma CsvRecordsSnoc(ds: seq<UrlData>, d: UrlData)
    ensures CsvRecords(ds + [d]) == CsvRecords(ds) + [ForCsv(d)]
  {
  }

  /** The records are one per URL, each the outcome of that URL's query. */
  lemma {:induction false} ResultsAt(urls: seq<string>, queryDate: string, query: string -> QueryOutcome<GaRow>,
                                     bounceAbove100: seq<GaRow> -> bool)
    ensures |Results(urls, queryDate, query, bounceAbove100)| == |urls|
    ensures forall k :: 0 <= k < |urls| ==>
      Results(urls, queryDate, query, bounceAbove100)[k] == DataForUrl(urls[k], queryDate, query(urls[k]), bounceAbove100)
  {
    if urls != [] {
      var init := urls[..|urls| - 1];
      ResultsAt(init, queryDate, query, bounceAbove100);
    }
  }

  /** The run ends without errors exactly when every query returned rows. */
  lemma NoErrorsIff(urls: seq<string>, queryDate: string, query: string -> QueryOutcome<GaRow>,
                    bounceAbove100: seq<GaRow> -> bool)
    ensures var s := SummaryOf(|urls|, Results(urls, queryDate, query, bounceAbove100));
      && s.successful + s.errors == |urls|
      && (s.errors == 0 <==> forall k :: 0 <= k < |urls| ==> query(urls[k]).QueryRows? && query(urls[k]).rows != [])
  {
    var ds := Results(urls, queryDate, query, bounceAbove100);
    ResultsAt(urls, queryDate, query, bounceAbove100);
    SummaryCounts(ds);
    forall k | 0 <= k < |urls|
      ensures ds[k].dataFound <==> query(urls[k]).QueryRows? && query(urls[k]).rows != []
    {
      DataForUrlCases(urls[k], queryDate, query(urls[k]), bounceAbove100);
    }
  }

  // ----- the CSV file -----

  const TitleUrl := "URL"
  const TitleQueryDate := "Fecha de consulta"
  const TitleViews := "Vistas de p\U{00E1}gina"
  const TitleSessions := "Sesiones"
  const TitleActiveUsers := "Usuarios activos"
  const TitleDuration := "Duraci\U{00F3}n promedio (s)"
  const TitleBounce := "Tasa de rebote (%)"
  const TitleFound := "Datos encontrados"
  const TitleWarnings := "Advertencias"

  /** The column titles of the CSV writer, in order. */
  const Header: seq<string> := [TitleUrl, TitleQueryDate, TitleViews, TitleSessions, TitleActiveUsers,
    TitleDuration, TitleBounce, TitleFound, TitleWarnings]

  function BoolText(b: bool): string
  {
    if b then "true" else "false"
  }

  /**
   * The row the CSV writer writes for a record, split into its cells: the
   * URL cell, and the other cells by column title. The two floating-point
   * columns are not modelled and have no cell here.
   */
  function CsvRowOf(rec: CsvRecord): (row: Consolidator.CsvRow)
    ensures row.url == rec.data.url
    ensures forall title :: title in row.cells ==> title in Header
  {
    var d := rec.data;
    Consolidator.CsvRow(d.url, map[
      TitleQueryDate := d.queryDate,
      TitleViews := IntToString(d.totals.views),
      TitleSessions := IntToString(d.totals.sessions),
      TitleActiveUsers := IntToString(d.totals.activeUsers),
      TitleFound := BoolText(d.dataFound),
      TitleWarnings := rec.warnings])
  }
}
