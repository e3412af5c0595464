/**
 * The fetch script index_final.js: for every configured URL it queries the
 * GA4 report by page path and session source, sums the integer metrics over
 * the rows, keeps a per-source breakdown, checks the totals for
 * inconsistencies and writes one CSV row per URL under a timestamped name.
 *
 * The GA4 client is a parameter (`query`, the outcome of the main report
 * and, after an empty one, of the backup query, for each URL); so is
 * every floating-point quantity: the weighted mean bounce rate only enters
 * through the two comparisons the validation makes with it.
 */
module FetchFinal {
  import opened Wrappers
  import opened JsStrings
  import opened Seqs
  import opened GaQuery
  import opened Timestamps
  import Consolidator

  // ----- report rows -----

  /** One row of the report: the `sessionSource` dimension and the seven metric cells, in query order. */
  datatype GaRow = GaRow(
    source: string,
    views: string,
    sessions: string,
    duration: string,
    bounce: string,
    users: string,
    newUsers: string,
    engaged: string)

  /** `parseInt(cell) || 0` of the integer metrics of a row. */
  function RowViews(r: GaRow): int { ParseIntOrZero(r.views) }
  function RowSessions(r: GaRow): int { ParseIntOrZero(r.sessions) }
  function RowUsers(r: GaRow): int { ParseIntOrZero(r.users) }
  function RowNewUsers(r: GaRow): int { ParseIntOrZero(r.newUsers) }
  function RowEngaged(r: GaRow): int { ParseIntOrZero(r.engaged) }

  /** `totalViews`, `totalSessions`, `totalActiveUsers`, `totalNewUsers`, `totalEngagedSessions`. */
  datatype Totals = Totals(views: int, sessions: int, activeUsers: int, newUsers: int, engagedSessions: int)

  const NoTotals := Totals(0, 0, 0, 0, 0)

  function Plus(a: Totals, b: Totals): Totals
  {
    Totals(a.views + b.views, a.sessions + b.sessions, a.activeUsers + b.activeUsers,
      a.newUsers + b.newUsers, a.engagedSessions + b.engagedSessions)
  }

  /** The integer totals: each metric summed over the rows. */
  function TotalsOf(rows: seq<GaRow>): Totals
  {
    Totals(SumOf(rows, RowViews), SumOf(rows, RowSessions), SumOf(rows, RowUsers),
      SumOf(rows, RowNewUsers), SumOf(rows, RowEngaged))
  }

  /** The integer part of a `sourceBreakdown` entry (its `duration` and `bounce` texts are floating point). */
  datatype SourceStats = SourceStats(views: int, sessions: int, users: int)

  function SourceStatsOf(r: GaRow): SourceStats
  {
    SourceStats(RowViews(r), RowSessions(r), RowUsers(r))
  }

  /** `sourceBreakdown[source] = {...}` for each row in turn. */
  function BreakdownOf(rows: seq<GaRow>): map<string, SourceStats>
  {
    if rows == [] then map[]
    else BreakdownOf(rows[..|rows| - 1])[rows[|rows| - 1].source := SourceStatsOf(rows[|rows| - 1])]
  }

  /** One more row adds its cells to each total. */
  lemma ViewsStep(rows: seq<GaRow>, i: nat)
    requires i < |rows|
    ensures TotalsOf(rows[..i + 1]).views == TotalsOf(rows[..i]).views + RowViews(rows[i])
  {
    SumPrefixStep(rows, i, RowViews);
  }

  lemma SessionsStep(rows: seq<GaRow>, i: nat)
    requires i < |rows|
    ensures TotalsOf(rows[..i + 1]).sessions == TotalsOf(rows[..i]).sessions + RowSessions(rows[i])
  {
    SumPrefixStep(rows, i, RowSessions);
  }

  lemma UsersStep(rows: seq<GaRow>, i: nat)
    requires i < |rows|
    ensures TotalsOf(rows[..i + 1]).activeUsers == TotalsOf(rows[..i]).activeUsers + RowUsers(rows[i])
  {
    SumPrefixStep(rows, i, RowUsers);
  }

  lemma NewUsersStep(rows: seq<GaRow>, i: nat)
    requires i < |rows|
    ensures TotalsOf(rows[..i + 1]).newUsers == TotalsOf(rows[..i]).newUsers + RowNewUsers(rows[i])
  {
    SumPrefixStep(rows, i, RowNewUsers);
  }

  lemma EngagedStep(rows: seq<GaRow>, i: nat)
    requires i < |rows|
    ensures TotalsOf(rows[..i + 1]).engagedSessions == TotalsOf(rows[..i]).engagedSessions + RowEngaged(rows[i])
  {
    SumPrefixStep(rows, i, RowEngaged);
  }

  /** One more row overwrites its source's breakdown entry. */
  lemma BreakdownStep(rows: seq<GaRow>, i: nat)
    requires i < |rows|
    ensures BreakdownOf(rows[..i + 1]) == BreakdownOf(rows[..i])[rows[i].source := SourceStatsOf(rows[i])]
  {
    assert rows[..i + 1][..i] == rows[..i];
  }

  /** The `forEach` of `getGA4DataForUrl` over the rows of a non-empty report. */
  method AccumulateRows(rows: seq<GaRow>) returns (totals: Totals, breakdown: map<string, SourceStats>)
    ensures totals == TotalsOf(rows) && breakdown == BreakdownOf(rows)
  {
    var totalViews, totalSessions, totalActiveUsers, totalNewUsers, totalEngagedSessions := 0, 0, 0, 0, 0;
    breakdown := map[];
    for i := 0 to |rows|
      invariant totalViews == TotalsOf(rows[..i]).views && totalSessions == TotalsOf(rows[..i]).sessions
      invariant totalActiveUsers == TotalsOf(rows[..i]).activeUsers && totalNewUsers == TotalsOf(rows[..i]).newUsers
      invariant totalEngagedSessions == TotalsOf(rows[..i]).engagedSessions
      invariant breakdown == BreakdownOf(rows[..i])
    {
      var row := rows[i];
      var views := RowViews(row);
      var sessions := RowSessions(row);
      var users := RowUsers(row);
      var newUsers := RowNewUsers(row);
      var engagedSessions := RowEngaged(row);
      ViewsStep(rows, i);
      SessionsStep(rows, i);
      UsersStep(rows, i);
      NewUsersStep(rows, i);
      EngagedStep(rows, i);
      BreakdownStep(rows, i);
      totalViews := totalViews + views;
      totalSessions := totalSessions + sessions;
      totalActiveUsers := totalActiveUsers + users;
      totalNewUsers := totalNewUsers + newUsers;
      totalEngagedSessions := totalEngagedSessions + engagedSessions;
      breakdown := breakdown[row.source := SourceStatsOf(row)];
    }
    assert rows[..|rows|] == rows;
    totals := Totals(totalViews, totalSessions, totalActiveUsers, totalNewUsers, totalEngagedSessions);
  }

  /** The totals of a report split in two are the sums of the totals of the parts. */
  lemma TotalsConcat(a: seq<GaRow>, b: seq<GaRow>)
    ensures TotalsOf(a + b) == Plus(TotalsOf(a), TotalsOf(b))
  {
    SumConcat(a, b, RowViews);
    SumConcat(a, b, RowSessions);
    SumConcat(a, b, RowUsers);
    SumConcat(a, b, RowNewUsers);
    SumConcat(a, b, RowEngaged);
  }

  /** The totals do not depend on the order the report returns its rows in. */
  lemma TotalsPermutation(a: seq<GaRow>, b: seq<GaRow>)
    requires multiset(a) == multiset(b)
    ensures TotalsOf(a) == TotalsOf(b)
  {
    SumPerm(a, b, RowViews);
    SumPerm(a, b, RowSessions);
    SumPerm(a, b, RowUsers);
    SumPerm(a, b, RowNewUsers);
    SumPerm(a, b, RowEngaged);
  }

  /** A row whose views cell holds no number adds nothing to the views total. */
  lemma UnparsableViewsCountZero(rows: seq<GaRow>, r: GaRow)
    requires ParseInt(r.views).None?
    ensures TotalsOf(rows + [r]).views == TotalsOf(rows).views
  {
    assert (rows + [r])[..|rows|] == rows;
  }

  /** Every key of the breakdown is the source label of some row. */
  lemma {:induction false} BreakdownKeyHasRow(rows: seq<GaRow>, s: string)
    requires s in BreakdownOf(rows)
    ensures exists i :: 0 <= i < |rows| && rows[i].source == s
  {
    var init := rows[..|rows| - 1];
    if s == rows[|rows| - 1].source {
      assert rows[|rows| - 1].source == s;
    } else {
      BreakdownKeyHasRow(init, s);
      var i :| 0 <= i < |init| && init[i].source == s;
      assert rows[i].source == s;
    }
  }

  /** The source label of every row is a key of the breakdown. */
  lemma {:induction false} BreakdownRowHasKey(rows: seq<GaRow>, i: nat)
    requires i < |rows|
    ensures rows[i].source in BreakdownOf(rows)
  {
    if i < |rows| - 1 {
      BreakdownRowHasKey(rows[..|rows| - 1], i);
    }
  }

  /** The breakdown has one key per source label of the report. */
  lemma BreakdownKeys(rows: seq<GaRow>)
    ensures forall s :: s in BreakdownOf(rows) <==> exists i :: 0 <= i < |rows| && rows[i].source == s
  {
    forall s | s in BreakdownOf(rows)
      ensures exists i :: 0 <= i < |rows| && rows[i].source == s
    {
      BreakdownKeyHasRow(rows, s);
    }
    forall i | 0 <= i < |rows|
      ensures rows[i].source in BreakdownOf(rows)
    {
      BreakdownRowHasKey(rows, i);
    }
  }

  /** For a source label, the breakdown holds the figures of the last row with that label. */
  lemma {:induction false} BreakdownLastWins(rows: seq<GaRow>, i: nat)
    requires i < |rows|
    requires forall j :: i < j < |rows| ==> rows[j].source != rows[i].source
    ensures rows[i].source in BreakdownOf(rows)
    ensures BreakdownOf(rows)[rows[i].source] == SourceStatsOf(rows[i])
  {
    if i < |rows| - 1 {
      var init := rows[..|rows| - 1];
      BreakdownLastWins(init, i);
    }
  }

  // ----- validation -----

  /** The messages of the checks and of a failed query. */
  datatype Message =
    | ViewsWithoutSessions
    | BounceAbove100
    | NegativeBounce
    | SessionsPerView
    | UsersPerSession
    | QueryError(message: string)

  /** The text of a message, as it is logged and written into the CSV. */
  function MessageText(m: Message): string
  {
    match m
    case ViewsWithoutSessions => "\U{26A0}\U{FE0F} Hay vistas pero no sesiones - posible inconsistencia temporal"
    case BounceAbove100 => "\U{26A0}\U{FE0F} Tasa de rebote > 100% - error de c\U{00E1}lculo"
    case NegativeBounce => "\U{26A0}\U{FE0F} Tasa de rebote negativa - error de datos"
    case SessionsPerView => "\U{2139}\U{FE0F} Normal: Usuarios pueden tener m\U{00FA}ltiples sesiones en la misma p\U{00E1}gina"
    case UsersPerSession => "\U{2139}\U{FE0F} M\U{00E1}s usuarios que sesiones puede indicar sesiones muy cortas"
    case QueryError(message) => ErrorWarning(message)
  }

  function Texts(ms: seq<Message>): (r: seq<string>)
    ensures |r| == |ms| && forall i :: 0 <= i < |ms| ==> r[i] == MessageText(ms[i])
  {
    seq(|ms|, i requires 0 <= i < |ms| => MessageText(ms[i]))
  }

  /**
   * Where `data.bounce`, the mean bounce rate in percent, lies for the
   * tests `> 100` and `< 0`: one number passes at most one of them (and a
   * NaN neither).
   */
  datatype BounceRange = InRange | Above100 | BelowZero

  datatype Validation = Validation(warnings: seq<Message>, insights: seq<Message>)

  /** The messages `validateDataConsistency` collects, in the order it tests for them. */
  function ValidationOf(t: Totals, b: BounceRange): Validation
  {
    Validation(
      (if t.views > 0 && t.sessions == 0 then [ViewsWithoutSessions] else [])
        + (if b.Above100? then [BounceAbove100] else [])
        + (if b.BelowZero? then [NegativeBounce] else []),
      (if t.sessions > t.views && t.views > 0 then [SessionsPerView] else [])
        + (if t.activeUsers > t.sessions && t.sessions > 0 then [UsersPerSession] else []))
  }

  /** `validateDataConsistency(url, data)`, without its console output. */
  method ValidateDataConsistency(t: Totals, b: BounceRange) returns (v: Validation)
    ensures v == ValidationOf(t, b)
  {
    var warnings: seq<Message> := [];
    var insights: seq<Message> := [];
    if t.sessions > t.views && t.views > 0 {
      insights := insights + [SessionsPerView];
    }
    if t.views > 0 && t.sessions == 0 {
      warnings := warnings + [ViewsWithoutSessions];
    }
    if b.Above100? {
      warnings := warnings + [BounceAbove100];
    }
    if b.BelowZero? {
      warnings := warnings + [NegativeBounce];
    }
    if t.activeUsers > t.sessions && t.sessions > 0 {
      insights := insights + [UsersPerSession];
    }
    v := Validation(warnings, insights);
  }

  /** Each message is raised exactly under its condition. */
  lemma ValidationRules(t: Totals, b: BounceRange)
    ensures var v := ValidationOf(t, b);
      && (ViewsWithoutSessions in v.warnings <==> t.views > 0 && t.sessions == 0)
      && (BounceAbove100 in v.warnings <==> b.Above100?)
      && (NegativeBounce in v.warnings <==> b.BelowZero?)
      && (SessionsPerView in v.insights <==> t.sessions > t.views > 0)
      && (UsersPerSession in v.insights <==> t.activeUsers > t.sessions > 0)
  {
    var v := ValidationOf(t, b);
    var w1: seq<Message> := if t.views > 0 && t.sessions == 0 then [ViewsWithoutSessions] else [];
    var w2: seq<Message> := if b.Above100? then [BounceAbove100] else [];
    var w3: seq<Message> := if b.BelowZero? then [NegativeBounce] else [];
    assert v.warnings == w1 + w2 + w3;
    forall m ensures m in v.warnings <==> m in w1 || m in w2 || m in w3 {
    }
  }

  /**
   * The warnings are the three checks, of which the two bounce tests never
   * fire together; the insights are the two observations about sessions and
   * users, which are never warnings.
   */
  lemma ValidationKinds(t: Totals, b: BounceRange)
    ensures var v := ValidationOf(t, b);
      && (forall i :: 0 <= i < |v.warnings| ==>
            v.warnings[i].ViewsWithoutSessions? || v.warnings[i].BounceAbove100? || v.warnings[i].NegativeBounce?)
      && (forall i :: 0 <= i < |v.insights| ==> v.insights[i].SessionsPerView? || v.insights[i].UsersPerSession?)
      && |v.warnings| <= 2 && |v.insights| <= 2
  {
    var v := ValidationOf(t, b);
    var w1: seq<Message> := if t.views > 0 && t.sessions == 0 then [ViewsWithoutSessions] else [];
    var w2: seq<Message> := if b.Above100? then [BounceAbove100] else [];
    var w3: seq<Message> := if b.BelowZero? then [NegativeBounce] else [];
    assert v.warnings == w1 + w2 + w3;
  }

  /** No message is repeated. */
  lemma ValidationDistinct(t: Totals, b: BounceRange)
    ensures NoDup(ValidationOf(t, b).warnings) && NoDup(ValidationOf(t, b).insights)
  {
    var v := ValidationOf(t, b);
    var w1: seq<Message> := if t.views > 0 && t.sessions == 0 then [ViewsWithoutSessions] else [];
    var w2: seq<Message> := if b.Above100? then [BounceAbove100] else [];
    var w3: seq<Message> := if b.BelowZero? then [NegativeBounce] else [];
    var i1: seq<Message> := if t.sessions > t.views && t.views > 0 then [SessionsPerView] else [];
    var i2: seq<Message> := if t.activeUsers > t.sessions && t.sessions > 0 then [UsersPerSession] else [];
    assert v.insights == i1 + i2;
    assert forall x :: x in w2 ==> x == BounceAbove100;
    assert forall x :: x in w1 ==> x == ViewsWithoutSessions;
    assert forall x :: x in i1 ==> x == SessionsPerView;
    NoDupConcat(w2, w3);
    NoDupConcat(w1, w2 + w3);
    assert w1 + (w2 + w3) == v.warnings;
    NoDupConcat(i1, i2);
  }

  /** `avgBounce`: the weighted mean when there are sessions, otherwise 0. */
  function MeanBounce(t: Totals, weighted: BounceRange): (r: BounceRange)
    ensures t.sessions > 0 ==> r == weighted
    ensures t.sessions <= 0 ==> r == InRange
  {
    if t.sessions > 0 then weighted else InRange
  }

  /**
   * With the bounce rate 0 when there are no sessions, a record carries at
   * most one warning: "views but no sessions" needs zero sessions, and the
   * two bounce tests exclude each other.
   */
  lemma ValidationAtMostOneWarning(t: Totals, weighted: BounceRange)
    ensures |ValidationOf(t, MeanBounce(t, weighted)).warnings| <= 1
  {
    var b := MeanBounce(t, weighted);
    var w1: seq<Message> := if t.views > 0 && t.sessions == 0 then [ViewsWithoutSessions] else [];
    var w2: seq<Message> := if b.Above100? then [BounceAbove100] else [];
    var w3: seq<Message> := if b.BelowZero? then [NegativeBounce] else [];
    assert ValidationOf(t, b).warnings == w1 + w2 + w3;
  }

  // ----- one URL -----

  /** `sourceBreakdown`: absent (no rows), `'{}'` (failed query) or the per-source object. */
  datatype SourceBreakdown = NoBreakdown | EmptyBreakdown | Sources(stats: map<string, SourceStats>)

  /** The object `getGA4DataForUrl` returns, without its floating-point fields. */
  datatype UrlData = UrlData(
    url: string,
    queryDate: string,
    totals: Totals,
    dataFound: bool,
    breakdown: SourceBreakdown,
    warnings: seq<Message>,
    insights: seq<Message>,
    error: Option<string>)

  /**
   * `getGA4DataForUrl(url)`, with `queryDate` the day `getDateRange` picks,
   * `outcome` the outcome of its GA4 calls (`WithBackup`) and `bounce`
   * where the mean bounce rate weighted by sessions lies; with no sessions
   * the mean is 0 and in range.
   */
  function DataForUrl(url: string, queryDate: string, outcome: QueryOutcome<GaRow>,
                      bounce: seq<GaRow> -> BounceRange): UrlData
  {
    match outcome
    case QueryFailed(message) =>
      UrlData(url, queryDate, NoTotals, false, EmptyBreakdown, [QueryError(message)], [], Some(message))
    case QueryRows(rows) =>
      if rows == [] then UrlData(url, queryDate, NoTotals, false, NoBreakdown, [], [], None)
      else
        var t := TotalsOf(rows);
        var v := ValidationOf(t, MeanBounce(t, bounce(rows)));
        UrlData(url, queryDate, t, true, Sources(BreakdownOf(rows)), v.warnings, v.insights, None)
  }

  /**
   * The three records: a failed query gives the error as the only warning,
   * an empty report gives zeros and no messages, and only a report with rows
   * counts as data found, with its totals, breakdown and checks.
   */
  lemma DataForUrlCases(url: string, queryDate: string, outcome: QueryOutcome<GaRow>,
                        bounce: seq<GaRow> -> BounceRange)
    ensures var r := DataForUrl(url, queryDate, outcome, bounce);
      && r.url == url && r.queryDate == queryDate
      && (r.dataFound <==> outcome.QueryRows? && outcome.rows != [])
      && (!r.dataFound ==> r.totals == NoTotals && r.insights == [])
      && (outcome.QueryFailed? ==>
            r.warnings == [QueryError(outcome.message)] && r.error == Some(outcome.message) && r.breakdown == EmptyBreakdown)
      && (outcome == QueryRows([]) ==> r.warnings == [] && r.error.None? && r.breakdown == NoBreakdown)
      && (r.dataFound ==>
            && r.error.None?
            && r.totals == TotalsOf(outcome.rows)
            && r.breakdown == Sources(BreakdownOf(outcome.rows))
            && Validation(r.warnings, r.insights) == ValidationOf(r.totals, MeanBounce(r.totals, bounce(outcome.rows)))
            && |r.warnings| <= 1
            && (r.totals.sessions <= 0 ==> BounceAbove100 !in r.warnings && NegativeBounce !in r.warnings))
  {
    if outcome.QueryRows? && outcome.rows != [] {
      var t := TotalsOf(outcome.rows);
      ValidationAtMostOneWarning(t, bounce(outcome.rows));
      ValidationRules(t, MeanBounce(t, bounce(outcome.rows)));
    }
  }

  /**
   * An empty main report gives the no-data record only when the backup
   * query answers; when it throws, the catch gives the error record.
   */
  lemma EmptyReportBackup(url: string, queryDate: string, backup: BackupOutcome,
                          bounce: seq<GaRow> -> BounceRange)
    ensures var r := DataForUrl(url, queryDate, WithBackup(QueryRows([]), backup), bounce);
      && !r.dataFound && r.totals == NoTotals
      && (backup.BackupFailed? ==>
            r.warnings == [QueryError(backup.message)] && r.error == Some(backup.message) && r.breakdown == EmptyBreakdown)
      && (backup.BackupAnswered? ==> r.warnings == [] && r.error.None? && r.breakdown == NoBreakdown)
  {
    DataForUrlCases(url, queryDate, WithBackup(QueryRows([]), backup), bounce);
  }

  method GetDataForUrl(url: string, queryDate: string, outcome: QueryOutcome<GaRow>,
                       bounce: seq<GaRow> -> BounceRange) returns (data: UrlData)
    ensures data == DataForUrl(url, queryDate, outcome, bounce)
  {
    match outcome
    case QueryFailed(message) =>
      data := UrlData(url, queryDate, NoTotals, false, EmptyBreakdown, [QueryError(message)], [], Some(message));
    case QueryRows(rows) =>
      if |rows| == 0 {
        data := UrlData(url, queryDate, NoTotals, false, NoBreakdown, [], [], None);
      } else {
        var totals, breakdown := AccumulateRows(rows);
        var validation := ValidateDataConsistency(totals, MeanBounce(totals, bounce(rows)));
        data := UrlData(url, queryDate, totals, true, Sources(breakdown), validation.warnings, validation.insights, None);
      }
  }

  // ----- the run -----

  /** The `summary` object of `main`. */
  datatype RunSummary = RunSummary(totalUrls: nat, successful: int, withWarnings: int, withInsights: int, errors: int)

  function FoundOne(d: UrlData): int { if d.dataFound then 1 else 0 }
  function ErrorOne(d: UrlData): int { if d.dataFound then 0 else 1 }
  function WarnedOne(d: UrlData): int { if |d.warnings| > 0 then 1 else 0 }
  function InsightOne(d: UrlData): int { if |d.insights| > 0 then 1 else 0 }

  /** The counters after the records `ds`, with `totalUrls` set up front. */
  function SummaryOf(totalUrls: nat, ds: seq<UrlData>): RunSummary
  {
    RunSummary(totalUrls, SumOf(ds, FoundOne), SumOf(ds, WarnedOne), SumOf(ds, InsightOne), SumOf(ds, ErrorOne))
  }

  /** Each URL is either successful or an error; at most every URL has warnings or insights. */
  lemma {:induction false} SummaryCounts(ds: seq<UrlData>)
    ensures var s := SummaryOf(|ds|, ds);
      && s.successful + s.errors == s.totalUrls
      && 0 <= s.successful && 0 <= s.errors
      && 0 <= s.withWarnings <= s.totalUrls && 0 <= s.withInsights <= s.totalUrls
      && (s.errors == 0 <==> forall k :: 0 <= k < |ds| ==> ds[k].dataFound)
      && (s.withWarnings == 0 <==> forall k :: 0 <= k < |ds| ==> ds[k].warnings == [])
  {
    if ds != [] {
      var init := ds[..|ds| - 1];
      SummaryCounts(init);
      assert forall k :: 0 <= k < |init| ==> init[k] == ds[k];
    }
  }

  /** One more record moves each counter by its share. */
  lemma SummarySnoc(totalUrls: nat, ds: seq<UrlData>, d: UrlData)
    ensures var s := SummaryOf(totalUrls, ds);
      SummaryOf(totalUrls, ds + [d]) == RunSummary(totalUrls, s.successful + FoundOne(d),
        s.withWarnings + WarnedOne(d), s.withInsights + InsightOne(d), s.errors + ErrorOne(d))
  {
    assert (ds + [d])[..|ds|] == ds;
  }

  /** The records of the URLs, in order. */
  function Results(urls: seq<string>, queryDate: string, query: string -> QueryOutcome<GaRow>,
                   bounce: seq<GaRow> -> BounceRange): seq<UrlData>
  {
    if urls == [] then []
    else
      var init, last := urls[..|urls| - 1], urls[|urls| - 1];
      Results(init, queryDate, query, bounce) + [DataForUrl(last, queryDate, query(last), bounce)]
  }

  /** `dataForCsv`: the record with its lists joined into one cell each. */
  datatype CsvRecord = CsvRecord(data: UrlData, warnings: string, insights: string)

  function ForCsv(d: UrlData): CsvRecord
  {
    CsvRecord(d, JoinList(Texts(d.warnings)), JoinList(Texts(d.insights)))
  }

  /** `allData`: the CSV records of the records, in order. */
  function CsvRecords(ds: seq<UrlData>): (r: seq<CsvRecord>)
    ensures |r| == |ds| && forall k :: 0 <= k < |ds| ==> r[k] == ForCsv(ds[k])
  {
    seq(|ds|, k requires 0 <= k < |ds| => ForCsv(ds[k]))
  }

  /** The counter updates of `main` for one record. */
  method CountRecord(s: RunSummary, data: UrlData) returns (r: RunSummary)
    ensures r == RunSummary(s.totalUrls, s.successful + FoundOne(data), s.withWarnings + WarnedOne(data),
      s.withInsights + InsightOne(data), s.errors + ErrorOne(data))
  {
    r := s;
    if data.dataFound {
      r := r.(successful := r.successful + 1);
    } else {
      r := r.(errors := r.errors + 1);
    }
    if |data.warnings| > 0 {
      r := r.(withWarnings := r.withWarnings + 1);
    }
    if |data.insights| > 0 {
      r := r.(withInsights := r.withInsights + 1);
    }
  }

  /**
   * `main()`: the report path, the summary counters and the rows handed to
   * `csvWriter.writeRecords`. `clock` is the local time of `new Date()`.
   */
  method RunReport(urls: seq<string>, queryDate: string, clock: LocalTime, query: string -> QueryOutcome<GaRow>,
              bounce: seq<GaRow> -> BounceRange)
    returns (outputPath: string, summary: RunSummary, allData: seq<CsvRecord>)
    ensures outputPath == CsvFilename(clock)
    ensures summary == SummaryOf(|urls|, Results(urls, queryDate, query, bounce))
    ensures |allData| == |urls|
    ensures forall k :: 0 <= k < |urls| ==> allData[k] == ForCsv(DataForUrl(urls[k], queryDate, query(urls[k]), bounce))
  {
    outputPath := CsvFilename(clock);
    allData := [];
    summary := RunSummary(|urls|, 0, 0, 0, 0);
    for i := 0 to |urls|
      invariant summary == SummaryOf(|urls|, Results(urls[..i], queryDate, query, bounce))
      invariant allData == CsvRecords(Results(urls[..i], queryDate, query, bounce))
    {
      var data := GetDataForUrl(urls[i], queryDate, query(urls[i]), bounce);
      ghost var before := Results(urls[..i], queryDate, query, bounce);
      ResultsStep(urls, i, queryDate, query, bounce);
      SummarySnoc(|urls|, before, data);
      CsvRecordsSnoc(before, data);
      summary := CountRecord(summary, data);
      allData := allData + [ForCsv(data)];
    }
    assert urls[..|urls|] == urls;
    CsvRecordsAt(urls, queryDate, query, bounce);
  }

  /** One more URL appends its record. */
  lemma ResultsStep(urls: seq<string>, i: nat, queryDate: string, query: string -> QueryOutcome<GaRow>,
                    bounce: seq<GaRow> -> BounceRange)
    requires i < |urls|
    ensures Results(urls[..i + 1], queryDate, query, bounce)
      == Results(urls[..i], queryDate, query, bounce) + [DataForUrl(urls[i], queryDate, query(urls[i]), bounce)]
  {
    assert urls[..i + 1][..i] == urls[..i];
  }

  lemma CsvRecordsSnoc(ds: seq<UrlData>, d: UrlData)
    ensures CsvRecords(ds + [d]) == CsvRecords(ds) + [ForCsv(d)]
  {
  }

  /** The records are one per URL, each the outcome of that URL's query. */
  lemma {:induction false} ResultsAt(urls: seq<string>, queryDate: string, query: string -> QueryOutcome<GaRow>,
                                     bounce: seq<GaRow> -> BounceRange)
    ensures |Results(urls, queryDate, query, bounce)| == |urls|
    ensures forall k :: 0 <= k < |urls| ==>
      Results(urls, queryDate, query, bounce)[k] == DataForUrl(urls[k], queryDate, query(urls[k]), bounce)
  {
    if urls != [] {
      var init := urls[..|urls| - 1];
      ResultsAt(init, queryDate, query, bounce);
    }
  }

  lemma CsvRecordsAt(urls: seq<string>, queryDate: string, query: string -> QueryOutcome<GaRow>,
                     bounce: seq<GaRow> -> BounceRange)
    ensures |CsvRecords(Results(urls, queryDate, query, bounce))| == |urls|
    ensures forall k :: 0 <= k < |urls| ==>
      CsvRecords(Results(urls, queryDate, query, bounce))[k] == ForCsv(DataForUrl(urls[k], queryDate, query(urls[k]), bounce))
  {
    ResultsAt(urls, queryDate, query, bounce);
  }

  /**
   * The run ends without errors exactly when every query returned rows
   * (the condition of the closing "all data extracted" message, together
   * with no warnings).
   */
  lemma NoErrorsIff(urls: seq<string>, queryDate: string, query: string -> QueryOutcome<GaRow>,
                    bounce: seq<GaRow> -> BounceRange)
    ensures var s := SummaryOf(|urls|, Results(urls, queryDate, query, bounce));
      && s.successful + s.errors == |urls|
      && (s.errors == 0 <==> forall k :: 0 <= k < |urls| ==> query(urls[k]).QueryRows? && query(urls[k]).rows != [])
  {
    var ds := Results(urls, queryDate, query, bounce);
    ResultsAt(urls, queryDate, query, bounce);
    SummaryCounts(ds);
    forall k | 0 <= k < |urls|
      ensures ds[k].dataFound <==> query(urls[k]).QueryRows? && query(urls[k]).rows != []
    {
      DataForUrlCases(urls[k], queryDate, query(urls[k]), bounce);
    }
  }

  // ----- the CSV file -----

  const TitleUrl := "URL"
  const TitleQueryDate := "Fecha consulta"
  const TitleViews := "Vistas p\U{00E1}gina"
  const TitleSessions := "Sesiones"
  const TitleActiveUsers := "Usuarios activos"
  const TitleNewUsers := "Usuarios nuevos"
  const TitleEngaged := "Sesiones comprometidas"
  const TitleEngagementRate := "Tasa compromiso (%)"
  const TitleDuration := "Duraci\U{00F3}n prom. (s)"
  const TitleBounce := "Tasa rebote (%)"
  const TitleFound := "Datos encontrados"
  const TitleBreakdown := "Desglose por fuente"
  const TitleWarnings := "Advertencias"
  const TitleInsights := "Insights"

  /** The column titles of the CSV writer, in order. */
  const Header: seq<string> := [TitleUrl, TitleQueryDate, TitleViews, TitleSessions, TitleActiveUsers,
    TitleNewUsers, TitleEngaged, TitleEngagementRate, TitleDuration, TitleBounce, TitleFound,
    TitleBreakdown, TitleWarnings, TitleInsights]

  function BoolText(b: bool): string
  {
    if b then "true" else "false"
  }

  /** The breakdown cell: empty for a missing field, `{}`, or `encode` (`JSON.stringify`) of the object. */
  function BreakdownText(b: SourceBreakdown, encode: map<string, SourceStats> -> string): string
  {
    match b
    case NoBreakdown => ""
    case EmptyBreakdown => "{}"
    case Sources(stats) => encode(stats)
  }

  /**
   * The row the CSV writer writes for a record, split into its cells: the
   * URL cell, and the other cells by column title. The three floating-point
   * columns are not modelled and have no cell here.
   */
  function CsvRowOf(rec: CsvRecord, encode: map<string, SourceStats> -> string): (row: Consolidator.CsvRow)
    ensures row.url == rec.data.url
    ensures forall title :: title in row.cells ==> title in Header
  {
    var d := rec.data;
    Consolidator.CsvRow(d.url, map[
      TitleQueryDate := d.queryDate,
      TitleViews := IntToString(d.totals.views),
      TitleSessions := IntToString(d.totals.sessions),
      TitleActiveUsers := IntToString(d.totals.activeUsers),
      TitleNewUsers := IntToString(d.totals.newUsers),
      TitleEngaged := IntToString(d.totals.engagedSessions),
      TitleFound := BoolText(d.dataFound),
      TitleBreakdown := BreakdownText(d.breakdown, encode),
      TitleWarnings := rec.warnings,
      TitleInsights := rec.insights])
  }
}
