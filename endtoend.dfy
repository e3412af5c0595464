/**
 * What the consolidator (lib/csv-consolidator.js) reads back from the CSV
 * rows the two fetch scripts write: index_final.js writes the column titles
 * the consolidator looks for. index_improved.js writes two of them under other
 * titles ("Fecha de consulta", "Vistas de página") and leaves out four
 * ("Usuarios nuevos", "Sesiones comprometidas", "Desglose por fuente",
 * "Insights").
 */
module EndToEnd {
  import opened Wrappers
  import opened JsStrings
  import opened Seqs
  import opened JsValues
  import opened GaQuery
  import opened Consolidator
  import Final = FetchFinal
  import Improved = FetchImproved

  // ----- index_final.js -----

  lemma FinalMessageNonEmpty(m: Final.Message)
    ensures Final.MessageText(m) != ""
  {
    match m
    case QueryError(message) =>
      assert |Final.MessageText(m)| == 7 + |message|;
    case _ =>
  }

  lemma FinalTextsNonEmpty(ms: seq<Final.Message>)
    ensures forall i :: 0 <= i < |Final.Texts(ms)| ==> Final.Texts(ms)[i] != ""
  {
    forall i | 0 <= i < |ms| ensures Final.Texts(ms)[i] != "" {
      FinalMessageNonEmpty(ms[i]);
    }
  }

  /** Every column the consolidator reads is a column index_final.js writes. */
  lemma FinalHeaderHasColumns()
    ensures Final.TitleQueryDate == ColUrlDate && Final.TitleViews == ColViews
    ensures Final.TitleSessions == ColSessions && Final.TitleActiveUsers == ColActiveUsers
    ensures Final.TitleNewUsers == ColNewUsers && Final.TitleEngaged == ColEngaged
    ensures Final.TitleFound == ColFound && Final.TitleBreakdown == ColBreakdown
    ensures Final.TitleWarnings == ColWarnings && Final.TitleInsights == ColInsights
  {
  }

  /**
   * A row of an index_final.js report is read back with the record's URL,
   * query date, integer totals and found flag.
   */
  lemma FinalRowReadBack(d: Final.UrlData, encode: map<string, Final.SourceStats> -> string,
                         decode: string -> Option<Value>)
    ensures var r := ParseCsvRow(Final.CsvRowOf(Final.ForCsv(d), encode), decode);
      && r.url == d.url && r.fechaConsulta == Some(d.queryDate)
      && r.entry.metrics == Metrics(d.totals.views, d.totals.sessions, d.totals.activeUsers,
                                    d.totals.newUsers, d.totals.engagedSessions)
      && r.entry.datosEncontrados == d.dataFound
  {
    FinalCells(Final.ForCsv(d), encode);
    ParseIntOfIntToString(d.totals.views);
    ParseIntOfIntToString(d.totals.sessions);
    ParseIntOfIntToString(d.totals.activeUsers);
    ParseIntOfIntToString(d.totals.newUsers);
    ParseIntOfIntToString(d.totals.engagedSessions);
  }

  /** The cells of an index_final.js row under the titles the consolidator reads. */
  lemma FinalCells(rec: Final.CsvRecord, encode: map<string, Final.SourceStats> -> string)
    ensures Cell(Final.CsvRowOf(rec, encode), ColUrlDate) == Some(rec.data.queryDate)
    ensures Cell(Final.CsvRowOf(rec, encode), ColViews) == Some(IntToString(rec.data.totals.views))
    ensures Cell(Final.CsvRowOf(rec, encode), ColSessions) == Some(IntToString(rec.data.totals.sessions))
    ensures Cell(Final.CsvRowOf(rec, encode), ColActiveUsers) == Some(IntToString(rec.data.totals.activeUsers))
    ensures Cell(Final.CsvRowOf(rec, encode), ColNewUsers) == Some(IntToString(rec.data.totals.newUsers))
    ensures Cell(Final.CsvRowOf(rec, encode), ColEngaged) == Some(IntToString(rec.data.totals.engagedSessions))
    ensures Cell(Final.CsvRowOf(rec, encode), ColFound) == Some(Final.BoolText(rec.data.dataFound))
    ensures Cell(Final.CsvRowOf(rec, encode), ColBreakdown) == Some(Final.BreakdownText(rec.data.breakdown, encode))
    ensures Cell(Final.CsvRowOf(rec, encode), ColWarnings) == Some(rec.warnings)
    ensures Cell(Final.CsvRowOf(rec, encode), ColInsights) == Some(rec.insights)
  {
    FinalMetricCells(rec, encode);
    FinalTextCells(rec, encode);
  }

  lemma FinalMetricCells(rec: Final.CsvRecord, encode: map<string, Final.SourceStats> -> string)
    ensures Cell(Final.CsvRowOf(rec, encode), ColViews) == Some(IntToString(rec.data.totals.views))
    ensures Cell(Final.CsvRowOf(rec, encode), ColSessions) == Some(IntToString(rec.data.totals.sessions))
    ensures Cell(Final.CsvRowOf(rec, encode), ColActiveUsers) == Some(IntToString(rec.data.totals.activeUsers))
    ensures Cell(Final.CsvRowOf(rec, encode), ColNewUsers) == Some(IntToString(rec.data.totals.newUsers))
    ensures Cell(Final.CsvRowOf(rec, encode), ColEngaged) == Some(IntToString(rec.data.totals.engagedSessions))
  {
    FinalTrafficCells(rec, encode);
    FinalUserCells(rec, encode);
  }

  lemma FinalTrafficCells(rec: Final.CsvRecord, encode: map<string, Final.SourceStats> -> string)
    ensures Cell(Final.CsvRowOf(rec, encode), ColViews) == Some(IntToString(rec.data.totals.views))
    ensures Cell(Final.CsvRowOf(rec, encode), ColSessions) == Some(IntToString(rec.data.totals.sessions))
  {
  }

  lemma FinalUserCells(rec: Final.CsvRecord, encode: map<string, Final.SourceStats> -> string)
    ensures Cell(Final.CsvRowOf(rec, encode), ColActiveUsers) == Some(IntToString(rec.data.totals.activeUsers))
    ensures Cell(Final.CsvRowOf(rec, encode), ColNewUsers) == Some(IntToString(rec.data.totals.newUsers))
    ensures Cell(Final.CsvRowOf(rec, encode), ColEngaged) == Some(IntToString(rec.data.totals.engagedSessions))
  {
  }

  lemma FinalTextCells(rec: Final.CsvRecord, encode: map<string, Final.SourceStats> -> string)
    ensures Cell(Final.CsvRowOf(rec, encode), ColUrlDate) == Some(rec.data.queryDate)
    ensures Cell(Final.CsvRowOf(rec, encode), ColFound) == Some(Final.BoolText(rec.data.dataFound))
    ensures Cell(Final.CsvRowOf(rec, encode), ColBreakdown) == Some(Final.BreakdownText(rec.data.breakdown, encode))
    ensures Cell(Final.CsvRowOf(rec, encode), ColWarnings) == Some(rec.warnings)
    ensures Cell(Final.CsvRowOf(rec, encode), ColInsights) == Some(rec.insights)
  {
  }

  /**
   * The warnings and insights of an index_final.js row come back as the
   * joined text, and as null exactly when there were none.
   */
  lemma FinalMessagesReadBack(d: Final.UrlData, encode: map<string, Final.SourceStats> -> string,
                              decode: string -> Option<Value>)
    ensures var r := ParseCsvRow(Final.CsvRowOf(Final.ForCsv(d), encode), decode);
      && (r.entry.advertencias.None? <==> d.warnings == [])
      && (r.entry.advertencias.Some? ==> r.entry.advertencias.value == JoinList(Final.Texts(d.warnings)))
      && (r.entry.insights.None? <==> d.insights == [])
      && (r.entry.insights.Some? ==> r.entry.insights.value == JoinList(Final.Texts(d.insights)))
  {
    FinalCells(Final.ForCsv(d), encode);
    FinalTextsNonEmpty(d.warnings);
    FinalTextsNonEmpty(d.insights);
    JoinListEmptyIff(Final.Texts(d.warnings));
    JoinListEmptyIff(Final.Texts(d.insights));
  }

  /**
   * The traffic breakdown of an index_final.js row comes back as the sources
   * when their JSON text decodes, and as `{}` for a record without rows or
   * (when `{}` decodes to itself) with a failed query.
   */
  lemma FinalBreakdownReadBack(d: Final.UrlData, encode: map<string, Final.SourceStats> -> string,
                               decode: string -> Option<Value>)
    ensures var r := ParseCsvRow(Final.CsvRowOf(Final.ForCsv(d), encode), decode);
      && (d.breakdown.NoBreakdown? ==> r.entry.desgloseTrafico == EmptyObject)
      && (d.breakdown.EmptyBreakdown? && decode("{}") == Some(EmptyObject) ==> r.entry.desgloseTrafico == EmptyObject)
      && (d.breakdown.Sources? && encode(d.breakdown.stats) != "" && decode(encode(d.breakdown.stats)).Some? ==>
            r.entry.desgloseTrafico == decode(encode(d.breakdown.stats)).value)
  {
    FinalCells(Final.ForCsv(d), encode);
  }

  /** The rows of an index_final.js report, one per record. */
  function FinalRows(ds: seq<Final.UrlData>, encode: map<string, Final.SourceStats> -> string): (rows: seq<CsvRow>)
    ensures |rows| == |ds| && forall k :: 0 <= k < |ds| ==> rows[k] == Final.CsvRowOf(Final.ForCsv(ds[k]), encode)
  {
    seq(|ds|, k requires 0 <= k < |ds| => Final.CsvRowOf(Final.ForCsv(ds[k]), encode))
  }

  /**
   * The execution the consolidator builds from an index_final.js report
   * counts as many URLs with data as the run's `successful` counter.
   */
  lemma {:induction false} FinalFoundCount(ds: seq<Final.UrlData>, encode: map<string, Final.SourceStats> -> string,
                                           decode: string -> Option<Value>)
    ensures CountFound(ParseRows(FinalRows(ds, encode), decode)) == Final.SummaryOf(|ds|, ds).successful
  {
    if ds != [] {
      var n := |ds|;
      var init := ds[..n - 1];
      FinalFoundCount(init, encode, decode);
      var recs := ParseRows(FinalRows(ds, encode), decode);
      assert recs[..n - 1] == ParseRows(FinalRows(init, encode), decode);
      assert recs[n - 1] == ParseCsvRow(Final.CsvRowOf(Final.ForCsv(ds[n - 1]), encode), decode);
      FinalFoundReadBack(ds[n - 1], encode, decode);
    }
  }

  /** The found flag of an index_final.js row reads back as the record's. */
  lemma FinalFoundReadBack(d: Final.UrlData, encode: map<string, Final.SourceStats> -> string,
                           decode: string -> Option<Value>)
    ensures ParseCsvRow(Final.CsvRowOf(Final.ForCsv(d), encode), decode).entry.datosEncontrados == d.dataFound
  {
    FinalTextCells(Final.ForCsv(d), encode);
  }

  // ----- index_improved.js -----

  lemma ImprovedMessageNonEmpty(m: Improved.Message)
    ensures Improved.MessageText(m) != ""
  {
    match m
    case QueryError(message) =>
      assert |Improved.MessageText(m)| == 7 + |message|;
    case _ =>
  }

  /**
   * A row of an index_improved.js report keeps its sessions, active users,
   * found flag and warnings under the consolidator, but its query date and
   * views are written under titles the consolidator does not look for: the
   * date comes back missing and the views as 0, and so do new and engaged
   * sessions.
   */
  lemma ImprovedRowReadBack(url: string, queryDate: string, outcome: QueryOutcome<Improved.GaRow>,
                            bounceAbove100: seq<Improved.GaRow> -> bool, decode: string -> Option<Value>)
    ensures var d := Improved.DataForUrl(url, queryDate, outcome, bounceAbove100);
      var r := ParseCsvRow(Improved.CsvRowOf(Improved.ForCsv(d)), decode);
      && r.url == url && r.fechaConsulta.None?
      && r.entry.metrics == Metrics(0, d.totals.sessions, d.totals.activeUsers, 0, 0)
      && r.entry.datosEncontrados == d.dataFound
      && (r.entry.advertencias.None? <==> d.warnings == [])
      && r.entry.insights.None? && r.entry.desgloseTrafico == EmptyObject
  {
    var d := Improved.DataForUrl(url, queryDate, outcome, bounceAbove100);
    ImprovedPresentCells(Improved.ForCsv(d));
    ImprovedMissingCells(Improved.ForCsv(d));
    ParseIntOfIntToString(d.totals.sessions);
    ParseIntOfIntToString(d.totals.activeUsers);
    forall i | 0 <= i < |d.warnings| ensures Improved.Texts(d.warnings)[i] != "" {
      ImprovedMessageNonEmpty(d.warnings[i]);
    }
    JoinListEmptyIff(Improved.Texts(d.warnings));
  }

  /** The cells of an index_improved.js row the consolidator finds. */
  lemma ImprovedPresentCells(rec: Improved.CsvRecord)
    ensures Cell(Improved.CsvRowOf(rec), ColSessions) == Some(IntToString(rec.data.totals.sessions))
    ensures Cell(Improved.CsvRowOf(rec), ColActiveUsers) == Some(IntToString(rec.data.totals.activeUsers))
    ensures Cell(Improved.CsvRowOf(rec), ColFound) == Some(Improved.BoolText(rec.data.dataFound))
    ensures Cell(Improved.CsvRowOf(rec), ColWarnings) == Some(rec.warnings)
  {
  }

  /** The columns the consolidator reads that an index_improved.js row does not have. */
  lemma ImprovedMissingCells(rec: Improved.CsvRecord)
    ensures Cell(Improved.CsvRowOf(rec), ColUrlDate).None? && Cell(Improved.CsvRowOf(rec), ColViews).None?
    ensures Cell(Improved.CsvRowOf(rec), ColNewUsers).None? && Cell(Improved.CsvRowOf(rec), ColEngaged).None?
    ensures Cell(Improved.CsvRowOf(rec), ColBreakdown).None? && Cell(Improved.CsvRowOf(rec), ColInsights).None?
  {
  }
}
