/**
 * The read-only endpoints of the HTTP API over the consolidated store
 * (server/api.js; index.js serves the same handlers under the same paths):
 * health counts, general statistics with the period, the execution listing,
 * the per-URL summary, the detail of one execution and the history of one
 * URL. Each handler is a function of the loaded store; the two that build
 * their answer in a loop (`/api/urls` and the history of `/api/url`) are
 * methods proved equal to those functions.
 */
module Queries {
  import opened Wrappers
  import opened JsStrings
  import opened Seqs
  import opened Consolidator
  import opened UrlStats

  /** Every listed id has an execution. */
  predicate IdsListed(st: StoreValue)
  {
    forall id :: id in st.ids ==> id in st.data
  }

  // ----- /api/health and /api/stats -----

  /** The counts `/api/health` reports under `dataFile`. */
  datatype HealthInfo = HealthInfo(executions: int, urls: nat)

  function HealthOf(st: StoreValue): HealthInfo
  {
    HealthInfo(st.totalEjecuciones, |st.totalUrls|)
  }

  /**
   * After a merge, health reports the number of executions actually stored
   * and the number of distinct URLs ever seen.
   */
  lemma HealthAfterMerge(st: StoreValue, info: DateTimeInfo, filename: string, recs: seq<Record>)
    requires KeysAgree(st)
    ensures var st' := MergeInfo(st, info, filename, recs);
      && HealthOf(st').executions == |st'.data|
      && HealthOf(st').urls == |set u | u in st'.totalUrls|
  {
    var st' := MergeInfo(st, info, filename, recs);
    MergeData(st, info, filename, recs);
    MergeUrls(st, info, filename, recs);
    NoDupCard(st'.totalUrls, set u | u in st'.totalUrls);
  }

  datatype Period = Period(desde: string, hasta: string)

  /**
   * `periodo`: with more than one execution, the dates of the executions whose
   * ids come first and last in the default string order.
   */
  function PeriodOf(st: StoreValue): (p: Option<Period>)
    requires IdsListed(st)
    ensures p.None? <==> |st.ids| <= 1
    ensures p.Some? ==> exists first, last ::
      && first in st.ids && last in st.ids
      && (forall id :: id in st.ids ==> LexLe(first, id) && LexLe(id, last))
      && p.value == Period(st.data[first].metadata.fechaEjecucion, st.data[last].metadata.fechaEjecucion)
  {
    if |st.ids| <= 1 then None
    else
      var sorted := SortLex(st.ids);
      SortLexEnds(st.ids);
      Some(Period(st.data[sorted[0]].metadata.fechaEjecucion, st.data[sorted[|sorted| - 1]].metadata.fechaEjecucion))
  }

  /** The integer fields of the `/api/stats` answer. */
  datatype StatsInfo = StatsInfo(
    totalEjecuciones: int,
    urlsUnicas: nat,
    periodo: Option<Period>,
    urls: seq<string>,
    archivosOriginales: nat)

  function StatsOf(st: StoreValue): StatsInfo
    requires IdsListed(st)
  {
    StatsInfo(st.totalEjecuciones, |st.totalUrls|, PeriodOf(st), st.totalUrls, |st.archivos|)
  }

  // ----- /api/executions -----

  /** `{ id, ...metadata, urlsProcessed }` */
  datatype ExecutionRow = ExecutionRow(id: string, metadata: ExecMeta, urlsProcessed: nat)

  /** `Object.keys(data.data).map(...)`: one row per execution, in key order. */
  function RowsOf(st: StoreValue, ids: seq<string>): (r: seq<ExecutionRow>)
    requires forall id :: id in ids ==> id in st.data
    ensures |r| == |ids|
    ensures forall k :: 0 <= k < |ids| ==> r[k] == ExecutionRow(ids[k], st.data[ids[k]].metadata, |st.data[ids[k]].urlOrder|)
  {
    seq(|ids|, k requires 0 <= k < |ids| => ExecutionRow(ids[k], st.data[ids[k]].metadata, |st.data[ids[k]].urlOrder|))
  }

  /** The comparator `new Date(a.timestamp) - new Date(b.timestamp)`, as "may come before". */
  predicate EarlierOrSame(a: ExecutionRow, b: ExecutionRow)
  {
    a.metadata.timestamp <= b.metadata.timestamp
  }

  lemma EarlierOrSameTotal()
    ensures TotalPreorder(EarlierOrSame)
  {
  }

  /** The `executions` list of `/api/executions`. */
  function ExecutionsOf(st: StoreValue): seq<ExecutionRow>
    requires IdsListed(st)
  {
    Sort(RowsOf(st, st.ids), EarlierOrSame)
  }

  /**
   * Every execution is listed exactly once, with its metadata and its number
   * of URL keys, in non-decreasing timestamp order; executions with equal
   * timestamps keep their key order.
   */
  lemma ExecutionsCorrect(st: StoreValue)
    requires KeysAgree(st)
    ensures var r := ExecutionsOf(st);
      && |r| == |st.data|
      && multiset(r) == multiset(RowsOf(st, st.ids))
      && Sorted(r, EarlierOrSame)
      && (forall k :: 0 <= k < |r| ==>
            r[k].id in st.data && r[k].metadata == st.data[r[k].id].metadata && r[k].urlsProcessed == |st.data[r[k].id].urls|)
      && (forall id :: id in st.data ==> exists k :: 0 <= k < |r| && r[k].id == id)
      && (forall e :: Ties(r, EarlierOrSame, e) == Ties(RowsOf(st, st.ids), EarlierOrSame, e))
  {
    ExecutionsPermuted(st);
    ExecutionsSorted(st);
    ExecutionsFromStore(st);
    ExecutionsCover(st);
    ExecutionsStable(st);
  }

  /** One row per execution: the sorted list is a permutation of the rows in key order. */
  lemma ExecutionsPermuted(st: StoreValue)
    requires KeysAgree(st)
    ensures |ExecutionsOf(st)| == |st.data|
    ensures multiset(ExecutionsOf(st)) == multiset(RowsOf(st, st.ids))
  {
    NoDupCard(st.ids, st.data.Keys);
    SortPerm(RowsOf(st, st.ids), EarlierOrSame);
  }

  lemma ExecutionsSorted(st: StoreValue)
    requires IdsListed(st)
    ensures Sorted(ExecutionsOf(st), EarlierOrSame)
  {
    EarlierOrSameTotal();
    SortSorted(RowsOf(st, st.ids), EarlierOrSame);
  }

  /** Each row carries its execution's metadata and number of URL keys. */
  lemma ExecutionsFromStore(st: StoreValue)
    requires KeysAgree(st)
    ensures var r := ExecutionsOf(st);
      forall k :: 0 <= k < |r| ==>
        r[k].id in st.data && r[k].metadata == st.data[r[k].id].metadata && r[k].urlsProcessed == |st.data[r[k].id].urls|
  {
    var rows := RowsOf(st, st.ids);
    var r := ExecutionsOf(st);
    SortPerm(rows, EarlierOrSame);
    forall k | 0 <= k < |r|
      ensures r[k].id in st.data && r[k].metadata == st.data[r[k].id].metadata && r[k].urlsProcessed == |st.data[r[k].id].urls|
    {
      assert r[k] in multiset(rows);
      var j :| 0 <= j < |rows| && rows[j] == r[k];
      var e := st.data[st.ids[j]];
      NoDupCard(e.urlOrder, e.urls.Keys);
    }
  }

  /** Every execution has a row. */
  lemma ExecutionsCover(st: StoreValue)
    requires KeysAgree(st)
    ensures var r := ExecutionsOf(st);
      forall id :: id in st.data ==> exists k :: 0 <= k < |r| && r[k].id == id
  {
    var rows := RowsOf(st, st.ids);
    var r := ExecutionsOf(st);
    SortPerm(rows, EarlierOrSame);
    forall id | id in st.data
      ensures exists k :: 0 <= k < |r| && r[k].id == id
    {
      var j :| 0 <= j < |st.ids| && st.ids[j] == id;
      assert rows[j] in multiset(r);
      var k :| 0 <= k < |r| && r[k] == rows[j];
    }
  }

  /** Executions with equal timestamps keep their key order. */
  lemma ExecutionsStable(st: StoreValue)
    requires IdsListed(st)
    ensures forall e :: Ties(ExecutionsOf(st), EarlierOrSame, e) == Ties(RowsOf(st, st.ids), EarlierOrSame, e)
  {
    EarlierOrSameTotal();
    forall e
      ensures Ties(ExecutionsOf(st), EarlierOrSame, e) == Ties(RowsOf(st, st.ids), EarlierOrSame, e)
    {
      SortStable(RowsOf(st, st.ids), EarlierOrSame, e);
    }
  }

  // ----- /api/urls -----

  /** `tasaExito`, before `toFixed(2)` rounding. */
  function SuccessRate(s: UrlStat): real
    requires s.apariciones > 0
  {
    (s.datosExitosos as real / s.apariciones as real) * 100.0
  }

  /** The rate is a percentage, and it is 100 exactly when every appearance had data. */
  lemma SuccessRateBounds(s: UrlStat)
    requires s.apariciones > 0 && s.datosExitosos <= s.apariciones
    ensures 0.0 <= SuccessRate(s) <= 100.0
    ensures SuccessRate(s) == 100.0 <==> s.datosExitosos == s.apariciones
  {
    var a := s.apariciones as real;
    var d := s.datosExitosos as real;
    assert d / a <= 1.0 by {
      assert d <= a;
    }
    if SuccessRate(s) == 100.0 {
      assert d / a == 1.0;
      assert d == a;
    }
  }

  /** One element of the `urls` answer of `/api/urls` (its averages are outside the model). */
  datatype UrlSummary = UrlSummary(url: string, stat: UrlStat, tasaExito: real)

  /** Every key of the dictionary has a stat, counted at least once. */
  predicate Reportable(a: Aggregate)
  {
    forall u :: u in a.order ==> u in a.stats && a.stats[u].apariciones > 0
  }

  /** `Object.keys(urlStats).map(...)` */
  function SummaryRows(a: Aggregate): (r: seq<UrlSummary>)
    requires Reportable(a)
    ensures |r| == |a.order|
    ensures forall k :: 0 <= k < |r| ==> r[k] == UrlSummary(a.order[k], a.stats[a.order[k]], SuccessRate(a.stats[a.order[k]]))
  {
    seq(|a.order|, k requires 0 <= k < |a.order| => UrlSummary(a.order[k], a.stats[a.order[k]], SuccessRate(a.stats[a.order[k]])))
  }

  /** The comparator `b.totalVistas - a.totalVistas`, as "may come before". */
  predicate MoreViewed(a: UrlSummary, b: UrlSummary)
  {
    a.stat.totalVistas >= b.stat.totalVistas
  }

  lemma MoreViewedTotal()
    ensures TotalPreorder(MoreViewed)
  {
  }

  /** The `urls` answer of `/api/urls`. */
  function UrlsReportOf(st: StoreValue): seq<UrlSummary>
    requires KeysAgree(st)
  {
    StoreAggregate(st);
    Sort(SummaryRows(AggregateOf(StoreVisits(st, st.ids))), MoreViewed)
  }

  /** The `/api/urls` handler: the nested walk, then the map and the sort. */
  method UrlsReport(st: StoreValue) returns (total: nat, urls: seq<UrlSummary>)
    requires KeysAgree(st)
    ensures urls == UrlsReportOf(st) && total == |urls|
  {
    var stats, order := CollectUrlStats(st);
    StoreAggregate(st);
    var rows := SummaryRows(Aggregate(stats, order));
    urls := Sort(rows, MoreViewed);
    total := |urls|;
  }

  /**
   * Sorting the rows of a dictionary keeps one row per key, each with its
   * stat and rate, in non-increasing order of views.
   */
  lemma SortedSummaries(a: Aggregate)
    requires Reportable(a) && NoDup(a.order)
    ensures var r := Sort(SummaryRows(a), MoreViewed);
      && Sorted(r, MoreViewed)
      && (forall i, j :: 0 <= i < j < |r| ==> r[i].url != r[j].url)
      && (forall k :: 0 <= k < |r| ==> r[k].url in a.order && r[k].stat == a.stats[r[k].url] && r[k].tasaExito == SuccessRate(r[k].stat))
      && (forall u :: u in a.order ==> exists k :: 0 <= k < |r| && r[k].url == u)
  {
    MoreViewedTotal();
    SortSorted(SummaryRows(a), MoreViewed);
    SummariesDistinct(a);
    SummariesFromRows(a);
    SummariesCover(a);
  }

  /** Every sorted summary is one of the rows. */
  lemma SummariesInRows(a: Aggregate)
    requires Reportable(a)
    ensures var rows := SummaryRows(a);
      forall s :: s in Sort(rows, MoreViewed) ==> exists j :: 0 <= j < |rows| && rows[j] == s
  {
    var rows := SummaryRows(a);
    var r := Sort(rows, MoreViewed);
    SortPerm(rows, MoreViewed);
    forall s | s in r
      ensures exists j :: 0 <= j < |rows| && rows[j] == s
    {
      assert s in multiset(rows);
    }
  }

  lemma SummariesDistinct(a: Aggregate)
    requires Reportable(a) && NoDup(a.order)
    ensures var r := Sort(SummaryRows(a), MoreViewed);
      forall i, j :: 0 <= i < j < |r| ==> r[i].url != r[j].url
  {
    var rows := SummaryRows(a);
    var r := Sort(rows, MoreViewed);
    SortPerm(rows, MoreViewed);
    assert NoDup(rows) by {
      forall i, j | 0 <= i < j < |rows|
        ensures rows[i] != rows[j]
      {
        assert rows[i].url == a.order[i] && rows[j].url == a.order[j];
      }
    }
    NoDupPerm(rows, r);
    SummariesInRows(a);
    forall i, j | 0 <= i < j < |r|
      ensures r[i].url != r[j].url
    {
      assert r[i] in r && r[j] in r;
      var i' :| 0 <= i' < |rows| && rows[i'] == r[i];
      var j' :| 0 <= j' < |rows| && rows[j'] == r[j];
    }
  }

  lemma SummariesFromRows(a: Aggregate)
    requires Reportable(a)
    ensures var r := Sort(SummaryRows(a), MoreViewed);
      forall k :: 0 <= k < |r| ==> r[k].url in a.order && r[k].stat == a.stats[r[k].url] && r[k].tasaExito == SuccessRate(r[k].stat)
  {
    var rows := SummaryRows(a);
    var r := Sort(rows, MoreViewed);
    SummariesInRows(a);
    forall k | 0 <= k < |r|
      ensures r[k].url in a.order && r[k].stat == a.stats[r[k].url] && r[k].tasaExito == SuccessRate(r[k].stat)
    {
      assert r[k] in r;
      var j :| 0 <= j < |rows| && rows[j] == r[k];
    }
  }

  lemma SummariesCover(a: Aggregate)
    requires Reportable(a)
    ensures var r := Sort(SummaryRows(a), MoreViewed);
      forall u :: u in a.order ==> exists k :: 0 <= k < |r| && r[k].url == u
  {
    var rows := SummaryRows(a);
    var r := Sort(rows, MoreViewed);
    SortPerm(rows, MoreViewed);
    forall u | u in a.order
      ensures exists k :: 0 <= k < |r| && r[k].url == u
    {
      var j :| 0 <= j < |a.order| && a.order[j] == u;
      assert rows[j] in multiset(r);
      var k :| 0 <= k < |r| && r[k] == rows[j];
    }
  }

  /**
   * `/api/urls` lists each URL of some execution once, in non-increasing order
   * of total views; each stat is the reference tally over the executions
   * holding the URL, and `tasaExito` is its success percentage.
   */
  lemma UrlsReportCorrect(st: StoreValue)
    requires KeysAgree(st)
    ensures var r := UrlsReportOf(st);
      && Sorted(r, MoreViewed)
      && (forall i, j :: 0 <= i < j < |r| ==> r[i].url != r[j].url)
      && (forall k :: 0 <= k < |r| ==> exists id :: id in st.ids && r[k].url in st.data[id].urls)
      && (forall id, u :: id in st.ids && u in st.data[id].urls ==> exists k :: 0 <= k < |r| && r[k].url == u)
      && (forall k :: 0 <= k < |r| ==>
            && r[k].stat == ExecTally(st, st.ids, r[k].url)
            && r[k].stat.apariciones > 0
            && r[k].tasaExito == SuccessRate(r[k].stat))
  {
    UrlsReportOrdered(st);
    UrlsReportRows(st);
    UrlsReportCover(st);
  }

  lemma UrlsReportOrdered(st: StoreValue)
    requires KeysAgree(st)
    ensures var r := UrlsReportOf(st);
      && Sorted(r, MoreViewed)
      && (forall i, j :: 0 <= i < j < |r| ==> r[i].url != r[j].url)
  {
    StoreAggregate(st);
    var a := AggregateOf(StoreVisits(st, st.ids));
    MoreViewedTotal();
    SortSorted(SummaryRows(a), MoreViewed);
    SummariesDistinct(a);
    assert UrlsReportOf(st) == Sort(SummaryRows(a), MoreViewed);
  }

  lemma UrlsReportRows(st: StoreValue)
    requires KeysAgree(st)
    ensures var r := UrlsReportOf(st);
      forall k :: 0 <= k < |r| ==>
        && (exists id :: id in st.ids && r[k].url in st.data[id].urls)
        && r[k].stat == ExecTally(st, st.ids, r[k].url)
        && r[k].stat.apariciones > 0
        && r[k].tasaExito == SuccessRate(r[k].stat)
  {
    StoreAggregate(st);
    var a := AggregateOf(StoreVisits(st, st.ids));
    SummariesFromRows(a);
    var r := UrlsReportOf(st);
    assert r == Sort(SummaryRows(a), MoreViewed);
    forall k | 0 <= k < |r|
      ensures exists id :: id in st.ids && r[k].url in st.data[id].urls
      ensures r[k].stat == ExecTally(st, st.ids, r[k].url) && r[k].stat.apariciones > 0
    {
      assert r[k].url in a.stats;
    }
  }

  lemma UrlsReportCover(st: StoreValue)
    requires KeysAgree(st)
    ensures var r := UrlsReportOf(st);
      forall id, u :: id in st.ids && u in st.data[id].urls ==> exists k :: 0 <= k < |r| && r[k].url == u
  {
    StoreAggregate(st);
    var a := AggregateOf(StoreVisits(st, st.ids));
    SummariesCover(a);
    var r := UrlsReportOf(st);
    assert r == Sort(SummaryRows(a), MoreViewed);
    forall id, u | id in st.ids && u in st.data[id].urls
      ensures exists k :: 0 <= k < |r| && r[k].url == u
    {
      assert u in a.stats;
    }
  }

  /** Views tie exactly when equal: the sort keeps the first-appearance order of URLs with the same total views. */
  lemma UrlsReportStable(st: StoreValue, e: UrlSummary)
    requires KeysAgree(st)
    ensures (StoreAggregate(st);
             Ties(UrlsReportOf(st), MoreViewed, e) == Ties(SummaryRows(AggregateOf(StoreVisits(st, st.ids))), MoreViewed, e))
  {
    StoreAggregate(st);
    MoreViewedTotal();
    SortStable(SummaryRows(AggregateOf(StoreVisits(st, st.ids))), MoreViewed, e);
  }

  // ----- /api/execution/:id -----

  /** The `summary` of `/api/execution/:id`. */
  datatype DetailSummary = DetailSummary(
    totalUrls: nat,
    urlsConDatos: nat,
    totalVistas: int,
    totalSesiones: int,
    totalUsuarios: int)

  /** Counts and sums over the entries of `keys`, the key order of `urls`. */
  function SummaryOver(urls: map<string, UrlEntry>, keys: seq<string>): (r: DetailSummary)
    requires forall u :: u in keys ==> u in urls
    ensures r.totalUrls == |keys| && r.urlsConDatos <= r.totalUrls
  {
    if keys == [] then DetailSummary(0, 0, 0, 0, 0)
    else
      var t := SummaryOver(urls, keys[..|keys| - 1]);
      var x := urls[keys[|keys| - 1]];
      DetailSummary(
        t.totalUrls + 1,
        t.urlsConDatos + (if x.datosEncontrados then 1 else 0),
        t.totalVistas + x.metrics.vistas,
        t.totalSesiones + x.metrics.sesiones,
        t.totalUsuarios + x.metrics.usuariosActivos)
  }

  datatype Detail =
    | ExecutionNotFound(id: string, available: seq<string>)
    | ExecutionFound(id: string, execution: Execution, summary: DetailSummary)

  /** Unknown ids get a 404 carrying every id; a known one its execution and summary. */
  function DetailOf(st: StoreValue, id: string): (d: Detail)
    requires forall x :: x in st.data ==> ExecKeysAgree(st.data[x])
    ensures d.ExecutionNotFound? <==> id !in st.data
    ensures d.ExecutionNotFound? ==> d == ExecutionNotFound(id, st.ids)
    ensures d.ExecutionFound? ==> d.id == id && d.execution == st.data[id]
    ensures d.ExecutionFound? ==> d.summary.totalUrls == |st.data[id].urls| && d.summary.urlsConDatos <= d.summary.totalUrls
    ensures d.ExecutionFound? ==>
      && (forall u :: u in st.data[id].urlOrder ==> u in st.data[id].urls)
      && d.summary == SummaryOver(st.data[id].urls, st.data[id].urlOrder)
  {
    if id !in st.data then ExecutionNotFound(id, st.ids)
    else
      var e := st.data[id];
      assert ExecKeysAgree(e);
      assert forall u :: u in e.urls.Keys <==> u in e.urlOrder;
      NoDupCard(e.urlOrder, e.urls.Keys);
      ExecutionFound(id, e, SummaryOver(e.urls, e.urlOrder))
  }

  /**
   * Over the execution built from a file whose URLs are distinct, the summary
   * counts the rows and the rows with data found: it agrees with the
   * metadata's `totalUrls` and `urlsExitosas`.
   */
  lemma DetailOfFileExecution(info: DateTimeInfo, filename: string, recs: seq<Record>)
    requires NoDup(UrlsOf(recs))
    ensures forall u :: u in ExecutionOf(info, filename, recs).urlOrder ==> u in ExecutionOf(info, filename, recs).urls
    ensures var e := ExecutionOf(info, filename, recs);
      && SummaryOver(e.urls, e.urlOrder).totalUrls == e.metadata.totalUrls
      && SummaryOver(e.urls, e.urlOrder).urlsConDatos == e.metadata.urlsExitosas
  {
    var m := UrlMap(recs);
    ExecutionKeysAgree(info, filename, recs);
    forall k | 0 <= k < |recs|
      ensures recs[k].url in m && m[recs[k].url] == recs[k].entry
    {
      forall j | k < j < |recs|
        ensures recs[j].url != recs[k].url
      {
        assert UrlsOf(recs)[j] != UrlsOf(recs)[k];
      }
      UrlMapLastWins(recs, k);
    }
    DistinctOfNoDup(UrlsOf(recs));
    SummaryOfRows(m, recs);
  }

  lemma {:induction false} SummaryOfRows(m: map<string, UrlEntry>, recs: seq<Record>)
    requires forall k :: 0 <= k < |recs| ==> recs[k].url in m && m[recs[k].url] == recs[k].entry
    ensures forall u :: u in UrlsOf(recs) ==> u in m
    ensures SummaryOver(m, UrlsOf(recs)).urlsConDatos == CountFound(recs)
  {
    if recs != [] {
      var n := |recs|;
      var init := recs[..n - 1];
      assert forall k :: 0 <= k < |init| ==> init[k] == recs[k];
      SummaryOfRows(m, init);
      assert UrlsOf(recs)[..n - 1] == UrlsOf(init);
    }
  }

  /**
   * The two counts named `urlsConDatos` differ: the summary counts entries with
   * data found, the metadata rows with views. One row found with no views
   * gives 1 and 0.
   */
  lemma DetailCountsDifferFromMetadata(info: DateTimeInfo, filename: string, rec: Record)
    requires rec.entry.datosEncontrados && rec.entry.metrics.vistas == 0
    ensures var e := ExecutionOf(info, filename, [rec]);
      SummaryOver(e.urls, e.urlOrder).urlsConDatos == 1 && e.metadata.urlsConDatos == 0
  {
    var recs := [rec];
    assert UrlsOf(recs) == [rec.url];
    DetailOfFileExecution(info, filename, recs);
    assert recs[..0] == [];
    assert CountFound(recs) == 1;
    assert CountWithViews(recs) == 0;
  }

  // ----- /api/url/:urlPath -----

  /** One of the two, lower-cased, contains the other. */
  predicate Matches(url: string, q: string)
  {
    Includes(ToLower(url), ToLower(q)) || Includes(ToLower(q), ToLower(url))
  }

  /** `totalUrls.filter(...)`: the matching URLs, in list order. */
  function Matching(urls: seq<string>, q: string): (r: seq<string>)
    ensures forall u :: u in r <==> u in urls && Matches(u, q)
    ensures r != [] ==> exists k :: 0 <= k < |urls| && urls[k] == r[0] && forall j :: 0 <= j < k ==> !Matches(urls[j], q)
  {
    if urls == [] then []
    else
      var rest := Matching(urls[1..], q);
      if Matches(urls[0], q) then [urls[0]] + rest
      else
        FirstMatchPastHead(urls, q, rest);
        rest
  }

  /** When the head does not match, the first match of the tail is the first match of the list. */
  lemma FirstMatchPastHead(urls: seq<string>, q: string, rest: seq<string>)
    requires urls != [] && !Matches(urls[0], q)
    requires rest != [] ==> exists k :: 0 <= k < |urls[1..]| && urls[1..][k] == rest[0] && forall j :: 0 <= j < k ==> !Matches(urls[1..][j], q)
    ensures rest != [] ==> exists k :: 0 <= k < |urls| && urls[k] == rest[0] && forall j :: 0 <= j < k ==> !Matches(urls[j], q)
  {
    if rest != [] {
      var k :| 0 <= k < |urls[1..]| && urls[1..][k] == rest[0] && forall j :: 0 <= j < k ==> !Matches(urls[1..][j], q);
      assert urls[k + 1] == rest[0];
      forall j | 0 <= j < k + 1
        ensures !Matches(urls[j], q)
      {
        if j > 0 {
          assert urls[j] == urls[1..][j - 1];
        }
      }
    }
  }

  /** The exact form `/${q}/` the handler prefers. */
  function ExactForm(q: string): string
  {
    "/" + q + "/"
  }

  /** Lower-casing works character by character, so it distributes over concatenation. */
  lemma ToLowerConcat(a: string, b: string)
    ensures ToLower(a + b) == ToLower(a) + ToLower(b)
  {
  }

  /** The exact form always matches its query. */
  lemma ExactFormMatches(q: string)
    ensures Matches(ExactForm(q), q)
  {
    ToLowerConcat("/" + q, "/");
    ToLowerConcat("/", q);
    var l := ToLower(ExactForm(q));
    assert l == ToLower("/") + ToLower(q) + ToLower("/");
    assert l[1..1 + |q|] == ToLower(q);
    assert OccursAt(l, ToLower(q), 1);
    IncludesIff(l, ToLower(q));
  }

  datatype Target = NoMatch(searchTerm: string, availableUrls: seq<string>) | TargetUrl(url: string)

  /** `matchingUrls.find(url => url === '/q/') || matchingUrls[0]`, or the 404 when nothing matches. */
  function FindTarget(urls: seq<string>, q: string): (t: Target)
    ensures t.NoMatch? <==> forall u :: u in urls ==> !Matches(u, q)
    ensures t.NoMatch? ==> t == NoMatch(q, urls)
    ensures t.TargetUrl? ==> t.url in urls && Matches(t.url, q)
    ensures ExactForm(q) in urls ==> t == TargetUrl(ExactForm(q))
    ensures t.TargetUrl? && ExactForm(q) !in urls ==>
      exists k :: 0 <= k < |urls| && urls[k] == t.url && forall j :: 0 <= j < k ==> !Matches(urls[j], q)
  {
    var matching := Matching(urls, q);
    ExactFormMatches(q);
    if matching == [] then NoMatch(q, urls)
    else
      assert matching[0] in matching;
      TargetUrl(if ExactForm(q) in matching then ExactForm(q) else matching[0])
  }

  /** `{ ejecucionId, fecha, hora, timestamp, ...urls[target] }` */
  datatype HistoryEntry = HistoryEntry(ejecucionId: string, fecha: string, hora: string, timestamp: int, entry: UrlEntry)

  function EntryOf(st: StoreValue, id: string, target: string): HistoryEntry
    requires id in st.data && target in st.data[id].urls
  {
    var e := st.data[id];
    HistoryEntry(id, e.metadata.fechaEjecucion, e.metadata.horaEjecucion, e.metadata.timestamp, e.urls[target])
  }

  /** The executions among `ids` that hold `target`, in key order. */
  function HistoryOf(st: StoreValue, ids: seq<string>, target: string): (r: seq<HistoryEntry>)
    requires forall id :: id in ids ==> id in st.data
    ensures forall h :: h in r ==> h.ejecucionId in ids && target in st.data[h.ejecucionId].urls && h == EntryOf(st, h.ejecucionId, target)
    ensures forall id :: id in ids && target in st.data[id].urls ==> EntryOf(st, id, target) in r
  {
    if ids == [] then []
    else
      var id := ids[|ids| - 1];
      var init := ids[..|ids| - 1];
      assert forall x :: x in ids <==> x in init || x == id;
      HistoryOf(st, init, target) + (if target in st.data[id].urls then [EntryOf(st, id, target)] else [])
  }

  /** The `urlHistory` loop: push the entry of every execution that holds the target. */
  method CollectHistory(st: StoreValue, target: string) returns (history: seq<HistoryEntry>)
    requires IdsListed(st)
    ensures history == HistoryOf(st, st.ids, target)
  {
    history := [];
    var i := 0;
    while i < |st.ids|
      invariant 0 <= i <= |st.ids|
      invariant history == HistoryOf(st, st.ids[..i], target)
    {
      var id := st.ids[i];
      var ejecucion := st.data[id];
      assert st.ids[..i + 1][..i] == st.ids[..i];
      if target in ejecucion.urls {
        history := history + [HistoryEntry(id, ejecucion.metadata.fechaEjecucion, ejecucion.metadata.horaEjecucion,
                                           ejecucion.metadata.timestamp, ejecucion.urls[target])];
      }
      i := i + 1;
    }
    assert st.ids[..|st.ids|] == st.ids;
  }

  /** The comparator `new Date(a.timestamp) - new Date(b.timestamp)` on history entries. */
  predicate HistoryOrder(a: HistoryEntry, b: HistoryEntry)
  {
    a.timestamp <= b.timestamp
  }

  lemma HistoryOrderTotal()
    ensures TotalPreorder(HistoryOrder)
  {
  }

  /** The integer part of the `summary` of `/api/url/:urlPath`. */
  datatype HistoryTotals = HistoryTotals(totalVistas: int, totalSesiones: int, totalUsuarios: int)

  /** The three `reduce` sums over a history. */
  function TotalsOf(h: seq<HistoryEntry>): HistoryTotals
  {
    if h == [] then HistoryTotals(0, 0, 0)
    else
      var t := TotalsOf(h[1..]);
      var m := h[0].entry.metrics;
      HistoryTotals(m.vistas + t.totalVistas, m.sesiones + t.totalSesiones, m.usuariosActivos + t.totalUsuarios)
  }

  datatype UrlAnswer =
    | UrlNotFound(searchTerm: string, availableUrls: seq<string>)
    | UrlFound(url: string, totalEjecuciones: nat, history: seq<HistoryEntry>, summary: HistoryTotals)

  /**
   * The answer of `/api/url/:urlPath`. The sums are taken over `urlHistory`
   * after the sort: `sort` works in place, and the summary is evaluated after
   * the `history` property.
   */
  function UrlAnswerOf(st: StoreValue, q: string): UrlAnswer
    requires IdsListed(st)
  {
    match FindTarget(st.totalUrls, q)
    case NoMatch(term, available) => UrlNotFound(term, available)
    case TargetUrl(u) =>
      var h := Sort(HistoryOf(st, st.ids, u), HistoryOrder);
      UrlFound(u, |h|, h, TotalsOf(h))
  }

  /** The `/api/url/:urlPath` handler. */
  method UrlDetails(st: StoreValue, q: string) returns (answer: UrlAnswer)
    requires IdsListed(st)
    ensures answer == UrlAnswerOf(st, q)
  {
    var target := FindTarget(st.totalUrls, q);
    if target.NoMatch? {
      return UrlNotFound(target.searchTerm, target.availableUrls);
    }
    var history := CollectHistory(st, target.url);
    history := Sort(history, HistoryOrder);
    answer := UrlFound(target.url, |history|, history, TotalsOf(history));
  }

  lemma {:induction false} TotalsInsert(x: HistoryEntry, s: seq<HistoryEntry>)
    ensures TotalsOf(Insert(x, s, HistoryOrder)) == TotalsOf([x] + s)
  {
    if s != [] && HistoryOrder(s[0], x) {
      TotalsInsert(x, s[1..]);
      assert ([x] + s)[1..] == s;
      assert ([s[0]] + Insert(x, s[1..], HistoryOrder))[1..] == Insert(x, s[1..], HistoryOrder);
      assert ([x] + s[1..])[1..] == s[1..];
      assert s == [s[0]] + s[1..];
    }
  }

  lemma {:induction false} TotalsSnoc(s: seq<HistoryEntry>, x: HistoryEntry)
    ensures TotalsOf(s + [x]) == TotalsOf([x] + s)
  {
    if s != [] {
      TotalsSnoc(s[1..], x);
      assert (s + [x])[1..] == s[1..] + [x];
      assert ([x] + s)[1..] == s;
      assert ([x] + s[1..])[1..] == s[1..];
    }
  }

  /** Sorting does not change the sums. */
  lemma {:induction false} TotalsSort(s: seq<HistoryEntry>)
    ensures TotalsOf(Sort(s, HistoryOrder)) == TotalsOf(s)
  {
    if s != [] {
      var init, x := s[..|s| - 1], s[|s| - 1];
      TotalsSort(init);
      TotalsInsert(x, Sort(init, HistoryOrder));
      assert ([x] + Sort(init, HistoryOrder))[1..] == Sort(init, HistoryOrder);
      assert ([x] + init)[1..] == init;
      TotalsSnoc(init, x);
      assert init + [x] == s;
    }
  }

  /** Appending one entry adds its metrics to the sums. */
  lemma TotalsAppend(h: seq<HistoryEntry>, x: HistoryEntry)
    ensures var t, m := TotalsOf(h), x.entry.metrics;
      TotalsOf(h + [x]) == HistoryTotals(m.vistas + t.totalVistas, m.sesiones + t.totalSesiones, m.usuariosActivos + t.totalUsuarios)
  {
    TotalsSnoc(h, x);
    assert ([x] + h)[1..] == h;
  }

  /** The history and the reference tally of `/api/urls` count the same executions and add the same metrics. */
  lemma {:induction false} HistoryIsTally(st: StoreValue, ids: seq<string>, u: string)
    requires forall id :: id in ids ==> id in st.data
    ensures var h, c := HistoryOf(st, ids, u), ExecTally(st, ids, u);
      && |h| == c.apariciones
      && TotalsOf(h) == HistoryTotals(c.totalVistas, c.totalSesiones, c.totalUsuarios)
  {
    if ids != [] {
      var id, init := ids[|ids| - 1], ids[..|ids| - 1];
      assert forall x :: x in init ==> x in ids;
      HistoryIsTally(st, init, u);
      var h := HistoryOf(st, init, u);
      var t := ExecTally(st, init, u);
      var c := ExecTally(st, ids, u);
      if u in st.data[id].urls {
        var x := EntryOf(st, id, u);
        var e := st.data[id];
        assert HistoryOf(st, ids, u) == h + [x];
        TotalsAppend(h, x);
        assert c == Plus(t, One(Visit(id, e.metadata.fechaEjecucion, u, e.urls[u])));
      } else {
        assert HistoryOf(st, ids, u) == h + [];
        assert h + [] == h;
        assert c == t;
      }
    }
  }

  /**
   * The history of the target holds exactly the executions that contain it,
   * each once, sorted by non-decreasing timestamp; its length and sums are
   * those `/api/urls` reports for the same URL.
   */
  lemma UrlAnswerCorrect(st: StoreValue, q: string)
    requires KeysAgree(st)
    requires UrlAnswerOf(st, q).UrlFound?
    ensures var a := UrlAnswerOf(st, q);
      && a.url in st.totalUrls && Matches(a.url, q)
      && Sorted(a.history, HistoryOrder)
      && (forall h :: h in a.history ==> h.ejecucionId in st.data && a.url in st.data[h.ejecucionId].urls && h == EntryOf(st, h.ejecucionId, a.url))
      && (forall id :: id in st.data && a.url in st.data[id].urls ==> EntryOf(st, id, a.url) in a.history)
      && a.totalEjecuciones == |a.history| == ExecTally(st, st.ids, a.url).apariciones
      && a.summary.totalVistas == ExecTally(st, st.ids, a.url).totalVistas
      && a.summary.totalSesiones == ExecTally(st, st.ids, a.url).totalSesiones
      && a.summary.totalUsuarios == ExecTally(st, st.ids, a.url).totalUsuarios
  {
    var a := UrlAnswerOf(st, q);
    var u := a.url;
    var raw := HistoryOf(st, st.ids, u);
    SortPerm(raw, HistoryOrder);
    HistoryOrderTotal();
    SortSorted(raw, HistoryOrder);
    TotalsSort(raw);
    HistoryIsTally(st, st.ids, u);
    forall h | h in a.history
      ensures h.ejecucionId in st.data && u in st.data[h.ejecucionId].urls && h == EntryOf(st, h.ejecucionId, u)
    {
      assert h in multiset(raw);
    }
    forall id | id in st.data && u in st.data[id].urls
      ensures EntryOf(st, id, u) in a.history
    {
      assert EntryOf(st, id, u) in multiset(a.history);
    }
  }
}
