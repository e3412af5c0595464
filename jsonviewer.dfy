/**
 * The command-line viewer of the consolidated store (scripts/json-viewer.js):
 * general statistics, the execution history, the per-URL summary and the
 * detail of one execution, chosen by the first argument. Each screen is the
 * value the script prints, without its layout; the per-URL summary is built
 * by the same nested walk as `/api/urls`.
 */
module JsonViewer {
  import opened Wrappers
  import opened Seqs
  import opened Consolidator
  import opened UrlStats
  import opened Queries

  // ----- showGeneralStats -----

  /** The counts and the period of the statistics screen (the last update time is outside the model). */
  datatype GeneralStats = GeneralStats(totalEjecuciones: int, urlsUnicas: nat, periodo: Option<Period>)

  function GeneralStatsOf(st: StoreValue): (g: GeneralStats)
    requires IdsListed(st)
    ensures g.totalEjecuciones == st.totalEjecuciones && g.urlsUnicas == |st.totalUrls|
    ensures g.periodo.None? <==> |st.ids| <= 1
    ensures g.periodo == PeriodOf(st)
    ensures g.periodo.Some? ==> exists first, last ::
      && first in st.ids && last in st.ids
      && (forall id :: id in st.ids ==> LexLe(first, id) && LexLe(id, last))
      && g.periodo.value == Period(st.data[first].metadata.fechaEjecucion, st.data[last].metadata.fechaEjecucion)
  {
    GeneralStats(st.totalEjecuciones, |st.totalUrls|, PeriodOf(st))
  }

  // ----- showExecutions -----

  /** One entry of the history: its position from 1, its mark and the fields it prints. */
  datatype ExecutionLine = ExecutionLine(
    position: nat, complete: bool, id: string, fecha: string, hora: string, urlsConDatos: int, totalUrls: int)

  function ExecutionLineOf(position: nat, row: ExecutionRow): ExecutionLine
  {
    var m := row.metadata;
    ExecutionLine(position, m.urlsExitosas == m.totalUrls, row.id, m.fechaEjecucion, m.horaEjecucion, m.urlsConDatos, m.totalUrls)
  }

  /** The history screen: the executions sorted by timestamp, numbered from 1. */
  function ExecutionLines(st: StoreValue): (r: seq<ExecutionLine>)
    requires IdsListed(st)
    ensures |r| == |ExecutionsOf(st)|
    ensures forall k :: 0 <= k < |r| ==> r[k] == ExecutionLineOf(k + 1, ExecutionsOf(st)[k])
  {
    var rows := ExecutionsOf(st);
    seq(|rows|, k requires 0 <= k < |rows| => ExecutionLineOf(k + 1, rows[k]))
  }

  /**
   * Each line of the history is numbered from 1 and shows the metadata of
   * its execution, marked ✅ exactly when all its URLs succeeded.
   */
  lemma ExecutionLinesCorrect(st: StoreValue)
    requires KeysAgree(st)
    ensures var r := ExecutionLines(st);
      && (forall k :: 0 <= k < |r| ==> r[k].position == k + 1 && r[k].id in st.data)
      && (forall k :: 0 <= k < |r| ==>
            var m := st.data[r[k].id].metadata;
            && (r[k].complete <==> m.urlsExitosas == m.totalUrls)
            && r[k].fecha == m.fechaEjecucion && r[k].hora == m.horaEjecucion
            && r[k].urlsConDatos == m.urlsConDatos && r[k].totalUrls == m.totalUrls)
  {
    var rows := ExecutionsOf(st);
    var r := ExecutionLines(st);
    ExecutionsFromStore(st);
    forall k | 0 <= k < |r|
      ensures r[k].position == k + 1 && r[k].id in st.data
      ensures var m := st.data[r[k].id].metadata;
        && (r[k].complete <==> m.urlsExitosas == m.totalUrls)
        && r[k].fecha == m.fechaEjecucion && r[k].hora == m.horaEjecucion
        && r[k].urlsConDatos == m.urlsConDatos && r[k].totalUrls == m.totalUrls
    {
      ExecutionLineFields(k + 1, rows[k], st.data[rows[k].id].metadata);
    }
  }

  /** Every execution of the store has a line in the history. */
  lemma ExecutionLinesCover(st: StoreValue)
    requires KeysAgree(st)
    ensures var r := ExecutionLines(st);
      && |r| == |st.data|
      && forall id :: id in st.data ==> exists k :: 0 <= k < |r| && r[k].id == id
  {
    var rows := ExecutionsOf(st);
    var r := ExecutionLines(st);
    ExecutionsPermuted(st);
    ExecutionsCover(st);
    forall id | id in st.data
      ensures exists k :: 0 <= k < |r| && r[k].id == id
    {
      var k :| 0 <= k < |rows| && rows[k].id == id;
      assert r[k].id == id;
    }
  }

  /** The history lists the executions in non-decreasing timestamp order. */
  lemma ExecutionLinesSorted(st: StoreValue)
    requires KeysAgree(st)
    ensures var r := ExecutionLines(st);
      forall i, j :: 0 <= i < j < |r| ==>
        && r[i].id in st.data && r[j].id in st.data
        && st.data[r[i].id].metadata.timestamp <= st.data[r[j].id].metadata.timestamp
  {
    var rows := ExecutionsOf(st);
    var r := ExecutionLines(st);
    ExecutionsFromStore(st);
    ExecutionsSorted(st);
    forall i, j | 0 <= i < j < |r|
      ensures r[i].id in st.data && r[j].id in st.data
      ensures st.data[r[i].id].metadata.timestamp <= st.data[r[j].id].metadata.timestamp
    {
      assert EarlierOrSame(rows[i], rows[j]);
    }
  }

  /** A line prints its row's metadata, marked ✅ exactly when all URLs succeeded. */
  lemma ExecutionLineFields(position: nat, row: ExecutionRow, m: ExecMeta)
    requires row.metadata == m
    ensures var line := ExecutionLineOf(position, row);
      && line.position == position && line.id == row.id
      && (line.complete <==> m.urlsExitosas == m.totalUrls)
      && line.fecha == m.fechaEjecucion && line.hora == m.horaEjecucion
      && line.urlsConDatos == m.urlsConDatos && line.totalUrls == m.totalUrls
  {
  }

  // ----- showURLSummary -----

  /** One entry of the URL summary (its averages of engagement and bounce are outside the model). */
  datatype UrlLine = UrlLine(
    position: nat, allFound: bool, url: string,
    totalVistas: int, totalSesiones: int, totalUsuarios: int, datosExitosos: nat, apariciones: nat)

  function UrlLineOf(position: nat, s: UrlSummary): UrlLine
  {
    UrlLine(position, s.stat.datosExitosos == s.stat.apariciones, s.url,
            s.stat.totalVistas, s.stat.totalSesiones, s.stat.totalUsuarios, s.stat.datosExitosos, s.stat.apariciones)
  }

  /** Numbers the sorted summaries from 1. */
  function UrlLinesOf(urls: seq<UrlSummary>): (r: seq<UrlLine>)
    ensures |r| == |urls|
    ensures forall k :: 0 <= k < |r| ==> r[k] == UrlLineOf(k + 1, urls[k])
  {
    seq(|urls|, k requires 0 <= k < |urls| => UrlLineOf(k + 1, urls[k]))
  }

  /** The URL summary screen: the per-URL walk, then the sort by total views. */
  method UrlSummaryScreen(st: StoreValue) returns (lines: seq<UrlLine>)
    requires KeysAgree(st)
    ensures lines == UrlLinesOf(UrlsReportOf(st))
  {
    var _, urls := UrlsReport(st);
    lines := UrlLinesOf(urls);
  }

  /**
   * The URL summary lists every URL of some execution once, numbered from 1
   * in non-increasing order of total views, with the reference tally of the
   * executions holding it; it is marked ✅ exactly when every appearance had
   * data, which is when its success rate is 100.
   */
  lemma UrlLinesCorrect(st: StoreValue)
    requires KeysAgree(st)
    ensures var r := UrlLinesOf(UrlsReportOf(st));
      && (forall i, j :: 0 <= i < j < |r| ==> r[i].totalVistas >= r[j].totalVistas && r[i].url != r[j].url)
      && (forall id, u :: id in st.ids && u in st.data[id].urls ==> exists k :: 0 <= k < |r| && r[k].url == u)
      && (forall k :: 0 <= k < |r| ==> exists id :: id in st.ids && r[k].url in st.data[id].urls)
      && (forall k :: 0 <= k < |r| ==>
            var t := ExecTally(st, st.ids, r[k].url);
            && r[k].position == k + 1
            && r[k].apariciones == t.apariciones > 0 && r[k].datosExitosos == t.datosExitosos
            && r[k].totalVistas == t.totalVistas && r[k].totalSesiones == t.totalSesiones
            && r[k].totalUsuarios == t.totalUsuarios
            && (r[k].allFound <==> SuccessRate(t) == 100.0))
  {
    UrlsReportRows(st);
    UrlLinesOrdered(st);
    UrlLinesCover(st);
    UrlLinesTallies(st);
  }

  /** The summary lines go by non-increasing total views, one line per URL. */
  lemma UrlLinesOrdered(st: StoreValue)
    requires KeysAgree(st)
    ensures var r := UrlLinesOf(UrlsReportOf(st));
      forall i, j :: 0 <= i < j < |r| ==> r[i].totalVistas >= r[j].totalVistas && r[i].url != r[j].url
  {
    var urls := UrlsReportOf(st);
    var r := UrlLinesOf(urls);
    UrlsReportOrdered(st);
    forall i, j | 0 <= i < j < |r|
      ensures r[i].totalVistas >= r[j].totalVistas && r[i].url != r[j].url
    {
      assert MoreViewed(urls[i], urls[j]);
    }
  }

  /** Every URL of some execution has a line. */
  lemma UrlLinesCover(st: StoreValue)
    requires KeysAgree(st)
    ensures var r := UrlLinesOf(UrlsReportOf(st));
      forall id, u :: id in st.ids && u in st.data[id].urls ==> exists k :: 0 <= k < |r| && r[k].url == u
  {
    var urls := UrlsReportOf(st);
    var r := UrlLinesOf(urls);
    UrlsReportCover(st);
    forall id, u | id in st.ids && u in st.data[id].urls
      ensures exists k :: 0 <= k < |r| && r[k].url == u
    {
      var k :| 0 <= k < |urls| && urls[k].url == u;
      assert r[k].url == u;
    }
  }

  /** Each line shows its URL's reference tally, marked exactly when the success rate is 100. */
  lemma UrlLinesTallies(st: StoreValue)
    requires KeysAgree(st)
    ensures var r := UrlLinesOf(UrlsReportOf(st));
      forall k :: 0 <= k < |r| ==>
        var t := ExecTally(st, st.ids, r[k].url);
        && r[k].position == k + 1
        && r[k].apariciones == t.apariciones > 0 && r[k].datosExitosos == t.datosExitosos
        && r[k].totalVistas == t.totalVistas && r[k].totalSesiones == t.totalSesiones
        && r[k].totalUsuarios == t.totalUsuarios
        && (r[k].allFound <==> SuccessRate(t) == 100.0)
  {
    var urls := UrlsReportOf(st);
    var r := UrlLinesOf(urls);
    UrlsReportRows(st);
    forall k | 0 <= k < |r|
      ensures var t := ExecTally(st, st.ids, r[k].url);
        && r[k].position == k + 1
        && r[k].apariciones == t.apariciones > 0 && r[k].datosExitosos == t.datosExitosos
        && r[k].totalVistas == t.totalVistas && r[k].totalSesiones == t.totalSesiones
        && r[k].totalUsuarios == t.totalUsuarios
        && (r[k].allFound <==> SuccessRate(t) == 100.0)
    {
      assert urls[k].stat == ExecTally(st, st.ids, r[k].url);
      SuccessRateBounds(urls[k].stat);
    }
  }

  // ----- showExecutionDetail -----

  /** The integer metrics shown for a URL with data; a URL without data shows none. */
  datatype ShownMetrics = ShownMetrics(vistas: int, sesiones: int, usuarios: int)

  datatype DetailLine = DetailLine(position: nat, url: string, found: bool, metrics: Option<ShownMetrics>)

  function DetailLineOf(position: nat, url: string, entry: UrlEntry): DetailLine
  {
    DetailLine(position, url, entry.datosEncontrados,
      if entry.datosEncontrados then Some(ShownMetrics(entry.metrics.vistas, entry.metrics.sesiones, entry.metrics.usuariosActivos))
      else None)
  }

  /** The URLs of the execution in key order, numbered from 1. */
  function DetailLines(e: Execution): (r: seq<DetailLine>)
    requires forall u :: u in e.urlOrder ==> u in e.urls
    ensures |r| == |e.urlOrder|
    ensures forall k :: 0 <= k < |r| ==> r[k] == DetailLineOf(k + 1, e.urlOrder[k], e.urls[e.urlOrder[k]])
  {
    seq(|e.urlOrder|, k requires 0 <= k < |e.urlOrder| => DetailLineOf(k + 1, e.urlOrder[k], e.urls[e.urlOrder[k]]))
  }

  datatype DetailScreen =
    | UnknownExecution(id: string, available: seq<string>)
    | ExecutionDetail(id: string, metadata: ExecMeta, lines: seq<DetailLine>)

  function DetailScreenOf(st: StoreValue, id: string): DetailScreen
    requires forall x :: x in st.data ==> ExecKeysAgree(st.data[x])
  {
    if id !in st.data then UnknownExecution(id, st.ids)
    else
      var e := st.data[id];
      assert ExecKeysAgree(e);
      ExecutionDetail(id, e.metadata, DetailLines(e))
  }

  /**
   * An unknown id prints only the error and every id of the store; a known
   * one its metadata and each of its URLs once, in key order, with metrics
   * exactly for those with data.
   */
  lemma DetailScreenCorrect(st: StoreValue, id: string)
    requires forall x :: x in st.data ==> ExecKeysAgree(st.data[x])
    ensures var d := DetailScreenOf(st, id);
      && (d.UnknownExecution? <==> id !in st.data)
      && (d.UnknownExecution? ==> d.available == st.ids)
      && (d.ExecutionDetail? ==>
            && d.metadata == st.data[id].metadata
            && |d.lines| == |st.data[id].urls|
            && (forall u :: u in st.data[id].urls <==> exists k :: 0 <= k < |d.lines| && d.lines[k].url == u)
            && (forall k :: 0 <= k < |d.lines| ==>
                  var entry := st.data[id].urls[d.lines[k].url];
                  && d.lines[k].position == k + 1
                  && (d.lines[k].found <==> entry.datosEncontrados)
                  && (d.lines[k].metrics.Some? <==> entry.datosEncontrados)))
  {
    if id in st.data {
      DetailLinesCorrect(st.data[id]);
    }
  }

  /** The detail lines of an execution: each of its URLs once, numbered, with metrics exactly when found. */
  lemma DetailLinesCorrect(e: Execution)
    requires ExecKeysAgree(e)
    ensures var lines := DetailLines(e);
      && |lines| == |e.urls|
      && (forall u :: u in e.urls <==> exists k :: 0 <= k < |lines| && lines[k].url == u)
      && (forall k :: 0 <= k < |lines| ==>
            var entry := e.urls[lines[k].url];
            && lines[k].position == k + 1
            && (lines[k].found <==> entry.datosEncontrados)
            && (lines[k].metrics.Some? <==> entry.datosEncontrados))
  {
    NoDupCard(e.urlOrder, e.urls.Keys);
    var lines := DetailLines(e);
    forall u | u in e.urls
      ensures exists k :: 0 <= k < |lines| && lines[k].url == u
    {
      var k :| 0 <= k < |e.urlOrder| && e.urlOrder[k] == u;
      assert lines[k].url == u;
    }
  }

  // ----- main -----

  /** What reading `./data/consolidated-reports.json` gives. */
  datatype StoreFile = MissingFile | Unreadable(message: string) | Loaded(store: StoreValue)

  datatype Screen =
    | FileNotFound
    | ReadError(message: string)
    | StatsScreen(stats: GeneralStats)
    | ExecutionsScreen(executions: seq<ExecutionLine>)
    | UrlsScreen(urls: seq<UrlLine>)
    | DetailUsage
    | DetailScreenOut(detail: DetailScreen)
    | AllScreens(stats: GeneralStats, executions: seq<ExecutionLine>, urls: seq<UrlLine>)
    | Help

  /** `!param`: a missing or empty argument. */
  predicate Falsy(param: Option<string>)
  {
    param.None? || param.value == ""
  }

  /** The screen `main` prints for the file's state and the two arguments. */
  function ScreenOf(file: StoreFile, command: Option<string>, param: Option<string>): Screen
    requires file.Loaded? ==> KeysAgree(file.store)
  {
    match file
    case MissingFile => FileNotFound
    case Unreadable(message) => ReadError(message)
    case Loaded(st) =>
      if command == Some("stats") then StatsScreen(GeneralStatsOf(st))
      else if command == Some("executions") then ExecutionsScreen(ExecutionLines(st))
      else if command == Some("urls") then UrlsScreen(UrlLinesOf(UrlsReportOf(st)))
      else if command == Some("detail") then
        if Falsy(param) then DetailUsage else DetailScreenOut(DetailScreenOf(st, param.value))
      else if command == Some("all") then
        AllScreens(GeneralStatsOf(st), ExecutionLines(st), UrlLinesOf(UrlsReportOf(st)))
      else Help
  }

  /** `main()`: the file checks come first, then the switch on the command. */
  method RunViewer(file: StoreFile, command: Option<string>, param: Option<string>) returns (screen: Screen)
    requires file.Loaded? ==> KeysAgree(file.store)
    ensures screen == ScreenOf(file, command, param)
  {
    match file {
      case MissingFile =>
        return FileNotFound;
      case Unreadable(message) =>
        return ReadError(message);
      case Loaded(st) =>
        if command == Some("stats") {
          screen := StatsScreen(GeneralStatsOf(st));
        } else if command == Some("executions") {
          screen := ExecutionsScreen(ExecutionLines(st));
        } else if command == Some("urls") {
          var urls := UrlSummaryScreen(st);
          screen := UrlsScreen(urls);
        } else if command == Some("detail") {
          if Falsy(param) {
            return DetailUsage;
          }
          screen := DetailScreenOut(DetailScreenOf(st, param.value));
        } else if command == Some("all") {
          var urls := UrlSummaryScreen(st);
          screen := AllScreens(GeneralStatsOf(st), ExecutionLines(st), urls);
        } else {
          screen := Help;
        }
    }
  }

  /**
   * A missing or unreadable file stops the viewer whatever the command;
   * `detail` without an id prints its usage; a command outside the five
   * prints the help; each of the five prints its screen.
   */
  lemma ScreenDispatch(file: StoreFile, command: Option<string>, param: Option<string>)
    requires file.Loaded? ==> KeysAgree(file.store)
    ensures var s := ScreenOf(file, command, param);
      && (file.MissingFile? <==> s.FileNotFound?)
      && (file.Unreadable? <==> s.ReadError?)
      && (s.DetailUsage? <==> file.Loaded? && command == Some("detail") && Falsy(param))
      && (s.DetailScreenOut? <==> file.Loaded? && command == Some("detail") && !Falsy(param))
      && (s.Help? <==> file.Loaded? && command !in {Some("stats"), Some("executions"), Some("urls"), Some("detail"), Some("all")})
      && (s.AllScreens? ==> s.stats == GeneralStatsOf(file.store) && s.executions == ExecutionLines(file.store))
  {
  }
}
