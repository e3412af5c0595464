/**
 * The consolidation engine of lib/csv-consolidator.js: it turns the report
 * CSV files written by the fetch scripts into one store of executions, either
 * all at once (`consolidateCSVToJSON`) or one file at a time on top of the
 * saved store (`addNewExecutionToJSON`).
 *
 * A CSV file is an already split sequence of rows; reading a file is a
 * parameter that may fail; `JSON.parse` of the breakdown cell is a parameter
 * that may fail. A timestamp is the local instant in minutes, with a day
 * past the end of its month carried into the next month as `Date` does.
 */
module Consolidator {
  import opened Wrappers
  import opened JsStrings
  import opened Seqs
  import opened JsValues

  // ----- data model -----

  /** One row of a CSV file: its `URL` cell and the other cells by column header. */
  datatype CsvRow = CsvRow(url: string, cells: map<string, string>)

  /** The integer metrics of one URL in one execution. */
  datatype Metrics = Metrics(
    vistas: int,
    sesiones: int,
    usuariosActivos: int,
    usuariosNuevos: int,
    sesionesComprometidas: int)

  /** What the store keeps for one URL of one execution. */
  datatype UrlEntry = UrlEntry(
    metrics: Metrics,
    datosEncontrados: bool,
    desgloseTrafico: Value,
    advertencias: Option<string>,
    insights: Option<string>)

  /** A parsed row: the URL, the query date cell, and the entry stored for it. */
  datatype Record = Record(url: string, fechaConsulta: Option<string>, entry: UrlEntry)

  datatype ExecMeta = ExecMeta(
    fechaEjecucion: string,
    horaEjecucion: string,
    timestamp: int,
    archivoOriginal: string,
    totalUrls: int,
    urlsExitosas: int,
    urlsConDatos: int)

  /** One execution: its metadata and a JavaScript object from URL to entry (`urlOrder` is its key order). */
  datatype Execution = Execution(metadata: ExecMeta, urls: map<string, UrlEntry>, urlOrder: seq<string>)

  /** An element of `archivosOriginales`. */
  datatype FileInfo = FileInfo(archivo: string, ejecucionId: string, fecha: string, hora: string, registros: int)

  /**
   * The consolidated store: `data` is a JavaScript object whose key order is
   * `ids`; the remaining fields are its `metadata`.
   */
  datatype StoreValue = StoreValue(
    data: map<string, Execution>,
    ids: seq<string>,
    totalEjecuciones: int,
    totalUrls: seq<string>,
    archivos: seq<FileInfo>)

  /** What a JavaScript object guarantees of an execution: its keys are those of the key list, once each. */
  ghost predicate ExecKeysAgree(e: Execution)
  {
    NoDup(e.urlOrder) && forall u :: u in e.urls <==> u in e.urlOrder
  }

  /** What JavaScript objects guarantee of a store: keys are listed once each, at every level. */
  ghost predicate KeysAgree(st: StoreValue)
  {
    && NoDup(st.ids)
    && (forall id :: id in st.data <==> id in st.ids)
    && (forall id :: id in st.data ==> ExecKeysAgree(st.data[id]))
  }

  /** The base store `loadExistingJSON` creates when there is no saved one. */
  const EmptyStore: StoreValue := StoreValue(map[], [], 0, [], [])

  /** `loadExistingJSON`: the saved store, or the base store when it is missing or unreadable. */
  function LoadExisting(saved: Option<StoreValue>): (r: StoreValue)
    ensures saved.None? ==> r.data == map[] && r.ids == [] && r.totalEjecuciones == 0 && r.totalUrls == [] && r.archivos == []
    ensures saved.Some? ==> r == saved.value
  {
    saved.GetOr(EmptyStore)
  }

  // ----- filenames -----

  // ----- instants -----

  /** A leap year of the proleptic Gregorian calendar that `Date` uses. */
  predicate LeapYear(y: int)
  {
    y % 4 == 0 && (y % 100 != 0 || y % 400 == 0)
  }

  function DaysInYear(y: int): int
  {
    if LeapYear(y) then 366 else 365
  }

  /** The days of month `mo` (1 to 12) of year `y`. */
  function DaysInMonth(y: int, mo: int): (n: int)
    ensures 28 <= n <= 31
  {
    if mo == 2 then (if LeapYear(y) then 29 else 28)
    else if mo == 4 || mo == 6 || mo == 9 || mo == 11 then 30
    else 31
  }

  /** The days of year `y` before the first of month `mo` (1 to 12). */
  function DaysBeforeMonth(y: int, mo: int): int
  {
    (if mo <= 1 then 0 else if mo == 2 then 31 else if mo == 3 then 59 else if mo == 4 then 90
     else if mo == 5 then 120 else if mo == 6 then 151 else if mo == 7 then 181 else if mo == 8 then 212
     else if mo == 9 then 243 else if mo == 10 then 273 else if mo == 11 then 304 else 334)
    + (if mo > 2 && LeapYear(y) then 1 else 0)
  }

  /** The days from 1 January of year 0 to 1 January of year `y`. */
  function DaysBeforeYear(y: int): int
  {
    365 * y + (y + 3) / 4 - (y + 99) / 100 + (y + 399) / 400
  }

  /**
   * The instant `new Date("YYYY-MM-DDTHH:MM:00")` names, in minutes of local
   * time. Like `Date`, it carries a day past the end of its month into the
   * next month (`2025-02-30` is 2 March) and hour 24 into the next day.
   */
  function Stamp(y: int, mo: int, d: int, h: int, mi: int): int
  {
    (DaysBeforeYear(y) + DaysBeforeMonth(y, mo) + d - 1) * 1440 + h * 60 + mi
  }

  /** A date and time that exists on the calendar, with no field to carry. */
  predicate CalendarTime(y: int, mo: int, d: int, h: int, mi: int)
  {
    1 <= mo <= 12 && 1 <= d <= DaysInMonth(y, mo) && 0 <= h <= 23 && 0 <= mi <= 59
  }

  /** `(y1, mo1, d1, h1, mi1)` comes strictly before `(y2, mo2, d2, h2, mi2)` field by field. */
  predicate FieldsBefore(y1: int, mo1: int, d1: int, h1: int, mi1: int, y2: int, mo2: int, d2: int, h2: int, mi2: int)
  {
    y1 < y2 || (y1 == y2 && (mo1 < mo2 || (mo1 == mo2 && (d1 < d2 || (d1 == d2 && (h1 < h2 || (h1 == h2 && mi1 < mi2)))))))
  }

  /** Each year adds its own number of days. */
  lemma DaysBeforeYearStep(y: int)
    ensures DaysBeforeYear(y + 1) == DaysBeforeYear(y) + DaysInYear(y)
  {
    assert (y + 4) / 4 - (y + 3) / 4 == (if y % 4 == 0 then 1 else 0);
    assert (y + 100) / 100 - (y + 99) / 100 == (if y % 100 == 0 then 1 else 0);
    assert (y + 400) / 400 - (y + 399) / 400 == (if y % 400 == 0 then 1 else 0);
  }

  /** A later year starts at least a whole year later. */
  lemma {:induction false} DaysBeforeYearGrows(y1: int, y2: int)
    requires y1 < y2
    ensures DaysBeforeYear(y1) + DaysInYear(y1) <= DaysBeforeYear(y2)
    decreases y2 - y1
  {
    DaysBeforeYearStep(y1);
    if y1 + 1 < y2 {
      DaysBeforeYearGrows(y1 + 1, y2);
    }
  }

  /** The day count of a calendar date. */
  function DayOf(y: int, mo: int, d: int): int
  {
    DaysBeforeYear(y) + DaysBeforeMonth(y, mo) + d - 1
  }

  /** Calendar dates in field order have increasing day counts. */
  lemma DayOfBefore(y1: int, mo1: int, d1: int, y2: int, mo2: int, d2: int)
    requires 1 <= mo1 <= 12 && 1 <= d1 <= DaysInMonth(y1, mo1)
    requires 1 <= mo2 <= 12 && 1 <= d2 <= DaysInMonth(y2, mo2)
    requires y1 < y2 || (y1 == y2 && (mo1 < mo2 || (mo1 == mo2 && d1 < d2)))
    ensures DayOf(y1, mo1, d1) < DayOf(y2, mo2, d2)
  {
    assert DaysBeforeMonth(y1, mo1) + DaysInMonth(y1, mo1) <= DaysInYear(y1);
    if y1 < y2 {
      DaysBeforeYearGrows(y1, y2);
    }
  }

  /**
   * On dates and times that exist on the calendar, the instants are ordered
   * exactly like the fields: year, month, day, hour, minute.
   */
  lemma StampOrder(y1: int, mo1: int, d1: int, h1: int, mi1: int, y2: int, mo2: int, d2: int, h2: int, mi2: int)
    requires CalendarTime(y1, mo1, d1, h1, mi1) && CalendarTime(y2, mo2, d2, h2, mi2)
    ensures Stamp(y1, mo1, d1, h1, mi1) < Stamp(y2, mo2, d2, h2, mi2) <==> FieldsBefore(y1, mo1, d1, h1, mi1, y2, mo2, d2, h2, mi2)
  {
    assert Stamp(y1, mo1, d1, h1, mi1) == DayOf(y1, mo1, d1) * 1440 + h1 * 60 + mi1;
    assert Stamp(y2, mo2, d2, h2, mi2) == DayOf(y2, mo2, d2) * 1440 + h2 * 60 + mi2;
    if y1 < y2 || (y1 == y2 && (mo1 < mo2 || (mo1 == mo2 && d1 < d2))) {
      DayOfBefore(y1, mo1, d1, y2, mo2, d2);
    } else if y2 < y1 || (y1 == y2 && (mo2 < mo1 || (mo1 == mo2 && d2 < d1))) {
      DayOfBefore(y2, mo2, d2, y1, mo1, d1);
    }
  }

  /** A day past the end of its month is a day of the next month, as `Date` reads it. */
  lemma StampCarriesDay(y: int, mo: int, d: int, h: int, mi: int)
    requires 1 <= mo <= 12
    ensures mo < 12 ==> Stamp(y, mo, d, h, mi) == Stamp(y, mo + 1, d - DaysInMonth(y, mo), h, mi)
    ensures mo == 12 ==> Stamp(y, mo, d, h, mi) == Stamp(y + 1, 1, d - 31, h, mi)
  {
    DaysBeforeYearStep(y);
  }

  /** Hour 24 at minute 0 is midnight of the next day. */
  lemma StampCarriesMidnight(y: int, mo: int, d: int)
    ensures Stamp(y, mo, d, 24, 0) == Stamp(y, mo, d + 1, 0, 0)
  {
  }

  /**
   * So the order of the instants is not the order of the names: the report of
   * 30 February 2025 at 10:00 is 2 March and comes after the one of 1 March at
   * 10:00, and the one of 7 October at 24:00 ties with 8 October at 00:00.
   */
  lemma StampOrderDiffersFromNames()
    ensures Stamp(2025, 2, 30, 10, 0) == Stamp(2025, 3, 2, 10, 0)
    ensures Stamp(2025, 3, 1, 10, 0) < Stamp(2025, 2, 30, 10, 0)
    ensures Stamp(2025, 10, 7, 24, 0) == Stamp(2025, 10, 8, 0, 0)
  {
    StampCarriesDay(2025, 2, 30, 10, 0);
  }

  predicate DigitsAt(s: string, i: nat, n: nat)
    requires i + n <= |s|
  {
    forall k :: i <= k < i + n ==> IsDigit(s[k])
  }

  /** `/report_(\d{4}-\d{2}-\d{2})_(\d{2})-(\d{2})\.csv/` matches `s` at index `i` (27 characters). */
  predicate MatchAt(s: string, i: nat)
  {
    && i + 27 <= |s|
    && s[i..i + 7] == "report_"
    && DigitsAt(s, i + 7, 4) && s[i + 11] == '-' && DigitsAt(s, i + 12, 2)
    && s[i + 14] == '-' && DigitsAt(s, i + 15, 2) && s[i + 17] == '_'
    && DigitsAt(s, i + 18, 2) && s[i + 20] == '-' && DigitsAt(s, i + 21, 2)
    && s[i + 23..i + 27] == ".csv"
  }

  /** The leftmost index at or after `k` where the pattern matches, as `String.prototype.match` finds it. */
  function FirstMatch(s: string, k: nat): (r: Option<nat>)
    decreases |s| - k
    ensures r.None? ==> forall i: nat :: k <= i ==> !MatchAt(s, i)
    ensures r.Some? ==> k <= r.value && MatchAt(s, r.value) && forall i: nat :: k <= i < r.value ==> !MatchAt(s, i)
  {
    if k + 27 > |s| then None
    else if MatchAt(s, k) then Some(k)
    else FirstMatch(s, k + 1)
  }

  /** The result of `extractDateTimeFromFilename`. */
  datatype DateTimeInfo = DateTimeInfo(fecha: string, hora: string, timestamp: int, ejecucionId: string)

  /** `toISOString` throws `RangeError` on the invalid date these components would make. */
  datatype ExtractError = InvalidTimeValue

  /** The date components `new Date("YYYY-MM-DDTHH:MM:00")` accepts. */
  predicate ValidDateTime(mo: int, d: int, h: int, mi: int)
  {
    1 <= mo <= 12 && 1 <= d <= 31 && ((h <= 23 && mi <= 59) || (h == 24 && mi == 0))
  }

  function DigitValue(s: string, i: nat, n: nat): int
    requires i + n <= |s|
  {
    NumeralValue(s[i..i + n], 10)
  }

  /**
   * `extractDateTimeFromFilename(filename)`, with `now` the instant the
   * fallback timestamp reads from the clock.
   */
  function ExtractDateTime(filename: string, now: int): (r: Result<DateTimeInfo, ExtractError>)
    ensures FirstMatch(filename, 0).None? ==>
      r == Success(DateTimeInfo("unknown", "unknown", now, ReplaceFirst(filename, ".csv", "")))
    ensures FirstMatch(filename, 0).Some? ==> var i := FirstMatch(filename, 0).value;
      && (r.Success? <==> ValidDateTime(DigitValue(filename, i + 12, 2), DigitValue(filename, i + 15, 2),
                                        DigitValue(filename, i + 18, 2), DigitValue(filename, i + 21, 2)))
      && (r.Success? ==>
            && r.value.fecha == filename[i + 7..i + 17]
            && r.value.hora == filename[i + 18..i + 20] + ":" + filename[i + 21..i + 23]
            && r.value.ejecucionId == filename[i + 7..i + 23]
            && r.value.timestamp == Stamp(DigitValue(filename, i + 7, 4), DigitValue(filename, i + 12, 2),
                                          DigitValue(filename, i + 15, 2), DigitValue(filename, i + 18, 2),
                                          DigitValue(filename, i + 21, 2)))
  {
    match FirstMatch(filename, 0)
    case None => Success(DateTimeInfo("unknown", "unknown", now, ReplaceFirst(filename, ".csv", "")))
    case Some(i) =>
      var fecha := filename[i + 7..i + 17];
      var horas := filename[i + 18..i + 20];
      var minutos := filename[i + 21..i + 23];
      var y, mo, d := DigitValue(filename, i + 7, 4), DigitValue(filename, i + 12, 2), DigitValue(filename, i + 15, 2);
      var h, mi := DigitValue(filename, i + 18, 2), DigitValue(filename, i + 21, 2);
      if !ValidDateTime(mo, d, h, mi) then Failure(InvalidTimeValue)
      else
        IdSlice(filename, i);
        Success(DateTimeInfo(fecha, horas + ":" + minutos, Stamp(y, mo, d, h, mi), fecha + "_" + horas + "-" + minutos))
  }

  /** The matched id is the date, `_`, the hours, `-` and the minutes. */
  lemma IdSlice(s: string, i: nat)
    requires MatchAt(s, i)
    ensures s[i + 7..i + 23] == s[i + 7..i + 17] + "_" + s[i + 18..i + 20] + "-" + s[i + 21..i + 23]
  {
    var id := s[i + 7..i + 17] + "_" + s[i + 18..i + 20] + "-" + s[i + 21..i + 23];
    forall k | 0 <= k < 16
      ensures s[i + 7..i + 23][k] == id[k]
    {
      if k < 10 {
        assert id[k] == s[i + 7..i + 17][k];
      } else if k == 10 {
      } else if k < 13 {
        assert id[k] == s[i + 18..i + 20][k - 11];
      } else if k == 13 {
      } else {
        assert id[k] == s[i + 21..i + 23][k - 14];
      }
    }
  }

  /**
   * The pattern is not anchored: a report name embedded anywhere in a longer
   * filename yields the id written in it, provided nothing before it matches.
   */
  lemma ExtractEmbedded(prefix: string, name: string, suffix: string, now: int)
    requires |name| == 27 && MatchAt(name, 0)
    requires forall i: nat :: i < |prefix| ==> !MatchAt(prefix + name + suffix, i)
    requires ValidDateTime(NumeralValue(name[12..14], 10), NumeralValue(name[15..17], 10), NumeralValue(name[18..20], 10), NumeralValue(name[21..23], 10))
    ensures ExtractDateTime(prefix + name + suffix, now).Success?
    ensures ExtractDateTime(prefix + name + suffix, now).value.ejecucionId == name[7..23]
    ensures ExtractDateTime(prefix + name + suffix, now).value.fecha == name[7..17]
  {
    var s := prefix + name + suffix;
    var p := |prefix|;
    assert s[p..p + 27] == name;
    assert MatchAt(s, p) by {
      assert s[p..p + 7] == name[..7];
      assert s[p + 23..p + 27] == name[23..27];
      forall k | 0 <= k < 27 ensures s[p + k] == name[k] {}
    }
    var i := FirstMatch(s, 0).value;
    assert i == p;
    assert s[i + 7..i + 23] == name[7..23];
    assert s[i + 7..i + 17] == name[7..17];
    assert s[i + 12..i + 14] == name[12..14] && s[i + 15..i + 17] == name[15..17];
    assert s[i + 18..i + 20] == name[18..20] && s[i + 21..i + 23] == name[21..23];
  }

  // ----- rows -----

  const ColUrlDate := "Fecha consulta"
  const ColViews := "Vistas p\U{00E1}gina"
  const ColSessions := "Sesiones"
  const ColActiveUsers := "Usuarios activos"
  const ColNewUsers := "Usuarios nuevos"
  const ColEngaged := "Sesiones comprometidas"
  const ColFound := "Datos encontrados"
  const ColBreakdown := "Desglose por fuente"
  const ColWarnings := "Advertencias"
  const ColInsights := "Insights"

  /** `row[name]`: the cell under that header, or `undefined`. */
  function Cell(row: CsvRow, name: string): Option<string>
  {
    if name in row.cells then Some(row.cells[name]) else None
  }

  /** `row[name] || null` on a text cell: a missing or empty cell becomes null. */
  function TextOrNull(cell: Option<string>): (r: Option<string>)
    ensures r.None? <==> cell.None? || cell.value == ""
    ensures r.Some? ==> r == cell
  {
    if cell.Some? && cell.value != "" then cell else None
  }

  /** The breakdown cell: parsed when present and non-empty, `{}` when absent, empty or unparsable. */
  function Breakdown(cell: Option<string>, decode: string -> Option<Value>): (r: Value)
    ensures cell.None? || cell.value == "" || decode(cell.value).None? ==> r == EmptyObject
    ensures cell.Some? && cell.value != "" && decode(cell.value).Some? ==> r == decode(cell.value).value
  {
    if cell.Some? && cell.value != "" then decode(cell.value).GetOr(EmptyObject) else EmptyObject
  }

  /** `parseCSVRow(row)`: never fails; every field has a defined fallback. */
  function ParseCsvRow(row: CsvRow, decode: string -> Option<Value>): (r: Record)
    ensures r.url == row.url && r.fechaConsulta == Cell(row, ColUrlDate)
    ensures r.entry.datosEncontrados <==> Cell(row, ColFound) == Some("true")
    ensures r.entry.advertencias.None? <==> Cell(row, ColWarnings) in {None, Some("")}
    ensures r.entry.insights.None? <==> Cell(row, ColInsights) in {None, Some("")}
    ensures r.entry.advertencias == TextOrNull(Cell(row, ColWarnings)) && r.entry.insights == TextOrNull(Cell(row, ColInsights))
    ensures r.entry.desgloseTrafico == Breakdown(Cell(row, ColBreakdown), decode)
    ensures forall k :: 0 <= k < |IntegerColumns| ==> MetricAt(r.entry.metrics, k) == ParseCellOrZero(Cell(row, IntegerColumns[k]))
  {
    var m := Metrics(
      ParseCellOrZero(Cell(row, ColViews)),
      ParseCellOrZero(Cell(row, ColSessions)),
      ParseCellOrZero(Cell(row, ColActiveUsers)),
      ParseCellOrZero(Cell(row, ColNewUsers)),
      ParseCellOrZero(Cell(row, ColEngaged)));
    Record(row.url, Cell(row, ColUrlDate),
      UrlEntry(m, Cell(row, ColFound) == Some("true"), Breakdown(Cell(row, ColBreakdown), decode),
        TextOrNull(Cell(row, ColWarnings)), TextOrNull(Cell(row, ColInsights))))
  }

  /** The titles of the integer columns, in the order of `Metrics`' fields. */
  const IntegerColumns: seq<string> := [ColViews, ColSessions, ColActiveUsers, ColNewUsers, ColEngaged]

  /** The field of `m` read from column `IntegerColumns[k]`. */
  function MetricAt(m: Metrics, k: nat): int
    requires k < 5
  {
    if k == 0 then m.vistas
    else if k == 1 then m.sesiones
    else if k == 2 then m.usuariosActivos
    else if k == 3 then m.usuariosNuevos
    else m.sesionesComprometidas
  }

  /**
   * Each integer metric is the number its cell starts with, or 0 when the cell
   * is missing or holds none.
   */
  lemma MetricOfCell(row: CsvRow, decode: string -> Option<Value>, k: nat)
    requires k < |IntegerColumns|
    ensures var c := Cell(row, IntegerColumns[k]);
            var v := MetricAt(ParseCsvRow(row, decode).entry.metrics, k);
      && (c.None? ==> v == 0)
      && (c.Some? && AllDigits(c.value) ==> v == NumeralValue(c.value, 10))
      && (c.Some? && ParseInt(c.value).None? ==> v == 0)
      && (forall n: int :: c == Some(IntToString(n)) ==> v == n)
  {
    var c := Cell(row, IntegerColumns[k]);
    assert MetricAt(ParseCsvRow(row, decode).entry.metrics, k) == ParseCellOrZero(c);
    if c.Some? && AllDigits(c.value) {
      ParseIntOfDigits(c.value);
    }
    forall n: int | c == Some(IntToString(n))
      ensures ParseCellOrZero(c) == n
    {
      ParseIntOfIntToString(n);
    }
  }

  /** `readCSVFile` once the stream has split the rows: every row parsed, in order. */
  function ParseRows(rows: seq<CsvRow>, decode: string -> Option<Value>): (r: seq<Record>)
    ensures |r| == |rows|
  {
    seq(|rows|, i requires 0 <= i < |rows| => ParseCsvRow(rows[i], decode))
  }

  /** The `on('data')` handler of `readCSVFile`: parse each row and push it. */
  method ReadCsvFile(rows: seq<CsvRow>, decode: string -> Option<Value>) returns (results: seq<Record>)
    ensures |results| == |rows|
    ensures forall i :: 0 <= i < |rows| ==> results[i] == ParseCsvRow(rows[i], decode)
  {
    results := [];
    var i := 0;
    while i < |rows|
      invariant 0 <= i <= |rows|
      invariant |results| == i
      invariant forall k :: 0 <= k < i ==> results[k] == ParseCsvRow(rows[k], decode)
    {
      results := results + [ParseCsvRow(rows[i], decode)];
      i := i + 1;
    }
  }

  // ----- one execution -----

  function UrlsOf(recs: seq<Record>): (r: seq<string>)
    ensures |r| == |recs| && forall i :: 0 <= i < |recs| ==> r[i] == recs[i].url
  {
    seq(|recs|, i requires 0 <= i < |recs| => recs[i].url)
  }

  /** The `urls` object an execution gets: `urls[item.url] = entry` for each row in order. */
  function UrlMap(recs: seq<Record>): map<string, UrlEntry>
  {
    if recs == [] then map[] else UrlMap(recs[..|recs| - 1])[recs[|recs| - 1].url := recs[|recs| - 1].entry]
  }

  lemma UrlsOfPrefix(recs: seq<Record>, i: nat)
    requires i < |recs|
    ensures UrlsOf(recs[..i + 1]) == UrlsOf(recs[..i]) + [recs[i].url]
    ensures recs[..i + 1][..i] == recs[..i]
  {
    assert recs[..i + 1][..i] == recs[..i];
  }

  /** One more row sets its URL's entry. */
  lemma UrlMapStep(recs: seq<Record>, i: nat)
    requires i < |recs|
    ensures UrlMap(recs[..i + 1]) == UrlMap(recs[..i])[recs[i].url := recs[i].entry]
  {
    assert recs[..i + 1][..i] == recs[..i];
  }

  /** One more row adds its URL to the set. */
  lemma AddUrlStep(acc: seq<string>, recs: seq<Record>, i: nat)
    requires i < |recs|
    ensures AddAll(acc, UrlsOf(recs[..i + 1])) == Add(AddAll(acc, UrlsOf(recs[..i])), recs[i].url)
  {
    UrlsOfPrefix(recs, i);
    AddAllSnoc(acc, UrlsOf(recs[..i]), recs[i].url);
  }

  /** The keys of the `urls` object are exactly the URLs of the rows. */
  lemma {:induction false} UrlMapKeys(recs: seq<Record>)
    ensures forall u :: u in UrlMap(recs) <==> u in UrlsOf(recs)
  {
    if recs != [] {
      var n := |recs|;
      UrlMapKeys(recs[..n - 1]);
      UrlsOfPrefix(recs, n - 1);
      assert recs[..n] == recs;
    }
  }

  /** Of the rows that share a URL, the last one is what the `urls` object keeps. */
  lemma {:induction false} UrlMapLastWins(recs: seq<Record>, i: nat)
    requires i < |recs|
    requires forall j :: i < j < |recs| ==> recs[j].url != recs[i].url
    ensures recs[i].url in UrlMap(recs) && UrlMap(recs)[recs[i].url] == recs[i].entry
  {
    var n := |recs|;
    if i < n - 1 {
      var init := recs[..n - 1];
      assert init[i] == recs[i];
      UrlMapLastWins(init, i);
    }
  }

  /** `csvData.filter(item => item.datosEncontrados).length` */
  function CountFound(recs: seq<Record>): nat
  {
    if recs == [] then 0 else CountFound(recs[..|recs| - 1]) + (if recs[|recs| - 1].entry.datosEncontrados then 1 else 0)
  }

  /** `csvData.filter(item => item.metrics.vistas > 0).length` */
  function CountWithViews(recs: seq<Record>): nat
  {
    if recs == [] then 0 else CountWithViews(recs[..|recs| - 1]) + (if recs[|recs| - 1].entry.metrics.vistas > 0 then 1 else 0)
  }

  /** Counting the rows of two batches is adding their counts. */
  lemma {:induction false} CountsConcat(a: seq<Record>, b: seq<Record>)
    ensures CountFound(a + b) == CountFound(a) + CountFound(b)
    ensures CountWithViews(a + b) == CountWithViews(a) + CountWithViews(b)
  {
    if b == [] {
      assert a + b == a;
    } else {
      assert (a + b)[..|a + b| - 1] == a + b[..|b| - 1];
      CountsConcat(a, b[..|b| - 1]);
    }
  }

  /**
   * The counts are filter sizes: at most the number of rows, all of them
   * exactly when every row passes, none exactly when no row does.
   */
  lemma {:induction false} CountsBounds(recs: seq<Record>)
    ensures CountFound(recs) <= |recs| && CountWithViews(recs) <= |recs|
    ensures CountFound(recs) == |recs| <==> forall i :: 0 <= i < |recs| ==> recs[i].entry.datosEncontrados
    ensures CountFound(recs) == 0 <==> forall i :: 0 <= i < |recs| ==> !recs[i].entry.datosEncontrados
    ensures CountWithViews(recs) == |recs| <==> forall i :: 0 <= i < |recs| ==> recs[i].entry.metrics.vistas > 0
    ensures CountWithViews(recs) == 0 <==> forall i :: 0 <= i < |recs| ==> recs[i].entry.metrics.vistas <= 0
  {
    if recs != [] {
      var init := recs[..|recs| - 1];
      CountsBounds(init);
      assert forall i :: 0 <= i < |init| ==> init[i] == recs[i];
    }
  }

  /** The execution built from one file's rows. */
  function ExecutionOf(info: DateTimeInfo, filename: string, recs: seq<Record>): Execution
  {
    Execution(
      ExecMeta(info.fecha, info.hora, info.timestamp, filename, |recs|, CountFound(recs), CountWithViews(recs)),
      UrlMap(recs),
      Distinct(UrlsOf(recs)))
  }

  function FileInfoOf(info: DateTimeInfo, filename: string, recs: seq<Record>): FileInfo
  {
    FileInfo(filename, info.ejecucionId, info.fecha, info.hora, |recs|)
  }

  lemma ExecutionKeysAgree(info: DateTimeInfo, filename: string, recs: seq<Record>)
    ensures ExecKeysAgree(ExecutionOf(info, filename, recs))
  {
    UrlMapKeys(recs);
  }

  /**
   * An execution holds at most as many URL keys as it has rows, and as many
   * exactly when no URL repeats: `metadata.totalUrls` counts rows, not keys.
   */
  lemma UrlKeysAtMostRows(info: DateTimeInfo, filename: string, recs: seq<Record>)
    ensures |ExecutionOf(info, filename, recs).urlOrder| <= ExecutionOf(info, filename, recs).metadata.totalUrls
    ensures NoDup(UrlsOf(recs)) ==> |ExecutionOf(info, filename, recs).urlOrder| == |recs|
  {
    AddAllLength([], UrlsOf(recs));
    if NoDup(UrlsOf(recs)) {
      DistinctOfNoDup(UrlsOf(recs));
    }
  }

  lemma {:induction false} AddAllLength(acc: seq<string>, xs: seq<string>)
    ensures |AddAll(acc, xs)| <= |acc| + |xs|
  {
    if xs != [] {
      AddAllLength(acc, xs[..|xs| - 1]);
    }
  }

  /**
   * The `csvData.forEach` of both consolidations: fill the execution's `urls`
   * object and add every URL to the running URL set.
   */
  method CollectRows(csvData: seq<Record>, urlsSet0: seq<string>)
    returns (urls: map<string, UrlEntry>, order: seq<string>, urlsSet: seq<string>)
    ensures urls == UrlMap(csvData)
    ensures order == Distinct(UrlsOf(csvData))
    ensures urlsSet == AddAll(urlsSet0, UrlsOf(csvData))
  {
    urls, order, urlsSet := map[], [], urlsSet0;
    var i := 0;
    while i < |csvData|
      invariant 0 <= i <= |csvData|
      invariant urls == UrlMap(csvData[..i])
      invariant order == AddAll([], UrlsOf(csvData[..i]))
      invariant urlsSet == AddAll(urlsSet0, UrlsOf(csvData[..i]))
    {
      UrlMapStep(csvData, i);
      AddUrlStep([], csvData, i);
      AddUrlStep(urlsSet0, csvData, i);
      urls := urls[csvData[i].url := csvData[i].entry];
      order := Add(order, csvData[i].url);
      urlsSet := Add(urlsSet, csvData[i].url);
      i := i + 1;
    }
    assert csvData[..i] == csvData;
  }

  // ----- incremental merge -----

  /** `archivosOriginales.findIndex(file => file.ejecucionId === id)` */
  function FindFileIndex(files: seq<FileInfo>, id: string): (r: int)
    ensures -1 <= r < |files|
    ensures r >= 0 ==> files[r].ejecucionId == id && forall j :: 0 <= j < r ==> files[j].ejecucionId != id
    ensures r == -1 ==> forall j :: 0 <= j < |files| ==> files[j].ejecucionId != id
  {
    if files == [] then -1
    else if files[0].ejecucionId == id then 0
    else var k := FindFileIndex(files[1..], id); if k == -1 then -1 else k + 1
  }

  /** Replace the first entry with the same execution id, or append. */
  function UpsertFile(files: seq<FileInfo>, fi: FileInfo): seq<FileInfo>
  {
    var k := FindFileIndex(files, fi.ejecucionId);
    if k >= 0 then files[k := fi] else files + [fi]
  }

  /** Why an incremental merge throws. */
  datatype MergeError = BadFilename(e: ExtractError) | ReadFailed

  /** `data[id] = e` on the store's JavaScript object: a new key goes last, an existing key keeps its place. */
  function PutExecution(data: map<string, Execution>, ids: seq<string>, id: string, e: Execution): (map<string, Execution>, seq<string>)
  {
    (data[id := e], if id in data then ids else ids + [id])
  }

  /** The merge once the file name has been parsed into `info` and the rows read into `recs`. */
  function MergeInfo(st: StoreValue, info: DateTimeInfo, filename: string, recs: seq<Record>): StoreValue
  {
    var (data, ids) := PutExecution(st.data, st.ids, info.ejecucionId, ExecutionOf(info, filename, recs));
    StoreValue(data, ids, |ids|, AddAll(Distinct(st.totalUrls), UrlsOf(recs)),
               UpsertFile(st.archivos, FileInfoOf(info, filename, recs)))
  }

  /**
   * `addNewExecutionToJSON(existingData, csvPath)`: `file` is what reading the
   * CSV gives (None when it does not exist or cannot be read), and `now` the
   * clock reading for a name without a date. It throws exactly for a name
   * whose date is invalid or a file that cannot be read.
   */
  function MergeExecution(st: StoreValue, csvPath: string, file: Option<seq<CsvRow>>,
                          decode: string -> Option<Value>, now: int): (r: Result<StoreValue, MergeError>)
    ensures r.Failure? <==> ExtractDateTime(Basename(csvPath), now).Failure? || file.None?
  {
    var filename := Basename(csvPath);
    match ExtractDateTime(filename, now)
    case Failure(e) => Failure(BadFilename(e))
    case Success(info) =>
      if file.None? then Failure(ReadFailed)
      else Success(MergeInfo(st, info, filename, ParseRows(file.value, decode)))
  }

  lemma {:induction false} NoDupCard(ids: seq<string>, keys: set<string>)
    requires NoDup(ids)
    requires forall id :: id in keys <==> id in ids
    ensures |keys| == |ids|
  {
    if ids != [] {
      var last := ids[|ids| - 1];
      var init := ids[..|ids| - 1];
      assert NoDup(init);
      assert last !in init;
      forall id ensures id in keys - {last} <==> id in init {
        if id in ids && id != last {
          var k :| 0 <= k < |ids| && ids[k] == id;
          assert k < |init|;
        }
      }
      NoDupCard(init, keys - {last});
    }
  }

  /**
   * After a merge: `data[id]` is the new execution, every other execution is
   * as it was, an existing id keeps its place and a new one goes last,
   * `totalEjecuciones` is the number of executions, and the store still has
   * the shape of JavaScript objects.
   */
  lemma MergeData(st: StoreValue, info: DateTimeInfo, filename: string, recs: seq<Record>)
    requires KeysAgree(st)
    ensures var st' := MergeInfo(st, info, filename, recs);
      && KeysAgree(st')
      && st'.data[info.ejecucionId] == ExecutionOf(info, filename, recs)
      && (forall id :: id != info.ejecucionId ==> (id in st'.data <==> id in st.data))
      && (forall id :: id != info.ejecucionId && id in st.data ==> st'.data[id] == st.data[id])
      && st'.ids == (if info.ejecucionId in st.data then st.ids else st.ids + [info.ejecucionId])
      && st'.totalEjecuciones == |st'.data|
  {
    var e := ExecutionOf(info, filename, recs);
    ExecutionKeysAgree(info, filename, recs);
    PutExecutionAgrees(st.data, st.ids, info.ejecucionId, e);
    var st' := MergeInfo(st, info, filename, recs);
    assert (st'.data, st'.ids) == PutExecution(st.data, st.ids, info.ejecucionId, e);
  }

  /** Putting an execution keeps the id list duplicate-free and in step with the keys. */
  lemma PutExecutionAgrees(data: map<string, Execution>, ids: seq<string>, id: string, e: Execution)
    requires NoDup(ids) && (forall x :: x in data <==> x in ids)
    requires (forall x :: x in data ==> ExecKeysAgree(data[x])) && ExecKeysAgree(e)
    ensures var (data', ids') := PutExecution(data, ids, id, e);
      && NoDup(ids') && (forall x :: x in data' <==> x in ids')
      && (forall x :: x in data' ==> ExecKeysAgree(data'[x]))
      && |ids'| == |data'|
  {
    var (data', ids') := PutExecution(data, ids, id, e);
    if id !in data {
      NoDupSnoc(ids, id);
    }
    NoDupCard(ids', data'.Keys);
  }

  /** The metadata of the merged execution counts rows, found flags and rows with views. */
  lemma MergeCounts(st: StoreValue, info: DateTimeInfo, filename: string, recs: seq<Record>)
    ensures var m := MergeInfo(st, info, filename, recs).data[info.ejecucionId].metadata;
      && m.totalUrls == |recs|
      && m.urlsExitosas == CountFound(recs) && m.urlsConDatos == CountWithViews(recs)
      && m.urlsExitosas <= m.totalUrls && m.urlsConDatos <= m.totalUrls
      && m.fechaEjecucion == info.fecha && m.horaEjecucion == info.hora && m.archivoOriginal == filename
  {
    CountsBounds(recs);
  }

  /**
   * After a merge the URL list keeps every URL it had, adds every URL of the
   * new rows, holds nothing else, has no duplicates, and (when it had none
   * before) is the old list followed by the newcomers.
   */
  lemma MergeUrls(st: StoreValue, info: DateTimeInfo, filename: string, recs: seq<Record>)
    ensures var urls' := MergeInfo(st, info, filename, recs).totalUrls;
      && NoDup(urls')
      && (forall u :: u in urls' <==> u in st.totalUrls || exists i :: 0 <= i < |recs| && recs[i].url == u)
      && (NoDup(st.totalUrls) ==>
            (&& |st.totalUrls| <= |urls'| && urls'[..|st.totalUrls|] == st.totalUrls
             && forall i :: |st.totalUrls| <= i < |urls'| ==> urls'[i] !in st.totalUrls))
  {
    var urls' := MergeInfo(st, info, filename, recs).totalUrls;
    forall u ensures u in urls' <==> u in st.totalUrls || exists i :: 0 <= i < |recs| && recs[i].url == u {
      if u in UrlsOf(recs) {
        var i :| 0 <= i < |recs| && UrlsOf(recs)[i] == u;
      }
      if exists i :: 0 <= i < |recs| && recs[i].url == u {
        var i :| 0 <= i < |recs| && recs[i].url == u;
        assert UrlsOf(recs)[i] == u;
      }
    }
    if NoDup(st.totalUrls) {
      DistinctOfNoDup(st.totalUrls);
    }
  }

  /**
   * URLs are never dropped: a URL that only the overwritten execution held
   * stays in the list although no execution holds it any more.
   */
  lemma MergeKeepsStaleUrls(st: StoreValue, info: DateTimeInfo, filename: string, recs: seq<Record>, u: string)
    requires u in st.totalUrls
    requires forall i :: 0 <= i < |recs| ==> recs[i].url != u
    requires forall id :: id in st.data && id != info.ejecucionId ==> u !in st.data[id].urls
    ensures var st' := MergeInfo(st, info, filename, recs);
      u in st'.totalUrls && forall id :: id in st'.data ==> u !in st'.data[id].urls
  {
    UrlMapKeys(recs);
  }

  /**
   * The file list: the first entry with the same execution id is replaced
   * where it stands, otherwise one entry is appended.
   */
  lemma MergeFiles(st: StoreValue, info: DateTimeInfo, filename: string, recs: seq<Record>)
    ensures var fi := FileInfo(filename, info.ejecucionId, info.fecha, info.hora, |recs|);
      var files' := MergeInfo(st, info, filename, recs).archivos;
      && ((exists k :: 0 <= k < |st.archivos| && st.archivos[k].ejecucionId == info.ejecucionId) ==>
            (&& |files'| == |st.archivos|
             && exists k :: (&& 0 <= k < |st.archivos| && st.archivos[k].ejecucionId == info.ejecucionId
                             && files'[k] == fi && (forall j :: 0 <= j < |files'| && j != k ==> files'[j] == st.archivos[j])
                             && (forall j :: 0 <= j < k ==> st.archivos[j].ejecucionId != info.ejecucionId))))
      && ((forall k :: 0 <= k < |st.archivos| ==> st.archivos[k].ejecucionId != info.ejecucionId) ==>
            files' == st.archivos + [fi])
  {
    var k := FindFileIndex(st.archivos, info.ejecucionId);
    if k >= 0 {
      assert st.archivos[k].ejecucionId == info.ejecucionId;
    }
  }

  lemma {:induction false} UpsertTwice(files: seq<FileInfo>, fi: FileInfo)
    ensures UpsertFile(UpsertFile(files, fi), fi) == UpsertFile(files, fi)
  {
    var k := FindFileIndex(files, fi.ejecucionId);
    var once := UpsertFile(files, fi);
    if k >= 0 {
      assert once[k].ejecucionId == fi.ejecucionId;
      assert forall j :: 0 <= j < k ==> once[j] == files[j];
      assert FindFileIndex(once, fi.ejecucionId) == k;
    } else {
      assert once[|files|] == fi;
      assert forall j :: 0 <= j < |files| ==> once[j] == files[j];
      assert FindFileIndex(once, fi.ejecucionId) == |files|;
    }
  }

  /** Merging the same rows twice gives the store that merging them once gave. */
  lemma MergeInfoIdempotent(st: StoreValue, info: DateTimeInfo, filename: string, recs: seq<Record>)
    ensures var once := MergeInfo(st, info, filename, recs);
      MergeInfo(once, info, filename, recs) == once
  {
    var once := MergeInfo(st, info, filename, recs);
    DistinctOfNoDup(once.totalUrls);
    AddAllPresent(once.totalUrls, UrlsOf(recs));
    UpsertTwice(st.archivos, FileInfoOf(info, filename, recs));
  }

  /** Re-merging the same CSV file leaves the store as the first merge left it. */
  lemma MergeIdempotent(st: StoreValue, csvPath: string, file: Option<seq<CsvRow>>, decode: string -> Option<Value>, now: int)
    requires MergeExecution(st, csvPath, file, decode, now).Success?
    ensures var once := MergeExecution(st, csvPath, file, decode, now).value;
      MergeExecution(once, csvPath, file, decode, now) == Success(once)
  {
    var info := ExtractDateTime(Basename(csvPath), now).value;
    MergeInfoIdempotent(st, info, Basename(csvPath), ParseRows(file.value, decode));
  }

  /**
   * The store as the object that `addNewExecutionToJSON` mutates in place:
   * the `data` object with its key order and the `metadata` fields.
   */
  class Store {
    var data: map<string, Execution>
    var ids: seq<string>
    var totalEjecuciones: int
    var totalUrls: seq<string>
    var archivos: seq<FileInfo>

    function Contents(): StoreValue
      reads this
    {
      StoreValue(data, ids, totalEjecuciones, totalUrls, archivos)
    }

    /** `loadExistingJSON()`: the saved store when there is one, the base store otherwise. */
    constructor Load(saved: Option<StoreValue>)
      ensures Contents() == LoadExisting(saved)
    {
      var v := LoadExisting(saved);
      data, ids, totalEjecuciones, totalUrls, archivos := v.data, v.ids, v.totalEjecuciones, v.totalUrls, v.archivos;
    }

    /**
     * `addNewExecutionToJSON(this, csvPath)`: on success the store is the
     * merge of the old store with the file; when it throws the store is
     * unchanged.
     */
    method AddNewExecution(csvPath: string, file: Option<seq<CsvRow>>, decode: string -> Option<Value>, now: int)
      returns (ok: bool)
      modifies this
      ensures ok == MergeExecution(old(Contents()), csvPath, file, decode, now).Success?
      ensures ok ==> Contents() == MergeExecution(old(Contents()), csvPath, file, decode, now).value
      ensures !ok ==> Contents() == old(Contents())
    {
      var filename := Basename(csvPath);
      var dt := ExtractDateTime(filename, now);
      if dt.Failure? || file.None? {
        return false;
      }
      var info := dt.value;
      var csvData := ReadCsvFile(file.value, decode);
      assert csvData == ParseRows(file.value, decode);
      StoreExecution(info, filename, csvData);
      return true;
    }

    /** The body of `addNewExecutionToJSON` once the file is read: put the execution, then update the lists. */
    method StoreExecution(info: DateTimeInfo, filename: string, csvData: seq<Record>)
      modifies this
      ensures Contents() == MergeInfo(old(Contents()), info, filename, csvData)
    {
      var meta := ExecMeta(info.fecha, info.hora, info.timestamp, filename,
                           |csvData|, CountFound(csvData), CountWithViews(csvData));
      var urls, order, urlsSet := CollectRows(csvData, Distinct(totalUrls));
      PutEntry(info.ejecucionId, Execution(meta, urls, order));
      totalEjecuciones := |ids|;
      totalUrls := urlsSet;
      UpsertArchivo(FileInfo(filename, info.ejecucionId, info.fecha, info.hora, |csvData|));
    }

    /** `existingData.data[id] = ...`: a new key goes last in the key order. */
    method PutEntry(id: string, e: Execution)
      modifies this
      ensures (data, ids) == PutExecution(old(data), old(ids), id, e)
      ensures totalEjecuciones == old(totalEjecuciones) && totalUrls == old(totalUrls) && archivos == old(archivos)
    {
      if id !in data {
        ids := ids + [id];
      }
      data := data[id := e];
    }

    /** The `archivosOriginales` update: replace the entry of the same execution, or append. */
    method UpsertArchivo(fi: FileInfo)
      modifies this
      ensures archivos == UpsertFile(old(archivos), fi)
      ensures data == old(data) && ids == old(ids)
      ensures totalEjecuciones == old(totalEjecuciones) && totalUrls == old(totalUrls)
    {
      var k := FindFileIndex(archivos, fi.ejecucionId);
      if k >= 0 {
        archivos := archivos[k := fi];
      } else {
        archivos := archivos + [fi];
      }
    }
  }

  /** `addToConsolidatedJSON(csvPath)`: load the saved store, then merge the file into it. */
  method AddToConsolidated(saved: Option<StoreValue>, csvPath: string, file: Option<seq<CsvRow>>,
                           decode: string -> Option<Value>, now: int)
    returns (r: Result<StoreValue, MergeError>)
    ensures r.Success? <==> MergeExecution(LoadExisting(saved), csvPath, file, decode, now).Success?
    ensures r.Success? ==> r == MergeExecution(LoadExisting(saved), csvPath, file, decode, now)
  {
    var store := new Store.Load(saved);
    var ok := store.AddNewExecution(csvPath, file, decode, now);
    if ok {
      r := Success(store.Contents());
    } else {
      r := Failure(ReadFailed);
    }
  }

  // ----- full consolidation -----

  /** The files `consolidateCSVToJSON` picks from the data directory. */
  predicate IsReportFile(name: string)
  {
    EndsWith(name, ".csv") && StartsWith(name, "report_")
  }

  function ReportFiles(listing: seq<string>): (r: seq<string>)
    ensures forall f :: f in r <==> f in listing && IsReportFile(f)
  {
    if listing == [] then []
    else ReportFiles(listing[..|listing| - 1]) + (if IsReportFile(listing[|listing| - 1]) then [listing[|listing| - 1]] else [])
  }

  /** The files in processing order: the report files, sorted as strings. */
  function ProcessingOrder(listing: seq<string>): seq<string>
  {
    SortLex(ReportFiles(listing))
  }

  /** The body of the `try` block for a file that was read. */
  function StepInfo(st: StoreValue, info: DateTimeInfo, file: string, recs: seq<Record>): StoreValue
  {
    var (data, ids) := PutExecution(st.data, st.ids, info.ejecucionId, ExecutionOf(info, file, recs));
    StoreValue(data, ids, st.totalEjecuciones, AddAll(st.totalUrls, UrlsOf(recs)),
               st.archivos + [FileInfoOf(info, file, recs)])
  }

  /** One turn of the loop over files: a bad name throws, an unreadable file is skipped. */
  function ConsolidateStep(st: StoreValue, file: string, read: string -> Option<seq<CsvRow>>,
                           decode: string -> Option<Value>, now: int): Result<StoreValue, ExtractError>
  {
    match ExtractDateTime(file, now)
    case Failure(e) => Failure(e)
    case Success(info) =>
      if read(file).None? then Success(st)
      else Success(StepInfo(st, info, file, ParseRows(read(file).value, decode)))
  }

  /** The loop over the given files, from the base store. */
  function ConsolidateFiles(files: seq<string>, read: string -> Option<seq<CsvRow>>,
                            decode: string -> Option<Value>, now: int): Result<StoreValue, ExtractError>
  {
    if files == [] then Success(EmptyStore)
    else
      match ConsolidateFiles(files[..|files| - 1], read, decode, now)
      case Failure(e) => Failure(e)
      case Success(st) => ConsolidateStep(st, files[|files| - 1], read, decode, now)
  }

  lemma ConsolidateFilesPrefix(files: seq<string>, n: nat, read: string -> Option<seq<CsvRow>>,
                               decode: string -> Option<Value>, now: int)
    requires n < |files|
    ensures ConsolidateFiles(files[..n], read, decode, now).Failure? ==>
      ConsolidateFiles(files[..n + 1], read, decode, now) == ConsolidateFiles(files[..n], read, decode, now)
    ensures ConsolidateFiles(files[..n], read, decode, now).Success? ==>
      ConsolidateFiles(files[..n + 1], read, decode, now) ==
      ConsolidateStep(ConsolidateFiles(files[..n], read, decode, now).value, files[n], read, decode, now)
  {
    assert files[..n + 1][..n] == files[..n];
  }

  /**
   * `consolidateCSVToJSON()`: `listing` is what `readdirSync` returns and
   * `read(name)` the rows of the data directory's file `name`.
   */
  function Consolidate(listing: seq<string>, read: string -> Option<seq<CsvRow>>,
                       decode: string -> Option<Value>, now: int): Result<StoreValue, ExtractError>
  {
    var files := ProcessingOrder(listing);
    if files == [] then Success(EmptyStore)
    else
      match ConsolidateFiles(files, read, decode, now)
      case Failure(e) => Failure(e)
      case Success(st) => Success(st.(totalEjecuciones := |st.ids|))
  }

  /**
   * One turn of the `for` loop: the name is parsed outside the `try` (so a bad
   * date throws out of the whole consolidation), then the file is read and
   * added, or skipped when reading fails.
   */
  method ConsolidateFile(st: StoreValue, file: string, read: string -> Option<seq<CsvRow>>,
                         decode: string -> Option<Value>, now: int)
    returns (r: Result<StoreValue, ExtractError>)
    ensures r == ConsolidateStep(st, file, read, decode, now)
  {
    var dt := ExtractDateTime(file, now);
    if dt.Failure? {
      return Failure(dt.error);
    }
    var info := dt.value;
    var content := read(file);
    if content.None? {
      return Success(st);
    }
    var csvData := ReadCsvFile(content.value, decode);
    assert csvData == ParseRows(content.value, decode);
    var id := info.ejecucionId;
    var meta := ExecMeta(info.fecha, info.hora, info.timestamp, file,
                         |csvData|, CountFound(csvData), CountWithViews(csvData));
    var urls, order, urlsSet := CollectRows(csvData, st.totalUrls);
    var ids := if id in st.data then st.ids else st.ids + [id];
    r := Success(StoreValue(st.data[id := Execution(meta, urls, order)], ids, st.totalEjecuciones, urlsSet,
                            st.archivos + [FileInfo(file, id, info.fecha, info.hora, |csvData|)]));
    assert r.value == StepInfo(st, info, file, csvData);
  }

  /** The loop of `consolidateCSVToJSON` over the sorted report files. */
  method ConsolidateAll(listing: seq<string>, read: string -> Option<seq<CsvRow>>,
                        decode: string -> Option<Value>, now: int)
    returns (r: Result<StoreValue, ExtractError>)
    ensures r == Consolidate(listing, read, decode, now)
  {
    var files := ProcessingOrder(listing);
    if files == [] {
      return Success(EmptyStore);
    }
    var consolidated := EmptyStore;
    var n := 0;
    while n < |files|
      invariant 0 <= n <= |files|
      invariant ConsolidateFiles(files[..n], read, decode, now) == Success(consolidated)
    {
      ConsolidateFilesPrefix(files, n, read, decode, now);
      var step := ConsolidateFile(consolidated, files[n], read, decode, now);
      if step.Failure? {
        assert files[..n + 1] <= files;
        ConsolidateFailureSticks(files, n + 1, read, decode, now);
        return Failure(step.error);
      }
      consolidated := step.value;
      n := n + 1;
    }
    assert files[..n] == files;
    return Success(consolidated.(totalEjecuciones := |consolidated.ids|));
  }

  /** Once one file throws, the whole loop throws the same error. */
  lemma {:induction false} ConsolidateFailureSticks(files: seq<string>, n: nat, read: string -> Option<seq<CsvRow>>,
                                                    decode: string -> Option<Value>, now: int)
    requires n <= |files|
    requires ConsolidateFiles(files[..n], read, decode, now).Failure?
    ensures ConsolidateFiles(files, read, decode, now) == ConsolidateFiles(files[..n], read, decode, now)
    decreases |files| - n
  {
    if n < |files| {
      ConsolidateFilesPrefix(files, n, read, decode, now);
      ConsolidateFailureSticks(files, n + 1, read, decode, now);
    } else {
      assert files[..n] == files;
    }
  }

  /** The files the loop reads successfully, in order. */
  function Readable(files: seq<string>, read: string -> Option<seq<CsvRow>>): seq<string>
  {
    if files == [] then []
    else Readable(files[..|files| - 1], read) + (if read(files[|files| - 1]).Some? then [files[|files| - 1]] else [])
  }

  function ArchivoNames(files: seq<FileInfo>): (r: seq<string>)
    ensures |r| == |files| && forall i :: 0 <= i < |files| ==> r[i] == files[i].archivo
  {
    seq(|files|, i requires 0 <= i < |files| => files[i].archivo)
  }

  /** `u` is the URL of some row of file `f`, which can be read. */
  ghost predicate UrlOfFile(u: string, f: string, read: string -> Option<seq<CsvRow>>, decode: string -> Option<Value>)
  {
    read(f).Some? && u in UrlsOf(ParseRows(read(f).value, decode))
  }

  /** What one added file does to the store under construction. */
  lemma StepFacts(st: StoreValue, info: DateTimeInfo, f: string, recs: seq<Record>)
    requires KeysAgree(st)
    ensures var st' := StepInfo(st, info, f, recs);
      && ArchivoNames(st'.archivos) == ArchivoNames(st.archivos) + [f]
      && KeysAgree(st')
      && (NoDup(st.totalUrls) ==> NoDup(st'.totalUrls))
      && (forall u :: u in st'.totalUrls <==> u in st.totalUrls || u in UrlsOf(recs))
  {
    ExecutionKeysAgree(info, f, recs);
    var st' := StepInfo(st, info, f, recs);
    assert ArchivoNames(st'.archivos) == ArchivoNames(st.archivos) + [f];
  }

  /** The store after the last file, from the store before it. */
  lemma LastStep(files: seq<string>, read: string -> Option<seq<CsvRow>>, decode: string -> Option<Value>, now: int)
    requires files != []
    requires ConsolidateFiles(files, read, decode, now).Success?
    ensures ConsolidateFiles(files[..|files| - 1], read, decode, now).Success?
    ensures var f := files[|files| - 1];
      var st := ConsolidateFiles(files[..|files| - 1], read, decode, now).value;
      var st' := ConsolidateFiles(files, read, decode, now).value;
      && ExtractDateTime(f, now).Success?
      && (read(f).None? ==> st' == st)
      && (read(f).Some? ==> st' == StepInfo(st, ExtractDateTime(f, now).value, f, ParseRows(read(f).value, decode)))
  {
  }

  /** A successful loop records exactly the readable files, in order. */
  lemma {:induction false} ConsolidateFilesNames(files: seq<string>, read: string -> Option<seq<CsvRow>>,
                                                 decode: string -> Option<Value>, now: int)
    requires ConsolidateFiles(files, read, decode, now).Success?
    ensures ArchivoNames(ConsolidateFiles(files, read, decode, now).value.archivos) == Readable(files, read)
  {
    if files != [] {
      var f := files[|files| - 1];
      LastStep(files, read, decode, now);
      ConsolidateFilesNames(files[..|files| - 1], read, decode, now);
      var st := ConsolidateFiles(files[..|files| - 1], read, decode, now).value;
      if read(f).Some? {
        var st' := ConsolidateFiles(files, read, decode, now).value;
        assert ArchivoNames(st'.archivos) == ArchivoNames(st.archivos) + [f];
      }
    }
  }

  /** A successful loop keeps the shape of JavaScript objects and has no duplicate URL. */
  lemma {:induction false} ConsolidateFilesKeys(files: seq<string>, read: string -> Option<seq<CsvRow>>,
                                                decode: string -> Option<Value>, now: int)
    requires ConsolidateFiles(files, read, decode, now).Success?
    ensures KeysAgree(ConsolidateFiles(files, read, decode, now).value)
    ensures NoDup(ConsolidateFiles(files, read, decode, now).value.totalUrls)
  {
    if files != [] {
      var f := files[|files| - 1];
      LastStep(files, read, decode, now);
      ConsolidateFilesKeys(files[..|files| - 1], read, decode, now);
      if read(f).Some? {
        var st := ConsolidateFiles(files[..|files| - 1], read, decode, now).value;
        StepFacts(st, ExtractDateTime(f, now).value, f, ParseRows(read(f).value, decode));
      }
    }
  }

  /** A successful loop lists exactly the URLs of the rows read. */
  lemma {:induction false} ConsolidateFilesUrls(files: seq<string>, read: string -> Option<seq<CsvRow>>,
                                                decode: string -> Option<Value>, now: int)
    requires ConsolidateFiles(files, read, decode, now).Success?
    ensures forall u :: u in ConsolidateFiles(files, read, decode, now).value.totalUrls <==>
      exists f :: f in files && UrlOfFile(u, f, read, decode)
  {
    if files != [] {
      var init, f := files[..|files| - 1], files[|files| - 1];
      LastStep(files, read, decode, now);
      ConsolidateFilesUrls(init, read, decode, now);
      var st := ConsolidateFiles(init, read, decode, now).value;
      var st' := ConsolidateFiles(files, read, decode, now).value;
      assert forall u :: u in st'.totalUrls <==> u in st.totalUrls || UrlOfFile(u, f, read, decode);
      forall u ensures u in st'.totalUrls <==> exists g :: g in files && UrlOfFile(u, g, read, decode)
      {
        if UrlOfFile(u, f, read, decode) {
          assert f in files;
        }
        if exists g :: g in files && UrlOfFile(u, g, read, decode) {
          var g :| g in files && UrlOfFile(u, g, read, decode);
          if g != f {
            assert g in init;
          }
        }
        if u in st.totalUrls {
          var g :| g in init && UrlOfFile(u, g, read, decode);
          assert g in files;
        }
      }
    }
  }

  /** File `f` can be read and its name parses to the execution id `id`. */
  ghost predicate ReadAs(f: string, id: string, read: string -> Option<seq<CsvRow>>, now: int)
  {
    read(f).Some? && ExtractDateTime(f, now).Success? && ExtractDateTime(f, now).value.ejecucionId == id
  }

  /** The execution the loop builds from the readable file `f`. */
  function ExecutionOfFile(f: string, read: string -> Option<seq<CsvRow>>, decode: string -> Option<Value>, now: int): Execution
    requires read(f).Some? && ExtractDateTime(f, now).Success?
  {
    ExecutionOf(ExtractDateTime(f, now).value, f, ParseRows(read(f).value, decode))
  }

  /** Position `i` holds the last file of `files` that is read as execution `id`. */
  ghost predicate LastReadAs(files: seq<string>, i: int, id: string, read: string -> Option<seq<CsvRow>>, now: int)
  {
    && 0 <= i < |files|
    && ReadAs(files[i], id, read, now)
    && forall j :: i < j < |files| ==> !ReadAs(files[j], id, read, now)
  }

  /** What the last file does to the executions of the store. */
  lemma DataStep(files: seq<string>, read: string -> Option<seq<CsvRow>>, decode: string -> Option<Value>, now: int)
    requires files != []
    requires ConsolidateFiles(files, read, decode, now).Success?
    ensures ConsolidateFiles(files[..|files| - 1], read, decode, now).Success?
    ensures var f := files[|files| - 1];
      var st := ConsolidateFiles(files[..|files| - 1], read, decode, now).value;
      var st' := ConsolidateFiles(files, read, decode, now).value;
      && ExtractDateTime(f, now).Success?
      && (read(f).None? ==> st'.data == st.data)
      && (read(f).Some? ==> st'.data == st.data[ExtractDateTime(f, now).value.ejecucionId := ExecutionOfFile(f, read, decode, now)])
  {
    LastStep(files, read, decode, now);
  }

  /** A successful loop holds one execution per id that some readable file parses to. */
  lemma {:induction false} ConsolidateFilesIds(files: seq<string>, read: string -> Option<seq<CsvRow>>,
                                               decode: string -> Option<Value>, now: int)
    requires ConsolidateFiles(files, read, decode, now).Success?
    ensures var st := ConsolidateFiles(files, read, decode, now).value;
      forall id :: id in st.data <==> exists f :: f in files && ReadAs(f, id, read, now)
  {
    if files != [] {
      var init, f := files[..|files| - 1], files[|files| - 1];
      FrontAndLast(files);
      DataStep(files, read, decode, now);
      ConsolidateFilesIds(init, read, decode, now);
      var st := ConsolidateFiles(init, read, decode, now).value;
      var st' := ConsolidateFiles(files, read, decode, now).value;
      IdsSnoc(init, f, st.data, st'.data, read, decode, now);
    }
  }

  /** The ids an added file brings are its own, if it can be read. */
  lemma IdsSnoc(init: seq<string>, f: string, d: map<string, Execution>, d': map<string, Execution>,
                read: string -> Option<seq<CsvRow>>, decode: string -> Option<Value>, now: int)
    requires forall id :: id in d <==> exists g :: g in init && ReadAs(g, id, read, now)
    requires ExtractDateTime(f, now).Success?
    requires read(f).None? ==> d' == d
    requires read(f).Some? ==> d' == d[ExtractDateTime(f, now).value.ejecucionId := ExecutionOfFile(f, read, decode, now)]
    ensures forall id :: id in d' <==> exists g :: g in init + [f] && ReadAs(g, id, read, now)
  {
    forall id ensures id in d' <==> exists g :: g in init + [f] && ReadAs(g, id, read, now)
    {
      if ReadAs(f, id, read, now) {
        assert f in init + [f];
      }
      if exists g :: g in init + [f] && ReadAs(g, id, read, now) {
        var g :| g in init + [f] && ReadAs(g, id, read, now);
        if g != f {
          assert g in init;
        }
      }
      if id in d {
        var g :| g in init && ReadAs(g, id, read, now);
        assert g in init + [f];
      }
    }
  }

  /**
   * In a successful loop, the execution stored under an id is the one built
   * from the last readable file that parses to it: a later file with the same
   * id overwrites an earlier one.
   */
  lemma {:induction false} ConsolidateFilesLastWins(files: seq<string>, read: string -> Option<seq<CsvRow>>,
                                                    decode: string -> Option<Value>, now: int)
    requires ConsolidateFiles(files, read, decode, now).Success?
    ensures var st := ConsolidateFiles(files, read, decode, now).value;
      forall i, id :: LastReadAs(files, i, id, read, now) ==>
        id in st.data && st.data[id] == ExecutionOfFile(files[i], read, decode, now)
  {
    if files != [] {
      var init, f := files[..|files| - 1], files[|files| - 1];
      DataStep(files, read, decode, now);
      ConsolidateFilesLastWins(init, read, decode, now);
      var st' := ConsolidateFiles(files, read, decode, now).value;
      forall i, id | LastReadAs(files, i, id, read, now)
        ensures id in st'.data && st'.data[id] == ExecutionOfFile(files[i], read, decode, now)
      {
        if i < |files| - 1 {
          LastReadAsInit(files, i, id, read, now);
        }
      }
    }
  }

  /** The last file read as `id` before the end is still the last one once the final file is dropped. */
  lemma LastReadAsInit(files: seq<string>, i: int, id: string, read: string -> Option<seq<CsvRow>>, now: int)
    requires LastReadAs(files, i, id, read, now) && i < |files| - 1
    ensures LastReadAs(files[..|files| - 1], i, id, read, now)
    ensures !ReadAs(files[|files| - 1], id, read, now)
  {
    var init := files[..|files| - 1];
    assert init[i] == files[i];
    forall j | i < j < |init|
      ensures !ReadAs(init[j], id, read, now)
    {
      assert init[j] == files[j];
    }
  }

  /** The loop throws exactly when some file's name has an invalid date. */
  lemma {:induction false} ConsolidateFilesFailure(files: seq<string>, read: string -> Option<seq<CsvRow>>,
                                                   decode: string -> Option<Value>, now: int)
    ensures ConsolidateFiles(files, read, decode, now).Failure? <==> exists f :: f in files && ExtractDateTime(f, now).Failure?
  {
    if files != [] {
      var init, f := files[..|files| - 1], files[|files| - 1];
      FrontAndLast(files);
      ConsolidateFilesFailure(init, read, decode, now);
      assert f in files;
      if exists g :: g in init && ExtractDateTime(g, now).Failure? {
        var g :| g in init && ExtractDateTime(g, now).Failure?;
        assert g in files;
      }
      if exists g :: g in files && ExtractDateTime(g, now).Failure? {
        var g :| g in files && ExtractDateTime(g, now).Failure?;
        if g != f {
          assert g in init;
        }
      }
    }
  }

  /**
   * `consolidateCSVToJSON`, when no report name has an invalid date:
   * `archivosOriginales` names the readable report files in sorted order (a
   * file that fails to read is absent), `totalEjecuciones` counts the
   * executions, `totalUrls` is the set of URLs read, without duplicates, and
   * there is one execution per id a readable report file parses to, built
   * from the last such file in sorted order.
   */
  lemma ConsolidateCorrect(listing: seq<string>, read: string -> Option<seq<CsvRow>>,
                           decode: string -> Option<Value>, now: int)
    requires Consolidate(listing, read, decode, now).Success?
    ensures var st := Consolidate(listing, read, decode, now).value;
      && ArchivoNames(st.archivos) == Readable(ProcessingOrder(listing), read)
      && KeysAgree(st)
      && st.totalEjecuciones == |st.data|
      && NoDup(st.totalUrls)
      && (forall u :: u in st.totalUrls <==> exists f :: f in listing && IsReportFile(f) && UrlOfFile(u, f, read, decode))
      && (forall id :: id in st.data <==> exists f :: f in listing && IsReportFile(f) && ReadAs(f, id, read, now))
      && (forall i, id :: LastReadAs(ProcessingOrder(listing), i, id, read, now) ==>
            id in st.data && st.data[id] == ExecutionOfFile(ProcessingOrder(listing)[i], read, decode, now))
  {
    var files := ProcessingOrder(listing);
    ProcessingOrderCorrect(listing);
    if files != [] {
      ConsolidateFilesNames(files, read, decode, now);
      ConsolidateFilesKeys(files, read, decode, now);
      ConsolidateFilesUrls(files, read, decode, now);
      ConsolidateFilesIds(files, read, decode, now);
      ConsolidateFilesLastWins(files, read, decode, now);
      var st := ConsolidateFiles(files, read, decode, now).value;
      NoDupCard(st.ids, st.data.Keys);
    }
  }

  /** The full consolidation throws exactly when some report file's name has an invalid date. */
  lemma ConsolidateFails(listing: seq<string>, read: string -> Option<seq<CsvRow>>,
                         decode: string -> Option<Value>, now: int)
    ensures Consolidate(listing, read, decode, now).Failure? <==>
      exists f :: f in listing && IsReportFile(f) && ExtractDateTime(f, now).Failure?
  {
    var files := ProcessingOrder(listing);
    ProcessingOrderCorrect(listing);
    if files != [] {
      ConsolidateFilesFailure(files, read, decode, now);
    }
  }

  /** The processing order is sorted and holds exactly the report files of the listing. */
  lemma ProcessingOrderCorrect(listing: seq<string>)
    ensures var files := ProcessingOrder(listing);
      && (forall i, j :: 0 <= i < j < |files| ==> LexLe(files[i], files[j]))
      && multiset(files) == multiset(ReportFiles(listing))
      && (forall f :: f in files <==> f in listing && IsReportFile(f))
  {
    SortLexCorrect(ReportFiles(listing));
    var files := ProcessingOrder(listing);
    forall f ensures f in files <==> f in ReportFiles(listing) {
      assert f in files <==> f in multiset(files);
      assert f in ReportFiles(listing) <==> f in multiset(ReportFiles(listing));
    }
  }

  lemma {:induction false} NoReportFiles(listing: seq<string>)
    requires forall f :: f in listing ==> !IsReportFile(f)
    ensures ProcessingOrder(listing) == []
  {
    if listing != [] {
      assert listing[|listing| - 1] in listing;
      NoReportFiles(listing[..|listing| - 1]);
    }
  }

  /** Without report files the consolidation is the empty store. */
  lemma ConsolidateNoFiles(listing: seq<string>, read: string -> Option<seq<CsvRow>>,
                           decode: string -> Option<Value>, now: int)
    requires forall f :: f in listing ==> !IsReportFile(f)
    ensures Consolidate(listing, read, decode, now) == Success(EmptyStore)
    ensures Consolidate(listing, read, decode, now).value.totalEjecuciones == 0
  {
    NoReportFiles(listing);
  }
}
