/**
 * The scheduling helpers of the report scheduler (scheduler.js, and the
 * copies inside the HTTP server, index.js): the next run time, the list of
 * the next five runs, the log file name and the choice of old logs to delete.
 *
 * Instants are integers in milliseconds counted from midnight of the day the
 * computation starts (local time; daylight-saving shifts are not modelled),
 * so "now" lies in `[0, DayMs)` and `FireTime(day, hour)` is the instant
 * `setDate(getDate() + day)` followed by `setHours(hour, 0, 0, 0)` gives.
 */
module Schedule {
  import opened JsStrings
  import opened Seqs
  import opened Timestamps

  const HourMs := 3600000
  const DayMs := 86400000

  // The hours of the cron expression `0 */6 * * *` (minute 0 of every sixth hour): 00:00, 06:00, 12:00 and 18:00.
  const ScheduleHours: seq<int> := [0, 6, 12, 18]

  /** `MAX_LOG_FILES` */
  const MaxLogFiles := 7

  function FireTime(day: int, hour: int): int
  {
    day * DayMs + hour * HourMs
  }

  lemma ScheduleHoursSpacing(j: int)
    requires 0 <= j < |ScheduleHours|
    ensures ScheduleHours[j] == 6 * j
  {
  }

  /** `t` is a run of the schedule, on some day from today on. */
  ghost predicate IsFireTime(t: int)
  {
    exists day: nat, j :: 0 <= j < |ScheduleHours| && t == FireTime(day, ScheduleHours[j])
  }

  /**
   * Between the instants six hours apart that start slots `j` and `j + 1` of
   * a day (slot 4 is the next midnight) lies no run but the first.
   */
  lemma OneFirePerSlot(day: int, j: int, d: int, k: int)
    requires 0 <= j <= 3 && 0 <= k < |ScheduleHours|
    requires FireTime(day, 6 * j) <= FireTime(d, ScheduleHours[k]) < FireTime(day, 6 * (j + 1))
    ensures d == day && k == j
  {
    ScheduleHoursSpacing(k);
  }

  // ----- getNextExecutionTime -----

  /** The reference: the next multiple of six hours after the current hour, else midnight of the next day. */
  function NextExecutionOf(now: int): int
    requires 0 <= now < DayMs
  {
    var hour := now / HourMs;
    if hour < 18 then FireTime(0, (hour / 6 + 1) * 6) else FireTime(1, 0)
  }

  /**
   * The next execution is the earliest run strictly after `now`: comparing
   * whole hours, as the loop does, gives the same as comparing instants.
   */
  lemma NextExecutionIsFirst(now: int)
    requires 0 <= now < DayMs
    ensures now < NextExecutionOf(now) && IsFireTime(NextExecutionOf(now))
    ensures forall day: nat, j :: 0 <= j < |ScheduleHours| && now < FireTime(day, ScheduleHours[j]) ==>
      NextExecutionOf(now) <= FireTime(day, ScheduleHours[j])
  {
    var hour := now / HourMs;
    if hour < 18 {
      var j := hour / 6 + 1;
      assert NextExecutionOf(now) == FireTime(0, ScheduleHours[j]);
    } else {
      assert NextExecutionOf(now) == FireTime(1, ScheduleHours[0]);
    }
    forall day: nat, j | 0 <= j < |ScheduleHours| && now < FireTime(day, ScheduleHours[j])
      ensures NextExecutionOf(now) <= FireTime(day, ScheduleHours[j])
    {
      ScheduleHoursSpacing(j);
    }
  }

  /** `getNextExecutionTime`: the first scheduled hour later than the current hour, else tomorrow at 00:00. */
  method NextExecutionTime(now: int) returns (next: int)
    requires 0 <= now < DayMs
    ensures next == NextExecutionOf(now)
  {
    var currentHour := now / HourMs;
    var j := 0;
    while j < |ScheduleHours|
      invariant 0 <= j <= |ScheduleHours|
      invariant forall k :: 0 <= k < j ==> ScheduleHours[k] <= currentHour
    {
      var hour := ScheduleHours[j];
      if hour > currentHour {
        ScheduleHoursSpacing(j);
        if j > 0 {
          ScheduleHoursSpacing(j - 1);
        }
        assert currentHour / 6 + 1 == j;
        return FireTime(0, hour);
      }
      j := j + 1;
    }
    assert ScheduleHours[3] <= currentHour;
    return FireTime(1, 0);
  }

  // ----- the next five executions -----

  predicate Increasing(s: seq<int>)
  {
    forall i, j :: 0 <= i < j < |s| ==> s[i] < s[j]
  }

  /** Every run strictly after `now` and before `bound` is in `next`. */
  ghost predicate ListsRunsBefore(next: seq<int>, now: int, bound: int)
  {
    forall day: nat, j :: 0 <= j < |ScheduleHours| && now < FireTime(day, ScheduleHours[j]) < bound ==>
      FireTime(day, ScheduleHours[j]) in next
  }

  /** What both loops keep: the list so far holds runs after `now`, in increasing order. */
  ghost predicate FutureRuns(next: seq<int>, now: int)
  {
    Increasing(next) && forall k :: 0 <= k < |next| ==> now < next[k] && IsFireTime(next[k])
  }

  /**
   * The `while (executionsFound < 5)` loop over days with the inner `for` over
   * the scheduled hours: the first five runs strictly after `now`, in order,
   * with no run skipped; the first one is what `getNextExecutionTime` reports.
   */
  method NextExecutions(now: int) returns (next: seq<int>)
    requires 0 <= now < DayMs
    ensures |next| == 5
    ensures FutureRuns(next, now)
    ensures ListsRunsBefore(next, now, next[4] + 1)
    ensures next[0] == NextExecutionOf(now)
  {
    next := [];
    var executionsFound := 0;
    var currentDay := 0;
    while executionsFound < 5
      invariant 0 <= executionsFound == |next| <= 5 && currentDay >= 0
      invariant FutureRuns(next, now)
      invariant forall k :: 0 <= k < |next| ==> next[k] < FireTime(currentDay, 0)
      invariant executionsFound < 5 ==> ListsRunsBefore(next, now, FireTime(currentDay, 0))
      invariant executionsFound == 5 ==> ListsRunsBefore(next, now, next[4] + 1)
      decreases (if currentDay == 0 then 6 else 5) - executionsFound
    {
      next, executionsFound := ScanDay(now, currentDay, next, executionsFound);
      currentDay := currentDay + 1;
    }
    NextExecutionIsFirst(now);
    var d: nat, j :| 0 <= j < |ScheduleHours| && NextExecutionOf(now) == FireTime(d, ScheduleHours[j]);
    assert NextExecutionOf(now) in next;
  }

  /** One day of the outer loop: the inner `for`, with its `break` at five. */
  method ScanDay(now: int, currentDay: nat, next0: seq<int>, found0: nat) returns (next: seq<int>, executionsFound: nat)
    requires 0 <= now < DayMs
    requires found0 == |next0| < 5
    requires FutureRuns(next0, now)
    requires forall k :: 0 <= k < |next0| ==> next0[k] < FireTime(currentDay, 0)
    requires ListsRunsBefore(next0, now, FireTime(currentDay, 0))
    ensures executionsFound == |next| <= 5
    ensures FutureRuns(next, now)
    ensures currentDay > 0 ==> executionsFound > found0
    ensures executionsFound >= found0
    ensures forall k :: 0 <= k < |next| ==> next[k] < FireTime(currentDay + 1, 0)
    ensures executionsFound < 5 ==> ListsRunsBefore(next, now, FireTime(currentDay + 1, 0))
    ensures executionsFound == 5 ==> ListsRunsBefore(next, now, next[4] + 1)
  {
    next, executionsFound := next0, found0;
    var j := 0;
    while j < |ScheduleHours|
      invariant 0 <= j <= |ScheduleHours|
      invariant executionsFound == |next| < 5
      invariant executionsFound >= found0 && (currentDay > 0 && j > 0 ==> executionsFound > found0)
      invariant FutureRuns(next, now)
      invariant forall k :: 0 <= k < |next| ==> next[k] < FireTime(currentDay, 6 * j)
      invariant ListsRunsBefore(next, now, FireTime(currentDay, 6 * j))
    {
      var hour := ScheduleHours[j];
      var t := FireTime(currentDay, hour);
      ScheduleHoursSpacing(j);
      var before := next;
      if t > now {
        next := next + [t];
        executionsFound := executionsFound + 1;
      }
      SlotRuns(before, next, now, currentDay, j);
      SlotStep(before, next, now, currentDay, j);
      if executionsFound >= 5 {
        return;
      }
      j := j + 1;
    }
  }

  /** One turn of the inner loop keeps the list increasing and below the next slot. */
  lemma SlotRuns(before: seq<int>, next: seq<int>, now: int, day: nat, j: int)
    requires 0 <= j < |ScheduleHours|
    requires FutureRuns(before, now)
    requires forall k :: 0 <= k < |before| ==> before[k] < FireTime(day, 6 * j)
    requires next == if FireTime(day, 6 * j) > now then before + [FireTime(day, 6 * j)] else before
    ensures FutureRuns(next, now)
    ensures forall k :: 0 <= k < |next| ==> next[k] < FireTime(day, 6 * (j + 1))
  {
    if next != before {
      ScheduleHoursSpacing(j);
      assert IsFireTime(FireTime(day, ScheduleHours[j]));
    }
  }

  /** One turn of the inner loop extends the list of runs to the next slot. */
  lemma SlotStep(before: seq<int>, next: seq<int>, now: int, day: int, j: int)
    requires 0 <= j < |ScheduleHours|
    requires ListsRunsBefore(before, now, FireTime(day, 6 * j))
    requires next == if FireTime(day, 6 * j) > now then before + [FireTime(day, 6 * j)] else before
    ensures ListsRunsBefore(next, now, FireTime(day, 6 * (j + 1)))
    ensures next != before ==> ListsRunsBefore(next, now, next[|next| - 1] + 1)
  {
    forall d: nat, k | 0 <= k < |ScheduleHours| && now < FireTime(d, ScheduleHours[k]) < FireTime(day, 6 * (j + 1))
      ensures FireTime(d, ScheduleHours[k]) in next
    {
      if FireTime(d, ScheduleHours[k]) >= FireTime(day, 6 * j) {
        OneFirePerSlot(day, j, d, k);
        ScheduleHoursSpacing(k);
      }
    }
  }

  // ----- log files -----

  /** `ga4_report_${date}_${time}.log`, with the clock fields of `getTimestampedFilename`. */
  function LogName(t: LocalTime): string
  {
    "ga4_report_" + DateText(t) + "_" + TimeText(t) + ".log"
  }

  /** `path.join('./logs', name)`: the join drops the leading `./`. */
  function LogPath(name: string): string
  {
    "logs/" + name
  }

  function LogFilename(t: LocalTime): string
  {
    LogPath(LogName(t))
  }

  /** A log name starting with the prefix and ending in `.log`: a candidate for clean-up. */
  predicate IsReportLog(name: string)
  {
    StartsWith(name, "ga4_report_") && EndsWith(name, ".log")
  }

  /**
   * The log of a run lives in the log directory under a name the clean-up
   * considers; every field after the year is two digits that read back as
   * the field.
   */
  lemma LogFilenameShape(t: LocalTime)
    requires ValidLocalTime(t)
    ensures Basename(LogFilename(t)) == LogName(t) && IsReportLog(LogName(t))
    ensures |Pad(t.month)| == |Pad(t.day)| == |Pad(t.hour)| == |Pad(t.minute)| == 2
    ensures NumeralValue(Pad(t.month), 10) == t.month && NumeralValue(Pad(t.day), 10) == t.day
    ensures NumeralValue(Pad(t.hour), 10) == t.hour && NumeralValue(Pad(t.minute), 10) == t.minute
  {
    Pad2Digits(t.month);
    Pad2Digits(t.day);
    Pad2Digits(t.hour);
    Pad2Digits(t.minute);
    LogNameAffixes(t);
    LogFilenameBasename(t);
  }

  lemma LogFilenameBasename(t: LocalTime)
    requires ValidLocalTime(t)
    ensures Basename(LogFilename(t)) == LogName(t)
  {
    StampTextsNoSlash(t);
    assert LogName(t) == "ga4_report_" + DateText(t) + "_" + TimeText(t) + ".log";
    assert '/' !in LogName(t);
    assert LogFilename(t) == "logs" + "/" + LogName(t);
    BasenameOfJoin("logs", LogName(t));
  }

  lemma LogNameAffixes(t: LocalTime)
    ensures IsReportLog(LogName(t))
  {
    var name := LogName(t);
    var rest := DateText(t) + "_" + TimeText(t);
    assert name == "ga4_report_" + rest + ".log";
    assert name[..11] == "ga4_report_";
    assert name[|name| - 4..] == ".log";
  }

  /** A file of the log directory with its modification time. */
  datatype LogFile = LogFile(name: string, mtime: int)

  /** The `filter` of `cleanOldLogs`: the report logs, in directory order. */
  function ReportLogs(files: seq<LogFile>): (r: seq<LogFile>)
    ensures forall f :: f in r <==> f in files && IsReportLog(f.name)
    ensures |r| <= |files|
  {
    if files == [] then []
    else
      var init := files[..|files| - 1];
      var last := files[|files| - 1];
      assert forall f :: f in files <==> f in init || f == last;
      ReportLogs(init) + (if IsReportLog(last.name) then [last] else [])
  }

  /** The comparator `b.time - a.time`, as "may come before": newest first. */
  predicate NewerOrSame(a: LogFile, b: LogFile)
  {
    a.mtime >= b.mtime
  }

  lemma NewerOrSameTotal()
    ensures TotalPreorder(NewerOrSame)
  {
  }

  /** The report logs, newest first. */
  function ByAge(files: seq<LogFile>): seq<LogFile>
  {
    Sort(ReportLogs(files), NewerOrSame)
  }

  /** `files.slice(MAX_LOG_FILES)` when there are more than `MAX_LOG_FILES`, else nothing. */
  function LogsToDelete(files: seq<LogFile>): seq<LogFile>
  {
    var sorted := ByAge(files);
    if |sorted| > MaxLogFiles then sorted[MaxLogFiles..] else []
  }

  /** What is left of the report logs. */
  function LogsKept(files: seq<LogFile>): seq<LogFile>
  {
    var sorted := ByAge(files);
    if |sorted| > MaxLogFiles then sorted[..MaxLogFiles] else sorted
  }

  /**
   * Only report logs are deleted; with at most seven nothing is, otherwise
   * all but seven are; the kept and the deleted logs together are the report
   * logs, and no kept log is older than a deleted one.
   */
  lemma CleanOldLogsCorrect(files: seq<LogFile>)
    ensures forall f :: f in LogsToDelete(files) ==> f in files && IsReportLog(f.name)
    ensures |LogsToDelete(files)| == if |ReportLogs(files)| > MaxLogFiles then |ReportLogs(files)| - MaxLogFiles else 0
    ensures |LogsKept(files)| == if |ReportLogs(files)| > MaxLogFiles then MaxLogFiles else |ReportLogs(files)|
    ensures multiset(LogsKept(files)) + multiset(LogsToDelete(files)) == multiset(ReportLogs(files))
    ensures forall i, j :: 0 <= i < |LogsKept(files)| && 0 <= j < |LogsToDelete(files)| ==>
      LogsKept(files)[i].mtime >= LogsToDelete(files)[j].mtime
  {
    CleanDeletesReportLogs(files);
    CleanCounts(files);
    CleanKeepsNewest(files);
  }

  lemma CleanDeletesReportLogs(files: seq<LogFile>)
    ensures forall f :: f in LogsToDelete(files) ==> f in files && IsReportLog(f.name)
  {
    var sorted := ByAge(files);
    SortPerm(ReportLogs(files), NewerOrSame);
    forall f | f in LogsToDelete(files)
      ensures f in files && IsReportLog(f.name)
    {
      assert f in sorted;
      assert f in multiset(sorted);
    }
  }

  lemma CleanCounts(files: seq<LogFile>)
    ensures |LogsToDelete(files)| == if |ReportLogs(files)| > MaxLogFiles then |ReportLogs(files)| - MaxLogFiles else 0
    ensures |LogsKept(files)| == if |ReportLogs(files)| > MaxLogFiles then MaxLogFiles else |ReportLogs(files)|
    ensures multiset(LogsKept(files)) + multiset(LogsToDelete(files)) == multiset(ReportLogs(files))
  {
    var sorted := ByAge(files);
    SortPerm(ReportLogs(files), NewerOrSame);
    if |sorted| > MaxLogFiles {
      assert sorted == sorted[..MaxLogFiles] + sorted[MaxLogFiles..];
    } else {
      assert multiset(LogsToDelete(files)) == multiset{};
    }
  }

  lemma CleanKeepsNewest(files: seq<LogFile>)
    ensures forall i, j :: 0 <= i < |LogsKept(files)| && 0 <= j < |LogsToDelete(files)| ==>
      LogsKept(files)[i].mtime >= LogsToDelete(files)[j].mtime
  {
    var sorted := ByAge(files);
    NewerOrSameTotal();
    SortSorted(ReportLogs(files), NewerOrSame);
    if |sorted| > MaxLogFiles {
      forall i, j | 0 <= i < MaxLogFiles && 0 <= j < |sorted| - MaxLogFiles
        ensures sorted[..MaxLogFiles][i].mtime >= sorted[MaxLogFiles..][j].mtime
      {
        assert NewerOrSame(sorted[i], sorted[MaxLogFiles + j]);
      }
    }
  }

  /** The deletion loop of `cleanOldLogs`: the paths it unlinks, in order. */
  method CleanOldLogs(files: seq<LogFile>) returns (unlinked: seq<string>)
    ensures |unlinked| == |LogsToDelete(files)|
    ensures forall k :: 0 <= k < |unlinked| ==> unlinked[k] == LogPath(LogsToDelete(files)[k].name)
  {
    var sorted := ByAge(files);
    unlinked := [];
    if |sorted| > MaxLogFiles {
      var filesToDelete := sorted[MaxLogFiles..];
      var i := 0;
      while i < |filesToDelete|
        invariant 0 <= i <= |filesToDelete|
        invariant |unlinked| == i
        invariant forall k :: 0 <= k < i ==> unlinked[k] == LogPath(filesToDelete[k].name)
      {
        unlinked := unlinked + [LogPath(filesToDelete[i].name)];
        i := i + 1;
      }
    }
  }
}
