/**
 * Names built from the local clock: the fetch scripts' report paths
 * (`getTimestampedFilename` in index_final.js and index_improved.js, which are
 * identical) and the fields the scheduler's log names share with them.
 */
module Timestamps {
  import opened Wrappers
  import opened JsStrings
  import opened Consolidator

  /** The local date and time fields of `new Date()`; `month` is `getMonth() + 1`. */
  datatype LocalTime = LocalTime(year: nat, month: nat, day: nat, hour: nat, minute: nat)

  predicate ValidLocalTime(t: LocalTime)
  {
    1 <= t.month <= 12 && 1 <= t.day <= 31 && t.hour <= 23 && t.minute <= 59
  }

  /** `n.toString().padStart(2, '0')` */
  function Pad(n: nat): string
  {
    Pad2(NatToString(n))
  }

  /** `${getFullYear()}-${pad(month)}-${pad(day)}` */
  function DateText(t: LocalTime): string
  {
    NatToString(t.year) + "-" + Pad(t.month) + "-" + Pad(t.day)
  }

  /** `${pad(hours)}-${pad(minutes)}` */
  function TimeText(t: LocalTime): string
  {
    Pad(t.hour) + "-" + Pad(t.minute)
  }

  /** The name of a report file: `report_${date}_${time}.csv`. */
  function CsvName(t: LocalTime): string
  {
    "report_" + DateText(t) + "_" + TimeText(t) + ".csv"
  }

  /** `getTimestampedFilename()` */
  function CsvFilename(t: LocalTime): string
  {
    "./data/" + CsvName(t)
  }

  lemma DigitsNoSlash(s: string)
    requires AllDigits(s)
    ensures '/' !in s
  {
  }

  /** A year from 1000 to 9999 is written with four digits. */
  lemma YearDigits(n: nat)
    requires 1000 <= n <= 9999
    ensures |NatToString(n)| == 4
  {
    assert NatToString(n) == NatToString(n / 10) + [DigitChar(n % 10)];
    assert NatToString(n / 10) == NatToString(n / 100) + [DigitChar((n / 10) % 10)];
  }

  /** The date and time texts hold no `/`, so a name built from them is a single path segment. */
  lemma StampTextsNoSlash(t: LocalTime)
    requires ValidLocalTime(t)
    ensures '/' !in DateText(t) && '/' !in TimeText(t)
  {
    Pad2Digits(t.month);
    Pad2Digits(t.day);
    Pad2Digits(t.hour);
    Pad2Digits(t.minute);
    DigitsNoSlash(NatToString(t.year));
    DigitsNoSlash(Pad(t.month));
    DigitsNoSlash(Pad(t.day));
    DigitsNoSlash(Pad(t.hour));
    DigitsNoSlash(Pad(t.minute));
  }

  /** Where each field of the date text sits. */
  lemma DateTextSlices(t: LocalTime)
    requires ValidLocalTime(t) && 1000 <= t.year <= 9999
    ensures var s := DateText(t);
      && |s| == 10 && s[..4] == NatToString(t.year) && s[4] == '-' && s[5..7] == Pad(t.month)
      && s[7] == '-' && s[8..10] == Pad(t.day)
  {
    YearDigits(t.year);
    Pad2Digits(t.month);
    Pad2Digits(t.day);
  }

  /** Where each field of the time text sits. */
  lemma TimeTextSlices(t: LocalTime)
    requires ValidLocalTime(t)
    ensures var s := TimeText(t);
      && |s| == 5 && s[..2] == Pad(t.hour) && s[2] == '-' && s[3..5] == Pad(t.minute)
  {
    Pad2Digits(t.hour);
    Pad2Digits(t.minute);
  }

  /** Where each field of a report name sits. */
  lemma CsvNameSlices(t: LocalTime)
    requires ValidLocalTime(t) && 1000 <= t.year <= 9999
    ensures var s := CsvName(t);
      && |s| == 27 && s[..7] == "report_" && s[23..27] == ".csv"
      && s[7..11] == NatToString(t.year) && s[12..14] == Pad(t.month) && s[15..17] == Pad(t.day)
      && s[18..20] == Pad(t.hour) && s[21..23] == Pad(t.minute)
      && s[11] == '-' && s[14] == '-' && s[17] == '_' && s[20] == '-'
      && s[7..17] == DateText(t) && s[7..23] == DateText(t) + "_" + TimeText(t)
  {
    var date, time := DateText(t), TimeText(t);
    DateTextSlices(t);
    TimeTextSlices(t);
    var s := CsvName(t);
    assert s == "report_" + date + "_" + time + ".csv";
    assert s[7..17] == date;
    assert s[18..23] == time;
    assert s[7..11] == date[..4] && s[12..14] == date[5..7] && s[15..17] == date[8..10];
    assert s[18..20] == time[..2] && s[21..23] == time[3..5];
  }

  /** The name of the file matches the consolidator's pattern at its start. */
  lemma CsvNameMatches(t: LocalTime)
    requires ValidLocalTime(t) && 1000 <= t.year <= 9999
    ensures |CsvName(t)| == 27 && MatchAt(CsvName(t), 0)
    ensures CsvName(t)[7..17] == DateText(t)
    ensures CsvName(t)[18..20] == Pad(t.hour) && CsvName(t)[21..23] == Pad(t.minute)
    ensures CsvName(t)[7..23] == DateText(t) + "_" + TimeText(t)
    ensures DigitValue(CsvName(t), 7, 4) == t.year
    ensures DigitValue(CsvName(t), 12, 2) == t.month && DigitValue(CsvName(t), 15, 2) == t.day
    ensures DigitValue(CsvName(t), 18, 2) == t.hour && DigitValue(CsvName(t), 21, 2) == t.minute
  {
    CsvNameSlices(t);
    YearDigits(t.year);
    ValueOfNatToString(t.year);
    Pad2Digits(t.month);
    Pad2Digits(t.day);
    Pad2Digits(t.hour);
    Pad2Digits(t.minute);
    var s := CsvName(t);
    assert DigitsAt(s, 7, 4) by {
      forall k | 7 <= k < 11 ensures IsDigit(s[k]) {
        assert s[k] == s[7..11][k - 7];
      }
    }
    assert DigitsAt(s, 12, 2) by {
      forall k | 12 <= k < 14 ensures IsDigit(s[k]) {
        assert s[k] == s[12..14][k - 12];
      }
    }
    assert DigitsAt(s, 15, 2) by {
      forall k | 15 <= k < 17 ensures IsDigit(s[k]) {
        assert s[k] == s[15..17][k - 15];
      }
    }
    assert DigitsAt(s, 18, 2) by {
      forall k | 18 <= k < 20 ensures IsDigit(s[k]) {
        assert s[k] == s[18..20][k - 18];
      }
    }
    assert DigitsAt(s, 21, 2) by {
      forall k | 21 <= k < 23 ensures IsDigit(s[k]) {
        assert s[k] == s[21..23][k - 21];
      }
    }
  }

  /**
   * The report a fetch run writes yields, under the consolidator, the
   * execution id `YYYY-MM-DD_HH-MM` of the run's clock, its date, the time
   * `HH:MM` and the timestamp of that local time.
   */
  lemma CsvFilenameRoundTrip(t: LocalTime, now: int)
    requires ValidLocalTime(t) && 1000 <= t.year <= 9999
    ensures Basename(CsvFilename(t)) == CsvName(t)
    ensures ExtractDateTime(CsvName(t), now) == Success(DateTimeInfo(
      DateText(t),
      Pad(t.hour) + ":" + Pad(t.minute),
      Stamp(t.year, t.month, t.day, t.hour, t.minute),
      DateText(t) + "_" + TimeText(t)))
  {
    CsvFilenameBasename(t);
    CsvNameMatches(t);
    ExtractAtStart(CsvName(t), now);
  }

  lemma CsvFilenameBasename(t: LocalTime)
    requires ValidLocalTime(t) && 1000 <= t.year <= 9999
    ensures Basename(CsvFilename(t)) == CsvName(t)
  {
    var s := CsvName(t);
    StampTextsNoSlash(t);
    assert '/' !in s by {
      assert s == "report_" + DateText(t) + "_" + TimeText(t) + ".csv";
    }
    assert CsvFilename(t) == "./data" + "/" + s;
    BasenameOfJoin("./data", s);
  }

  /** A name the pattern matches at its start is read from its fixed positions. */
  lemma ExtractAtStart(s: string, now: int)
    requires MatchAt(s, 0)
    requires ValidDateTime(DigitValue(s, 12, 2), DigitValue(s, 15, 2), DigitValue(s, 18, 2), DigitValue(s, 21, 2))
    ensures ExtractDateTime(s, now) == Success(DateTimeInfo(s[7..17], s[18..20] + ":" + s[21..23],
      Stamp(DigitValue(s, 7, 4), DigitValue(s, 12, 2), DigitValue(s, 15, 2), DigitValue(s, 18, 2), DigitValue(s, 21, 2)),
      s[7..23]))
  {
    assert FirstMatch(s, 0) == Some(0);
  }
}
