/**
 * What the two fetch scripts (index_final.js, index_improved.js) share about
 * a GA4 report query: its outcome, the warning an error becomes and the way
 * lists of messages are written into one CSV cell.
 */
module GaQuery {
  import opened JsStrings

  /**
   * The outcome of the GA4 calls that `getGA4DataForUrl` awaits for one URL
   * inside its `try`: the message of the first error thrown, or the rows of
   * the main report (`response.rows`, where a missing list is empty).
   */
  datatype QueryOutcome<R> = QueryFailed(message: string) | QueryRows(rows: seq<R>)

  /**
   * The backup "similar URLs" query sent when the main report has no rows.
   * Its rows are only logged, so all that matters is whether it, or the
   * mapping of its rows for the log, throws.
   */
  datatype BackupOutcome = BackupAnswered | BackupFailed(message: string)

  /**
   * The outcome of the `try` block from the main report and the backup
   * query: the backup is only sent, and its error only reaches the catch,
   * when the main report answered with no rows.
   */
  function WithBackup<R>(main: QueryOutcome<R>, backup: BackupOutcome): (r: QueryOutcome<R>)
    ensures main.QueryFailed? || main.rows != [] ==> r == main
    ensures main == QueryRows([]) && backup.BackupFailed? ==> r == QueryFailed(backup.message)
    ensures main == QueryRows([]) && backup.BackupAnswered? ==> r == main
  {
    match main
    case QueryRows(rows) =>
      if rows == [] && backup.BackupFailed? then QueryFailed(backup.message) else main
    case QueryFailed(_) => main
  }

  /** The backup query turns an empty report into a failure exactly when it throws. */
  lemma BackupDecides<R>(main: QueryOutcome<R>, backup: BackupOutcome)
    ensures WithBackup(main, backup).QueryFailed?
      <==> main.QueryFailed? || (main == QueryRows([]) && backup.BackupFailed?)
    ensures WithBackup(main, backup).QueryRows? ==> WithBackup(main, backup) == main
  {
  }

  /** `Error: ${error.message}` */
  function ErrorWarning(message: string): (w: string)
    ensures |w| == 7 + |message| && w[..7] == "Error: " && w[7..] == message
  {
    "Error: " + message
  }

  /** `list.join('; ')`, the text of a warnings or insights cell. */
  function JoinList(xs: seq<string>): string
  {
    Join(xs, "; ")
  }

  /** A list of non-empty messages is written as an empty cell exactly when it is empty. */
  lemma JoinListEmptyIff(xs: seq<string>)
    requires forall i :: 0 <= i < |xs| ==> xs[i] != ""
    ensures JoinList(xs) == "" <==> xs == []
  {
    if |xs| > 1 {
      assert JoinList(xs) == xs[0] + "; " + Join(xs[1..], "; ");
    }
  }
}
