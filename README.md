# reports-stats-bitfinanzas, modelled in Dafny

This project models the core of a GA4 page-metrics reporting pipeline:

- **Fetch scripts.** `index_final.js` and `index_improved.js` query GA4 for each configured URL. They add up the integer metrics over the result rows, run a few consistency rules, count successes and failures, and write one CSV report per run, named from the local clock.
- **Consolidator.** `lib/csv-consolidator.js` turns those reports into one JSON store of executions. One part reads an execution id, a date and a time out of the report's name. One part parses each row permissively. Another merges a report into the store in place. The last rebuilds the store from every report in sorted order.
- **URL list manager.** `lib/url-manager.js` keeps the list of URLs to query as an ordered set of normalised paths. The config routes of `index.js` decide HTTP statuses on top of it.
- **Readers of the store.** These are the HTTP handlers of `server/api.js` (duplicated in `index.js`) and the console viewer `scripts/json-viewer.js`. They cover health and statistics, the execution listing, the per-URL reducer, the detail of one execution, and the fuzzy URL lookup with its history.
- **Scheduler.** `scheduler.js` (and its copies in `index.js`) computes the next run time and the next five runs. It also names the run log and chooses which old logs to delete.

Files, one module each:

- `wrappers.dfy`, `jsstrings.dfy`, `seqs.dfy`, `jsvalues.dfy`: `Option`/`Result`, and the JavaScript semantics the code relies on. These are `parseInt`, `trim`, `includes`, `toLowerCase`, `padStart`, `path.basename`, `Array.from(new Set(…))`, the stable `Array.prototype.sort` and the default string sort.
- `consolidator.dfy`: the consolidator.
  - The store is a value `StoreValue`. Its JavaScript objects are a `map` plus a key-order `seq`.
  - The class `Store` holds it and changes it in place.
  - `MergeExecution`/`MergeInfo` specify the merge.
  - `ConsolidateFiles` specifies the full rebuild.
- `urlmanager.dfy`: URL normalisation and the class `UrlConfig` whose methods change the URL list. `configroutes.dfy` holds the config routes. The list operations take a `Normalization`: `AsWritten` is the source's single call of `normalizeUrl`, which the class and the routes use, and `Corrected` is the normalisation settled to a fixed point (see Findings).
- `urlstats.dfy` and `queries.dfy` hold the HTTP handlers. The per-URL reducer is a method with nested loops, proved equal to a fold over the store's visits. `jsonviewer.dfy` holds the viewer.
- `timestamps.dfy` and `schedule.dfy`: the clock-derived names and the schedule arithmetic, with instants as integers.
- `gaquery.dfy`, `fetchfinal.dfy` and `fetchimproved.dfy` hold the two fetch scripts. The outcome of the GA4 calls is a parameter: either the rows of the main report or the message of the first error, which may come from the backup query sent after an empty report.
- `endtoend.dfy` connects the scripts to the consolidator. It shows that a row written by `index_final.js` reads back under `parseCSVRow` with the same URL, date, metrics and found flag. A row written by `index_improved.js` loses its date and views, because that script writes those two columns under other titles. Its new users, engaged sessions, breakdown and insights are lost as well, because it does not write those columns.

Where the specification and the code disagree, the model follows the code:

- After a merge, `totalUrls` is the old list plus the new URLs. It is not the union of the URLs still stored: an overwritten execution's URLs stay (`Consolidator.MergeKeepsStaleUrls`).
- A file whose name holds an impossible date makes `new Date(...).toISOString()` throw. In the full consolidation the name is read outside the per-file `try`, so such a file aborts the whole run (`Consolidator.ConsolidateFailureSticks`). Only a file that fails to read is skipped.

Inputs that come from outside are parameters:

- the current instant `now`;
- the local clock `LocalTime`;
- the directory listing;
- the CSV rows of each file (`read`);
- `JSON.parse`/`JSON.stringify` of the breakdown (`decode`/`encode`);
- the outcome of the GA4 calls for each URL (`query`): the main report and, after an empty one, the backup query (`GaQuery.WithBackup`);
- where the floating-point mean bounce rate of a report with sessions lies (`bounce`, `bounceAbove100`).

## Model

| member | source | states |
|---|---|---|
| `Consolidator.LoadExisting` | lib/csv-consolidator.js:14-36 | With no saved store, the base store has no executions, no ids, a count of 0 and empty URL and file lists. Otherwise the saved store is used unchanged. |
| `Consolidator.Store.Load` | lib/csv-consolidator.js:14-35 | The store object starts out holding exactly what `loadExistingJSON` returns. |
| `Consolidator.FirstMatch` | lib/csv-consolidator.js:207 | The unanchored regex finds the leftmost position where `report_DDDD-DD-DD_DD-DD.csv` occurs, or reports that it occurs nowhere. |
| `Consolidator.ExtractDateTime` | lib/csv-consolidator.js:206-228 | A name with no match gives `'unknown'` date and time, the current instant and the name minus its first `.csv`. With a match, it is an error iff the date fields are impossible. Otherwise the id is the matched `YYYY-MM-DD_HH-MM`, the date is its first ten characters, the time is `HH:MM` and the timestamp is the instant of the matched year, month, day, hours and minutes, as `Stamp` computes it. |
| `Consolidator.StampOrder` | lib/csv-consolidator.js:220 | On dates and times that exist on the calendar, a timestamp is smaller iff its year, month, day, hour and minute come first in that order. |
| `Consolidator.StampCarriesDay` | lib/csv-consolidator.js:220 | A day past the end of its month is read as a day of the next month, as `new Date` does. For December, the next month is January of the next year. |
| `Consolidator.StampCarriesMidnight` | lib/csv-consolidator.js:220 | `24:00` of a day is the same instant as `00:00` of the next day. |
| `Consolidator.StampOrderDiffersFromNames` | lib/csv-consolidator.js:220 | The report of 2025-02-30 10:00 is 2 March and sorts after the report of 2025-03-01 10:00, although its name sorts first. `24:00` on 7 October ties with `00:00` on 8 October. |
| `Consolidator.ExtractEmbedded` | lib/csv-consolidator.js:207-227 | A report name embedded anywhere in a longer name, with no earlier match before it, still yields that report's id and date. |
| `Consolidator.TextOrNull` | lib/csv-consolidator.js:157-158 | A missing or empty warnings or insights cell becomes null. Any other text is kept. |
| `Consolidator.Breakdown` | lib/csv-consolidator.js:133-140 | A missing, empty or unparsable breakdown cell gives `{}`. Otherwise the parsed value is used, and the row is never rejected. |
| `Consolidator.ParseCsvRow` | lib/csv-consolidator.js:131-161 | The URL and query date are taken from their cells. `datosEncontrados` is set iff the cell is exactly `'true'`. The warnings and insights are `TextOrNull` of their cells, so non-empty text is kept. The breakdown is `Breakdown` of its cell. Each of the five integer metrics is `parseInt(cell) \|\| 0` of its own column. |
| `Consolidator.MetricOfCell` | lib/csv-consolidator.js:146-150 | For each of the five integer columns (views, sessions, active users, new users, engaged sessions): a missing cell reads as 0, and so does an unparsable cell. A cell of digits reads as its value. The decimal text of any integer reads back as that integer. |
| `Consolidator.ReadCsvFile` | lib/csv-consolidator.js:168-199 | The records are the rows parsed one by one, in file order, one per row. |
| `Consolidator.UrlMapKeys` | lib/csv-consolidator.js:76-85 | The execution's URL keys are exactly the URLs of its rows. |
| `Consolidator.UrlMapLastWins` | lib/csv-consolidator.js:77-81 | When rows repeat a URL, the entry stored for that URL is the last such row's. |
| `Consolidator.CountsConcat` | lib/csv-consolidator.js:68-69 | Both filter counts, found-flag rows and rows with views > 0, add up over concatenated rows. |
| `Consolidator.CountsBounds` | lib/csv-consolidator.js:67-69 | Each count is at most the row count. It equals the row count iff every row passes, and 0 iff none does. |
| `Consolidator.UrlKeysAtMostRows` | lib/csv-consolidator.js:67-81 | The number of URL keys is at most the metadata's `totalUrls`, and equal to it when the rows' URLs are distinct. |
| `Consolidator.CollectRows` | lib/csv-consolidator.js:75-89 | The `forEach` over the rows builds the URL entries (last row wins), their key order, and the old URL list extended by the new URLs. |
| `Consolidator.FindFileIndex` | lib/csv-consolidator.js:97-99 | `findIndex` gives the first file entry with the execution's id, or -1 when there is none. |
| `Consolidator.MergeExecution` | lib/csv-consolidator.js:44-124 | Merging a report fails iff its name gives an impossible date or the file cannot be read. |
| `Consolidator.MergeData` | lib/csv-consolidator.js:61-92 | After a merge, `data[id]` is the new execution, replaced wholesale. Every other execution is unchanged. The id is appended to the key order only if it is new, and `totalEjecuciones` equals the number of executions. |
| `Consolidator.MergeCounts` | lib/csv-consolidator.js:62-70 | The new metadata has `totalUrls` equal to the row count, `urlsExitosas` the found-flag count and `urlsConDatos` the count of rows with views > 0, both within `totalUrls`. It also carries the date, time and file name. |
| `Consolidator.MergeUrls` | lib/csv-consolidator.js:75-93 | The new URL list has no duplicates and holds exactly the old and new URLs. A duplicate-free old list is kept as a prefix, followed only by URLs that were not in it. |
| `Consolidator.MergeKeepsStaleUrls` | lib/csv-consolidator.js:75 | A URL whose only execution is overwritten stays in `totalUrls` although no execution holds it any more. |
| `Consolidator.MergeFiles` | lib/csv-consolidator.js:97-113 | The first file entry with the same id is replaced in place and all others are kept. Without such an entry, one entry is appended. |
| `Consolidator.UpsertTwice` | lib/csv-consolidator.js:109-113 | Upserting the same file entry twice equals upserting it once. |
| `Consolidator.MergeIdempotent` | lib/csv-consolidator.js:44-124 | Merging the same report into the store it produced changes nothing. The wall-clock stamp is not modelled. |
| `Consolidator.MergeInfoIdempotent` | lib/csv-consolidator.js:61-113 | Merging the same parsed execution a second time leaves the store unchanged. |
| `Consolidator.Store.AddNewExecution` | lib/csv-consolidator.js:44-124 | The in-place merge succeeds exactly when the merge does. On success the store becomes the merged store. On failure it is unchanged. |
| `Consolidator.Store.StoreExecution` | lib/csv-consolidator.js:61-113 | The in-place updates of `data`, the counts, the URL list and the file list produce exactly the merged store. |
| `Consolidator.AddToConsolidated` | lib/csv-consolidator.js:336-364 | Incremental consolidation loads the saved or base store and merges the one report. It succeeds exactly when that merge does, a missing file included. |
| `Consolidator.ReportFiles` | lib/csv-consolidator.js:239-241 | The files considered are exactly the listed names starting with `report_` and ending in `.csv`. |
| `Consolidator.ProcessingOrderCorrect` | lib/csv-consolidator.js:239-242 | The processing order is sorted by the default string order and is a permutation of the report files. |
| `Consolidator.ConsolidateFilesPrefix` | lib/csv-consolidator.js:263-312 | Each loop step either keeps a failure or applies the step for the next file. |
| `Consolidator.ConsolidateFile` | lib/csv-consolidator.js:264-311 | One loop iteration has three outcomes. A name with an impossible date aborts. An unreadable file is skipped. Otherwise the execution and its file entry are added. |
| `Consolidator.ConsolidateAll` | lib/csv-consolidator.js:234-329 | The loop over the sorted report files computes the specified consolidation. |
| `Consolidator.ConsolidateFailureSticks` | lib/csv-consolidator.js:265 | Once a name has aborted the run, no later file changes the outcome. |
| `Consolidator.LastStep` | lib/csv-consolidator.js:263-311 | A successful run's last file was either skipped or merged into the store of the files before it. |
| `Consolidator.ConsolidateFilesNames` | lib/csv-consolidator.js:302-311 | `archivosOriginales` names exactly the readable files, in processing order. Skipped files are absent. |
| `Consolidator.ConsolidateFilesKeys` | lib/csv-consolidator.js:272-299 | The rebuilt store lists each execution key once, and its URL list has no duplicates. |
| `Consolidator.ConsolidateFilesUrls` | lib/csv-consolidator.js:299-317 | A URL is in the rebuilt list iff some readable processed file has a row with it. |
| `Consolidator.ConsolidateFilesIds` | lib/csv-consolidator.js:264-272 | The rebuilt store has an execution under an id iff some readable processed file's name parses to that id. |
| `Consolidator.ConsolidateFilesLastWins` | lib/csv-consolidator.js:272-299 | The execution under an id is the one built from the last readable processed file whose name parses to that id. An earlier file with the same id is overwritten. |
| `Consolidator.ConsolidateFilesFailure` | lib/csv-consolidator.js:263-265 | The loop throws iff some processed file's name has an impossible date. |
| `Consolidator.ConsolidateCorrect` | lib/csv-consolidator.js:234-324 | After a successful full consolidation:<br>- the file list is the readable report files in sorted order;<br>- the keys agree;<br>- `totalEjecuciones` equals the number of executions;<br>- the URL list is duplicate-free and holds exactly the URLs of readable report files;<br>- there is an execution under an id iff a readable report file's name parses to it;<br>- that execution is built from the last such file in sorted order. |
| `Consolidator.ConsolidateFails` | lib/csv-consolidator.js:239-328 | The full consolidation throws iff some report file's name has an impossible date. |
| `Consolidator.NoReportFiles` | lib/csv-consolidator.js:239-244 | A listing without report files leaves nothing to process. |
| `Consolidator.ConsolidateNoFiles` | lib/csv-consolidator.js:244-247 | With no report files the result is the empty store, with `totalEjecuciones` 0. |
| `UrlManager.NormalizeUrlAsWritten` | lib/url-manager.js:47-64 | `normalizeUrl` as written: the result starts and ends with `/`. Without a Git Bash prefix it only adds the missing slashes. |
| `UrlManager.StripGitPrefix` | lib/url-manager.js:50 | `replace(/^.*\/Git/, '')` removes everything up to the last `/Git` of the first line, or nothing when that line has none. |
| `UrlManager.WrapInSlashes` | lib/url-manager.js:54-61 | The result starts and ends with `/`. It is the input with at most a leading and a trailing slash added, and a wrapped input is unchanged. |
| `UrlManager.NormalizeUrlAsWrittenNotIdempotent` | lib/url-manager.js:49-61 | `"c/Program Files/Git/"` normalises to `"/c/Program Files/Git/"`, which normalises to `"/"`. |
| `UrlManager.NormalizeUrlAsWrittenShrinks` | lib/url-manager.js:49-51 | On a wrapped path, `normalizeUrl` is the identity or strictly shortens it. |
| `UrlManager.NormalizeUrl` | lib/url-manager.js:47-64 | The corrected normalisation applies `normalizeUrl` until it settles. The result is wrapped in slashes and is a fixed point of `normalizeUrl`. |
| `UrlManager.NormalizeUrlIdempotent` | lib/url-manager.js:47-64 | Normalising twice gives the same result as normalising once. |
| `UrlManager.NormalizeUrlAgrees` | lib/url-manager.js:47-63 | Wherever `normalizeUrl` as written is already idempotent, the corrected one gives the same result. |
| `UrlManager.NormalizeUrlAgreesOnPlainPaths` | lib/url-manager.js:54-61 | For every input whose normalised form has no Git Bash prefix, the two agree. |
| `UrlManager.AddUrlOn` | lib/url-manager.js:79-107 | Adding fails as invalid iff the value is not a non-blank string. It fails as a duplicate iff the trimmed URL, normalised once as the source does (or settled, in the corrected mode), is present. Failures leave the list unchanged. Success appends exactly that normalised URL and reports the new length. |
| `UrlManager.RemoveAtPosition` | lib/url-manager.js:127-132 | An all-digit argument removes position `n` (1-based) iff `1 <= n <= length`. Otherwise it fails with the list unchanged. |
| `UrlManager.RemoveByPath` | lib/url-manager.js:136-155 | Once a string argument is normalised, removal succeeds iff that path is present, and then takes out its first occurrence and reports the path. Otherwise it reports that path as not found, with the list unchanged. |
| `UrlManager.RemoveUrlOn` | lib/url-manager.js:114-156 | A falsy argument fails. A truthy non-string, non-digit value makes `normalizeUrl` throw. Digits go by position, and other strings by path after one call of `normalizeUrl` (or the settled normalisation, in the corrected mode). |
| `UrlManager.UpdateUrlsOn` | lib/url-manager.js:180-208 | A non-array fails. An array with a non-string throws. The list normalised element by element (once, as the source does, or settled) with a duplicate fails. Otherwise the list becomes exactly that normalised list, in input order. Failures leave the list unchanged. |
| `UrlManager.RemoveKeepsNoDup` | lib/url-manager.js:147 | Under either normalisation, removing keeps a duplicate-free list duplicate-free. |
| `UrlManager.RemovedAtSomePosition` | lib/url-manager.js:147-155 | Under either normalisation, a successful removal takes out exactly one element, and the rest keep their order. |
| `UrlManager.AddAndUpdateKeepNoDup` | lib/url-manager.js:90-98 | Under either normalisation, adding and replacing keep a duplicate-free list duplicate-free. |
| `UrlManager.AddUrlTwice` | lib/url-manager.js:87-96 | Under either normalisation, adding the same URL again leaves the list as it was and reports that URL as already present. |
| `UrlManager.AddThenRemove` | lib/url-manager.js:87-155 | Removing the URL just added, by the path `addUrl` reported, restores the previous list iff that path normalises to itself. |
| `UrlManager.AddThenRemoveCorrected` | lib/url-manager.js:87-155 | With the corrected normalisation, removing the URL just added always restores the previous list. |
| `UrlManager.AddThenRemoveAsWrittenFails` | lib/url-manager.js:87-145 | As written, adding `"c/Program Files/Git/"` to an empty list stores `"/c/Program Files/Git/"`, and removing that stored path answers not found for `"/"` with the list unchanged. |
| `UrlManager.UpdateAsWrittenKeepsUnsettled` | lib/url-manager.js:189-200 | As written, replacing the list by a path whose second normalisation is `"/"` (but whose first is not) together with `"/"` succeeds with both stored. The corrected normalisation rejects the same list as holding a duplicate. |
| `UrlManager.RemoveByPositionOrPath` | lib/url-manager.js:127-155 | On a duplicate-free list, removing the number `i` removes the `i`-th entry. Removing that entry by name has the same effect iff it normalises to itself. |
| `UrlManager.UpdateUrlsNormalized` | lib/url-manager.js:189-200 | After a successful replace, the list is duplicate-free and every URL is wrapped in slashes. Under the corrected normalisation every URL is also a fixed point of `normalizeUrl`. |
| `UrlManager.UrlConfig.Default` | lib/url-manager.js:14-19 | The default configuration has no URLs and the standard description. |
| `UrlManager.UrlConfig.Load` | lib/url-manager.js:28-31 | A loaded configuration holds the saved URLs and description. |
| `UrlManager.UrlConfig.AddUrl` | lib/url-manager.js:79-107 | The in-place `push`, after one call of `normalizeUrl` on the trimmed URL, gives the outcome `AddUrlOn` specifies for the source's normalisation. It keeps the list duplicate-free and leaves the description alone. |
| `UrlManager.UrlConfig.Locate` | lib/url-manager.js:122-138 | The index is -1 iff removal, with the source's normalisation, fails. Otherwise it is a valid position and removing it gives the specified list. |
| `UrlManager.UrlConfig.RemoveUrl` | lib/url-manager.js:114-156 | The in-place `splice` gives the outcome `RemoveUrlOn` specifies for the source's normalisation, and keeps the list duplicate-free. |
| `UrlManager.UrlConfig.ClearUrls` | lib/url-manager.js:162-173 | The list is emptied and the count reported is its previous length. |
| `UrlManager.UrlConfig.UpdateUrls` | lib/url-manager.js:180-208 | The reassignment gives the outcome `UpdateUrlsOn` specifies for the source's normalisation. A successful one leaves a duplicate-free list. |
| `ConfigRoutes.Field` | index.js:461 | Destructuring the body throws iff the body is undefined or null. A missing field reads as `undefined`. |
| `ConfigRoutes.PostUrlOn` | index.js:459-483 | POST answers 201, 400 or 500. It answers 500 iff the body cannot be destructured, and 201 iff `addUrl` succeeds, and then exactly one new URL is appended: the list is `addUrl`'s, ending in the URL passed once through `normalizeUrl`. Every other answer leaves the list unchanged. |
| `ConfigRoutes.DeleteUrlOn` | index.js:486-510 | DELETE answers 400 for a falsy `url`. It answers 500 on a missing body or a throwing `removeUrl`, 404 on not found and 200 on success. 200 removes exactly one position, and the list is `removeUrl`'s result for the body's `url`. Other answers change nothing. |
| `ConfigRoutes.PutUrlsOn` | index.js:513-537 | PUT answers 400 for a non-array and 500 on a missing body or a non-string element. It answers 200 iff `updateUrls` succeeds, and then the list is each element passed once through `normalizeUrl`, with no duplicates. |
| `ConfigRoutes.GetUrls` | index.js:440-456 | GET answers 200 with the configured URLs, their number and the configuration's description. |
| `ConfigRoutes.PostUrl` | index.js:459-483 | The handler's status and the new list are those specified, and the list stays duplicate-free. |
| `ConfigRoutes.DeleteUrl` | index.js:486-510 | The handler's status and the new list are those specified, and the list stays duplicate-free. |
| `ConfigRoutes.PutUrls` | index.js:513-537 | The handler's status and the new list are those specified. 200 leaves a duplicate-free list. |
| `Queries.HealthAfterMerge` | server/api.js:77-78 | After a merge, health reports the number of stored executions and the number of distinct URLs. |
| `Queries.PeriodOf` | server/api.js:92-98 | The period is null iff there is at most one execution. Otherwise it runs from the date of the alphabetically first id to the date of the alphabetically last id. |
| `Queries.RowsOf` | server/api.js:118-123 | Each listed execution is its id, its metadata and `urlsProcessed`, the number of its URL keys. |
| `Queries.ExecutionsCorrect` | server/api.js:118-124 | The execution listing is a permutation of the executions in key order and is sorted by timestamp. Ties keep key order, every execution appears, and each row carries its own metadata and URL count. |
| `Queries.SuccessRateBounds` | server/api.js:188 | The unrounded rate behind `tasaExito` lies between 0 and 100, and is 100 iff every appearance found data. |
| `Queries.SummaryRows` | server/api.js:182-189 | One summary per aggregated URL, in first-seen order, with its tally and its unrounded success rate. |
| `Queries.UrlsReport` | server/api.js:136-199 | The handler's loops and sort produce exactly the specified report, and `total` is its length. |
| `Queries.SortedSummaries` | server/api.js:182-190 | The sorted summaries are ordered by non-increasing views and have distinct URLs. They cover every aggregated URL and carry that URL's own tally. |
| `Queries.UrlsReportCorrect` | index.js:284-331 | The report has one entry per URL key of any execution and nothing else, sorted by non-increasing `totalVistas`. Each entry's appearances, sums and success count are those of the executions holding it, with at least one appearance. |
| `Queries.UrlsReportStable` | server/api.js:190 | URLs with equal views stay in first-seen order. |
| `Queries.SummaryOver` | server/api.js:220-226 | `totalUrls` counts the execution's URL keys, and `urlsConDatos` is at most that. |
| `Queries.DetailOf` | server/api.js:207-226 | An unknown id gives a 404 carrying every id. A known one gives its execution and the summary over its URL entries in key order (`SummaryOver`), whose `totalUrls` is its number of URL keys. |
| `Queries.DetailOfFileExecution` | index.js:361-363 | For an execution built from distinct rows, the summary's counts equal the metadata's `totalUrls` and `urlsExitosas`. |
| `Queries.DetailCountsDifferFromMetadata` | index.js:363 | The summary's `urlsConDatos` (found flags) and the metadata's `urlsConDatos` (views > 0) differ on a found row with no views. |
| `Queries.Matching` | server/api.js:240-242 | The matches are the URLs for which either string, lower-cased, contains the other. The first match is the first matching URL of the list. |
| `Queries.ExactFormMatches` | server/api.js:253 | The exact `/q/` form always counts as a match. |
| `Queries.FindTarget` | server/api.js:244-253 | There is no match iff no URL matches, and then the 404 carries every URL. Otherwise the exact `/q/` form is preferred when listed, else the first match in list order. |
| `Queries.HistoryOf` | server/api.js:256-268 | The history holds exactly one entry per execution containing the target, built from that execution. |
| `Queries.CollectHistory` | server/api.js:256-268 | The `forEach` with `push` builds exactly the specified history. |
| `Queries.UrlDetails` | server/api.js:234-287 | The handler gives exactly the specified answer. |
| `Queries.TotalsSort` | server/api.js:273-277 | Sorting the history does not change its sums. |
| `Queries.HistoryIsTally` | index.js:394-415 | The history length and sums equal the target's appearances and sums in the per-URL reducer. |
| `Queries.UrlAnswerCorrect` | index.js:375-425 | A found URL is listed and matches the query. Its history is sorted by timestamp and holds exactly the executions containing it. The counts and sums agree with the per-URL reducer. |
| `UrlStats.ExecTally` | server/api.js:161-177 | A URL's appearance count equals the length of its execution list and is at most the number of executions. The success count is at most the appearance count. |
| `UrlStats.AggregateCorrect` | server/api.js:142-179 | The fold over visits records URLs in first-seen order, has a key iff the URL was visited, and stores each URL's tally. |
| `UrlStats.TallyIsExecTally` | server/api.js:142-179 | The tally over the store's visits is the per-URL sum over the executions that hold the URL. |
| `UrlStats.VisitedUrls` | server/api.js:142-145 | A URL is visited iff some execution has it as a key. |
| `UrlStats.StoreAggregate` | index.js:284-321 | The aggregate of the store has duplicate-free order and one entry per URL key of any execution. Each entry is that URL's tally, with at least one appearance. |
| `UrlStats.CollectUrlStats` | server/api.js:142-179 | The nested `forEach` loops compute the aggregate of the store's visits. |
| `UrlStats.CountExecution` | server/api.js:145-178 | The inner loop adds one execution's visits to the aggregate. |
| `UrlStats.CountUrl` | server/api.js:146-177 | One inner iteration is one step of the fold: create the stat if absent, then add the visit. |
| `Schedule.NextExecutionIsFirst` | index.js:571-583 | The next run is strictly after now, falls on a scheduled hour, and no scheduled run lies between them. |
| `Schedule.NextExecutionTime` | index.js:566-584 | `getNextExecutionTime`'s loop with early return computes the first scheduled hour after the current hour, else 00:00 tomorrow. |
| `Schedule.NextExecutions` | scheduler.js:167-191 | The loop ends with exactly five runs, increasing and after now, each on hour 0, 6, 12 or 18. No run before the fifth is skipped, and the first is the next run. |
| `Schedule.ScanDay` | scheduler.js:178-189 | One day of the inner loop appends that day's remaining runs, in order, until five are found. |
| `Schedule.SlotStep` | scheduler.js:179-188 | Adding a slot's run when it is in the future keeps "no run skipped" up to the next slot. |
| `Schedule.OneFirePerSlot` | scheduler.js:169 | Each six-hour slot holds exactly one scheduled run. |
| `Schedule.LogFilenameShape` | scheduler.js:47-53 | The log name is `logs/ga4_report_…`, it is a clean-up candidate, and every field after the year is two digits that read back as the field. |
| `Schedule.ReportLogs` | scheduler.js:23-25 | Only names starting with `ga4_report_` and ending in `.log` are candidates. |
| `Schedule.CleanOldLogsCorrect` | scheduler.js:21-44 | With at most seven candidates nothing is deleted. Otherwise exactly count − 7 are deleted, all of them candidates and none newer than a kept one. Kept and deleted logs together are the candidates. |
| `Schedule.CleanOldLogs` | index.js:33-55 | The loop unlinks exactly the logs chosen for deletion, in order, under the log directory. |
| `Timestamps.CsvNameMatches` | index_improved.js:22-28 | The report name is 27 characters and matches the consolidator's pattern at its start, with each field read back as the clock's. |
| `Timestamps.CsvFilenameRoundTrip` | index_final.js:22-28 | The report path's base name, read by the consolidator, gives the id `YYYY-MM-DD_HH-MM`, the date `YYYY-MM-DD`, the time `HH:MM` and the clock's timestamp. |
| `GaQuery.WithBackup` | index_final.js:142-170 | The outcome of the GA4 calls: the main report's, unless it is empty and the backup query throws, which gives that error. |
| `GaQuery.BackupDecides` | index_final.js:142-170 | The calls fail iff the main report fails or is empty with a throwing backup query; otherwise they give the main report's rows. |
| `GaQuery.ErrorWarning` | index_final.js:285 | The error warning is `Error: ` followed by the message. |
| `GaQuery.JoinListEmptyIff` | index_final.js:350-351 | Joining non-empty messages with `'; '` gives the empty text iff there are none. |
| `FetchFinal.AccumulateRows` | index_final.js:198-231 | The `forEach` computes the specified integer totals and source breakdown. |
| `FetchFinal.TotalsConcat` | index_final.js:211-215 | Totals add up over concatenated rows. |
| `FetchFinal.TotalsPermutation` | index_final.js:198-215 | Totals do not depend on the order of the rows. |
| `FetchFinal.UnparsableViewsCountZero` | index_final.js:200 | A row whose views do not parse adds nothing to the views total. |
| `FetchFinal.BreakdownKeys` | index_final.js:224-230 | The breakdown has one key per source label of the rows. |
| `FetchFinal.BreakdownLastWins` | index_final.js:224-230 | The last row with a label decides that label's entry. |
| `FetchFinal.Texts` | index_final.js:55-71 | The message texts are those of the messages, in order. |
| `FetchFinal.ValidateDataConsistency` | index_final.js:47-88 | The pushes compute the specified warnings and insights. |
| `FetchFinal.ValidationRules` | index_final.js:54-72 | The rules, each an iff:<br>- "views without sessions" iff views > 0 and sessions = 0;<br>- the bounce warnings iff their checks hold;<br>- the sessions-per-view insight iff sessions > views > 0;<br>- the users-per-session insight iff users > sessions > 0. |
| `FetchFinal.ValidationKinds` | index_final.js:50-72 | Insights are never warnings. The two bounce tests on one number never fire together, so there are at most two warnings and two insights. |
| `FetchFinal.MeanBounce` | index_final.js:235 | The mean bounce rate is the weighted mean of the rows when there are sessions and 0 (in range) otherwise. |
| `FetchFinal.ValidationAtMostOneWarning` | index_final.js:58-68 | With that mean, a record has at most one warning: "views without sessions" needs zero sessions, which leaves the bounce rate at 0. |
| `FetchFinal.ValidationDistinct` | index_final.js:54-72 | No warning or insight is raised twice. |
| `FetchFinal.DataForUrlCases` | index_final.js:94-289 | Data is found iff the GA4 calls returned rows. No rows gives a zeroed record with no warnings and no breakdown. A failure gives zeroes, `Error: msg` as the only warning, the error and `'{}'`. Found data carries the totals, the breakdown and the validation of the mean bounce rate. It has at most one warning, and no bounce warning without sessions. |
| `FetchFinal.EmptyReportBackup` | index_final.js:142-289 | An empty main report gives the no-data record when the backup query answers, and the error record (`Error: msg`, the error and `'{}'`) when it throws. |
| `FetchFinal.GetDataForUrl` | index_final.js:94-289 | The method computes the specified record. |
| `FetchFinal.SummaryCounts` | index_final.js:328-345 | `successful` + `errors` equals the number of URLs, and the warning and insight counts are within it. There are no errors iff every URL found data, and no warned URLs iff none has warnings. |
| `FetchFinal.SummarySnoc` | index_final.js:331-345 | Each processed URL adds its own contributions to the counters. |
| `FetchFinal.CsvRecords` | index_final.js:348-352 | Each CSV record is the data with its messages joined by `'; '`. |
| `FetchFinal.CountRecord` | index_final.js:331-345 | One iteration updates the counters as specified. |
| `FetchFinal.RunReport` | index_final.js:291-360 | The report goes to the timestamped path. The summary is that of the per-URL results. One CSV record is written per URL, in order. |
| `FetchFinal.NoErrorsIff` | index_final.js:328-337 | A run has no errors iff every URL's query returned rows. |
| `FetchFinal.CsvRowOf` | index_final.js:299-317 | The written row keeps the URL and uses only the header's titles. |
| `FetchImproved.AccumulateRows` | index_improved.js:164-182 | The `forEach` computes the specified integer totals. |
| `FetchImproved.TotalsConcat` | index_improved.js:173-175 | Each total adds up over concatenated rows. |
| `FetchImproved.TotalsPermutation` | index_improved.js:164-176 | Totals do not depend on the order of the rows. |
| `FetchImproved.Texts` | index_improved.js:55-63 | The message texts are those of the messages, in order. |
| `FetchImproved.ValidateDataConsistency` | index_improved.js:48-74 | The pushes compute the specified warnings. |
| `FetchImproved.WarningRules` | index_improved.js:54-64 | The rules:<br>- "views without sessions" iff views > 0 and sessions = 0;<br>- "more sessions than views" iff sessions > views, here as a warning;<br>- the bounce warning iff its check holds;<br>- the first two never fire together, and there are at most two warnings. |
| `FetchImproved.DataForUrlCases` | index_improved.js:80-220 | Data is found iff the GA4 calls returned rows. No rows gives a zeroed record with no warnings. A failure gives `Error: msg` as the only warning and the error. Found data carries the totals and the warnings, whose bounce test only fires with sessions, so never together with "views without sessions". |
| `FetchImproved.EmptyReportBackup` | index_improved.js:119-220 | An empty main report gives the no-data record when the backup query answers, and the error record (`Error: msg`, the error) when it throws. |
| `FetchImproved.GetDataForUrl` | index_improved.js:80-220 | The method computes the specified record. |
| `FetchImproved.SummaryCounts` | index_improved.js:253-266 | `successful` + `errors` equals the number of URLs, and the warned count is within it. There are no errors iff every URL found data. |
| `FetchImproved.SummarySnoc` | index_improved.js:256-266 | Each processed URL adds its own contributions to the counters. |
| `FetchImproved.CsvRecords` | index_improved.js:268-272 | Each CSV record is the data with its warnings joined by `'; '`. |
| `FetchImproved.CountRecord` | index_improved.js:256-266 | One iteration updates the counters as specified. |
| `FetchImproved.RunReport` | index_improved.js:222-280 | The report goes to the timestamped path. The summary is that of the per-URL results. One CSV record is written per URL, in order. |
| `FetchImproved.NoErrorsIff` | index_improved.js:253-262 | A run has no errors iff every URL's query returned rows. |
| `FetchImproved.CsvRowOf` | index_improved.js:230-243 | The written row keeps the URL and uses only the header's titles. |
| `EndToEnd.FinalHeaderHasColumns` | index_final.js:302-315 | The ten columns the consolidator reads have the titles `index_final.js` writes. |
| `EndToEnd.FinalRowReadBack` | lib/csv-consolidator.js:131-161 | A row written by `index_final.js` reads back with its URL, query date, five integer totals and found flag. |
| `EndToEnd.FinalMessagesReadBack` | lib/csv-consolidator.js:152-158 | The warnings and insights read back as null iff there were none, otherwise as their joined text. |
| `EndToEnd.FinalBreakdownReadBack` | lib/csv-consolidator.js:133-140 | A missing breakdown reads as `{}`, and so does the error record's `'{}'` when it parses as `{}`. A serialised breakdown reads back as its parse. |
| `EndToEnd.FinalFoundCount` | lib/csv-consolidator.js:68 | The consolidator's `urlsExitosas` for a run's report equals that run's `successful` counter. |
| `EndToEnd.FinalMessageNonEmpty` | index_final.js:55-71 | No message text is empty. |
| `EndToEnd.ImprovedRowReadBack` | index_improved.js:232-242 | A row written by `index_improved.js` keeps its URL, sessions, users, found flag and warnings. Its query date reads as missing and its views as 0, because its titles differ from those the consolidator reads. |
| `JsonViewer.GeneralStatsOf` | scripts/json-viewer.js:11-25 | The statistics screen shows the execution count and the number of URLs, and a period iff there is more than one execution: the dates of the first and last ids in string order (`PeriodOf`). |
| `JsonViewer.ExecutionLinesCorrect` | scripts/json-viewer.js:42-46 | Line `k` is numbered `k + 1` and is marked complete iff `urlsExitosas` equals `totalUrls`. It shows its execution's date, time and counts. |
| `JsonViewer.ExecutionLinesCover` | scripts/json-viewer.js:35-39 | There is one line per execution, and every execution has one. |
| `JsonViewer.ExecutionLinesSorted` | scripts/json-viewer.js:40 | The executions are listed by non-decreasing timestamp. |
| `JsonViewer.UrlSummaryScreen` | scripts/json-viewer.js:53-110 | The screen numbers the per-URL summaries in their sorted order. |
| `JsonViewer.UrlLinesCorrect` | scripts/json-viewer.js:60-103 | The lines are sorted by non-increasing views with distinct URLs, one per URL key of any execution. Each shows that URL's appearances, sums and success count. A line is marked complete iff every appearance found data. |
| `JsonViewer.DetailScreenCorrect` | scripts/json-viewer.js:117-149 | An unknown id shows only the error and the available ids. A known one shows its metadata and one numbered line per URL key. A line shows metrics iff data was found. |
| `JsonViewer.RunViewer` | scripts/json-viewer.js:154-221 | The viewer shows exactly the specified screen. |
| `JsonViewer.ScreenDispatch` | scripts/json-viewer.js:158-220 | The file's absence and unreadability are checked first. `detail` without a parameter gives the usage error. An unknown command shows help. `all` shows the statistics, the executions and the URL summary. |
| `Seqs.SortStable` | server/api.js:124 | The sort keeps the input order of elements that compare equal. |
| `Seqs.SortLexCorrect` | server/api.js:92 | The default `sort()` orders the ids by the string order and permutes them. |
| `JsStrings.ParseIntOfIntToString` | lib/csv-consolidator.js:146 | `parseInt` reads back the decimal text of any integer. |

## Left out

- File-system I/O is left out: `existsSync`, `readFileSync`, `writeFileSync`, `statSync`, `mkdirSync`, `unlinkSync`. This includes `saveConsolidatedJSON`, `saveConfig`, `ensureConfig`'s writes, and the wrappers `runConsolidation`/`runIncrementalConsolidation`. Stores and configurations are in-memory values, directory listings and file contents are parameters, and modification times are integers.
- The CSV reader (`csv-parse`, with its quoting) and the CSV writer (`csv-writer`) are not modelled. A file is a sequence of rows whose cells are keyed by column title.
- `JSON.parse` and `JSON.stringify` of the breakdown are the `decode` and `encode` parameters. Loading a saved store or configuration yields an already parsed value.
- The GA4 client is the `query` parameter. The backup "similar URLs" query sent after an empty report is awaited inside the same `try`: only whether it throws is modelled (`GaQuery.WithBackup`), because its rows are only logged. A malformed response row that makes the code throw is absorbed into the failure case, and `getDateRange` is the `queryDate` parameter.
- Floating-point values are left out:
  - average duration, bounce rate and engagement rate, with their `toFixed` texts;
  - the float CSV columns;
  - `tasaCompromiso`/`tasaRebote`, and the `promedio…` averages of the per-URL reducer and the URL history.
  For the validation rules, the mean bounce rate is reduced to where it lies relative to 0 and 100: a parameter when the report has sessions, in range when it has none (index_final.js:235, index_improved.js:186).
- Time zones and daylight-saving time are left out, along with the texts of `toISOString` and `toLocaleString`. A report's timestamp is its local date and time counted in minutes. Like `new Date`, it carries days 29 to 31 past a month's end into the next month, and hour 24 into the next day (`Consolidator.Stamp`). The schedule counts milliseconds from the local midnight, and the strings returned by the scheduler are the integers themselves.
- The wall-clock fields are left out: `ultimaActualizacion`, `processedAt`, `lastUpdated` and the health `timestamp`.
- Console output is left out, along with the log contents and the `setTimeout` pauses.
- Express is not modelled: routing, CORS, static files, and the `checkJSONFile`/`loadData` guard that answers 404 or 500 when the store is missing or unreadable. `/api/raw` and `/api/trigger-report` only pass data through.
- `Queries.StatsOf` has no ensures of its own, and neither does `Queries.HealthOf`. Both copy metadata fields; the period is `Queries.PeriodOf`, and the health counts are tied to the store by `Queries.HealthAfterMerge`.
- `node-cron` and `child_process.exec` are not modelled, which covers `runReport`'s execution of the fetch script.
- Concurrency is not modelled. Nothing is locked and the last writer wins.
- These files are not part of this model: `lib/config.js` (environment and credentials), `lib/google-sheets.js` (a Sheets wrapper) and `scripts/manage-urls.js` (command-line dispatch onto the URL manager).
- `toLowerCase` is modelled on ASCII letters only, and strings are sequences of characters rather than UTF-16 code units. `decodeURIComponent` of the URL path is left to the caller.
- JavaScript objects are modelled as a map plus a key order. Keys that look like integers and inherited prototype keys are not modelled. `parseInt` is exact, with no 2^53 precision limit.
- The viewer's URL summary reuses the HTTP reducer. That reducer also collects the `ejecuciones` list the viewer does not build, and the viewer's lines do not show it.
- `Consolidator.MergeExecution`: the failure's error kind is not tracked, only whether the merge succeeded.
- `Consolidator.AddToConsolidated`: the ensures pin down only success and its result. A failure is reported as one generic error, whatever its cause.
- `Consolidator.ConsolidateNoFiles`: with no report files the code returns a store whose metadata has neither `totalUrls` nor `archivosOriginales` (lib/csv-consolidator.js:244-247). The model returns empty lists for both, so it does not capture what the missing fields cause once such a store is saved. A later `addNewExecutionToJSON` writes `data[id]`, `totalEjecuciones` and `totalUrls` into it and then throws a TypeError at `archivosOriginales.findIndex` (lib/csv-consolidator.js:97). `/api/health` and `/api/stats` answer 500 (server/api.js:78, 102-106), and the viewer's general statistics throw (scripts/json-viewer.js:16). In the model all of these behave as for an empty store.
- `Queries.SuccessRateBounds`: `tasaExito` is the exact ratio `datosExitosos / apariciones * 100`, not the float after `Number(….toFixed(2))` (server/api.js:188, index.js:329). The bounds and the iff hold before rounding. After rounding the source reports 33.33 for 1 of 3, and 100 for 29999 of 30000, where not every appearance found data.
- `Queries.SummaryRows`: the `tasaExito` it carries is the unrounded ratio, for the same reason. Floating-point rounding of `toFixed(2)` is not modelled.
- `Queries.SummaryOver`: the view, session and user sums of the execution summary are given by its definition and have no separate ensures.
- `Schedule.NextExecutions`: the returned entries are instants, not `toLocaleString` texts.
- The error record's `error` field is not among `index_final.js`'s CSV columns, so it is not written and does not appear in `EndToEnd.FinalRowReadBack`.

## Findings

| source | as written | input that shows it | evidently intended | confidence | as-written member | corrected member |
|---|---|---|---|---|---|---|
| lib/url-manager.js:47-64 | `normalizeUrl` strips a Git Bash prefix before adding the leading slash, but looks for `/c/Program Files/Git/` including that slash. The result of one call can therefore carry a prefix the next call strips. | `"c/Program Files/Git/"` gives `"/c/Program Files/Git/"` on the first call and `"/"` on the second. So `addUrl("c/Program Files/Git/")` stores `"/c/Program Files/Git/"`, `removeUrl` of that stored path looks for `"/"` and reports it not found, and `updateUrls(["c/Program Files/Git/", "/"])` stores both. | Normalisation is idempotent, so a stored normalised URL is found again by `addUrl`, `removeUrl` and `updateUrls`. | not executed | `UrlManager.NormalizeUrlAsWrittenNotIdempotent`, `UrlManager.AddThenRemoveAsWrittenFails`, `UrlManager.UpdateAsWrittenKeepsUnsettled` | `UrlManager.NormalizeUrlIdempotent`, `UrlManager.AddThenRemoveCorrected`, `UrlManager.UpdateUrlsNormalized` |
