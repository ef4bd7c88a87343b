# yt-archiver download queue, worker and page logic in Dafny

This project models the core of yt-archiver, a small self-hosted web application
that downloads videos with `yt-dlp` and keeps a library of the results.

- **The download queue's request side** (`public/api.php`):
  - `startDownload` appends a request to the queue document;
  - `processQueue` promotes the head of the queue to `current` and starts a
    worker, but only when nothing is current;
  - `deleteVideo` removes the first library record with an id, and its file;
  - `getProgress` and `getDownloadStatus` read the shared documents;
  - the router checks the inputs of the `download` and `videos` routes, runs
    `processQueue` for the `process` route, and answers "Unknown action" for
    any other name.
- **The background worker** (`public/download_worker.php`). It runs once per
  job:
  - It checks at launch, after the metadata probe, on every output line and
    after the tool exits that its job is still the one in `current`.
  - It cleans and bounds the title.
  - It parses `[download] N%` lines from the tool and writes a progress record
    whenever the percentage, mapped onto 5-95, rises.
  - It takes the first job file that is not a partial download as the result,
    and records it in the library at most once. On failure, and when it finds
    itself superseded on an output line or after the tool exits, it removes the
    job's files. When it is superseded at launch or after the probe it leaves
    the directory alone.
  - It then clears `current` and starts the next queued job.
- **The request-log page** (`public/js/logs.js`):
  - HTML escaping and the body preview;
  - the page state `currentPage`/`totalPages`, moved by the pagination
    buttons, the filter handlers and the "clear logs" action.
- **The main page** (`public/app.js`):
  - the queue view assembled from the status reply, and the defaults each row
    shows;
  - the library filter;
  - the sort toggle of the table headers;
  - the empty-URL guard of the download form.

The three JSON documents (queue, progress, library) and the videos directory
are fields of one `Documents.Store` object. Both processes re-read and rewrite
those documents, and the methods of `Api` and `Worker` update the store as the
PHP code updates the files. The ghost field `submitted` lists every request in
arrival order. The invariant `Valid()` says that workers are started for
requests in exactly that order, and that what is not started yet is the queue.
It also says that library ids are distinct.

Several things the PHP code reads or calls become inputs of the model:
- the fresh id `uniqid` makes and the clock `date('c')`;
- the title the metadata probe returns;
- the lines, exit status and files of the download process (`Worker.Subprocess`);
- the rewrites of `current` by someone else before each liveness check. These
  are a map from check point to the new `current` value.

Some of the code's behaviour is easy to mistake, and the model follows the code:
- `processQueue` does not reset the progress document when it promotes an
  item.
- `getProgress` returns the stored record as it is, even when it is stale.
- The main page sends `action=cancel`, but the router has no case for it
  (`Api.CancelIsUnknownAction`). Cancellation therefore exists only as an
  outside rewrite of `current` that the worker's checks react to.
- The log page sends `action=logs` for both its GET and its DELETE request
  (public/js/logs.js:63, 257), and the router has no case for that either
  (`Api.LogsIsUnknownAction`). Against this router the page only ever gets the
  "Unknown action" reply.
- `clearProgress` is defined in the worker but never called (`Worker.ClearProgress`).
- `processNextInQueue` promotes the head of the queue without re-checking
  `current` (`Worker.AdvanceOverwritesCurrent`). `processQueue` does check.

Files:
- `wrappers.dfy`: `Option`.
- `seqs.dfy`: filtering and subsequences.
- `text.dfy`: trimming, suffix, substring and ASCII case.
- `php.dfy`: PHP `empty`, `trim` and the PCRE character classes.
- `documents.dfy`: the shared state.
- `api.dfy`: the request side.
- `progress_line.dfy`: the parsing of the tool's progress lines and the
  percentage arithmetic.
- `worker.dfy`: one worker run.
- `logs.dfy`: the log page.
- `app.dfy`: the main page.

## Model

| member | source | states |
|---|---|---|
| Documents.Unlink | public/api.php:172-174 | unlinking a name leaves exactly the entries with another name, and a missing name is no error |
| Documents.Store.constructor | public/api.php:29-37 | the first-use state: an empty queue, nothing current, no progress document, an empty library, and the FIFO invariant holds |
| Documents.Store.Supersede | public/download_worker.php:84-86 | an outside rewrite of `current` changes `current` and nothing else |
| Documents.OneLiveJob | public/download_worker.php:39-42 | at most one job id passes `isStillCurrentDownload` at any moment; this follows from `current` being one optional item, and does not exclude two running workers (see `Worker.AdvanceOverwritesCurrent`) |
| Api.Dispatch | public/api.php:133-143 | promoting keeps the pending items and their order; when something is current or the queue is empty nothing changes; otherwise the head becomes current and leaves the queue |
| Api.AdmitIsFifo | public/api.php:110-131 | with `Admit` (append, then dispatch when idle) a new request goes behind everything pending; a running job is never displaced; when nothing was current, the oldest pending item becomes current and gets the one worker started |
| Api.DispatchStartsOnlyWhenIdle | public/api.php:136-153 | a worker is started only when nothing was current, at most one per call, and for the item that has just become current |
| Api.ProcessQueue | public/api.php:133-154 | the queue document becomes its dispatch and the started workers grow by what dispatch starts; FIFO and distinct ids are kept |
| Api.StartDownload | public/api.php:110-131 | the reply is success with the new id and "Added to queue"; the request is admitted in FIFO order; FIFO and distinct ids are kept |
| Api.IndexOfVideo | public/api.php:163-167 | the index found is the first record with that id; none is found iff no record has the id |
| Api.DeleteFrom | public/api.php:161-180 | an unknown id gives "Video not found" and changes nothing; a known id gives "Video deleted" |
| Api.RemoveAtShifts | public/api.php:176 | removing entry k shortens the library by one and shifts the later entries down, in order |
| Api.RemoveAtKeepsDistinct | public/api.php:176 | removing an entry keeps ids distinct and no entry with the removed id remains |
| Api.DeleteRemovesFirstMatch | public/api.php:161-180 | a successful delete removes the first record with the id and exactly the entries named by its filename; every other record stays in order; afterwards the id is gone |
| Api.DeleteVideo | public/api.php:161-180 | the reply and the new library and directory are those of the delete; distinct ids are kept |
| Api.GetProgress | public/api.php:58-64 | with no progress document the answer is 0/idle/empty title; otherwise it is the stored record |
| Api.GetDownloadStatus | public/api.php:182-191 | the status reply carries the stored `current`, queue and progress, and changes nothing |
| Api.HandleDownload | public/api.php:217-230 | a method other than POST gives "Method not allowed"; a PHP-empty or missing url gives "URL is required"; both change nothing; otherwise the request is admitted with format defaulting to mp4 |
| Api.HandleVideos | public/api.php:241-251 | GET lists the library; DELETE with a PHP-empty or missing id gives "Video ID is required"; otherwise it deletes; any other method answers nothing; only a delete changes state |
| Api.HandleProcess | public/api.php:236-239 | the process route dispatches the queue and reports success |
| Api.RouteOf | public/api.php:198-305 | an action falls to the "Unknown action" case iff it is not one of the seven handled names |
| Api.CancelIsUnknownAction | public/api.php:303-304 | the `cancel` action the main page posts reaches the "Unknown action" case |
| Api.LogsIsUnknownAction | public/api.php:198-305 | the `logs` action of the log page's GET and DELETE requests reaches the "Unknown action" case |
| ProgressLine.SkipWhile | public/download_worker.php:164 | a greedy scan consumes only matching characters and stops at the first non-matching one |
| ProgressLine.NumberAt | public/download_worker.php:164 | a captured number is non-negative |
| ProgressLine.ParseProgress | public/download_worker.php:164 | a captured percentage is non-negative |
| ProgressLine.DecimalValue | public/download_worker.php:165 | the decimal digits of a number read back as that number |
| ProgressLine.NumberAtDecimal | public/download_worker.php:164-165 | a number written with one decimal and a percent sign reads back as its value |
| ProgressLine.ParseToolLine | public/download_worker.php:164-165 | every progress line the tool prints (`[download]`, one or more white-space characters of padding, then `W.T%` or the whole-number `W%`, then anything) is matched, and reads back as W + T/10, or W |
| ProgressLine.ProgressLinesHaveMarker | public/download_worker.php:164 | a line without `[download]` in it never parses as progress: every match contains the marker |
| ProgressLine.MappedPercent | public/download_worker.php:165 | the mapped percentage always lies in 5-95; up to 100 it is 5 + 0.9p, and from 100 on it is 95 |
| ProgressLine.MappedMonotone | public/download_worker.php:165 | more progress from the tool never maps to less |
| ProgressLine.RoundMonotone | public/download_worker.php:169 | rounding keeps the order of non-negative values |
| ProgressLine.RoundInBand | public/download_worker.php:169 | a value in 5-95 rounds to an integer in 5-95 |
| ProgressLine.Step | public/download_worker.php:164-167 | a write happens only with a value above `$lastPercent` that lies in 5-95 |
| ProgressLine.WritesAscend | public/download_worker.php:147-176 | the written percentages rise strictly, lie in 5-95 and above the start, and `$lastPercent` ends as the last written value, or the start when nothing was written |
| ProgressLine.StoredPercentsMonotone | public/download_worker.php:147-176 | the rounded percentages stored by one read loop never go down and stay in 5-95 |
| Worker.Prefix | public/download_worker.php:113 | `substr` to 100 gives a prefix of at most 100 characters, and the whole string when it is short enough |
| Worker.SanitizeIsClean | public/download_worker.php:112-113 | a title cleaned by `SanitizeTitle` has at most 100 characters, only allowed characters, and nothing `trim` strips at either end |
| Worker.SanitizeFixesCleanTitles | public/download_worker.php:112-113 | cleaning leaves a title alone iff it is already clean; cleaning twice equals cleaning once |
| Worker.JobTitleShape | public/download_worker.php:111-117 | the job title `JobTitle` gives is never PHP-empty, and it is either `video_<id>` or a clean title |
| Worker.JobTitleKeepsCleanTitles | public/download_worker.php:111-117 | a clean, non-empty probe title is used unchanged |
| Worker.JobTitleWithoutProbeTitle | public/download_worker.php:111 | a probe without a title gives "Unknown" |
| Worker.JobTitleFallsBack | public/download_worker.php:115-117 | a title that cleans to something PHP-empty falls back to `video_<id>` |
| Worker.Glob | public/download_worker.php:190 | the glob lists only names starting with `<id>_` that exist in the directory, and lists every such entry |
| Worker.FinishedFilesExact | public/download_worker.php:193-195 | the filter drops exactly the `.part`/`.ytdl` names and keeps the others in order |
| Worker.Extension | public/download_worker.php:209 | the extension is what follows the last dot, has no dot in it, and is empty when there is no dot |
| Worker.SizeOf | public/download_worker.php:228 | the size of the (first) entry with that name, and 0 when no entry has the name |
| Worker.NewRecord | public/download_worker.php:222-230 | the new record carries the id, the file name and its extension as format; its type is audio iff the extension is mp3 |
| Worker.RecordIdempotent | public/download_worker.php:212-232 | recording (`Record`, the duplicate-guarded append) is idempotent per id: recording any record with an id already recorded changes nothing; afterwards the id is present; the library grows by one only for a new id; distinct ids stay distinct |
| Worker.Purged | public/download_worker.php:242-245 | clean-up removes exactly this job's files and keeps the rest in order |
| Worker.FinishedFile | public/download_worker.php:190-197 | the file taken is an existing job file that is not partial; there is none iff every job file is partial |
| Worker.JobFileIsTruthy | public/download_worker.php:197-199 | a job file name is never PHP-falsy, so the success test only asks whether a file exists |
| Worker.Stored | public/download_worker.php:168-173 | each streamed record carries the rounded percentage, status downloading, the title and the id |
| Worker.SuccessfulRunNeverGoesBack | public/download_worker.php:90-205 | over a successful run the stored percentage never decreases: 0, then 5, then the streamed values, then 100 |
| Worker.Advance | public/download_worker.php:44-54 | with an empty queue nothing changes; otherwise the head becomes current and leaves the queue |
| Worker.AdvanceAgreesWithDispatch | public/download_worker.php:44-54 | with `current` cleared, as the worker leaves it, starting the next job is exactly the API's dispatch |
| Worker.AdvanceOverwritesCurrent | public/download_worker.php:44-54 | unlike the API's dispatch, starting the next job replaces a `current` that is set |
| Worker.CheckLiveness | public/download_worker.php:39-42 | the check answers whether `current` holds the job after the outside rewrite; a job that was current stays live iff that rewrite keeps it |
| Worker.RemoveJobFiles | public/download_worker.php:156-159 | the unlink loop over the glob leaves exactly the directory minus this job's files |
| Worker.ClearProgress | public/download_worker.php:35-37 | the progress document becomes 0/idle/empty title with a null id, which reads like a missing document; no path of the worker calls it |
| Worker.HandleLine | public/download_worker.php:163-175 | one pass of the loop body after a passed check moves `$lastPercent` and the saved records to their values after that line, and progress holds the last saved record |
| Worker.ClearCurrent | public/download_worker.php:248-251 | `current` becomes null and nothing else in the queue document changes; the invariant is kept |
| Worker.AlreadyRecorded | public/download_worker.php:213-219 | the duplicate check finds a record iff some record has the id |
| Worker.ReadOneMore | public/download_worker.php:149-175 | handling one more line moves `$lastPercent` and the records by exactly that line's step |
| Worker.StreamProgress | public/download_worker.php:146-176 | the read loop stops at the first line whose check fails, leaving its records so far; otherwise it writes exactly the records for all lines; progress holds the last record |
| Worker.Finalise | public/download_worker.php:197-246 | success iff a finished file exists and the exit status is 0; success writes 100/complete and records the file once; failure writes 0/error with "Download failed: " and removes the job's files |
| Worker.ProcessNextInQueue | public/download_worker.php:44-73 | the head of the queue becomes current, gets a "starting" record and a worker; an empty queue changes nothing |
| Worker.Conclude | public/download_worker.php:197-257 | finalising is followed by clearing `current` and starting the next job; the writes are the final record and then the next job's start |
| Worker.Download | public/download_worker.php:146-257 | a check that fails on a line or after exit removes the job's files and touches neither the queue nor the library; otherwise the run finishes, with success as defined and the next job started |
| Worker.Proceed | public/download_worker.php:119-257 | the first record is 5/downloading with the job title; then the download's outcomes follow: superseded paths remove the job's files and leave queue and library alone, a finished run writes the streamed values, the final record and the next start |
| Worker.RunJob | public/download_worker.php:84-257 | one job's run: it stops at launch iff the job is not current, writing nothing; no stop point touches the queue or the library; the stops at launch and after the probe leave the directory alone (the latter having written only "starting"), while the stops on an output line and after exit remove the job's files, having written 0, 5 and the streamed values so far; a finished run writes 0, 5, the streamed values, the final record and the next start, and the files and library are as finalising leaves them |
| Worker.Launch | public/download_worker.php:84-107 | the run stops at launch iff the job is not current; otherwise it writes "starting"; it stops after the probe iff the rewrite there took the job away |
| Worker.RunWorker | public/download_worker.php:76-257 | fewer than three arguments changes nothing; otherwise the run is `RunJob` for the first argument: no stop point touches the queue or the library; the stops at launch and after the probe leave the directory alone, and the stops on an output line and after exit remove the job's files; a finished run writes 0, 5, the streamed values, the final record and the next start; files and library are as finalising leaves them |
| LogsPage.EscapeOne | public/js/logs.js:280-286 | on one character the four replacements give exactly its entity; no pass touches an earlier pass's output |
| LogsPage.EscapeHtmlIsPerCharacter | public/js/logs.js:280-286 | the four passes, `&` first, equal escaping each character on its own |
| LogsPage.EscapeHtmlIsSafe | public/js/logs.js:280-286 | the output of `EscapeHtml` has no `<`, `>` or `"`, and every `&` in it starts `&amp;`, `&lt;`, `&gt;` or `&quot;` |
| LogsPage.UnescapeRecovers | public/js/logs.js:282-285 | reading the entities back recovers the input |
| LogsPage.EscapeHtmlInjective | public/js/logs.js:282-285 | different strings never escape to the same text |
| LogsPage.Shorten | public/js/logs.js:302 | up to 80 characters the preview is unchanged; a longer one becomes its first 77 characters and an ellipsis, 78 in all |
| LogsPage.FormatBodyCases | public/js/logs.js:298-308 | in `FormatBody`, a missing or empty body gives the em-dash placeholder; otherwise a preview span, with the tooltip iff the body is JSON, whose content is safe and reads back as the shortened pretty or raw body |
| LogsPage.ButtonsMatchGoToPage | public/js/logs.js:134-141 | the bar is hidden iff there is at most one page; prev is disabled iff `goToPage(page - 1)` would refuse; next is disabled iff `goToPage(page + 1)` would refuse |
| LogsPage.LogsState.constructor | public/js/logs.js:6-7 | the page starts on page 1 of 1 with no filters |
| LogsPage.LogsState.GoToPage | public/js/logs.js:203-207 | an out-of-range page changes nothing; an in-range page becomes current and the logs reload |
| LogsPage.LogsState.ClearFilters | public/js/logs.js:210-216 | the search, action and method filters are emptied, the page returns to 1, and the logs reload |
| LogsPage.LogsState.ChangeFilter | public/js/logs.js:225-227 | changing the action, method or limit select changes only that filter, returns to page 1, and reloads |
| LogsPage.LogsState.SearchInput | public/js/logs.js:219-223 | typing in the search box records the text and (re)starts the debounce timer |
| LogsPage.LogsState.SearchDebounceFires | public/js/logs.js:221 | when the timer fires the page returns to 1 and the logs reload |
| LogsPage.LogsState.LogsCleared | public/js/logs.js:254-267 | after clearing, a 401 leaves the page alone; any other status returns to page 1 and reloads |
| LogsPage.LogsState.RenderLogs | public/js/logs.js:117-141 | rendering adopts the server's page and page count and lays out the pagination bar |
| AppPage.AssembleQueue | public/app.js:114-126 | the pushes build exactly the current entry followed by the queued entries |
| AppPage.EntriesShape | public/app.js:114-126 | the queue view has (current ? 1 : 0) + queue-length entries; they are the pending items in execution order; only the first, when current exists, is active, and it carries the progress |
| AppPage.QueueRows | public/app.js:139-153 | every queued row reads "Queued" at 0% under the item's url, without a bar; the current row shows the progress percent and status, and its title is the progress title, or the url when that is empty |
| AppPage.FilterLibraryExact | public/app.js:184-188 | in `FilterLibrary`, a record is shown iff it is in the library, its lower-cased title contains the lower-cased search, and the type filter is empty or names its type; the shown rows keep the library's order |
| AppPage.NoFilterShowsAll | public/app.js:184-188 | with no search text and no type filter the whole library is shown |
| AppPage.NextSortCases | public/app.js:423-428 | with the toggle `NextSort`, a click always selects the clicked column; the same column flips the direction; a new column is sorted descending |
| AppPage.ClickTwiceRestores | public/app.js:423-428 | two clicks on the sorted column restore its direction |
| AppPage.SortState.constructor | public/app.js:7-8 | the table starts sorted by `created_at`, descending |
| AppPage.SortState.Click | public/app.js:421-430 | a header click moves the sort state as the toggle says |
| AppPage.Submit | public/app.js:390-396 | a submission is refused iff the trimmed URL is empty |
| AppPage.SubmittedUrlIsTrimmed | public/app.js:390 | a submitted URL is non-empty and trimmed, and is no longer than the input |
| AppPage.BlankInputRejected | public/app.js:390-396 | an input of white space only is always refused |

## Left out

- JSON encoding and decoding, file reads and writes, and `mkdir`: the documents are fields of the store, and an unreadable document is not modelled. The exception is the missing progress document (`Api.GetProgress`).
- The `version`, `update` and `serve` routes (`yt-dlp --version`, the GitHub release lookup with curl, `pip install`, and streaming a file in chunks): external programs and the network. The model only gives them their place in `Api.RouteOf`.
- The response headers and the CORS preflight (public/api.php:7-15): every OPTIONS request gets 200 with an empty body before the router runs, so `Api.HandleDownload`'s "Method not allowed" is never the reply to an OPTIONS request. The route handlers take the method as given.
- `uniqid` and `date('c')`: the id and the timestamp are inputs.
- `exec`, `shell_exec`, `popen` and `usleep`: starting a worker is an entry appended to `spawned`.
  - The metadata probe is its result title.
  - The download process is a `Worker.Subprocess`: its output lines, its exit status and the files it leaves. The files appear in the directory when the process starts.
  - The half-second pause before the next job starts is left out.
- How `yt-dlp` is invoked: the format-dependent command line and the output template. The files it makes are an input.
- The last `fgets` call that returns `false` at end of stream. `preg_match` on it never matches, so it adds no record. That extra pass also runs a liveness check (public/download_worker.php:153). An outside rewrite of `current` in that window is caught by the `AfterExit` check instead, with the same effect: the job's files are removed, the run ends with status 0, and neither the queue nor the library is written.
- Probe titles that are not strings: a title is present or absent.
- Concurrency: the API and the worker are separate processes that rewrite whole documents. The only interleaving modelled is an outside rewrite of `current` before each liveness check. Lost updates between two writers are left out, and so are the window between a check and the next write, and killing a running download.
- `Worker.Glob`: the directory order of `glob` is the order of `files`. `glob` sorts names, and the model does not.
- `ProgressLine.MappedPercent`: real arithmetic stands for PHP floats, so rounding error in `5 + p * 0.9` is not modelled.
- `Text.Lower`: lower-cases ASCII letters only. `toLowerCase` folds all of Unicode, so the library filter is exact only for ASCII titles.
- `LogsPage.Shorten`: counts characters, where JavaScript counts UTF-16 code units. The two differ for characters outside the Basic Multilingual Plane.
- `LogsPage.FormatBody`: `JSON.parse` and `JSON.stringify(..., null, 2)` are an input, the pretty text or None when parsing throws. `String(str)` conversion of non-strings is left out.
- `LogsPage.LogsState.LogsCleared`: takes the response status only. A `fetch` that throws (public/js/logs.js:264-266) logs the error to the console and leaves the page state unchanged; that path is not modelled.
- The body modal, the password modal, auto-refresh, toasts, timestamps, byte and date formatting, `fetch` and every DOM update: presentation and I/O.
- The library sort comparator (public/app.js:191-211): it never returns 0 for equal keys, so it is not a well-formed ordering. Only the toggle state is modelled.
- `Api.IndexOfVideo`: compares ids exactly, where `array_search` compares loosely. It differs only for numeric-looking ids, which `uniqid` never produces.
- `AppPage.QueueStatus`: the `...spread` copies of whole items are represented by the queue item values themselves.
