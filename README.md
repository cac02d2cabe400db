# ASMR downloader core, modelled in Dafny

This project models the download engine of the ASMR work downloader
(`core/downloader.py`). The engine does the following:

- It keeps a process-wide index into four interchangeable API base URLs and
  rotates it after every failed request.
- It fetches JSON with a bounded retry loop.
- It flattens the nested tracks tree of a work into a numbered file list,
  keeping the folder path of each file and applying the file-type and
  HQ-audio filters from the configuration.
- It resolves a work ID into that file list plus a title or an error
  message.
- It downloads each file with a worker. The worker sanitises the target
  path, resumes partial files with an HTTP `Range` request (section 14.2 of
  RFC 9110), streams the body and reports progress on every 50th chunk.
- It aggregates the workers of one job and the jobs of a sequential batch
  into success counts and progress messages.
- It shapes keyword-search answers into result records and a page count.

Everything that crosses the process boundary is an input of the model:

- the outcome of each GET attempt;
- the file on disk and the server's response for each download;
- the configuration record.

Progress callbacks are modelled as the list of calls they receive. A worker's call keeps the byte counts only: its work-ID and file-name arguments, which are the same on every call of one worker, are left out.

Modules, one per file:

| module | contents |
|---|---|
| `Util` | The parts of Python's `str` API the engine relies on. |
| `Settings` | The configuration record. |
| `Endpoints` | The endpoint rotator: class `ApiRotator`. |
| `Fetcher` | `fetch_with_retry`: a loop proved against a recursive specification. |
| `Tracks` | The tracks tree and the flattener. The class `FileList` holds the appended list, and its recursive `Transform` method is proved against the function `Flatten`. `Flatten` is in turn proved equal to an independent description: pre-order leaves, filtered, then numbered. |
| `WorkInfo` | `get_work_info_async`. |
| `Paths` | `sanitize_filename` and path composition. |
| `Transfer` | The resume decision and the chunk loop of `download_worker`. |
| `Jobs` | `process_download_job` and `process_bulk_download_job`. |
| `Search` | `search_work_async`. |

## Model

| member | source | states |
|---|---|---|
| Endpoints.Next | core/downloader.py:87-91 | The next index is the successor of the current one, wrapping from the last endpoint back to 0, and always stays in range. |
| Endpoints.RotatedByIsModular | core/downloader.py:90 | `k` rotations move the index by exactly `k` modulo the number of endpoints. |
| Endpoints.RotationCycle | core/downloader.py:90 | Four more rotations return to the same endpoint. |
| Endpoints.ApiRotator.constructor | core/downloader.py:24 | The index starts at the first endpoint, and the rotator is valid. |
| Endpoints.ApiRotator.Rotate | core/downloader.py:87-91 | The new index is `Next` of the old one, so the index stays in range. |
| Endpoints.ApiRotator.Current | core/downloader.py:94-96 | The current base URL is the entry at the index, so it is always one of the four endpoints. |
| Fetcher.FetchAttemptLog | core/downloader.py:108-125 | Attempt `j` requests the same path from the endpoint reached after `j` rotations: its URL is that endpoint's base URL followed by the path. A pause follows an attempt exactly when that attempt raised. At most `maxRetries` attempts are made. |
| Fetcher.FetchFirstOkWins | core/downloader.py:108-118 | When attempt `j` is the first to answer 200, its body is returned after `j+1` attempts, and the index has rotated once per earlier failure. |
| Fetcher.FetchExhausted | core/downloader.py:108-128 | When no attempt answers 200, the result is None after exactly `maxRetries` attempts and as many rotations. |
| Fetcher.FetchSucceedsIff | core/downloader.py:99-128 | A body is returned if and only if some attempt within the budget answers 200. |
| Fetcher.FetchWithRetry | core/downloader.py:99-128 | The loop returns what the recursive specification returns for the requested path, attempts included, and leaves the shared index at the specification's end index. |
| Tracks.FlattenIsNumberedLeaves | core/downloader.py:133-188 | The flattener's output equals the pre-order non-folder leaves, filtered by the admission rule and numbered consecutively. Folders and skipped items consume no index. |
| Tracks.FlattenNodeIsNumberedLeaves | core/downloader.py:148-186 | The same statement for a single tree item: a folder's subtree, one admitted file, or nothing. |
| Tracks.AdmitKeeps | core/downloader.py:145-170 | The admission filter keeps only leaves of its input, and only admitted ones. |
| Tracks.FlattenDefaultAudioOnly | core/downloader.py:146-175 | With no `default_file_types` configured, every entry is audio, and every top-level audio item that passes the HQ filter is listed with its own name, URL and size. |
| Tracks.FlattenListsItem | core/downloader.py:148-175 | An admitted top-level file item is listed: at some position `k`, as the entry numbered `start + k` with the item's own fields. |
| Tracks.FlattenDenseIndices | core/downloader.py:144-188 | The appended entries carry the indices `start, start+1, …` in order. |
| Tracks.FlattenOnlyAdmitted | core/downloader.py:145-170 | Every entry has an allowed, non-folder type. With HQ-only on, every audio entry has a .flac/.wav/.mp3 name (any case) or is larger than 50 MiB. |
| Tracks.FlattenFolderPaths | core/downloader.py:152-184 | Each entry's folder path is the "/"-join of its enclosing folders' titles, and its file name and size are the item's own. |
| Tracks.FileList.constructor | core/downloader.py:219 | The accumulator starts empty. |
| Tracks.FileList.Transform | core/downloader.py:133-188 | The recursive method appends exactly `Flatten(data, …)` to the list and returns the start index plus the number of entries appended. |
| WorkInfo.RenderEmbedsTitle | core/downloader.py:214-226 | Both "tracks failed" and "no matching files" messages start with the work title and differ from it. |
| WorkInfo.NumericIdOfNormalised | core/downloader.py:201-211 | For an "RJ"+digits ID, the API paths use just the digits. |
| WorkInfo.ShapeWorkInfoCases | core/downloader.py:204-229 | Files are returned if and only if the message is the plain title, and they are then exactly the flattened tracks tree. Each failure message arises exactly for its cause: no answer or no title, tracks failed, nothing admitted. Returned files are numbered 1, 2, … and all have allowed types. |
| WorkInfo.GetWorkInfo | core/downloader.py:191-229 | The work-info path of the ID is fetched first; the tracks path is fetched only when the work has a title. The result is the shaping of the two fetches' results, the attempts made are those of the two fetches in order, and every attempt requests one of the two paths. The shared index ends where the last fetch left it. |
| Paths.Sanitize | core/downloader.py:255-261 | The sanitised name holds no illegal character and no dot, and is no longer than the input. |
| Paths.SanitizeSafe | core/downloader.py:255-263 | A non-empty sanitised name is a safe path component, and it never contains "/". |
| Paths.SanitizeClean | core/downloader.py:255-261 | A non-empty name without illegal characters, dots or surrounding whitespace is left unchanged. |
| Paths.FullPathShape | core/downloader.py:263-267 | The target path extends the base directory by at most two safe components: the folder name and the file name. |
| Paths.NestedFoldersCollapse | core/downloader.py:263-267 | A nested folder path "a/b" ends up as one directory component, because the "/" is already a space when the separator replacement runs. |
| Paths.SanitizeMangledExtension | core/downloader.py:260 | Worked case: `t.mp3` becomes `t mp3`. |
| Paths.SanitizeNestedFolder | core/downloader.py:258-263 | Worked case: `Disc1/Sub` becomes `Disc1 Sub`. |
| Paths.SanitizeDotPair | core/downloader.py:260 | Worked case: `..` is rewritten to `_` before single dots are rewritten. |
| Paths.SanitizeTrailingDot | core/downloader.py:258-260 | Worked case: stripping runs before the dot rewrite, so ` x. ` becomes `x `. |
| Transfer.RangeHeaderRoundTrip | core/downloader.py:283 | The `bytes=S-` header is read back as offset `S`. |
| Transfer.ResumePlan | core/downloader.py:269-290 | The file is skipped if and only if it exists with exactly the non-zero expected size. Otherwise the download appends if and only if the file exists and is smaller than expected; then it uses the range header and starts at the file's size. In every other case it starts at 0 and deletes the file exactly when one existed. |
| Transfer.WorkerFullBodyEndsAtTotal | core/downloader.py:307-333 | When the file is not skipped and a non-error reply delivers a full body whose Content-Length is its byte count (and something is held or received), the worker succeeds, the file holds the earlier bytes plus the body, and the last report is that size over itself. |
| Transfer.ThrottledAt | core/downloader.py:319-327 | There is one progress report per full group of 50 chunks; the `j`-th comes after chunk `50(j+1)` and carries the bytes received up to that chunk. |
| Transfer.ThrottledMonotone | core/downloader.py:320-327 | Reported byte counts never decrease and never fall below the resume offset. |
| Transfer.WorkerSkipsCompleteFile | core/downloader.py:275-280 | A complete file is not requested again: the callback sees `(E, E)` once and the worker succeeds. |
| Transfer.WorkerResumeCompletes | core/downloader.py:281-333 | A partial file of `S < E` bytes is resumed with `bytes=S-`. When `E-S` bytes arrive, the file ends at `E` bytes and the last report is `(E, E)`. |
| Transfer.WorkerSuccessIff | core/downloader.py:269-340 | The worker succeeds if and only if the file was complete or the body arrived in full with a status below 400. It requests if and only if it did not skip. A successful download reports the throttled progress and then `(total, total)`. A failed one reports exactly the throttled progress of the chunks it received, and nothing when the request raised or the status was an error. |
| Transfer.WorkerWithoutUrl | core/downloader.py:304-340 | An entry without a download URL succeeds if and only if its file is already complete; otherwise the request raises and the worker fails with no progress report. |
| Transfer.StreamBody | core/downloader.py:317-327 | The chunk loop ends with the start count plus the sum of the chunk lengths, and reports on exactly every 50th chunk. |
| Transfer.DownloadWorker | core/downloader.py:238-340 | The target path is the sanitised composition under the base directory, and the run is the worker specification for the response the entry's URL meets (none when the URL is missing). |
| Transfer.TransmitFile | core/downloader.py:269-340 | The imperative transfer (plan, early returns, total, chunk loop, final report) equals the worker specification, with a missing URL failing like a request that raised. |
| Jobs.SelectAppend | core/downloader.py:357 | Selection distributes over concatenation and keeps a single file exactly when its index was selected, so it is the order-preserving filter, repeats included. |
| Jobs.SelectFiles | core/downloader.py:357 | A file is selected if and only if it is in the list and its index was selected. |
| Jobs.SelectAllIndices | core/downloader.py:427 | Selecting all of a list's own indices keeps the whole list, in order. |
| Jobs.JobRunsAt | core/downloader.py:376-381 | Run `k` of a job is the worker run for selected file `k`. |
| Jobs.JobPathsAt | core/downloader.py:367-379 | Path `k` of a job is selected file `k`'s sanitised target under the job directory. |
| Jobs.CountTrueBound | core/downloader.py:381-386 | The success count is at most the number of files, and equals it if and only if every worker succeeded. |
| Jobs.JobOutcome | core/downloader.py:381-386 | The job's success count equals its number of files if and only if every run succeeded. |
| Jobs.JobSucceedsIff | core/downloader.py:357-386 | A job succeeds if and only if it selected at least one file and every selected file's transfer succeeds. |
| Jobs.RunWorkers | core/downloader.py:372-384 | The worker loop yields one run and one target path per selected file, in list order, and counts exactly the successful runs. |
| Jobs.ProcessDownloadJob | core/downloader.py:343-386 | The runs are one worker per selected file, in list order, and none when nothing was selected. Each file's path is its sanitised target under the output root's upper-cased work-ID directory. The job succeeds if and only if there were runs and all succeeded. |
| Jobs.DefaultJobExample | core/downloader.py:55-63 | Worked case under the default configuration: audio `t.mp3` in folder `Disc1` becomes entry 1 with folder path `Disc1`, and the job for `rj01` writes below `<output>/RJ01`. |
| Jobs.ExampleTargetPath | core/downloader.py:255-267 | Worked case: entry `Disc1`/`t.mp3` is written to `<base>/Disc1/t mp3`. |
| Jobs.RenderEventCounter | core/downloader.py:422-456 | Every per-work message starts with the `[current/total] ` counter, and a work's success and failure messages differ. |
| Jobs.BatchLogDownloadsIff | core/downloader.py:418-430 | A "downloading" report for work `k` appears if and only if work `k` has files. A work without files gets a "skipped" report. |
| Jobs.BatchCountBound | core/downloader.py:440-468 | The batch success count is at most the number of works, and equals it if and only if every work has files and its job succeeded. |
| Jobs.ProcessWork | core/downloader.py:414-456 | One batch round reports a skip, or reports the download, runs the job over all the work's indices and reports its outcome. |
| Jobs.RunBatch | core/downloader.py:409-463 | The loop over the works logs "found" and then each work's reports in order, and counts the works that succeeded. |
| Jobs.ProcessBulkDownloadJob | core/downloader.py:391-468 | An empty ID list fails with its fixed message and no reports. Otherwise the callback log is "found" followed by each work's reports in order. The count is the number of successful works, and the summary names the count and the total. The batch succeeds if and only if every work succeeded. |
| Search.EncodeKeyword | core/downloader.py:483 | The encoded keyword is the stripped keyword with every "/" written as "%20" and every other character kept, so it contains no "/". |
| Search.EncodeKeywordExample | core/downloader.py:483 | Worked case: ` a/b ` is encoded as `a%20b`. |
| Search.EncodePlainKeyword | core/downloader.py:483 | A keyword without "/" or surrounding whitespace is used unchanged. |
| Search.NormalizeRjIdProperties | core/downloader.py:509-510 | Every result ID starts with "RJ". An ID that already does is kept; any other gets "RJ" prepended. Normalising twice changes nothing. |
| Search.NumericIdGetsPrefix | core/downloader.py:509-510 | A numeric ID `n` becomes "RJ" followed by the decimal digits of `n`. |
| Search.TotalPages | core/downloader.py:504-505 | There are 0 pages when the count is 0 or the size is not positive. For a positive count and size the page count is the ceiling: at least one page, `(p-1)*size < count <= p*size`. |
| Search.TotalPagesFewest | core/downloader.py:504-505 | No smaller number of pages of the same size holds every result. |
| Search.TotalPagesExample | core/downloader.py:504-505 | Worked case: 45 results at 20 per page need 3 pages. |
| Search.ShapeSearchCases | core/downloader.py:499-519 | A missing answer, `works` key or count, or an incomplete work, gives no results and no pages. A full answer whose works are all complete gives one result per work, in order, each with an "RJ" ID, the work's title and name, and 0 tracks when the count is missing, plus the rounded-up page count. |
| Search.CollectResults | core/downloader.py:507-517 | The loop yields one record per work when every work is complete. It yields nothing when some work lacks an ID, a title or a name. |
| Search.SearchWorks | core/downloader.py:473-523 | Every attempt requests the search path of the encoded keyword. The page is the shaping of the fetch result, and the shared index ends where the fetch left it. |
| Util.Strip | core/downloader.py:258 | The stripped text is a slice of the input that neither starts nor ends with whitespace, and only whitespace was removed. |
| Util.StripKeeps | core/downloader.py:258 | Every character of the stripped text occurs in the input. |
| Util.NatToStringRoundTrip | core/downloader.py:283 | The decimal rendering of an offset is read back as the same number. |

## Left out

- Network, disk and directory creation. Request outcomes, responses, the files on disk and directory creation are inputs or are not modelled. `mkdir` is not modelled.
- Concurrency. `asyncio` concurrency, the download semaphore and `gather` are not modelled: the workers of a job run one after another. The races on the shared endpoint index between concurrent fetches are out of the model for the same reason.
- Sleeps. The model does not represent time; a flag on each attempt records where a one-second pause happens. The pause between works of a batch is not modelled.
- Logging, configuration loading and `format_size`. The log file, reading and merging the configuration file, and `format_size` are not modelled. Entries carry no formatted size. The default configuration's values are modelled; its listen host and port are not used by the engine.
- Failure paths. The generic exception path of `get_work_info_async` ("系统错误") is not modelled. Neither is the batch's "发生错误" path, which is taken when a job raises.
- Tree items without a title, `null` values, and a non-boolean `hq_audio_only`. A tree item without a title would raise on `lower()`; the model assumes every item has a title. JSON `null` values other than a null `children` list are not modelled. A non-boolean `hq_audio_only` is not modelled either; only `true` switches HQ filtering on.
- Case conversion. `lower()` and `upper()` are modelled for ASCII letters only.
- TotalPages: computes the exact integer ceiling, whereas the source divides in floating point. The two differ only for counts beyond 2^53.
- Content-Length parsing. A malformed `Content-Length` header, which makes `int()` raise, is not modelled. The header is a natural number or absent.
- Proxy and concurrency settings. The proxy setting is not modelled. The `max_concurrent_downloads` setting only sizes the semaphore.
- Fetcher.FetchWithRetry: `max_retries` is a natural number; a negative value behaves like 0 in the source as well.
- Jobs.ProcessDownloadJob: the job's own re-fetch of the work info is an input, the file list that lookup returns. It is not a call to `GetWorkInfo`.
- Jobs.ProcessBulkDownloadJob: the batch's per-work lookup is an input, the answer that lookup gives. It is not a run of `GetWorkInfo`, so the shared endpoint index is not carried from one work's fetches to the next.
- Jobs.RunBatch: the per-file progress messages relayed from the workers to the batch callback (`[i/n] id - title | 文件 …`) are not in the log it ensures, which holds only the found, skipped, downloading, succeeded and failed reports. Their text formats byte counts in floating point, which is not modelled.
- Jobs.ProcessWork: the per-file progress messages relayed from the job's workers to the batch callback are not in the events it ensures, which are only the downloading report and the outcome report (or the skip report). Their text formats byte counts in floating point, which is not modelled.
- Jobs.ProcessBulkDownloadJob: the per-file progress messages the batch relays from each job's workers to its own callback are not in the modelled log, which holds only the found, skipped, downloading, succeeded and failed reports. Their text formats byte counts in floating point, which is not modelled.
- Jobs.RenderEvent: the batch contracts are stated over structured reports. `RenderEvent` gives the message text of each report, and only `RenderEventCounter` states properties of that text.
- Jobs.ProcessBulkDownloadJob: the IDs are used as given. The batch does not normalise them, and neither do its callers for a batch, so an ID without "RJ" reaches the job unchanged. `app.py` and `cli_tester.py` are not part of this model.
- Search.SearchWorks: the query parameters `order`, `sort`, `page`, `subtitle` and `includeTranslationWorks` are sent to the server and are not modelled; the server's answer is an input. `size` is modelled because it drives `TotalPages`.
- Search.IdText: `str()` of IDs that are neither integers nor strings is not modelled.
