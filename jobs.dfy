/**
 * Job and batch aggregation. A download job keeps the files whose index the
 * user selected and runs one worker per file; it succeeds when there was
 * something to download and every worker succeeded. A batch processes works
 * one after another, skips works without files, counts the works whose job
 * succeeded and reports progress through a callback (kept here as a log).
 */
module Jobs {
  import opened Util
  import opened Settings
  import opened Tracks
  import opened Paths
  import opened Transfer
  import opened WorkInfo

  /** What a worker meets for one file: the file on disk and the server's response. */
  datatype FileEnv = FileEnv(disk: DiskFile, response: Response)

  /** The environment of the file with `index`; a file nothing is known about is absent and unanswered. */
  function EnvFor(env: map<int, FileEnv>, index: int): FileEnv
  {
    if index in env then env[index] else FileEnv(Absent, NoResponse)
  }

  /** The selection comprehension: the files whose index was selected, in list order. */
  function SelectFiles(files: seq<FileEntry>, selected: seq<int>): (r: seq<FileEntry>)
    ensures |r| <= |files|
    ensures forall e :: e in r <==> e in files && e.index in selected
  {
    if files == [] then []
    else (if files[0].index in selected then [files[0]] else []) + SelectFiles(files[1..], selected)
  }

  /**
   * Selection is a filter: it works on each part of a list separately and
   * keeps the parts in order, and keeps a single file exactly when its index
   * was selected. Together these fix the result, order and repeats included.
   */
  lemma {:induction false} SelectAppend(a: seq<FileEntry>, b: seq<FileEntry>, selected: seq<int>)
    ensures SelectFiles(a + b, selected) == SelectFiles(a, selected) + SelectFiles(b, selected)
    ensures |a| == 1 ==> SelectFiles(a, selected) == if a[0].index in selected then a else []
  {
    if a == [] {
      assert a + b == b;
    } else {
      var head := if a[0].index in selected then [a[0]] else [];
      SelectFirst(a, selected);
      SelectFirst(a + b, selected);
      assert (a + b)[1..] == a[1..] + b;
      SelectAppend(a[1..], b, selected);
      assert head + (SelectFiles(a[1..], selected) + SelectFiles(b, selected))
          == (head + SelectFiles(a[1..], selected)) + SelectFiles(b, selected);
      if |a| == 1 {
        assert a[1..] == [];
        assert SelectFiles(a, selected) == head + [];
      }
    }
  }

  /** One step of the selection: the first file, if selected, then the selection of the rest. */
  lemma SelectFirst(files: seq<FileEntry>, selected: seq<int>)
    requires files != []
    ensures SelectFiles(files, selected)
            == (if files[0].index in selected then [files[0]] else []) + SelectFiles(files[1..], selected)
  {
  }

  /** The indices of a file list, in order: what the batch selects for a whole work. */
  function Indices(files: seq<FileEntry>): (r: seq<int>)
    ensures |r| == |files|
    ensures forall k :: 0 <= k < |files| ==> r[k] == files[k].index
  {
    seq(|files|, k requires 0 <= k < |files| => files[k].index)
  }

  /** A selection covering every index keeps the list whole and in order. */
  lemma {:induction false} SelectCovering(files: seq<FileEntry>, selected: seq<int>)
    requires forall e :: e in files ==> e.index in selected
    ensures SelectFiles(files, selected) == files
  {
    if files != [] {
      assert files[0] in files;
      assert forall e :: e in files[1..] ==> e in files;
      SelectCovering(files[1..], selected);
      assert files == [files[0]] + files[1..];
    }
  }

  /** Selecting all of a list's own indices selects the whole list. */
  lemma SelectAllIndices(files: seq<FileEntry>)
    ensures SelectFiles(files, Indices(files)) == files
  {
    forall e | e in files ensures e.index in Indices(files) {
      var k :| 0 <= k < |files| && files[k] == e;
      assert Indices(files)[k] == e.index;
    }
    SelectCovering(files, Indices(files));
  }

  /**
   * The job's download directory: the output root, then the work's ID in
   * upper case; an empty ID adds no component, as `Path(out) / ""` does.
   */
  function JobBaseDir(c: Config, rjId: string): (d: seq<string>)
    ensures rjId != "" ==> |d| == |c.outputDir| + 1 && d[..|c.outputDir|] == c.outputDir
    ensures rjId != "" ==> d[|c.outputDir|] == Upper(rjId)
    ensures rjId == "" ==> d == c.outputDir
  {
    PathJoin(c.outputDir, Upper(rjId))
  }

  /** The worker run for file `f` in environment `env`. */
  function FileRun(f: FileEntry, env: map<int, FileEnv>): WorkerRun
  {
    Worker(f.size, EnvFor(env, f.index).disk, Sent(f.url, EnvFor(env, f.index).response))
  }

  /** One worker run per chosen file, in the order of the list. */
  function JobRuns(chosen: seq<FileEntry>, env: map<int, FileEnv>): (rs: seq<WorkerRun>)
    ensures |rs| == |chosen|
  {
    if chosen == [] then [] else JobRuns(chosen[..|chosen| - 1], env) + [FileRun(chosen[|chosen| - 1], env)]
  }

  /** Run `k` is the worker run for file `k`. */
  lemma {:induction false} JobRunsAt(chosen: seq<FileEntry>, env: map<int, FileEnv>, k: nat)
    requires k < |chosen|
    ensures JobRuns(chosen, env)[k] == FileRun(chosen[k], env)
  {
    if k < |chosen| - 1 {
      JobRunsAt(chosen[..|chosen| - 1], env, k);
    }
  }

  /** The target path of each chosen file under `baseDir`, in the order of the list. */
  function JobPaths(chosen: seq<FileEntry>, baseDir: seq<string>, sep: char): (ps: seq<seq<string>>)
    ensures |ps| == |chosen|
  {
    if chosen == [] then []
    else
      var f := chosen[|chosen| - 1];
      JobPaths(chosen[..|chosen| - 1], baseDir, sep) + [FullPath(baseDir, f.folderPath, f.filename, sep)]
  }

  /** Path `k` is the sanitised target of file `k`: base directory, folder, file name. */
  lemma {:induction false} JobPathsAt(chosen: seq<FileEntry>, baseDir: seq<string>, sep: char, k: nat)
    requires k < |chosen|
    ensures JobPaths(chosen, baseDir, sep)[k] == FullPath(baseDir, chosen[k].folderPath, chosen[k].filename, sep)
  {
    if k < |chosen| - 1 {
      JobPathsAt(chosen[..|chosen| - 1], baseDir, sep, k);
    }
  }

  /** Whether the worker for `f` succeeds in environment `env`. */
  predicate FileOk(f: FileEntry, env: map<int, FileEnv>)
  {
    TransferSucceeds(f.size, EnvFor(env, f.index).disk, Sent(f.url, EnvFor(env, f.index).response))
  }

  /** The `results` list `gather` collects: one success flag per chosen file. */
  function JobResults(chosen: seq<FileEntry>, env: map<int, FileEnv>): (bs: seq<bool>)
    ensures |bs| == |chosen|
  {
    seq(|chosen|, k requires 0 <= k < |chosen| => FileOk(chosen[k], env))
  }

  /** `sum(results)` over booleans: the number of successes. */
  function CountTrue(bs: seq<bool>): nat
  {
    if bs == [] then 0 else CountTrue(bs[..|bs| - 1]) + (if bs[|bs| - 1] then 1 else 0)
  }

  /** The count never exceeds the number of flags and reaches it exactly when every flag is set. */
  lemma {:induction false} CountTrueBound(bs: seq<bool>)
    ensures CountTrue(bs) <= |bs|
    ensures CountTrue(bs) == |bs| <==> forall k :: 0 <= k < |bs| ==> bs[k]
  {
    if bs != [] {
      var init := bs[..|bs| - 1];
      CountTrueBound(init);
      assert forall k :: 0 <= k < |init| ==> init[k] == bs[k];
    }
  }

  /**
   * What `process_download_job` returns, given the file list its lookup
   * returns. The output directory and the work ID only place the files, so
   * they do not appear.
   */
  predicate JobSucceeds(files: seq<FileEntry>, selected: seq<int>, env: map<int, FileEnv>)
  {
    var chosen := SelectFiles(files, selected);
    chosen != [] && CountTrue(JobResults(chosen, env)) == |chosen|
  }

  /**
   * A job succeeds exactly when it selected at least one file and every
   * selected file's transfer succeeds; an empty selection always fails.
   */
  lemma JobSucceedsIff(files: seq<FileEntry>, selected: seq<int>, env: map<int, FileEnv>)
    ensures var chosen := SelectFiles(files, selected);
      JobSucceeds(files, selected, env) <==>
        chosen != [] && forall f :: f in chosen ==> FileOk(f, env)
  {
    var chosen := SelectFiles(files, selected);
    var bs := JobResults(chosen, env);
    CountTrueBound(bs);
    if forall k :: 0 <= k < |bs| ==> bs[k] {
      forall f | f in chosen ensures FileOk(f, env) {
        var k :| 0 <= k < |chosen| && chosen[k] == f;
        assert bs[k];
      }
    }
  }

  /**
   * `process_download_job`, given the file list its own work-info lookup
   * returns: select, run one worker per selected file in the job's folder
   * under the output root, count the successes. `paths` are the files'
   * target paths.
   */
  method ProcessDownloadJob(rjId: string, files: seq<FileEntry>, selected: seq<int>, c: Config, sep: char,
                            env: map<int, FileEnv>) returns (ok: bool, runs: seq<WorkerRun>, paths: seq<seq<string>>)
    ensures var chosen := SelectFiles(files, selected);
      runs == (if chosen == [] then [] else JobRuns(chosen, env))
    ensures var chosen := SelectFiles(files, selected);
      paths == (if chosen == [] then [] else JobPaths(chosen, JobBaseDir(c, rjId), sep))
    ensures ok <==> runs != [] && forall k :: 0 <= k < |runs| ==> runs[k].ok
    ensures ok == JobSucceeds(files, selected, env)
  {
    var chosen := SelectFiles(files, selected);
    if chosen == [] {
      return false, [], [];
    }
    var baseDir := JobBaseDir(c, rjId);
    var successCount;
    runs, paths, successCount := RunWorkers(chosen, baseDir, sep, env);
    JobOutcome(chosen, env);
    ok := successCount == |chosen|;
  }

  /**
   * The `gather` over the chosen files: one worker per file, in the order of
   * the list, each writing below `baseDir`; counts the successes.
   */
  method RunWorkers(chosen: seq<FileEntry>, baseDir: seq<string>, sep: char, env: map<int, FileEnv>)
    returns (runs: seq<WorkerRun>, paths: seq<seq<string>>, successCount: nat)
    ensures runs == JobRuns(chosen, env)
    ensures paths == JobPaths(chosen, baseDir, sep)
    ensures successCount == CountTrue(JobResults(chosen, env))
  {
    runs := [];
    paths := [];
    successCount := 0;
    var i := 0;
    while i < |chosen|
      invariant 0 <= i <= |chosen|
      invariant runs == JobRuns(chosen[..i], env)
      invariant paths == JobPaths(chosen[..i], baseDir, sep)
      invariant successCount == CountTrue(JobResults(chosen[..i], env))
    {
      var p, r := RunFile(chosen[i], baseDir, sep, env);
      JobAdvance(chosen, i, baseDir, sep, env, p, r);
      runs := runs + [r];
      paths := paths + [p];
      if r.ok {
        successCount := successCount + 1;
      }
      i := i + 1;
    }
    assert chosen[..i] == chosen;
  }

  /** The worker for file `f`, in the environment `env` gives it. */
  method RunFile(f: FileEntry, baseDir: seq<string>, sep: char, env: map<int, FileEnv>)
    returns (path: seq<string>, run: WorkerRun)
    ensures path == FullPath(baseDir, f.folderPath, f.filename, sep)
    ensures run == FileRun(f, env)
  {
    var fileEnv := EnvFor(env, f.index);
    path, run := DownloadWorker(f, baseDir, sep, fileEnv.disk, fileEnv.response);
  }


  /**
   * Worked case under the default configuration: an audio file "t.mp3"
   * inside folder "Disc1" becomes entry 1 with folder path "Disc1", and the
   * job for "rj01" places its files in `<output>/RJ01`.
   */
  lemma DefaultJobExample(outputDir: seq<string>)
    ensures var c := DefaultConfig(outputDir);
      var tree := [Node(Some("folder"), "Disc1", [Node(Some("audio"), "t.mp3", [], 1000, Some("u"))], 0, None)];
      && Flatten(tree, [], 1, c) == [FileEntry(1, "t.mp3", Some("u"), "audio", 1000, "Disc1")]
      && JobBaseDir(c, "rj01") == outputDir + ["RJ01"]
  {
    DefaultFlattenExample(outputDir);
    assert Upper("rj01") == "RJ01";
  }

  lemma DefaultFlattenExample(outputDir: seq<string>)
    ensures Flatten([Node(Some("folder"), "Disc1", [Node(Some("audio"), "t.mp3", [], 1000, Some("u"))], 0, None)],
                    [], 1, DefaultConfig(outputDir))
            == [FileEntry(1, "t.mp3", Some("u"), "audio", 1000, "Disc1")]
  {
  }

  /** Worked case: the job's entry for "Disc1/t.mp3" is written to `<base>/Disc1/t mp3`. */
  lemma ExampleTargetPath(base: seq<string>, sep: char)
    ensures FullPath(base, "Disc1", "t.mp3", sep) == base + ["Disc1", "t mp3"]
  {
    SanitizeClean("Disc1");
    SanitizeMangledExtension();
    FullPathOfSanitized(base, "Disc1", "t.mp3", sep, "Disc1", "t mp3");
  }

  /** The target path once both components are known to sanitise to non-empty names. */
  lemma FullPathOfSanitized(base: seq<string>, folderPath: string, fileName: string, sep: char,
                            folder: string, name: string)
    requires Sanitize(folderPath) == folder && folder != ""
    requires Sanitize(fileName) == name && name != ""
    ensures FullPath(base, folderPath, fileName, sep) == base + [folder, name]
  {
    FullPathShape(base, folderPath, fileName, sep);
  }

  /** The loop's three lists after one more worker: its run, its path and its flag appended. */
  lemma JobAdvance(chosen: seq<FileEntry>, i: nat, baseDir: seq<string>, sep: char, env: map<int, FileEnv>,
                   p: seq<string>, r: WorkerRun)
    requires i < |chosen|
    requires p == FullPath(baseDir, chosen[i].folderPath, chosen[i].filename, sep)
    requires r == FileRun(chosen[i], env)
    ensures JobRuns(chosen[..i + 1], env) == JobRuns(chosen[..i], env) + [r]
    ensures JobPaths(chosen[..i + 1], baseDir, sep) == JobPaths(chosen[..i], baseDir, sep) + [p]
    ensures CountTrue(JobResults(chosen[..i + 1], env)) == CountTrue(JobResults(chosen[..i], env)) + (if r.ok then 1 else 0)
  {
    JobStep(chosen, i, env);
    JobPathsStep(chosen, i, baseDir, sep);
  }

  /** Extending the processed prefix by one file extends the runs and the flags by that file's. */
  lemma JobStep(chosen: seq<FileEntry>, i: nat, env: map<int, FileEnv>)
    requires i < |chosen|
    ensures JobRuns(chosen[..i + 1], env) == JobRuns(chosen[..i], env) + [FileRun(chosen[i], env)]
    ensures CountTrue(JobResults(chosen[..i + 1], env))
            == CountTrue(JobResults(chosen[..i], env)) + (if FileRun(chosen[i], env).ok then 1 else 0)
  {
    var f := chosen[i];
    assert chosen[..i + 1][..i] == chosen[..i];
    WorkerSuccessIff(f.size, EnvFor(env, f.index).disk, Sent(f.url, EnvFor(env, f.index).response));
    assert JobResults(chosen[..i + 1], env)[..i] == JobResults(chosen[..i], env);
  }

  /** Extending the processed prefix by one file extends the paths by that file's. */
  lemma JobPathsStep(chosen: seq<FileEntry>, i: nat, baseDir: seq<string>, sep: char)
    requires i < |chosen|
    ensures JobPaths(chosen[..i + 1], baseDir, sep)
            == JobPaths(chosen[..i], baseDir, sep) + [FullPath(baseDir, chosen[i].folderPath, chosen[i].filename, sep)]
  {
    assert chosen[..i + 1][..i] == chosen[..i];
  }

  /** Every worker of the job succeeded. */
  predicate AllOk(runs: seq<WorkerRun>)
  {
    forall k :: 0 <= k < |runs| ==> runs[k].ok
  }

  /** A job's files all succeed exactly when every run is successful. */
  lemma JobOutcome(chosen: seq<FileEntry>, env: map<int, FileEnv>)
    ensures CountTrue(JobResults(chosen, env)) == |chosen| <==> AllOk(JobRuns(chosen, env))
  {
    var bs, runs := JobResults(chosen, env), JobRuns(chosen, env);
    JobResultsAreRunFlags(chosen, env);
    CountTrueBound(bs);
    if forall k :: 0 <= k < |bs| ==> bs[k] {
      forall k | 0 <= k < |runs| ensures runs[k].ok {
        assert bs[k];
      }
      assert AllOk(runs);
    } else {
      var k :| 0 <= k < |bs| && !bs[k];
      assert !runs[k].ok;
      assert !AllOk(runs);
    }
  }

  /** The flags counted are the workers' own results. */
  lemma JobResultsAreRunFlags(chosen: seq<FileEntry>, env: map<int, FileEnv>)
    ensures forall k :: 0 <= k < |chosen| ==> JobResults(chosen, env)[k] == JobRuns(chosen, env)[k].ok
  {
    forall k | 0 <= k < |chosen| ensures JobResults(chosen, env)[k] == JobRuns(chosen, env)[k].ok {
      var f := chosen[k];
      JobRunsAt(chosen, env, k);
      WorkerSuccessIff(f.size, EnvFor(env, f.index).disk, Sent(f.url, EnvFor(env, f.index).response));
    }
  }

  // ----- The batch -----

  /**
   * One work of a batch: its ID, the answer of the batch's own work-info
   * lookup, and what the job meets: the file list its lookup returns and
   * the files' environments.
   */
  datatype WorkInputs = WorkInputs(
    rjId: string,
    listing: WorkInfoResult,
    refetched: seq<FileEntry>,
    env: map<int, FileEnv>)

  /** The title text the batch shows: the second half of the lookup's answer. */
  function WorkTitle(w: WorkInputs): string
  {
    Render(w.listing.message)
  }

  /** What the batch reports about one work. */
  datatype Report =
    | Found
    | Skipped(rjId: string, title: string)
    | Downloading(rjId: string, title: string)
    | Succeeded(rjId: string, title: string)
    | Failed(rjId: string, title: string)

  /** One call of the overall progress callback: the work's 1-based position (0 before the first), the total and the report. */
  datatype BatchEvent = BatchEvent(current: nat, total: nat, report: Report)

  /** The status text of a callback call. */
  function RenderEvent(e: BatchEvent): string
  {
    var counter := "[" + NatToString(e.current) + "/" + NatToString(e.total) + "] ";
    match e.report
    case Found => "找到 " + NatToString(e.total) + " 个作品。开始按顺序处理..."
    case Skipped(id, t) => counter + "跳过 " + id + " (" + t + ")：未找到文件。"
    case Downloading(id, t) => counter + "正在下载 " + id + " (" + t + ")..."
    case Succeeded(id, t) => counter + "✅ " + id + " (" + t + ") 下载成功！"
    case Failed(id, t) => counter + "❌ " + id + " (" + t + ") 下载失败。"
  }

  /**
   * Every per-work message starts with the "[current/total] " counter, and
   * a work's success and failure messages differ.
   */
  lemma RenderEventCounter(e: BatchEvent)
    requires !e.report.Found?
    ensures StartsWith(RenderEvent(e), "[" + NatToString(e.current) + "/" + NatToString(e.total) + "] ")
    ensures e.report.Succeeded? ==>
              RenderEvent(e) != RenderEvent(BatchEvent(e.current, e.total, Failed(e.report.rjId, e.report.title)))
  {
    var counter := "[" + NatToString(e.current) + "/" + NatToString(e.total) + "] ";
    var text := RenderEvent(e);
    assert text[..|counter|] == counter;
    if e.report.Succeeded? {
      var failed := RenderEvent(BatchEvent(e.current, e.total, Failed(e.report.rjId, e.report.title)));
      assert text[|counter|] == '✅';
      assert failed[|counter|] == '❌';
    }
  }

  /** Whether the batch downloads a work successfully: it has files, and the job over all their indices succeeds. */
  predicate WorkSucceeds(w: WorkInputs)
  {
    w.listing.files != [] && JobSucceeds(w.refetched, Indices(w.listing.files), w.env)
  }

  /** One flag per work of the batch: whether it was downloaded successfully. */
  function BatchResults(ws: seq<WorkInputs>): (bs: seq<bool>)
    ensures |bs| == |ws|
  {
    seq(|ws|, k requires 0 <= k < |ws| => WorkSucceeds(ws[k]))
  }

  /** The callback calls for the work at 1-based position `current`. */
  function WorkEvents(w: WorkInputs, current: nat, total: nat): seq<BatchEvent>
  {
    var t := WorkTitle(w);
    if w.listing.files == [] then [BatchEvent(current, total, Skipped(w.rjId, t))]
    else
      [BatchEvent(current, total, Downloading(w.rjId, t)),
       BatchEvent(current, total, if WorkSucceeds(w) then Succeeded(w.rjId, t) else Failed(w.rjId, t))]
  }

  /** The callback calls for the works `ws`, the first of the batch, in order. */
  function BatchLog(ws: seq<WorkInputs>, total: nat): seq<BatchEvent>
  {
    if ws == [] then [] else BatchLog(ws[..|ws| - 1], total) + WorkEvents(ws[|ws| - 1], |ws|, total)
  }

  /** Every call in the log of the first works names one of their positions. */
  lemma {:induction false} BatchLogPositions(ws: seq<WorkInputs>, total: nat)
    ensures forall e :: e in BatchLog(ws, total) ==> 1 <= e.current <= |ws| && e.total == total
  {
    if ws != [] {
      BatchLogPositions(ws[..|ws| - 1], total);
    }
  }

  /**
   * The job is started for a work exactly when its lookup found files: a
   * "downloading" report for position k appears in the log if and only if
   * work k has files, and a work without files gets a "skipped" report.
   */
  lemma {:induction false} BatchLogDownloadsIff(ws: seq<WorkInputs>, total: nat, k: nat)
    requires 1 <= k <= |ws|
    ensures BatchEvent(k, total, Downloading(ws[k - 1].rjId, WorkTitle(ws[k - 1]))) in BatchLog(ws, total)
            <==> ws[k - 1].listing.files != []
    ensures ws[k - 1].listing.files == [] ==>
              BatchEvent(k, total, Skipped(ws[k - 1].rjId, WorkTitle(ws[k - 1]))) in BatchLog(ws, total)
  {
    var init := ws[..|ws| - 1];
    if k == |ws| {
      BatchLogPositions(init, total);
    } else {
      BatchLogDownloadsIff(init, total, k);
      assert init[k - 1] == ws[k - 1];
    }
  }

  /** The summary the batch ends with. */
  function Summary(successCount: nat, total: nat): string
  {
    "批量下载完成。成功下载 " + NatToString(successCount) + " / " + NatToString(total) + " 个作品。"
  }

  const EmptyBatchMessage: string := "RJ ID 列表为空。"

  /**
   * `process_bulk_download_job`: works in order; a work without files is
   * skipped without starting its job, every other one is downloaded as a
   * whole and counted when its job succeeds. The batch succeeds when every
   * work was counted.
   */
  method ProcessBulkDownloadJob(works: seq<WorkInputs>, c: Config, sep: char)
    returns (ok: bool, message: string, events: seq<BatchEvent>, successCount: nat)
    ensures works == [] ==> !ok && message == EmptyBatchMessage && events == [] && successCount == 0
    ensures works != [] ==>
      && successCount == CountTrue(BatchResults(works))
      && events == [BatchEvent(0, |works|, Found)] + BatchLog(works, |works|)
      && message == Summary(successCount, |works|)
    ensures successCount <= |works|
    ensures ok <==> works != [] && forall k :: 0 <= k < |works| ==> WorkSucceeds(works[k])
  {
    if works == [] {
      return false, EmptyBatchMessage, [], 0;
    }
    events, successCount := RunBatch(works, c, sep);
    BatchCountBound(works);
    message := Summary(successCount, |works|);
    ok := successCount == |works|;
  }

  /** The loop over the works: one round per work, in order, counting the successes. */
  method RunBatch(works: seq<WorkInputs>, c: Config, sep: char) returns (events: seq<BatchEvent>, successCount: nat)
    ensures successCount == CountTrue(BatchResults(works))
    ensures events == [BatchEvent(0, |works|, Found)] + BatchLog(works, |works|)
  {
    var totalWorks := |works|;
    events := [BatchEvent(0, totalWorks, Found)];
    successCount := 0;
    var i := 0;
    while i < |works|
      invariant 0 <= i <= |works|
      invariant successCount == CountTrue(BatchResults(works[..i]))
      invariant events == [BatchEvent(0, totalWorks, Found)] + BatchLog(works[..i], totalWorks)
    {
      var success, workEvents := ProcessWork(works[i], i + 1, totalWorks, c, sep);
      BatchStep(works, i, totalWorks);
      if success {
        successCount := successCount + 1;
      }
      events := events + workEvents;
      i := i + 1;
    }
    assert works[..i] == works;
  }

  /**
   * One round of the batch loop for the work at 1-based position `current`:
   * report a skip, or report the download, run the job over all the work's
   * indices and report its outcome.
   */
  method ProcessWork(w: WorkInputs, current: nat, total: nat, c: Config, sep: char)
    returns (success: bool, events: seq<BatchEvent>)
    ensures success == WorkSucceeds(w)
    ensures events == WorkEvents(w, current, total)
  {
    var title := WorkTitle(w);
    if w.listing.files == [] {
      return false, [BatchEvent(current, total, Skipped(w.rjId, title))];
    }
    events := [BatchEvent(current, total, Downloading(w.rjId, title))];
    success := DownloadAllOf(w, c, sep);
    if success {
      events := events + [BatchEvent(current, total, Succeeded(w.rjId, title))];
    } else {
      events := events + [BatchEvent(current, total, Failed(w.rjId, title))];
    }
  }

  /** The job the batch starts for a work with files: every file of the listing selected. */
  method DownloadAllOf(w: WorkInputs, c: Config, sep: char) returns (success: bool)
    requires w.listing.files != []
    ensures success == WorkSucceeds(w)
  {
    var selectedIndices := Indices(w.listing.files);
    var runs, paths;
    success, runs, paths := ProcessDownloadJob(w.rjId, w.refetched, selectedIndices, c, sep, w.env);
  }

  /**
   * The success counter never exceeds the number of works, and equals it
   * exactly when every work has files and its job succeeded.
   */
  lemma BatchCountBound(works: seq<WorkInputs>)
    ensures CountTrue(BatchResults(works)) <= |works|
    ensures CountTrue(BatchResults(works)) == |works| <==> forall k :: 0 <= k < |works| ==> WorkSucceeds(works[k])
  {
    CountTrueBound(BatchResults(works));
    assert forall k :: 0 <= k < |works| ==> BatchResults(works)[k] == WorkSucceeds(works[k]);
  }

  /** Extending the processed works by one extends the log and the count by that work's. */
  lemma BatchStep(works: seq<WorkInputs>, i: nat, total: nat)
    requires i < |works|
    ensures BatchLog(works[..i + 1], total) == BatchLog(works[..i], total) + WorkEvents(works[i], i + 1, total)
    ensures CountTrue(BatchResults(works[..i + 1]))
            == CountTrue(BatchResults(works[..i])) + (if WorkSucceeds(works[i]) then 1 else 0)
  {
    assert works[..i + 1][..i] == works[..i];
    var a, b := BatchResults(works[..i + 1]), BatchResults(works[..i]);
    assert a[..i] == b by {
      forall k | 0 <= k < i ensures a[k] == b[k] {
        assert works[..i + 1][k] == works[..i][k];
      }
    }
  }
}
