/**
 * The file-transfer worker: decides from the on-disk size whether a file is
 * complete, resumable with a byte-range request (section 14.2 of RFC 9110),
 * or to be restarted; then streams the body chunk by chunk, counting bytes
 * and reporting progress on every 50th chunk and once more at the end.
 * The file system and the response are inputs; the progress callback is a
 * log of the calls it receives.
 */
module Transfer {
  import opened Util
  import opened Tracks
  import opened Paths

  /** The target file before (or after) the worker: absent, or present with a size. */
  datatype DiskFile = Absent | Present(size: nat)

  /** What the worker does before any request. */
  datatype Plan =
    | SkipComplete
    | Download(append: bool, range: Option<string>, start: nat, deleted: bool)

  /** The `Range` header asking for everything from byte `offset` on. */
  function RangeHeader(offset: nat): string
  {
    "bytes=" + NatToString(offset) + "-"
  }

  /** The offset a `bytes=S-` header asks for, if it has that form. */
  function RangeStart(h: string): Option<nat>
  {
    if |h| >= 8 && h[..6] == "bytes=" && h[|h| - 1] == '-'
       && forall i :: 6 <= i < |h| - 1 ==> IsDigit(h[i])
    then Some(ParseNat(h[6..|h| - 1]))
    else None
  }

  /** The header is read back as the offset it was built from. */
  lemma RangeHeaderRoundTrip(offset: nat)
    ensures RangeStart(RangeHeader(offset)) == Some(offset)
  {
    var h := RangeHeader(offset);
    var digits := NatToString(offset);
    assert h[6..|h| - 1] == digits;
    assert forall i :: 6 <= i < |h| - 1 ==> h[i] == digits[i - 6];
    NatToStringRoundTrip(offset);
  }

  /**
   * The resume decision. An existing file of exactly the expected (non-zero)
   * size is complete; a smaller one is continued in append mode from its
   * size; anything else is deleted and downloaded again from byte 0.
   */
  function ResumePlan(disk: DiskFile, expected: int): (p: Plan)
    ensures p.SkipComplete? <==> disk.Present? && expected > 0 && disk.size == expected
    ensures p.Download? && p.append <==> disk.Present? && disk.size < expected
    ensures p.Download? && p.append ==> p.range == Some(RangeHeader(disk.size)) && p.start == disk.size && !p.deleted
    ensures p.Download? && !p.append ==> p.range == None && p.start == 0 && (p.deleted <==> disk.Present?)
  {
    match disk
    case Absent => Download(false, None, 0, false)
    case Present(size) =>
      if expected > 0 && size == expected then SkipComplete
      else if size < expected then Download(true, Some(RangeHeader(size)), size, false)
      else Download(false, None, 0, true)
  }

  /**
   * The download response. `NoResponse`: the request raised before a status
   * arrived. `Reply`: a status, the Content-Length header if any, the lengths
   * of the chunks received, and whether the stream ended normally (false:
   * it raised after those chunks).
   */
  datatype Response =
    | NoResponse
    | Reply(status: int, contentLength: Option<nat>, chunks: seq<nat>, complete: bool)

  /** `raise_for_status` raises for every status from 400 on. */
  predicate IsHttpError(status: int)
  {
    status >= 400
  }

  /**
   * The total reported to the callback: Content-Length plus the bytes
   * already on disk, or the expected size when that sum is 0.
   */
  function TotalSize(contentLength: Option<nat>, downloaded: nat, expected: int): (t: int)
  {
    var sum := contentLength.GetOr(0) + downloaded;
    if sum == 0 && expected > 0 then expected else sum
  }

  lemma TotalSizeCases(contentLength: Option<nat>, downloaded: nat, expected: int)
    ensures contentLength.GetOr(0) + downloaded > 0 ==> TotalSize(contentLength, downloaded, expected) == contentLength.GetOr(0) + downloaded
    ensures contentLength.GetOr(0) + downloaded == 0 ==> TotalSize(contentLength, downloaded, expected) == if expected > 0 then expected else 0
    ensures TotalSize(contentLength, downloaded, expected) >= 0
  {
  }

  function Sum(chunks: seq<nat>): nat
  {
    if chunks == [] then 0 else Sum(chunks[..|chunks| - 1]) + chunks[|chunks| - 1]
  }

  /** One call of the progress callback: bytes so far and the total. */
  datatype Progress = Progress(done: int, total: int)

  /** Progress is reported once per this many chunks. */
  const ThrottleEvery: nat := 50

  /**
   * The throttled reports for a body: the reports for all chunks but the
   * last, then one more when the last chunk is a 50th one, carrying the
   * running byte count (starting from `start`) and the total.
   */
  function Throttled(start: nat, total: int, chunks: seq<nat>): seq<Progress>
  {
    if chunks == [] then []
    else
      Throttled(start, total, chunks[..|chunks| - 1])
      + (if |chunks| % ThrottleEvery == 0 then [Progress(start + Sum(chunks), total)] else [])
  }

  /**
   * The reports, stated outright: one per full group of 50 chunks, the
   * `j`-th after chunk `50 * (j + 1)` with the bytes received up to it.
   */
  lemma {:induction false} ThrottledAt(start: nat, total: int, chunks: seq<nat>)
    ensures var es := Throttled(start, total, chunks);
      && |es| == |chunks| / ThrottleEvery
      && forall j :: 0 <= j < |es| ==>
           ThrottleEvery * (j + 1) <= |chunks| && es[j] == Progress(start + Sum(chunks[..ThrottleEvery * (j + 1)]), total)
    decreases |chunks|
  {
    if chunks != [] {
      var n := |chunks|;
      var init := chunks[..n - 1];
      var es, a := Throttled(start, total, chunks), Throttled(start, total, init);
      ThrottledAt(start, total, init);
      assert (n - 1) / ThrottleEvery + (if n % ThrottleEvery == 0 then 1 else 0) == n / ThrottleEvery;
      forall j | 0 <= j < |es|
        ensures ThrottleEvery * (j + 1) <= n && es[j] == Progress(start + Sum(chunks[..ThrottleEvery * (j + 1)]), total)
      {
        if j < |a| {
          assert init[..ThrottleEvery * (j + 1)] == chunks[..ThrottleEvery * (j + 1)];
        } else {
          assert ThrottleEvery * (j + 1) == n;
          assert chunks[..n] == chunks;
        }
      }
    }
  }

  /** One more chunk adds a report exactly when it is a 50th one. */
  lemma ThrottledStep(start: nat, total: int, chunks: seq<nat>, n: nat)
    requires n < |chunks|
    ensures Throttled(start, total, chunks[..n + 1])
            == Throttled(start, total, chunks[..n])
               + (if (n + 1) % ThrottleEvery == 0
                  then [Progress(start + Sum(chunks[..n + 1]), total)] else [])
  {
    assert chunks[..n + 1][..n] == chunks[..n];
  }

  /** Everything the worker did once its target path was fixed: its result, request, callback log and the file afterwards. */
  datatype WorkerRun = WorkerRun(
    ok: bool,
    requested: bool,
    range: Option<string>,
    events: seq<Progress>,
    disk: DiskFile)

  /**
   * `download_worker` after the path is composed, as a function of the
   * expected size, the file on disk and the response.
   */
  function Worker(expected: int, disk: DiskFile, resp: Response): WorkerRun
  {
    var plan := ResumePlan(disk, expected);
    if plan.SkipComplete? then
      WorkerRun(true, false, None, [Progress(expected, expected)], disk)
    else if resp.NoResponse? || IsHttpError(resp.status) then
      WorkerRun(false, true, plan.range, [], if plan.deleted then Absent else disk)
    else
      var total := TotalSize(resp.contentLength, plan.start, expected);
      var final := if resp.complete then [Progress(total, total)] else [];
      WorkerRun(resp.complete, true, plan.range,
                Throttled(plan.start, total, resp.chunks) + final,
                Present(plan.start + Sum(resp.chunks)))
  }

  /**
   * A file already at its full expected size is not requested again: the
   * callback sees `(E, E)` once and the worker succeeds.
   */
  lemma WorkerSkipsCompleteFile(expected: int, resp: Response)
    requires expected > 0
    ensures var run := Worker(expected, Present(expected), resp);
      run.ok && !run.requested && run.events == [Progress(expected, expected)]
      && run.disk == Present(expected)
  {
  }

  /**
   * A partial file of `S < E` bytes is continued with `Range: bytes=S-`;
   * when the server sends the missing `E - S` bytes the file ends at `E`
   * bytes and the last report is `(E, E)`.
   */
  lemma WorkerResumeCompletes(expected: int, s: nat, status: int, chunks: seq<nat>)
    requires s < expected
    requires !IsHttpError(status)
    requires Sum(chunks) == expected - s
    ensures var run := Worker(expected, Present(s), Reply(status, Some(expected - s), chunks, true));
      && run.ok && run.requested
      && run.range == Some(RangeHeader(s))
      && run.disk == Present(expected)
      && run.events != [] && run.events[|run.events| - 1] == Progress(expected, expected)
  {
  }

  /**
   * A full body whose Content-Length is the number of bytes it carries
   * ends the download at its total: the worker succeeds, the file holds the
   * bytes it had plus those received, and the last report is that size over
   * itself.
   */
  lemma WorkerFullBodyEndsAtTotal(expected: int, disk: DiskFile, resp: Response)
    requires !ResumePlan(disk, expected).SkipComplete?
    requires resp.Reply? && !IsHttpError(resp.status) && resp.complete
    requires resp.contentLength == Some(Sum(resp.chunks))
    requires ResumePlan(disk, expected).start + Sum(resp.chunks) > 0
    ensures var run := Worker(expected, disk, resp);
      && run.ok
      && run.disk == Present(ResumePlan(disk, expected).start + Sum(resp.chunks))
      && run.events != []
      && run.events[|run.events| - 1] == Progress(run.disk.size, run.disk.size)
  {
  }

  /**
   * Whether a file ends up downloaded: it was already complete, or the body
   * arrived in full with a non-error status. The target path plays no part.
   */
  predicate TransferSucceeds(expected: int, disk: DiskFile, resp: Response)
  {
    ResumePlan(disk, expected).SkipComplete? || (resp.Reply? && !IsHttpError(resp.status) && resp.complete)
  }

  /**
   * The worker succeeds exactly when the file was already complete or the
   * body arrived in full with a non-error status; every successful download
   * ends with a `(total, total)` report, and a failed one reports only the
   * throttled progress of the chunks it received.
   */
  lemma WorkerSuccessIff(expected: int, disk: DiskFile, resp: Response)
    ensures var run := Worker(expected, disk, resp);
      && (run.ok <==> TransferSucceeds(expected, disk, resp))
      && (run.requested <==> !ResumePlan(disk, expected).SkipComplete?)
      && (run.ok && run.requested ==>
            var total := TotalSize(resp.contentLength, ResumePlan(disk, expected).start, expected);
            run.events == Throttled(ResumePlan(disk, expected).start, total, resp.chunks) + [Progress(total, total)])
      && (!run.ok ==> |run.events| == (if resp.Reply? && !IsHttpError(resp.status) then |resp.chunks| / ThrottleEvery else 0))
      && (!run.ok ==>
            run.events == if resp.Reply? && !IsHttpError(resp.status)
                          then Throttled(ResumePlan(disk, expected).start,
                                         TotalSize(resp.contentLength, ResumePlan(disk, expected).start, expected), resp.chunks)
                          else [])
  {
    var plan := ResumePlan(disk, expected);
    if resp.Reply? && plan.Download? {
      ThrottledAt(plan.start, TotalSize(resp.contentLength, plan.start, expected), resp.chunks);
    }
  }

  /**
   * The reported byte counts never go down, and each is the bytes already
   * on disk plus those received so far.
   */
  lemma ThrottledMonotone(start: nat, total: int, chunks: seq<nat>)
    ensures var es := Throttled(start, total, chunks);
      forall j, k :: 0 <= j < k < |es| ==> start <= es[j].done <= es[k].done
  {
    var es := Throttled(start, total, chunks);
    ThrottledAt(start, total, chunks);
    forall j, k | 0 <= j < k < |es| ensures start <= es[j].done <= es[k].done {
      SumPrefixMonotone(chunks[..ThrottleEvery * (k + 1)], ThrottleEvery * (j + 1));
      assert chunks[..ThrottleEvery * (k + 1)][..ThrottleEvery * (j + 1)] == chunks[..ThrottleEvery * (j + 1)];
    }
  }

  lemma {:induction false} SumPrefixMonotone(s: seq<nat>, m: nat)
    requires m <= |s|
    ensures Sum(s[..m]) <= Sum(s)
    decreases |s|
  {
    if m < |s| {
      assert s[..|s| - 1][..m] == s[..m];
      SumPrefixMonotone(s[..|s| - 1], m);
    } else {
      assert s[..m] == s;
    }
  }

  /**
   * The chunk loop of `download_worker`: adds each chunk's length to the
   * running count and reports the count on every 50th chunk.
   */
  method StreamBody(downloaded: nat, total: int, chunks: seq<nat>) returns (current: nat, events: seq<Progress>)
    ensures current == downloaded + Sum(chunks)
    ensures events == Throttled(downloaded, total, chunks)
  {
    current := downloaded;
    events := [];
    var updateCounter := 0;
    while updateCounter < |chunks|
      invariant 0 <= updateCounter <= |chunks|
      invariant current == downloaded + Sum(chunks[..updateCounter])
      invariant events == Throttled(downloaded, total, chunks[..updateCounter])
    {
      ThrottledStep(downloaded, total, chunks, updateCounter);
      assert chunks[..updateCounter + 1][..updateCounter] == chunks[..updateCounter];
      current := current + chunks[updateCounter];
      updateCounter := updateCounter + 1;
      if updateCounter % ThrottleEvery == 0 {
        events := events + [Progress(current, total)];
      }
    }
    assert chunks[..updateCounter] == chunks;
  }

  /**
   * What the request meets: without a download URL `session.get` raises
   * before any status arrives, whatever the server would have answered.
   */
  function Sent(url: Option<string>, resp: Response): (r: Response)
  {
    if url.None? then NoResponse else resp
  }

  /**
   * An entry without a download URL succeeds only when its file is already
   * complete on disk; otherwise it fails without any progress report.
   */
  lemma WorkerWithoutUrl(expected: int, disk: DiskFile, resp: Response)
    ensures var run := Worker(expected, disk, Sent(None, resp));
      && (run.ok <==> ResumePlan(disk, expected).SkipComplete?)
      && (!run.ok ==> run.events == [])
  {
    WorkerSuccessIff(expected, disk, Sent(None, resp));
  }

  /**
   * `download_worker`: composes the sanitised target path, then takes the
   * resume decision and requests and streams the entry's URL.
   */
  method DownloadWorker(entry: FileEntry, baseDir: seq<string>, sep: char, disk: DiskFile, resp: Response)
    returns (path: seq<string>, run: WorkerRun)
    ensures path == FullPath(baseDir, entry.folderPath, entry.filename, sep)
    ensures run == Worker(entry.size, disk, Sent(entry.url, resp))
  {
    path := FullPath(baseDir, entry.folderPath, entry.filename, sep);
    run := TransmitFile(entry.size, entry.url, disk, resp);
  }

  /**
   * The body of `download_worker` once the path is known: skip a complete
   * file, otherwise request `url` (with a range when resuming) and stream
   * the body, counting bytes and reporting progress.
   */
  method TransmitFile(expected: int, url: Option<string>, disk: DiskFile, resp: Response) returns (run: WorkerRun)
    ensures run == Worker(expected, disk, Sent(url, resp))
  {
    var plan := ResumePlan(disk, expected);
    if plan.SkipComplete? {
      return WorkerRun(true, false, None, [Progress(expected, expected)], disk);
    }
    var onDisk := if plan.deleted then Absent else disk;
    var downloaded := plan.start;
    if url.None? || resp.NoResponse? || resp.status >= 400 {
      return WorkerRun(false, true, plan.range, [], onDisk);
    }
    var total := resp.contentLength.GetOr(0) + downloaded;
    if total == 0 && expected > 0 {
      total := expected;
    }
    var current, events := StreamBody(downloaded, total, resp.chunks);
    if !resp.complete {
      return WorkerRun(false, true, plan.range, events, Present(current));
    }
    run := WorkerRun(true, true, plan.range, events + [Progress(total, total)], Present(current));
  }
}
