/**
 * The work-info resolver: two sequential fetches (the work's metadata for
 * its title, then its tracks tree) combined into a file list and a title or
 * an error message. Failures are returned as values.
 */
module WorkInfo {
  import opened Util
  import opened Settings
  import opened Endpoints
  import opened Fetcher
  import opened Tracks

  /** The workInfo response; `title` is None when the key is missing. */
  datatype WorkJson = WorkJson(title: Option<string>)

  /** The second half of the resolver's answer: the title, or why there are no files. */
  datatype Message =
    | Title(title: string)
    | NotFound
    | TracksFailed(title: string)
    | NoMatchingFiles(title: string)

  /** The text the resolver returns for each message. */
  function Render(m: Message): string
  {
    match m
    case Title(t) => t
    case NotFound => "作品信息获取失败或资源不存在。"
    case TracksFailed(t) => t + " (文件列表获取失败)"
    case NoMatchingFiles(t) => t + " (未找到符合条件的文件)"
  }

  /** Every failure message except "not found" starts with the work's title. */
  lemma RenderEmbedsTitle(m: Message)
    requires m.TracksFailed? || m.NoMatchingFiles?
    ensures StartsWith(Render(m), m.title)
    ensures Render(m) != m.title
  {
    assert Render(m)[..|m.title|] == m.title;
  }

  datatype WorkInfoResult = WorkInfoResult(files: seq<FileEntry>, message: Message)

  /** The bare numeric ID used in API paths: every "RJ" removed. */
  function NumericId(rjId: string): string
  {
    Replace(rjId, "RJ", "")
  }

  function WorkInfoPath(rjId: string): string
  {
    "/api/workInfo/" + NumericId(rjId)
  }

  function TracksPath(rjId: string): string
  {
    "/api/tracks/" + NumericId(rjId) + "?v=2"
  }

  /** A normalised ID "RJ" + digits reaches the API as just its digits. */
  lemma {:induction false} NumericIdOfNormalised(digits: string)
    requires forall i :: 0 <= i < |digits| ==> IsDigit(digits[i])
    ensures NumericId("RJ" + digits) == digits
  {
    var s := "RJ" + digits;
    assert StartsWith(s, "RJ");
    assert s[2..] == digits;
    DigitsHaveNoRJ(digits);
  }

  lemma {:induction false} DigitsHaveNoRJ(digits: string)
    requires forall i :: 0 <= i < |digits| ==> IsDigit(digits[i])
    ensures Replace(digits, "RJ", "") == digits
    decreases |digits|
  {
    if digits != [] {
      assert !StartsWith(digits, "RJ") by {
        if |digits| >= 2 { assert digits[..2][0] == digits[0]; }
      }
      DigitsHaveNoRJ(digits[1..]);
      assert digits == [digits[0]] + digits[1..];
    }
  }

  /**
   * The result shaping of `get_work_info_async`, given what the two fetches
   * returned (the tracks fetch only happens when the work has a title).
   */
  function ShapeWorkInfo(work: Option<WorkJson>, tracks: Option<seq<Node>>, c: Config): (r: WorkInfoResult)
  {
    if work.None? || work.value.title.None? then WorkInfoResult([], NotFound)
    else
      var title := work.value.title.value;
      if tracks.None? then WorkInfoResult([], TracksFailed(title))
      else
        var files := Flatten(tracks.value, [], 1, c);
        if files == [] then WorkInfoResult([], NoMatchingFiles(title))
        else WorkInfoResult(files, Title(title))
  }

  /**
   * Files are returned exactly when the message is the plain title; they are
   * then exactly the flattened tracks tree, numbered 1, 2, …, all of an
   * allowed type, and each failure is reported for the right cause.
   */
  lemma ShapeWorkInfoCases(work: Option<WorkJson>, tracks: Option<seq<Node>>, c: Config)
    ensures var r := ShapeWorkInfo(work, tracks, c);
      && (r.files != [] <==> r.message.Title?)
      && (r.message == NotFound <==> work.None? || work.value.title.None?)
      && (r.message.TracksFailed? <==> work.Some? && work.value.title.Some? && tracks.None?)
      && (r.message.NoMatchingFiles? <==>
            work.Some? && work.value.title.Some? && tracks.Some? && Flatten(tracks.value, [], 1, c) == [])
      && (r.message != NotFound ==> r.message.title == work.value.title.value)
      && (r.message.Title? ==> r.files == Flatten(tracks.value, [], 1, c))
      && (forall k :: 0 <= k < |r.files| ==> r.files[k].index == k + 1)
      && (forall e :: e in r.files ==> e.kind in AllowedTypes(c))
  {
    if tracks.Some? {
      FlattenDenseIndices(tracks.value, [], 1, c);
      FlattenOnlyAdmitted(tracks.value, [], 1, c);
    }
  }

  /**
   * `get_work_info_async`: fetches the work's metadata from its work-info
   * path; only when it has a title fetches the tracks tree from its tracks
   * path, then flattens it into a fresh list. `requests` are the attempts
   * made, in order.
   */
  method GetWorkInfo(api: ApiRotator, rjId: string, workOutcomes: seq<Outcome<WorkJson>>,
                     tracksOutcomes: seq<Outcome<seq<Node>>>, c: Config) returns (r: WorkInfoResult, requests: seq<Attempt>)
    requires api.Valid()
    modifies api
    ensures api.Valid()
    ensures var w := FetchFrom(old(api.index), WorkInfoPath(rjId), workOutcomes, 0, MaxRetries);
      if w.result.None? || w.result.value.title.None? then
        r == WorkInfoResult([], NotFound) && api.index == w.endIndex && requests == w.attempts
      else
        var t := FetchFrom(w.endIndex, TracksPath(rjId), tracksOutcomes, 0, MaxRetries);
        r == ShapeWorkInfo(w.result, t.result, c) && api.index == t.endIndex
        && requests == w.attempts + t.attempts
    ensures forall a :: a in requests ==> a.path == WorkInfoPath(rjId) || a.path == TracksPath(rjId)
  {
    ghost var start := api.index;
    var w := FetchWithRetry(api, WorkInfoPath(rjId), workOutcomes, MaxRetries);
    FetchAttemptLog(start, WorkInfoPath(rjId), workOutcomes, 0, MaxRetries);
    requests := w.attempts;
    if w.result.None? || w.result.value.title.None? {
      return WorkInfoResult([], NotFound), requests;
    }
    var title := w.result.value.title.value;
    ghost var middle := api.index;
    var t := FetchWithRetry(api, TracksPath(rjId), tracksOutcomes, MaxRetries);
    FetchAttemptLog(middle, TracksPath(rjId), tracksOutcomes, 0, MaxRetries);
    requests := requests + t.attempts;
    if t.result.None? {
      return WorkInfoResult([], TracksFailed(title)), requests;
    }
    var allFiles := new FileList();
    var _ := allFiles.Transform(t.result.value, [], 1, c);
    if allFiles.files == [] {
      return WorkInfoResult([], NoMatchingFiles(title)), requests;
    }
    r := WorkInfoResult(allFiles.files, Title(title));
  }
}
