/**
 * Result shaping of the keyword search: the keyword is encoded into the
 * request path, the answer's works become result records with IDs that
 * carry the "RJ" prefix, and the page count is the total count divided by
 * the page size, rounded up. A missing answer or a missing key gives no
 * results and no pages.
 */
module Search {
  import opened Util
  import opened Endpoints
  import opened Fetcher

  /** A work's `id` as the search answer holds it: a number or a string. */
  datatype WorkId = IntId(n: int) | StrId(s: string)

  /** One work of the answer; a key the answer lacks is None. */
  datatype SearchWork = SearchWork(id: Option<WorkId>, title: Option<string>, name: Option<string>, tracksCount: Option<int>)

  /**
   * The search answer: its `works` list and its `pagination.totalCount`
   * (None when either key is missing).
   */
  datatype SearchJson = SearchJson(works: Option<seq<SearchWork>>, totalCount: Option<int>)

  datatype SearchResult = SearchResult(rjId: string, title: string, author: string, totalTracks: int)

  /** What the search returns: the results and the number of pages. */
  datatype SearchPage = SearchPage(results: seq<SearchResult>, totalPages: int)

  /**
   * The keyword as it goes into the path: stripped of surrounding
   * whitespace, then every "/" written as "%20" and every other character kept.
   */
  function EncodeKeyword(keyword: string): (e: string)
    ensures e == ReplaceEach(Strip(keyword), '/', "%20")
    ensures '/' !in e
  {
    ReplaceRemovesChar(Strip(keyword), '/', "%20");
    ReplaceCharIsEach(Strip(keyword), '/', "%20");
    Replace(Strip(keyword), "/", "%20")
  }

  /** Worked case: surrounding blanks go, an inner slash becomes "%20". */
  lemma EncodeKeywordExample()
    ensures EncodeKeyword(" a/b ") == "a%20b"
  {
    ExampleKeywordStripped();
    ExampleSlashEncoded();
    EncodeKeywordOf(" a/b ", "a/b", "a%20b");
  }

  /** `EncodeKeyword` from its two stages: strip, then encode each slash. */
  lemma EncodeKeywordOf(keyword: string, stripped: string, e: string)
    requires Strip(keyword) == stripped
    requires ReplaceEach(stripped, '/', "%20") == e
    ensures EncodeKeyword(keyword) == e
  {
  }

  lemma ExampleKeywordStripped()
    ensures Strip(" a/b ") == "a/b"
  {
    assert StripStart(" a/b ") == 1;
    assert " a/b "[1..] == "a/b ";
    assert StripEnd("a/b ") == 3;
  }

  lemma ExampleSlashEncoded()
    ensures ReplaceEach("a/b", '/', "%20") == "a%20b"
  {
    assert "a/b"[..2] == "a/";
    assert "a/b"[..2][..1] == "a";
    assert ReplaceEach("a", '/', "%20") == "a";
    assert ReplaceEach("a/", '/', "%20") == "a%20";
  }

  /** The request path of the search endpoint. */
  function SearchPath(keyword: string): string
  {
    "/api/search/" + EncodeKeyword(keyword)
  }

  /** A keyword without slashes or surrounding whitespace goes into the path unchanged. */
  lemma EncodePlainKeyword(keyword: string)
    requires '/' !in keyword
    requires keyword == [] || (!IsSpace(keyword[0]) && !IsSpace(keyword[|keyword| - 1]))
    ensures EncodeKeyword(keyword) == keyword
  {
    assert StripStart(keyword) == 0;
    assert StripEnd(keyword) == |keyword|;
    assert Strip(keyword) == keyword;
    ReplaceAbsentChar(keyword, '/', "%20");
  }

  /** `str(work["id"])`. */
  function IdText(id: WorkId): string
  {
    match id
    case IntId(n) => IntToString(n)
    case StrId(s) => s
  }

  /** The full ID: "RJ" is put in front unless the ID already starts with it. */
  function NormalizeRjId(ids: string): string
  {
    if StartsWith(ids, "RJ") then ids else "RJ" + ids
  }

  /**
   * Every normalised ID starts with "RJ"; an ID that already did is kept as
   * it is, any other gets exactly the two letters in front; normalising
   * twice changes nothing.
   */
  lemma NormalizeRjIdProperties(ids: string)
    ensures StartsWith(NormalizeRjId(ids), "RJ")
    ensures StartsWith(ids, "RJ") ==> NormalizeRjId(ids) == ids
    ensures !StartsWith(ids, "RJ") ==> NormalizeRjId(ids) == "RJ" + ids
    ensures NormalizeRjId(NormalizeRjId(ids)) == NormalizeRjId(ids)
  {
    assert ("RJ" + ids)[..2] == "RJ";
  }

  /** A numeric ID is written in decimal after "RJ". */
  lemma NumericIdGetsPrefix(n: nat)
    ensures NormalizeRjId(IdText(IntId(n))) == "RJ" + NatToString(n)
  {
    var s := NatToString(n);
    if |s| >= 2 {
      assert s[..2][0] == s[0];
      assert IsDigit(s[0]);
    }
  }

  /**
   * `ceil(totalCount / size)` when the count is non-zero and the size
   * positive, otherwise 0. For a positive count and size the pages are
   * enough to hold every result, all but the last are full and the last
   * is not empty. For a positive size Dafny's division rounds down, so
   * negating twice rounds up.
   */
  function TotalPages(totalCount: int, size: int): (p: int)
    ensures totalCount == 0 || size <= 0 ==> p == 0
    ensures totalCount > 0 && size > 0 ==> p >= 1 && (p - 1) * size < totalCount <= p * size
  {
    if totalCount != 0 && size > 0 then
      var q, r := (-totalCount) / size, (-totalCount) % size;
      assert -totalCount == q * size + r && 0 <= r < size;
      assert (-q) * size == totalCount + r;
      assert (-q - 1) * size == totalCount + r - size;
      -q
    else 0
  }

  /** No smaller number of pages of this size holds every result. */
  lemma TotalPagesFewest(totalCount: int, size: int, pages: int)
    requires totalCount > 0 && size > 0
    requires pages * size >= totalCount
    ensures TotalPages(totalCount, size) <= pages
  {
  }

  /** 45 results at 20 per page fill 3 pages. */
  lemma TotalPagesExample()
    ensures TotalPages(45, 20) == 3
  {
  }

  /** Whether a work's record can be built: it has an ID, a title and a name. */
  predicate Complete(w: SearchWork)
  {
    w.id.Some? && w.title.Some? && w.name.Some?
  }

  /** The result record of one complete work; a missing `tracksCount` reads as 0. */
  function ShapeWork(w: SearchWork): (r: SearchResult)
    requires Complete(w)
  {
    SearchResult(NormalizeRjId(IdText(w.id.value)), w.title.value, w.name.value, w.tracksCount.GetOr(0))
  }

  /** The records of the works `ws`, in order. */
  function ShapeWorks(ws: seq<SearchWork>): (rs: seq<SearchResult>)
    requires forall w :: w in ws ==> Complete(w)
    ensures |rs| == |ws|
  {
    seq(|ws|, k requires 0 <= k < |ws| => ShapeWork(ws[k]))
  }

  /**
   * The result shaping of `search_work_async`, given what the fetch
   * returned: no answer, no `works`, no `pagination.totalCount`, or a work
   * without an ID, a title or a name give no results and no pages.
   */
  function ShapeSearch(r: Option<SearchJson>, size: int): SearchPage
  {
    if r.None? || r.value.works.None? || r.value.totalCount.None? then SearchPage([], 0)
    else if exists w :: w in r.value.works.value && !Complete(w) then SearchPage([], 0)
    else SearchPage(ShapeWorks(r.value.works.value), TotalPages(r.value.totalCount.value, size))
  }

  /**
   * A missing answer, `works` key or `pagination.totalCount`, or an
   * incomplete work, gives no results and no pages. A full answer whose works
   * are all complete gives one result per work, in order, each with an ID
   * starting with "RJ", the work's title and name and its track count (0 when
   * missing), and the rounded-up page count.
   */
  lemma ShapeSearchCases(r: Option<SearchJson>, size: int)
    ensures var page := ShapeSearch(r, size);
      && (r.None? || r.value.works.None? || r.value.totalCount.None? ==> page == SearchPage([], 0))
      && (r.Some? && r.value.works.Some? && (exists w :: w in r.value.works.value && !Complete(w)) ==>
            page == SearchPage([], 0))
      && (page.results != [] ==> r.Some? && r.value.works.Some? && r.value.totalCount.Some?)
      && (r.Some? && r.value.works.Some? && r.value.totalCount.Some?
          && (forall w :: w in r.value.works.value ==> Complete(w)) ==>
            && |page.results| == |r.value.works.value|
            && page.totalPages == TotalPages(r.value.totalCount.value, size)
            && forall k :: 0 <= k < |page.results| ==>
                 var w := r.value.works.value[k];
                 && Complete(w)
                 && StartsWith(page.results[k].rjId, "RJ")
                 && page.results[k].rjId == NormalizeRjId(IdText(w.id.value))
                 && Some(page.results[k].title) == w.title
                 && Some(page.results[k].author) == w.name
                 && page.results[k].totalTracks == w.tracksCount.GetOr(0))
  {
    var page := ShapeSearch(r, size);
    if r.Some? && r.value.works.Some? && r.value.totalCount.Some?
       && (forall w :: w in r.value.works.value ==> Complete(w)) {
      var ws := r.value.works.value;
      assert page.results == ShapeWorks(ws);
      forall k | 0 <= k < |page.results|
        ensures var w := ws[k];
          && Complete(w)
          && StartsWith(page.results[k].rjId, "RJ")
          && page.results[k].rjId == NormalizeRjId(IdText(w.id.value))
          && Some(page.results[k].title) == w.title
          && Some(page.results[k].author) == w.name
          && page.results[k].totalTracks == w.tracksCount.GetOr(0)
      {
        assert ws[k] in ws;
        NormalizeRjIdProperties(IdText(ws[k].id.value));
      }
    }
  }

  /**
   * The result loop of `search_work_async`: one record per work, in order;
   * None when some work lacks an ID, a title or a name (the lookup raises).
   */
  method CollectResults(works: seq<SearchWork>) returns (results: Option<seq<SearchResult>>)
    ensures (forall w :: w in works ==> Complete(w)) ==> results == Some(ShapeWorks(works))
    ensures (exists w :: w in works && !Complete(w)) ==> results == None
  {
    var acc: seq<SearchResult> := [];
    var i := 0;
    while i < |works|
      invariant 0 <= i <= |works|
      invariant forall k :: 0 <= k < i ==> Complete(works[k])
      invariant |acc| == i
      invariant forall k :: 0 <= k < i ==> acc[k] == ShapeWork(works[k])
    {
      var work := works[i];
      if work.id.None? || work.title.None? || work.name.None? {
        assert work in works;
        return None;
      }
      var ids := IdText(work.id.value);
      var fullRjId := if !StartsWith(ids, "RJ") then "RJ" + ids else ids;
      acc := acc + [SearchResult(fullRjId, work.title.value, work.name.value, work.tracksCount.GetOr(0))];
      i := i + 1;
    }
    assert forall w :: w in works ==> Complete(w);
    assert acc == ShapeWorks(works);
    results := Some(acc);
  }

  /**
   * `search_work_async`: fetches the search answer from the keyword's search
   * path (the query parameters ask for the most downloaded works first) and
   * shapes it. `requests` are the attempts made, in order.
   */
  method SearchWorks(api: ApiRotator, keyword: string, size: int, outcomes: seq<Outcome<SearchJson>>)
    returns (page: SearchPage, requests: seq<Attempt>)
    requires api.Valid()
    modifies api
    ensures api.Valid()
    ensures var run := FetchFrom(old(api.index), SearchPath(keyword), outcomes, 0, MaxRetries);
      page == ShapeSearch(run.result, size) && api.index == run.endIndex && requests == run.attempts
    ensures forall a :: a in requests ==> a.path == SearchPath(keyword)
  {
    ghost var start := api.index;
    var run := FetchWithRetry(api, SearchPath(keyword), outcomes, MaxRetries);
    FetchAttemptLog(start, SearchPath(keyword), outcomes, 0, MaxRetries);
    requests := run.attempts;
    var r := run.result;
    if r.None? || r.value.works.None? {
      return SearchPage([], 0), requests;
    }
    var works := r.value.works.value;
    if r.value.totalCount.None? {
      return SearchPage([], 0), requests;
    }
    var totalPages := TotalPages(r.value.totalCount.value, size);
    var results := CollectResults(works);
    if results.None? {
      return SearchPage([], 0), requests;
    }
    page := SearchPage(results.value, totalPages);
  }
}
