/** The YouTube comment jobs of src/lib/jobs/youtube.ts: ingesting comment threads
    of tracked videos into the comment table without duplicates, stamping each video
    once its page has been processed, tracking a new video once, and the
    analysis-only fetch that counts what it inserts.

    The SQLite and Postgres branches are one abstract store: a video table and a
    comment table, each a sequence of rows in insertion order. The YouTube API is a
    pair of function parameters (`fetch` for a page of comment threads, `details` for
    a video); a failed insert is decided by an `accepts` predicate on the row. A
    thrown error becomes an error result that ends the run. */
module YouTubeJobs {
  import opened Common

  // ---------------------------------------------------------------------------
  // Rows and API data
  // ---------------------------------------------------------------------------

  datatype CommentStatus = Pending | Replied

  datatype VideoRow = VideoRow(
    videoId: string, title: Option<string>, channelId: Option<string>,
    channelTitle: Option<string>, description: Option<string>,
    publishedAt: Option<string>, lastChecked: Option<nat>)

  datatype CommentRow = CommentRow(
    commentId: string, videoId: string, text: string,
    authorDisplayName: Option<string>, authorChannelId: Option<string>,
    status: CommentStatus)

  /** `thread.snippet.topLevelComment.snippet`, the parts the jobs read. */
  datatype CommentSnippet = CommentSnippet(
    textDisplay: Option<string>, authorDisplayName: Option<string>, authorChannelId: Option<string>)

  /** A comment thread: the top-level comment's id and snippet, either of which may be
      missing. */
  datatype Thread = Thread(id: Option<string>, comment: Option<CommentSnippet>)

  /** What `getVideoComments(videoId, maxResults)` yields: a page, or a thrown error. */
  datatype FetchResult = Page(threads: seq<Thread>) | FetchFailed(message: string)

  /** The snippet fields of a video that `trackYouTubeVideo` stores. */
  datatype VideoSnippet = VideoSnippet(
    title: Option<string>, channelId: Option<string>, channelTitle: Option<string>,
    description: Option<string>, publishedAt: Option<string>)

  /** What `getVideoDetails(videoId)` yields: the video (whose snippet may be
      missing), null, or a thrown error. */
  datatype DetailsResult = Details(snippet: Option<VideoSnippet>) | NoVideo | DetailsFailed(message: string)

  /** The error a job rethrows. */
  datatype JobError = FetchError(message: string) | InsertError(key: string) | VideoNotFound

  /** The page sizes of the reply job and of the analysis fetch. */
  const CheckPageSize: nat := 50
  const AnalysisPageSize: nat := 100

  // ---------------------------------------------------------------------------
  // The comment table
  // ---------------------------------------------------------------------------

  /** Some row of the table has this comment id. */
  predicate Stored(comments: seq<CommentRow>, id: string) {
    exists i :: 0 <= i < |comments| && comments[i].commentId == id
  }

  /** No comment id has two rows. */
  predicate UniqueIds(comments: seq<CommentRow>) {
    forall i, j :: 0 <= i < j < |comments| ==> comments[i].commentId != comments[j].commentId
  }

  /** A thread the jobs do not skip: it has a snippet and a non-empty id. */
  predicate WellFormed(t: Thread) {
    t.comment.Some? && t.id.Some? && t.id.value != ""
  }

  /** The row stored for a new comment of video `videoId`. */
  function NewRow(videoId: string, t: Thread): (row: CommentRow)
    requires WellFormed(t)
    ensures row.commentId == t.id.value && row.videoId == videoId && row.status == Pending
    ensures row.text == (if t.comment.value.textDisplay.Some? then t.comment.value.textDisplay.value else "")
  {
    var c := t.comment.value;
    CommentRow(t.id.value, videoId, c.textDisplay.GetOr(""), c.authorDisplayName, c.authorChannelId, Pending)
  }

  /** The comment table after a page, the number of rows inserted, and the insert
      error that stopped it, if any. */
  datatype Ingest = Ingest(comments: seq<CommentRow>, inserted: nat, error: Option<JobError>)

  /** The inner loop of both jobs over one page (src/lib/jobs/youtube.ts:35-114 and
      217-256): skip malformed threads and stored ids, insert the rest as pending. */
  function IngestThreads(comments: seq<CommentRow>, videoId: string, threads: seq<Thread>,
                         accepts: CommentRow -> bool): (r: Ingest)
    ensures |r.comments| == |comments| + r.inserted && r.comments[..|comments|] == comments
    ensures UniqueIds(comments) ==> UniqueIds(r.comments)
    ensures forall k :: |comments| <= k < |r.comments| ==>
      r.comments[k].videoId == videoId && r.comments[k].status == Pending
    ensures r.error.None? ==>
      forall m :: 0 <= m < |threads| && WellFormed(threads[m]) ==> Stored(r.comments, threads[m].id.value)
    ensures r.error.Some? ==>
      exists m :: 0 <= m < |threads| && WellFormed(threads[m]) && !Stored(r.comments, threads[m].id.value)
    decreases |threads|
  {
    if threads == [] then Ingest(comments, 0, None)
    else
      var t := threads[0];
      if !WellFormed(t) || Stored(comments, t.id.value) then
        var r := IngestThreads(comments, videoId, threads[1..], accepts);
        SkipStep(comments, videoId, threads, r);
        r
      else
        var row := NewRow(videoId, t);
        if !accepts(row) then
          assert WellFormed(threads[0]) && !Stored(comments, threads[0].id.value);
          Ingest(comments, 0, Some(InsertError(t.id.value)))
        else
          var r := IngestThreads(comments + [row], videoId, threads[1..], accepts);
          InsertStep(comments, videoId, threads, row, r);
          Ingest(r.comments, r.inserted + 1, r.error)
  }

  /** The contract of `IngestThreads` over a whole page, for result `r` on table `comments`. */
  predicate IngestSays(comments: seq<CommentRow>, videoId: string, threads: seq<Thread>, r: Ingest) {
    && |r.comments| == |comments| + r.inserted && r.comments[..|comments|] == comments
    && (UniqueIds(comments) ==> UniqueIds(r.comments))
    && (forall k :: |comments| <= k < |r.comments| ==>
          r.comments[k].videoId == videoId && r.comments[k].status == Pending)
    && (r.error.None? ==>
          forall m :: 0 <= m < |threads| && WellFormed(threads[m]) ==> Stored(r.comments, threads[m].id.value))
    && (r.error.Some? ==>
          exists m :: 0 <= m < |threads| && WellFormed(threads[m]) && !Stored(r.comments, threads[m].id.value))
  }

  /** A skipped first thread (malformed, or its id already stored): what the rest of the
      page makes of the table holds for the whole page. */
  lemma SkipStep(comments: seq<CommentRow>, videoId: string, threads: seq<Thread>, r: Ingest)
    requires threads != [] && (!WellFormed(threads[0]) || Stored(comments, threads[0].id.value))
    requires IngestSays(comments, videoId, threads[1..], r)
    ensures IngestSays(comments, videoId, threads, r)
  {
    var t := threads[0];
    if WellFormed(t) { StoredGrows(comments, r.comments, t.id.value); }
    TailOfPage(threads, r.comments, r.error.None?);
  }

  /** An inserted first thread: the rows for the rest of the page follow its row. */
  lemma InsertStep(comments: seq<CommentRow>, videoId: string, threads: seq<Thread>,
                   row: CommentRow, r: Ingest)
    requires threads != [] && WellFormed(threads[0]) && !Stored(comments, threads[0].id.value)
    requires row == NewRow(videoId, threads[0])
    requires IngestSays(comments + [row], videoId, threads[1..], r)
    ensures IngestSays(comments, videoId, threads, Ingest(r.comments, r.inserted + 1, r.error))
  {
    assert r.comments[|comments|] == row by {
      assert r.comments[..|comments| + 1] == comments + [row];
    }
    assert r.comments[..|comments|] == comments by {
      assert r.comments[..|comments|] == r.comments[..|comments| + 1][..|comments|];
    }
    assert r.comments[|comments|].commentId == threads[0].id.value;
    TailOfPage(threads, r.comments, r.error.None?);
    if UniqueIds(comments) {
      forall i | 0 <= i < |comments| ensures comments[i].commentId != row.commentId {
        assert !(comments[i].commentId == threads[0].id.value);
      }
      assert UniqueIds(comments + [row]);
    }
  }

  /** What the rest of a page says about table `c` carries over to the whole page,
      once its first thread is stored in `c` or is malformed: all its well-formed ids
      are stored when `allStored` holds, and otherwise one of them is not. */
  lemma TailOfPage(threads: seq<Thread>, c: seq<CommentRow>, allStored: bool)
    requires threads != []
    requires WellFormed(threads[0]) ==> Stored(c, threads[0].id.value)
    requires allStored ==>
      forall m :: 0 <= m < |threads[1..]| && WellFormed(threads[1..][m]) ==> Stored(c, threads[1..][m].id.value)
    requires !allStored ==>
      exists m :: 0 <= m < |threads[1..]| && WellFormed(threads[1..][m]) && !Stored(c, threads[1..][m].id.value)
    ensures allStored ==>
      forall m :: 0 <= m < |threads| && WellFormed(threads[m]) ==> Stored(c, threads[m].id.value)
    ensures !allStored ==>
      exists m :: 0 <= m < |threads| && WellFormed(threads[m]) && !Stored(c, threads[m].id.value)
  {
    if allStored {
      forall m | 0 <= m < |threads| && WellFormed(threads[m]) ensures Stored(c, threads[m].id.value) {
        if m > 0 {
          assert threads[m] == threads[1..][m - 1];
        }
      }
    } else {
      var m :| 0 <= m < |threads[1..]| && WellFormed(threads[1..][m]) && !Stored(c, threads[1..][m].id.value);
      assert threads[m + 1] == threads[1..][m];
    }
  }

  /** A stored id stays stored when rows are appended. */
  lemma StoredGrows(c: seq<CommentRow>, d: seq<CommentRow>, id: string)
    requires |c| <= |d| && d[..|c|] == c && Stored(c, id)
    ensures Stored(d, id)
  {
    var i :| 0 <= i < |c| && c[i].commentId == id;
    assert d[i] == d[..|c|][i];
  }

  /** A page whose well-formed ids are all stored already inserts nothing, whatever
      the store would accept; a page of malformed threads is one such page. */
  lemma {:induction false} AllStoredInsertsNothing(c: seq<CommentRow>, videoId: string, threads: seq<Thread>,
                                                  accepts: CommentRow -> bool)
    requires forall m :: 0 <= m < |threads| && WellFormed(threads[m]) ==> Stored(c, threads[m].id.value)
    ensures IngestThreads(c, videoId, threads, accepts) == Ingest(c, 0, None)
    decreases |threads|
  {
    if threads != [] {
      assert forall m :: 0 <= m < |threads[1..]| ==> threads[1..][m] == threads[m + 1];
      AllStoredInsertsNothing(c, videoId, threads[1..], accepts);
    }
  }

  /** `row` is the row stored for some well-formed thread of the page whose id was
      not in `c`. */
  predicate FromPage(c: seq<CommentRow>, videoId: string, threads: seq<Thread>, row: CommentRow) {
    exists m :: 0 <= m < |threads| && WellFormed(threads[m]) && !Stored(c, threads[m].id.value)
      && row == NewRow(videoId, threads[m])
  }

  /** Every row a page adds comes from a well-formed thread of that page whose id was
      not stored before. */
  lemma {:induction false} NewRowsFromPage(c: seq<CommentRow>, videoId: string, threads: seq<Thread>,
                                          accepts: CommentRow -> bool)
    ensures forall k :: |c| <= k < |IngestThreads(c, videoId, threads, accepts).comments| ==>
      FromPage(c, videoId, threads, IngestThreads(c, videoId, threads, accepts).comments[k])
    decreases |threads|
  {
    var r := IngestThreads(c, videoId, threads, accepts);
    if threads != [] {
      var t := threads[0];
      var rest := threads[1..];
      if !WellFormed(t) || Stored(c, t.id.value) {
        NewRowsFromPage(c, videoId, rest, accepts);
        assert r == IngestThreads(c, videoId, rest, accepts);
        forall k | |c| <= k < |r.comments| ensures FromPage(c, videoId, threads, r.comments[k]) {
          FromTail(c, c, videoId, threads, r.comments[k]);
        }
      } else if accepts(NewRow(videoId, t)) {
        var row := NewRow(videoId, t);
        var c' := c + [row];
        NewRowsFromPage(c', videoId, rest, accepts);
        var r' := IngestThreads(c', videoId, rest, accepts);
        assert forall k :: |c'| <= k < |r'.comments| ==> FromPage(c', videoId, rest, r'.comments[k]);
        assert r.comments == r'.comments;
        forall k | |c| <= k < |r.comments| ensures FromPage(c, videoId, threads, r.comments[k]) {
          if k == |c| {
            assert r.comments[k] == r'.comments[..|c'|][k] == row;
            assert threads[0] == t;
          } else {
            FromTail(c, c', videoId, threads, r'.comments[k]);
          }
        }
      }
    }
  }

  /** A row from a well-formed thread of the rest of a page, whose id table `c'` did not
      hold, comes from the whole page and was not stored in any prefix `c` of `c'`. */
  lemma FromTail(c: seq<CommentRow>, c': seq<CommentRow>, videoId: string, threads: seq<Thread>, row: CommentRow)
    requires threads != [] && |c| <= |c'| && c'[..|c|] == c
    requires FromPage(c', videoId, threads[1..], row)
    ensures FromPage(c, videoId, threads, row)
  {
    var rest := threads[1..];
    var m :| 0 <= m < |rest| && WellFormed(rest[m]) && !Stored(c', rest[m].id.value)
      && row == NewRow(videoId, rest[m]);
    assert rest[m] == threads[m + 1];
    if Stored(c, rest[m].id.value) {
      StoredGrows(c, c', rest[m].id.value);
    }
  }

  // ---------------------------------------------------------------------------
  // The video table
  // ---------------------------------------------------------------------------

  /** Some row of the snapshot is this video. */
  predicate Lists(snapshot: seq<VideoRow>, id: string) {
    exists j :: 0 <= j < |snapshot| && snapshot[j].videoId == id
  }

  /** `update(videos).set({ lastChecked: now }).where(videoId = id)`. */
  function Stamp(videos: seq<VideoRow>, id: string, now: nat): (r: seq<VideoRow>)
    ensures |r| == |videos|
    ensures forall i :: 0 <= i < |r| ==>
      r[i] == (if videos[i].videoId == id then videos[i].(lastChecked := Some(now)) else videos[i])
  {
    seq(|videos|, i requires 0 <= i < |videos| =>
      if videos[i].videoId == id then videos[i].(lastChecked := Some(now)) else videos[i])
  }

  /** The video table after stamping each video of `snapshot` in turn. */
  function StampAll(videos: seq<VideoRow>, snapshot: seq<VideoRow>, now: nat): (r: seq<VideoRow>)
    ensures |r| == |videos|
    ensures forall i :: 0 <= i < |r| ==>
      r[i] == (if Lists(snapshot, videos[i].videoId) then videos[i].(lastChecked := Some(now)) else videos[i])
    decreases |snapshot|
  {
    if snapshot == [] then videos
    else
      var r := StampAll(Stamp(videos, snapshot[0].videoId, now), snapshot[1..], now);
      assert forall id :: Lists(snapshot, id) <==> snapshot[0].videoId == id || Lists(snapshot[1..], id) by {
        forall id ensures Lists(snapshot, id) <==> snapshot[0].videoId == id || Lists(snapshot[1..], id) {
          if Lists(snapshot[1..], id) {
            var j :| 0 <= j < |snapshot[1..]| && snapshot[1..][j].videoId == id;
            assert snapshot[j + 1].videoId == id;
          }
          if Lists(snapshot, id) && snapshot[0].videoId != id {
            var j :| 0 <= j < |snapshot| && snapshot[j].videoId == id;
            assert snapshot[1..][j - 1].videoId == id;
          }
        }
      }
      r
  }

  // ---------------------------------------------------------------------------
  // checkAndReplyToYouTubeComments (src/lib/jobs/youtube.ts:13-135)
  // ---------------------------------------------------------------------------

  datatype RunResult = RunResult(videos: seq<VideoRow>, comments: seq<CommentRow>, error: Option<JobError>)

  /** The outer loop from the first video of `snapshot` on. */
  function CheckFrom(snapshot: seq<VideoRow>, videos: seq<VideoRow>, comments: seq<CommentRow>,
                     fetch: (string, nat) -> FetchResult, accepts: CommentRow -> bool, now: nat): (r: RunResult)
    ensures |r.comments| >= |comments| && r.comments[..|comments|] == comments
    ensures UniqueIds(comments) ==> UniqueIds(r.comments)
    ensures r.error.None? ==> r.videos == StampAll(videos, snapshot, now)
    ensures r.error.Some? ==> exists k :: FailedAt(snapshot, videos, r, fetch, now, k)
    decreases |snapshot|
  {
    if snapshot == [] then RunResult(videos, comments, None)
    else
      var id := snapshot[0].videoId;
      match fetch(id, CheckPageSize)
      case FetchFailed(m) =>
        var r := RunResult(videos, comments, Some(FetchError(m)));
        assert !PagesStored([snapshot[0]], r.comments, fetch, CheckPageSize) by {
          assert [snapshot[0]][0].videoId == id;
        }
        FailedAtHead(snapshot, videos, r, fetch, now);
        r
      case Page(threads) =>
        var g := IngestThreads(comments, id, threads, accepts);
        if g.error.Some? then
          var r := RunResult(videos, g.comments, g.error);
          assert !PagesStored([snapshot[0]], r.comments, fetch, CheckPageSize) by {
            var m :| 0 <= m < |threads| && WellFormed(threads[m]) && !Stored(g.comments, threads[m].id.value);
            assert [snapshot[0]][0].videoId == id;
            assert fetch([snapshot[0]][0].videoId, CheckPageSize).threads[m] == threads[m];
          }
          FailedAtHead(snapshot, videos, r, fetch, now);
          r
        else
          var r := CheckFrom(snapshot[1..], Stamp(videos, id, now), g.comments, fetch, accepts, now);
          assert r.comments[..|comments|] == comments by {
            assert r.comments[..|comments|] == r.comments[..|g.comments|][..|comments|];
          }
          assert r.error.Some? ==> exists k :: FailedAt(snapshot, videos, r, fetch, now, k) by {
            if r.error.Some? {
              var k :| FailedAt(snapshot[1..], Stamp(videos, id, now), r, fetch, now, k);
              assert PagesStored([snapshot[0]], g.comments, fetch, CheckPageSize);
              FailedAtCons(snapshot, videos, g.comments, r, fetch, now, k);
            }
          }
          r
  }

  /** A run that fails on the first video of the snapshot, before stamping it. */
  lemma FailedAtHead(snapshot: seq<VideoRow>, videos: seq<VideoRow>, r: RunResult,
                     fetch: (string, nat) -> FetchResult, now: nat)
    requires snapshot != [] && r.videos == videos
    requires !PagesStored([snapshot[0]], r.comments, fetch, CheckPageSize)
    ensures FailedAt(snapshot, videos, r, fetch, now, 0)
  {
    assert snapshot[..0] == [];
  }

  /** A failure at video `k` of the rest of the snapshot, after the first video's page
      was stored in `c` and the first video stamped, is a failure at `k + 1`. */
  lemma FailedAtCons(snapshot: seq<VideoRow>, videos: seq<VideoRow>, c: seq<CommentRow>, r: RunResult,
                     fetch: (string, nat) -> FetchResult, now: nat, k: int)
    requires snapshot != [] && PagesStored([snapshot[0]], c, fetch, CheckPageSize)
    requires |c| <= |r.comments| && r.comments[..|c|] == c
    requires FailedAt(snapshot[1..], Stamp(videos, snapshot[0].videoId, now), r, fetch, now, k)
    ensures FailedAt(snapshot, videos, r, fetch, now, k + 1)
  {
    assert snapshot[..k + 1][1..] == snapshot[1..][..k];
    assert snapshot[..k + 1] == [snapshot[0]] + snapshot[1..][..k];
    PagesStoredGrows([snapshot[0]], c, r.comments, fetch, CheckPageSize);
    PagesStoredCons(snapshot[0], snapshot[1..][..k], r.comments, fetch, CheckPageSize);
    assert snapshot[k + 1] == snapshot[1..][k];
  }

  /** The run failed at the `k`-th video of the snapshot: the videos before it were
      stamped and had every well-formed id of their pages stored, and the `k`-th video's
      page was not read, or has a well-formed id that was not stored. */
  predicate FailedAt(snapshot: seq<VideoRow>, videos: seq<VideoRow>, r: RunResult,
                     fetch: (string, nat) -> FetchResult, now: nat, k: int) {
    && 0 <= k < |snapshot|
    && r.videos == StampAll(videos, snapshot[..k], now)
    && PagesStored(snapshot[..k], r.comments, fetch, CheckPageSize)
    && !PagesStored([snapshot[k]], r.comments, fetch, CheckPageSize)
  }

  /** One video of the check loop, read off the definition (a step of the loop proof
      in `CheckAndReplyToYouTubeComments`): from tables `v`, `c` the video leaves
      `v'`, `c'` and `error`, as `Store.CheckVideo` promises. */
  lemma CheckStep(snapshot: seq<VideoRow>, v: seq<VideoRow>, c: seq<CommentRow>,
                  v': seq<VideoRow>, c': seq<CommentRow>, error: Option<JobError>,
                  fetch: (string, nat) -> FetchResult, accepts: CommentRow -> bool, now: nat)
    requires snapshot != []
    requires var page := fetch(snapshot[0].videoId, CheckPageSize);
      if page.FetchFailed? then error == Some(FetchError(page.message)) && v' == v && c' == c
      else
        var g := IngestThreads(c, snapshot[0].videoId, page.threads, accepts);
        && c' == g.comments && error == g.error
        && v' == (if g.error.Some? then v else Stamp(v, snapshot[0].videoId, now))
    ensures error.Some? ==> CheckFrom(snapshot, v, c, fetch, accepts, now) == RunResult(v', c', error)
    ensures error.None? ==>
      CheckFrom(snapshot, v, c, fetch, accepts, now) == CheckFrom(snapshot[1..], v', c', fetch, accepts, now)
  {
  }

  /** The whole job over the video table as selected at its start. */
  function CheckAndReply(videos: seq<VideoRow>, comments: seq<CommentRow>,
                         fetch: (string, nat) -> FetchResult, accepts: CommentRow -> bool, now: nat): (r: RunResult)
    ensures videos == [] ==> r == RunResult(videos, comments, None)
    ensures r.error.None? ==> |r.videos| == |videos| && forall i :: 0 <= i < |videos| ==>
      r.videos[i] == videos[i].(lastChecked := Some(now))
  {
    if videos == [] then RunResult(videos, comments, None)
    else
      var r := CheckFrom(videos, videos, comments, fetch, accepts, now);
      assert forall i :: 0 <= i < |videos| ==> Lists(videos, videos[i].videoId);
      r
  }

  /** A failed run keeps every row inserted before the failure, and has stamped the
      videos before the one that failed and no other. */
  lemma FailedRunKeepsPrefix(videos: seq<VideoRow>, comments: seq<CommentRow>,
                             fetch: (string, nat) -> FetchResult, accepts: CommentRow -> bool, now: nat)
    requires CheckAndReply(videos, comments, fetch, accepts, now).error.Some?
    ensures var r := CheckAndReply(videos, comments, fetch, accepts, now);
      && r.comments[..|comments|] == comments
      && exists k :: 0 <= k < |videos|
           && PagesStored(videos[..k], r.comments, fetch, CheckPageSize)
           && !PagesStored([videos[k]], r.comments, fetch, CheckPageSize)
           && forall i :: 0 <= i < |videos| ==>
                r.videos[i] == (if Lists(videos[..k], videos[i].videoId) then videos[i].(lastChecked := Some(now)) else videos[i])
  {
    var r := CheckAndReply(videos, comments, fetch, accepts, now);
    var k :| FailedAt(videos, videos, r, fetch, now, k);
  }

  /** Every page of the snapshot is one whose well-formed ids are all stored. */
  predicate PagesStored(snapshot: seq<VideoRow>, comments: seq<CommentRow>,
                        fetch: (string, nat) -> FetchResult, size: nat) {
    forall j :: 0 <= j < |snapshot| ==>
      && fetch(snapshot[j].videoId, size).Page?
      && var threads := fetch(snapshot[j].videoId, size).threads;
         forall m :: 0 <= m < |threads| && WellFormed(threads[m]) ==> Stored(comments, threads[m].id.value)
  }

  lemma PagesStoredGrows(snapshot: seq<VideoRow>, c: seq<CommentRow>, d: seq<CommentRow>,
                         fetch: (string, nat) -> FetchResult, size: nat)
    requires PagesStored(snapshot, c, fetch, size) && |c| <= |d| && d[..|c|] == c
    ensures PagesStored(snapshot, d, fetch, size)
  {
    forall j, m | 0 <= j < |snapshot| && var threads := fetch(snapshot[j].videoId, size).threads;
        0 <= m < |threads| && WellFormed(threads[m])
      ensures Stored(d, fetch(snapshot[j].videoId, size).threads[m].id.value)
    {
      StoredGrows(c, d, fetch(snapshot[j].videoId, size).threads[m].id.value);
    }
  }

  lemma PagesStoredCons(v: VideoRow, rest: seq<VideoRow>, c: seq<CommentRow>,
                        fetch: (string, nat) -> FetchResult, size: nat)
    requires PagesStored([v], c, fetch, size) && PagesStored(rest, c, fetch, size)
    ensures PagesStored([v] + rest, c, fetch, size)
  {
    var s := [v] + rest;
    forall j | 0 <= j < |s| ensures s[j] == if j == 0 then v else rest[j - 1] { }
  }

  /** After a successful run every page it read is stored. */
  lemma {:induction false} SuccessStoresPages(snapshot: seq<VideoRow>, videos: seq<VideoRow>, comments: seq<CommentRow>,
                                             fetch: (string, nat) -> FetchResult, accepts: CommentRow -> bool, now: nat)
    requires CheckFrom(snapshot, videos, comments, fetch, accepts, now).error.None?
    ensures PagesStored(snapshot, CheckFrom(snapshot, videos, comments, fetch, accepts, now).comments, fetch, CheckPageSize)
    decreases |snapshot|
  {
    if snapshot != [] {
      var id := snapshot[0].videoId;
      var g := IngestThreads(comments, id, fetch(id, CheckPageSize).threads, accepts);
      var rest := snapshot[1..];
      var r := CheckFrom(rest, Stamp(videos, id, now), g.comments, fetch, accepts, now);
      assert r == CheckFrom(snapshot, videos, comments, fetch, accepts, now);
      SuccessStoresPages(rest, Stamp(videos, id, now), g.comments, fetch, accepts, now);
      assert PagesStored([snapshot[0]], g.comments, fetch, CheckPageSize);
      PagesStoredGrows([snapshot[0]], g.comments, r.comments, fetch, CheckPageSize);
      PagesStoredCons(snapshot[0], rest, r.comments, fetch, CheckPageSize);
      assert snapshot == [snapshot[0]] + rest;
    }
  }

  /** A run over pages that are all stored inserts nothing and fails nowhere. */
  lemma {:induction false} StoredPagesInsertNothing(snapshot: seq<VideoRow>, videos: seq<VideoRow>, comments: seq<CommentRow>,
                                                   fetch: (string, nat) -> FetchResult, accepts: CommentRow -> bool, now: nat)
    requires PagesStored(snapshot, comments, fetch, CheckPageSize)
    ensures var r := CheckFrom(snapshot, videos, comments, fetch, accepts, now);
      r.comments == comments && r.error.None?
    decreases |snapshot|
  {
    if snapshot != [] {
      var id := snapshot[0].videoId;
      AllStoredInsertsNothing(comments, id, fetch(id, CheckPageSize).threads, accepts);
      var rest := snapshot[1..];
      assert PagesStored(rest, comments, fetch, CheckPageSize) by {
        forall j | 0 <= j < |rest| ensures rest[j] == snapshot[j + 1] { }
      }
      StoredPagesInsertNothing(rest, Stamp(videos, id, now), comments, fetch, accepts, now);
    }
  }

  /** Running the job again over identical pages inserts no row and succeeds. */
  lemma RerunInsertsNothing(videos: seq<VideoRow>, comments: seq<CommentRow>,
                            fetch: (string, nat) -> FetchResult, accepts: CommentRow -> bool,
                            accepts': CommentRow -> bool, now: nat, later: nat)
    requires CheckAndReply(videos, comments, fetch, accepts, now).error.None?
    ensures var r := CheckAndReply(videos, comments, fetch, accepts, now);
      var r' := CheckAndReply(r.videos, r.comments, fetch, accepts', later);
      r'.comments == r.comments && r'.error.None?
  {
    var r := CheckAndReply(videos, comments, fetch, accepts, now);
    if videos != [] {
      SuccessStoresPages(videos, videos, comments, fetch, accepts, now);
      assert PagesStored(r.videos, r.comments, fetch, CheckPageSize) by {
        forall j | 0 <= j < |r.videos| ensures r.videos[j].videoId == videos[j].videoId { }
      }
      StoredPagesInsertNothing(r.videos, r.videos, r.comments, fetch, accepts', later);
    }
  }

  // ---------------------------------------------------------------------------
  // fetchYouTubeCommentsForAnalysis (src/lib/jobs/youtube.ts:199-266)
  // ---------------------------------------------------------------------------

  /** The comment table, the `newCount` of each video processed in full, and the
      error that ended the run, if any. */
  datatype Analysis = Analysis(comments: seq<CommentRow>, newCounts: seq<nat>, error: Option<JobError>)

  function Sum(s: seq<nat>): nat {
    if s == [] then 0 else s[0] + Sum(s[1..])
  }

  function AnalyzeFrom(snapshot: seq<VideoRow>, comments: seq<CommentRow>,
                       fetch: (string, nat) -> FetchResult, accepts: CommentRow -> bool): (r: Analysis)
    ensures |r.comments| >= |comments| && r.comments[..|comments|] == comments
    ensures UniqueIds(comments) ==> UniqueIds(r.comments)
    ensures r.error.None? ==> |r.newCounts| == |snapshot|
    ensures r.error.Some? ==> |r.newCounts| < |snapshot|
    decreases |snapshot|
  {
    if snapshot == [] then Analysis(comments, [], None)
    else
      var id := snapshot[0].videoId;
      match fetch(id, AnalysisPageSize)
      case FetchFailed(m) => Analysis(comments, [], Some(FetchError(m)))
      case Page(threads) =>
        var g := IngestThreads(comments, id, threads, accepts);
        if g.error.Some? then Analysis(g.comments, [], g.error)
        else
          var r := AnalyzeFrom(snapshot[1..], g.comments, fetch, accepts);
          assert r.comments[..|comments|] == comments by {
            assert r.comments[..|comments|] == r.comments[..|g.comments|][..|comments|];
          }
          Analysis(r.comments, [g.inserted] + r.newCounts, r.error)
  }

  /** Each `newCount` is the number of rows inserted for its video: together they
      account for every row a successful analysis adds, and for no more than the rows
      a failed one adds. */
  lemma {:induction false} CountsAreInsertions(snapshot: seq<VideoRow>, comments: seq<CommentRow>,
                                              fetch: (string, nat) -> FetchResult, accepts: CommentRow -> bool)
    ensures var r := AnalyzeFrom(snapshot, comments, fetch, accepts);
      && |r.comments| >= |comments| + Sum(r.newCounts)
      && (r.error.None? ==> |r.comments| == |comments| + Sum(r.newCounts))
    decreases |snapshot|
  {
    if snapshot != [] {
      var id := snapshot[0].videoId;
      if fetch(id, AnalysisPageSize).Page? {
        var g := IngestThreads(comments, id, fetch(id, AnalysisPageSize).threads, accepts);
        if g.error.None? {
          var r := AnalyzeFrom(snapshot[1..], g.comments, fetch, accepts);
          CountsAreInsertions(snapshot[1..], g.comments, fetch, accepts);
          assert ([g.inserted] + r.newCounts)[1..] == r.newCounts;
        }
      }
    }
  }

  /** One video of the analysis loop, read off the definition (a step of the loop
      proof in `FetchYouTubeCommentsForAnalysis`): table `c` becomes `c'` and `count`
      rows are inserted, or the run stops with `error`; the whole run `goal`, which
      continues the counts `counts` with the rest of the snapshot, is then known. */
  lemma AnalyzeStep(goal: Analysis, counts: seq<nat>, snapshot: seq<VideoRow>, c: seq<CommentRow>,
                    c': seq<CommentRow>, count: nat, error: Option<JobError>,
                    fetch: (string, nat) -> FetchResult, accepts: CommentRow -> bool)
    requires snapshot != []
    requires var a := AnalyzeFrom(snapshot, c, fetch, accepts);
      goal == Analysis(a.comments, counts + a.newCounts, a.error)
    requires var page := fetch(snapshot[0].videoId, AnalysisPageSize);
      if page.FetchFailed? then error == Some(FetchError(page.message)) && c' == c
      else
        var g := IngestThreads(c, snapshot[0].videoId, page.threads, accepts);
        c' == g.comments && count == g.inserted && error == g.error
    ensures error.Some? ==> goal == Analysis(c', counts, error)
    ensures error.None? ==>
      var a := AnalyzeFrom(snapshot[1..], c', fetch, accepts);
      goal == Analysis(a.comments, (counts + [count]) + a.newCounts, a.error)
  {
    if error.Some? {
      assert counts + [] == counts;
    } else {
      var a := AnalyzeFrom(snapshot[1..], c', fetch, accepts);
      assert counts + ([count] + a.newCounts) == (counts + [count]) + a.newCounts;
    }
  }

  /** The first count of an analysis is the number of rows inserted for the first
      video: they come right after the old table, carry that video's id, and each is the
      new row of a well-formed thread of its page whose id was not stored before. */
  lemma FirstCountIsFirstVideosRows(snapshot: seq<VideoRow>, comments: seq<CommentRow>,
                                    fetch: (string, nat) -> FetchResult, accepts: CommentRow -> bool)
    requires |AnalyzeFrom(snapshot, comments, fetch, accepts).newCounts| > 0
    ensures var r := AnalyzeFrom(snapshot, comments, fetch, accepts);
      && snapshot != [] && fetch(snapshot[0].videoId, AnalysisPageSize).Page?
      && |comments| + r.newCounts[0] <= |r.comments|
      && forall k :: |comments| <= k < |comments| + r.newCounts[0] ==>
           && r.comments[k].videoId == snapshot[0].videoId
           && FromPage(comments, snapshot[0].videoId, fetch(snapshot[0].videoId, AnalysisPageSize).threads, r.comments[k])
  {
    var r := AnalyzeFrom(snapshot, comments, fetch, accepts);
    var id := snapshot[0].videoId;
    var threads := fetch(id, AnalysisPageSize).threads;
    var g := IngestThreads(comments, id, threads, accepts);
    NewRowsFromPage(comments, id, threads, accepts);
    var a := AnalyzeFrom(snapshot[1..], g.comments, fetch, accepts);
    assert r.comments == a.comments && r.newCounts[0] == g.inserted;
    forall k | |comments| <= k < |comments| + r.newCounts[0]
      ensures r.comments[k] == g.comments[k]
    {
      assert a.comments[..|g.comments|][k] == g.comments[k];
    }
  }

  /** After a successful analysis every page it read is stored. */
  lemma {:induction false} AnalysisStoresPages(snapshot: seq<VideoRow>, comments: seq<CommentRow>,
                                              fetch: (string, nat) -> FetchResult, accepts: CommentRow -> bool)
    requires AnalyzeFrom(snapshot, comments, fetch, accepts).error.None?
    ensures PagesStored(snapshot, AnalyzeFrom(snapshot, comments, fetch, accepts).comments, fetch, AnalysisPageSize)
    decreases |snapshot|
  {
    if snapshot != [] {
      var id := snapshot[0].videoId;
      var g := IngestThreads(comments, id, fetch(id, AnalysisPageSize).threads, accepts);
      var rest := snapshot[1..];
      var r := AnalyzeFrom(rest, g.comments, fetch, accepts);
      assert r.comments == AnalyzeFrom(snapshot, comments, fetch, accepts).comments;
      AnalysisStoresPages(rest, g.comments, fetch, accepts);
      assert PagesStored([snapshot[0]], g.comments, fetch, AnalysisPageSize);
      PagesStoredGrows([snapshot[0]], g.comments, r.comments, fetch, AnalysisPageSize);
      PagesStoredCons(snapshot[0], rest, r.comments, fetch, AnalysisPageSize);
      assert snapshot == [snapshot[0]] + rest;
    }
  }

  /** Analysing again over identical pages finds nothing new for any video. */
  lemma {:induction false} ReanalysisCountsNothing(snapshot: seq<VideoRow>, comments: seq<CommentRow>,
                                                  fetch: (string, nat) -> FetchResult, accepts: CommentRow -> bool)
    requires PagesStored(snapshot, comments, fetch, AnalysisPageSize)
    ensures var r := AnalyzeFrom(snapshot, comments, fetch, accepts);
      && r.comments == comments && r.error.None?
      && |r.newCounts| == |snapshot| && forall j :: 0 <= j < |snapshot| ==> r.newCounts[j] == 0
    decreases |snapshot|
  {
    if snapshot != [] {
      var id := snapshot[0].videoId;
      AllStoredInsertsNothing(comments, id, fetch(id, AnalysisPageSize).threads, accepts);
      var rest := snapshot[1..];
      assert PagesStored(rest, comments, fetch, AnalysisPageSize) by {
        forall j | 0 <= j < |rest| ensures rest[j] == snapshot[j + 1] { }
      }
      ReanalysisCountsNothing(rest, comments, fetch, accepts);
    }
  }

  /** A second analysis after a successful one, over identical pages, inserts nothing
      and counts zero for every video. */
  lemma ReanalysisAfterRun(snapshot: seq<VideoRow>, comments: seq<CommentRow>,
                           fetch: (string, nat) -> FetchResult, accepts: CommentRow -> bool,
                           accepts': CommentRow -> bool)
    requires AnalyzeFrom(snapshot, comments, fetch, accepts).error.None?
    ensures var r := AnalyzeFrom(snapshot, comments, fetch, accepts);
      var r' := AnalyzeFrom(snapshot, r.comments, fetch, accepts');
      && r'.comments == r.comments && r'.error.None?
      && |r'.newCounts| == |snapshot| && forall j :: 0 <= j < |snapshot| ==> r'.newCounts[j] == 0
  {
    var r := AnalyzeFrom(snapshot, comments, fetch, accepts);
    AnalysisStoresPages(snapshot, comments, fetch, accepts);
    ReanalysisCountsNothing(snapshot, r.comments, fetch, accepts');
  }

  // ---------------------------------------------------------------------------
  // trackYouTubeVideo (src/lib/jobs/youtube.ts:140-194)
  // ---------------------------------------------------------------------------

  /** The first row of the table for this video, if any. */
  function FirstVideo(videos: seq<VideoRow>, id: string): (r: Option<VideoRow>)
    ensures r.None? <==> !Lists(videos, id)
    ensures r.Some? ==> r.value.videoId == id
    ensures r.Some? ==>
      exists i :: 0 <= i < |videos| && videos[i] == r.value && forall j :: 0 <= j < i ==> videos[j].videoId != id
    decreases |videos|
  {
    if videos == [] then None
    else if videos[0].videoId == id then Some(videos[0])
    else
      var r := FirstVideo(videos[1..], id);
      assert Lists(videos, id) <==> Lists(videos[1..], id) by {
        if Lists(videos, id) {
          var j :| 0 <= j < |videos| && videos[j].videoId == id;
          assert videos[1..][j - 1] == videos[j];
        }
        if Lists(videos[1..], id) {
          var j :| 0 <= j < |videos[1..]| && videos[1..][j].videoId == id;
          assert videos[j + 1] == videos[1..][j];
        }
      }
      if r.Some? then
        assert exists i :: 0 <= i < |videos| && videos[i] == r.value && forall j :: 0 <= j < i ==> videos[j].videoId != id by {
          var i :| 0 <= i < |videos[1..]| && videos[1..][i] == r.value && forall j :: 0 <= j < i ==> videos[1..][j].videoId != id;
          assert videos[i + 1] == r.value;
          forall j | 0 <= j < i + 1 ensures videos[j].videoId != id {
            if j > 0 { assert videos[j] == videos[1..][j - 1]; }
          }
        }
        r
      else r
  }

  /** The row inserted for a new video; an empty `publishedAt` is falsy and stored
      as null. */
  function VideoFromDetails(videoId: string, snippet: Option<VideoSnippet>): (row: VideoRow)
    ensures row.videoId == videoId && row.lastChecked.None?
    ensures snippet.None? ==> row == VideoRow(videoId, None, None, None, None, None, None)
    ensures row.publishedAt.Some? <==> snippet.Some? && snippet.value.publishedAt.Some? && snippet.value.publishedAt.value != ""
    ensures snippet.Some? ==>
      && row.title == snippet.value.title && row.channelId == snippet.value.channelId
      && row.channelTitle == snippet.value.channelTitle && row.description == snippet.value.description
      && (row.publishedAt.Some? ==> row.publishedAt == snippet.value.publishedAt)
  {
    match snippet
    case None => VideoRow(videoId, None, None, None, None, None, None)
    case Some(s) =>
      var published := if s.publishedAt.Some? && s.publishedAt.value != "" then s.publishedAt else None;
      VideoRow(videoId, s.title, s.channelId, s.channelTitle, s.description, published, None)
  }

  datatype Tracking = AlreadyTracked(row: VideoRow) | NowTracked(row: VideoRow) | TrackFailed(error: JobError)

  function Track(videos: seq<VideoRow>, videoId: string, details: string -> DetailsResult,
                 accepts: VideoRow -> bool): (r: (seq<VideoRow>, Tracking))
    ensures Lists(videos, videoId) ==> r.0 == videos && r.1 == AlreadyTracked(FirstVideo(videos, videoId).value)
    ensures !Lists(videos, videoId) && details(videoId).NoVideo? ==> r == (videos, TrackFailed(VideoNotFound))
    ensures !r.1.NowTracked? ==> r.0 == videos
    ensures r.1.NowTracked? <==>
      (!Lists(videos, videoId) && details(videoId).Details? && accepts(VideoFromDetails(videoId, details(videoId).snippet)))
    ensures r.1.NowTracked? ==> r.0 == videos + [r.1.row] && r.1.row.videoId == videoId
    ensures r.1.NowTracked? ==> r.1.row == VideoFromDetails(videoId, details(videoId).snippet)
    ensures !Lists(videos, videoId) && details(videoId).DetailsFailed? ==>
      r == (videos, TrackFailed(FetchError(details(videoId).message)))
    ensures (!Lists(videos, videoId) && details(videoId).Details?
             && !accepts(VideoFromDetails(videoId, details(videoId).snippet))) ==>
      r == (videos, TrackFailed(InsertError(videoId)))
  {
    match FirstVideo(videos, videoId)
    case Some(row) => (videos, AlreadyTracked(row))
    case None =>
      match details(videoId)
      case DetailsFailed(m) => (videos, TrackFailed(FetchError(m)))
      case NoVideo => (videos, TrackFailed(VideoNotFound))
      case Details(snippet) =>
        var row := VideoFromDetails(videoId, snippet);
        if accepts(row) then (videos + [row], NowTracked(row))
        else (videos, TrackFailed(InsertError(videoId)))
  }

  /** Tracking is done once: after a call that tracks the video, another call for it
      returns the stored row and changes nothing, whatever the API or the store would
      answer. */
  lemma TrackTwice(videos: seq<VideoRow>, videoId: string, details: string -> DetailsResult,
                   accepts: VideoRow -> bool, details': string -> DetailsResult, accepts': VideoRow -> bool)
    requires !Track(videos, videoId, details, accepts).1.TrackFailed?
    ensures var r := Track(videos, videoId, details, accepts);
      var r' := Track(r.0, videoId, details', accepts');
      r'.0 == r.0 && r'.1.AlreadyTracked? && r'.1.row.videoId == videoId
  {
    var r := Track(videos, videoId, details, accepts);
    if r.1.NowTracked? {
      assert r.0[|videos|].videoId == videoId;
    }
  }

  // ---------------------------------------------------------------------------
  // The store and the jobs as they run against it
  // ---------------------------------------------------------------------------

  class Store {
    var videos: seq<VideoRow>
    var comments: seq<CommentRow>

    constructor(videos: seq<VideoRow>, comments: seq<CommentRow>)
      ensures this.videos == videos && this.comments == comments
    {
      this.videos := videos;
      this.comments := comments;
    }

    /** `select().from(comments).where(commentId = id)`, with `length > 0`. */
    method HasComment(id: string) returns (found: bool)
      ensures found <==> Stored(comments, id)
    {
      var i := 0;
      while i < |comments|
        invariant 0 <= i <= |comments|
        invariant forall k :: 0 <= k < i ==> comments[k].commentId != id
      {
        if comments[i].commentId == id {
          return true;
        }
        i := i + 1;
      }
      return false;
    }

    /** `insert(comments).values(row)`; the store may refuse the row. */
    method InsertComment(row: CommentRow, accepts: CommentRow -> bool) returns (ok: bool)
      modifies this
      ensures ok == accepts(row) && videos == old(videos)
      ensures comments == if ok then old(comments) + [row] else old(comments)
    {
      ok := accepts(row);
      if ok {
        comments := comments + [row];
      }
    }

    /** `update(videos).set({ lastChecked: now }).where(videoId = id)`. */
    method TouchVideo(id: string, now: nat)
      modifies this
      ensures videos == Stamp(old(videos), id, now) && comments == old(comments)
    {
      var i := 0;
      while i < |videos|
        invariant 0 <= i <= |videos| == |old(videos)| && comments == old(comments)
        invariant forall k :: 0 <= k < i ==> videos[k] == Stamp(old(videos), id, now)[k]
        invariant forall k :: i <= k < |videos| ==> videos[k] == old(videos)[k]
      {
        if videos[i].videoId == id {
          videos := videos[i := videos[i].(lastChecked := Some(now))];
        }
        i := i + 1;
      }
    }

    /** The inner loop of both jobs over one page of threads. */
    method IngestPage(videoId: string, threads: seq<Thread>, accepts: CommentRow -> bool)
      returns (inserted: nat, error: Option<JobError>)
      modifies this
      ensures Ingest(comments, inserted, error) == IngestThreads(old(comments), videoId, threads, accepts)
      ensures videos == old(videos)
    {
      inserted, error := 0, None;
      var j := 0;
      while j < |threads|
        invariant 0 <= j <= |threads| && videos == old(videos)
        invariant var g := IngestThreads(comments, videoId, threads[j..], accepts);
          IngestThreads(old(comments), videoId, threads, accepts) == Ingest(g.comments, inserted + g.inserted, g.error)
      {
        assert threads[j..][1..] == threads[j + 1..];
        var t := threads[j];
        if t.comment.Some? && t.id.Some? && t.id.value != "" {
          var seen := HasComment(t.id.value);
          if !seen {
            var ok := InsertComment(NewRow(videoId, t), accepts);
            if !ok {
              error := Some(InsertError(t.id.value));
              return;
            }
            inserted := inserted + 1;
          }
        }
        j := j + 1;
      }
    }

    /** One video of the check job (src/lib/jobs/youtube.ts:31-127): fetch its page,
        ingest it, and stamp the video when the page went through. */
    method CheckVideo(id: string, fetch: (string, nat) -> FetchResult, accepts: CommentRow -> bool, now: nat)
      returns (error: Option<JobError>)
      modifies this
      ensures var page := fetch(id, CheckPageSize);
        if page.FetchFailed? then
          error == Some(FetchError(page.message)) && videos == old(videos) && comments == old(comments)
        else
          var g := IngestThreads(old(comments), id, page.threads, accepts);
          && comments == g.comments && error == g.error
          && videos == (if g.error.Some? then old(videos) else Stamp(old(videos), id, now))
    {
      var page := fetch(id, CheckPageSize);
      if page.FetchFailed? {
        return Some(FetchError(page.message));
      }
      var _, failed := IngestPage(id, page.threads, accepts);
      if failed.Some? {
        return failed;
      }
      TouchVideo(id, now);
      return None;
    }

    method CheckAndReplyToYouTubeComments(fetch: (string, nat) -> FetchResult, accepts: CommentRow -> bool, now: nat)
      returns (error: Option<JobError>)
      modifies this
      ensures RunResult(videos, comments, error) == CheckAndReply(old(videos), old(comments), fetch, accepts, now)
    {
      var snapshot := videos;
      error := None;
      if |snapshot| == 0 {
        assert old(videos) == [];
        return;
      }
      ghost var goal := CheckAndReply(old(videos), old(comments), fetch, accepts, now);
      assert goal == CheckFrom(snapshot, snapshot, old(comments), fetch, accepts, now);
      var i := 0;
      while i < |snapshot|
        invariant 0 <= i <= |snapshot| && error.None?
        invariant goal == CheckFrom(snapshot[i..], videos, comments, fetch, accepts, now)
      {
        assert snapshot[i..][1..] == snapshot[i + 1..];
        ghost var v, c := videos, comments;
        error := CheckVideo(snapshot[i].videoId, fetch, accepts, now);
        CheckStep(snapshot[i..], v, c, videos, comments, error, fetch, accepts, now);
        if error.Some? {
          return;
        }
        i := i + 1;
      }
      assert snapshot[i..] == [];
    }

    /** One video of the analysis job: fetch its first page of 100 threads and insert
        the new ones, counting them. */
    method AnalyzeVideo(id: string, fetch: (string, nat) -> FetchResult, accepts: CommentRow -> bool)
      returns (newCount: nat, error: Option<JobError>)
      modifies this
      ensures videos == old(videos)
      ensures var page := fetch(id, AnalysisPageSize);
        if page.FetchFailed? then error == Some(FetchError(page.message)) && comments == old(comments)
        else
          var g := IngestThreads(old(comments), id, page.threads, accepts);
          comments == g.comments && newCount == g.inserted && error == g.error
    {
      var page := fetch(id, AnalysisPageSize);
      if page.FetchFailed? {
        return 0, Some(FetchError(page.message));
      }
      newCount, error := IngestPage(id, page.threads, accepts);
    }

    method FetchYouTubeCommentsForAnalysis(fetch: (string, nat) -> FetchResult, accepts: CommentRow -> bool)
      returns (newCounts: seq<nat>, error: Option<JobError>)
      modifies this
      ensures Analysis(comments, newCounts, error) == AnalyzeFrom(old(videos), old(comments), fetch, accepts)
      ensures videos == old(videos)
    {
      var snapshot := videos;
      newCounts, error := [], None;
      if |snapshot| == 0 {
        return;
      }
      ghost var goal := AnalyzeFrom(snapshot, old(comments), fetch, accepts);
      var i := 0;
      while i < |snapshot|
        invariant 0 <= i <= |snapshot| && videos == old(videos) && error.None?
        invariant var a := AnalyzeFrom(snapshot[i..], comments, fetch, accepts);
          goal == Analysis(a.comments, newCounts + a.newCounts, a.error)
      {
        assert snapshot[i..][1..] == snapshot[i + 1..];
        ghost var c := comments;
        var newCount, failed := AnalyzeVideo(snapshot[i].videoId, fetch, accepts);
        AnalyzeStep(goal, newCounts, snapshot[i..], c, comments, newCount, failed, fetch, accepts);
        if failed.Some? {
          error := failed;
          return;
        }
        newCounts := newCounts + [newCount];
        i := i + 1;
      }
      assert snapshot[i..] == [] && newCounts + [] == newCounts;
    }

    /** `select().from(videos).where(videoId = id)`, with `existing[0]`. */
    method FindVideo(id: string) returns (row: Option<VideoRow>)
      ensures row == FirstVideo(videos, id)
    {
      var i := 0;
      while i < |videos|
        invariant 0 <= i <= |videos|
        invariant FirstVideo(videos, id) == FirstVideo(videos[i..], id)
      {
        assert videos[i..][1..] == videos[i + 1..];
        if videos[i].videoId == id {
          return Some(videos[i]);
        }
        i := i + 1;
      }
      return None;
    }

    method TrackYouTubeVideo(videoId: string, details: string -> DetailsResult, accepts: VideoRow -> bool)
      returns (result: Tracking)
      modifies this
      ensures (videos, result) == Track(old(videos), videoId, details, accepts)
      ensures comments == old(comments)
    {
      var existing := FindVideo(videoId);
      if existing.Some? {
        return AlreadyTracked(existing.value);
      }
      var found := details(videoId);
      if found.DetailsFailed? {
        return TrackFailed(FetchError(found.message));
      }
      if found.NoVideo? {
        return TrackFailed(VideoNotFound);
      }
      var row := VideoFromDetails(videoId, found.snippet);
      if !accepts(row) {
        return TrackFailed(InsertError(videoId));
      }
      videos := videos + [row];
      return NowTracked(row);
    }
  }
}
