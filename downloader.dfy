/**
 * `BilibiliDownloader`: the in-memory ledger `downloaded`, the history file
 * behind it, and `download_video`, the per-job pipeline
 * ledger check -> metadata -> page lookup -> file names -> stream URLs ->
 * video fetch -> audio fetch -> merge -> record -> temp cleanup.
 * Every network request, file read or write, and the ffmpeg run is an oracle
 * argument; the temporary directory is a ghost set of the names it holds.
 */
module Downloader {
  import opened Wrappers
  import opened Ledger
  import opened Naming
  import opened Streams
  import opened Fetch

  /** The `Config` fields the core reads. */
  datatype Config = Config(savePath: Path, maxRetries: int)

  /** One entry of `video_info["pages"]`. */
  datatype PageInfo = PageInfo(cid: int, part: string)

  /**
   * What `get_video_info(bvid)` gave. `Unavailable` is its `None` (request
   * error or non-zero code), a falsy `data`, a `data` without `title` or
   * `pages`, a page the search of line 294 reaches without `cid`, and a
   * matching page without `part` (line 299): each makes `download_video`
   * return False with nothing changed.
   */
  datatype ViewReply = Unavailable | View(title: string, pages: seq<PageInfo>)

  /**
   * How `_merge_files` ends. `ExitNonZero` raises `CalledProcessError`, whose
   * handler reads `e.stderr.decode()` while `stderr` is `DEVNULL`, so `stderr`
   * is `None` and an `AttributeError` leaves `_merge_files`.
   */
  datatype MergeOutcome = Merged | ExitNonZero | LaunchFailed

  /** The external operation the pipeline invokes, in the order it does. */
  datatype Call =
    | LookupInfo(bvid: string)
    | ResolveUrls(bvid: string, cid: int, quality: int)
    | FetchTrack(url: string, file: string)
    | Mux(video: string, audio: string, output: Path)
    | WriteEntry(entry: Record)

  /** Where a job ended. */
  datatype Outcome =
    | Skipped        // key already in `downloaded`
    | NoInfo         // metadata unavailable
    | NoPage         // no page with this cid
    | NoUrls         // `_get_media_urls` gave no usable pair
    | VideoFailed    // `_download_media` of the video stream returned False
    | AudioFailed    // `_download_media` of the audio stream returned False
    | MergeFailed    // `_merge_files` returned False
    | MergeRaised    // `_merge_files` raised; line 328 returns False
    | Recorded       // all three succeeded and the key was recorded

  /** How many external operations a job that ended in `o` performed. */
  function StagesRun(o: Outcome): (n: nat)
    ensures n <= 6
  {
    match o
    case Skipped => 0
    case NoInfo => 1
    case NoPage => 1
    case NoUrls => 2
    case VideoFailed => 3
    case AudioFailed => 4
    case MergeFailed => 5
    case MergeRaised => 5
    case Recorded => 6
  }

  /**
   * `next((p for p in pages if p["cid"] == cid), None)`: the first page with
   * this cid, or `None` when there is none.
   */
  function FindPage(pages: seq<PageInfo>, cid: int): Option<PageInfo> {
    if pages == [] then None
    else if pages[0].cid == cid then Some(pages[0])
    else FindPage(pages[1..], cid)
  }

  /**
   * The lookup finds nothing exactly when no page has this cid; otherwise it
   * finds a page with this cid that no earlier page shares.
   */
  lemma {:induction false} FindPageSpec(pages: seq<PageInfo>, cid: int)
    ensures FindPage(pages, cid).None? <==> forall i :: 0 <= i < |pages| ==> pages[i].cid != cid
    ensures FindPage(pages, cid).Some? ==>
              exists i :: 0 <= i < |pages| && pages[i] == FindPage(pages, cid).value && pages[i].cid == cid
                          && forall j :: 0 <= j < i ==> pages[j].cid != cid
  {
    if pages != [] && pages[0].cid != cid {
      var r := FindPage(pages[1..], cid);
      FindPageSpec(pages[1..], cid);
      assert forall i :: 1 <= i < |pages| ==> pages[i] == pages[1..][i - 1];
      if r.Some? {
        var i :| 0 <= i < |pages| - 1 && pages[1..][i] == r.value && r.value.cid == cid
                 && forall j :: 0 <= j < i ==> pages[1..][j].cid != cid;
        assert pages[i + 1] == r.value;
      }
    } else if pages != [] {
      assert pages[0] == FindPage(pages, cid).value;
    }
  }

  /** Line 304: both URLs present and non-empty. */
  predicate UsableUrls(urls: Option<(string, string)>) {
    urls.Some? && urls.value.0 != "" && urls.value.1 != ""
  }

  /**
   * What the outside world yields to one `download_video` call: the metadata
   * reply, the play-URL reply, the per-attempt fates of the video and audio
   * transfers, the ffmpeg outcome, how the history rewrite ends, and
   * the clock reading stored in the record.
   */
  datatype World = World(view: ViewReply, play: PlayUrlReply,
                         videoAttempt: nat -> Attempt, audioAttempt: nat -> Attempt,
                         merge: MergeOutcome, write: WriteResult, timestamp: int)

  /**
   * Where the job for `key` stops, given the keys already downloaded: the
   * first stage, in the order of lines 281-326, that fails, or `Recorded`.
   */
  ghost function Stop(known: set<Key>, maxRetries: int, key: Key, w: World): Outcome {
    if key in known then Skipped
    else if w.view.Unavailable? then NoInfo
    else if FindPage(w.view.pages, key.cid).None? then NoPage
    else if !UsableUrls(GetMediaUrls(w.play, key.quality)) then NoUrls
    else FetchStop(maxRetries, w)
  }

  /** Where a job that has its URLs stops: the first of fetch, fetch, merge that fails. */
  ghost function FetchStop(maxRetries: int, w: World): (o: Outcome)
    ensures StagesRun(o) >= 3
  {
    if !Succeeds(maxRetries, w.videoAttempt) then VideoFailed
    else if !Succeeds(maxRetries, w.audioAttempt) then AudioFailed
    else match w.merge
      case Merged => Recorded
      case LaunchFailed => MergeFailed
      case ExitNonZero => MergeRaised
  }

  /** The sanitized title a job records (empty when there is no metadata). */
  function TitleOf(w: World): string {
    if w.view.View? then SanitizeTitle(w.view.title) else ""
  }

  /** The two temporary files of a job (line 308-309). */
  function Temps(key: Key): set<string> {
    {TempName(key.bvid, key.cid, VideoTrack), TempName(key.bvid, key.cid, AudioTrack)}
  }

  /** The page the job's cid names, if there is metadata and such a page. */
  function PageOf(w: World, cid: int): Option<PageInfo> {
    if w.view.View? then FindPage(w.view.pages, cid) else None
  }

  /** The video and audio URLs chosen for the job (empty when there are none). */
  function UrlsOf(w: World, quality: int): (string, string) {
    var urls := GetMediaUrls(w.play, quality);
    if urls.Some? then urls.value else ("", "")
  }

  /** The values a job derives before its first transfer, as the six operations use them. */
  datatype Plan = Plan(videoUrl: string, audioUrl: string, tempVideo: string, tempAudio: string,
                       output: Path, entry: Record)

  /**
   * The plan of the job for `key`: the URLs `_get_media_urls` chose, the two
   * temporary names, the output path of line 300 and the record line 322
   * appends. Values a job that stops earlier never computes are empty.
   */
  function PlanOf(savePath: Path, key: Key, w: World): Plan {
    var page := PageOf(w, key.cid);
    Plan(UrlsOf(w, key.quality).0, UrlsOf(w, key.quality).1,
         TempName(key.bvid, key.cid, VideoTrack), TempName(key.bvid, key.cid, AudioTrack),
         OutputPath(savePath, if w.view.View? then w.view.title else "", if page.Some? then page.value.part else ""),
         NewRecord(key.bvid, key.cid, key.quality, TitleOf(w), w.timestamp))
  }

  /**
   * The operations of lines 307-326 that a job which ended in `o` performed:
   * the video fetch, the audio fetch, the merge and the history write, up to
   * and including the one that failed.
   */
  function FetchTrace(p: Plan, o: Outcome): (r: seq<Call>)
    ensures |r| == if StagesRun(o) < 3 then 0 else StagesRun(o) - 2
  {
    match o
    case VideoFailed => [FetchTrack(p.videoUrl, p.tempVideo)]
    case AudioFailed => [FetchTrack(p.videoUrl, p.tempVideo), FetchTrack(p.audioUrl, p.tempAudio)]
    case MergeFailed => [FetchTrack(p.videoUrl, p.tempVideo), FetchTrack(p.audioUrl, p.tempAudio),
                         Mux(p.tempVideo, p.tempAudio, p.output)]
    case MergeRaised => [FetchTrack(p.videoUrl, p.tempVideo), FetchTrack(p.audioUrl, p.tempAudio),
                         Mux(p.tempVideo, p.tempAudio, p.output)]
    case Recorded => [FetchTrack(p.videoUrl, p.tempVideo), FetchTrack(p.audioUrl, p.tempAudio),
                      Mux(p.tempVideo, p.tempAudio, p.output), WriteEntry(p.entry)]
    case _ => []
  }

  /** The operations a job for `key` with plan `p` that ended in `o` performed, in order. */
  function Trace(key: Key, p: Plan, o: Outcome): seq<Call> {
    if StagesRun(o) == 0 then []
    else if StagesRun(o) == 1 then [LookupInfo(key.bvid)]
    else [LookupInfo(key.bvid)] + ([ResolveUrls(key.bvid, key.cid, key.quality)] + FetchTrace(p, o))
  }

  /**
   * The six external operations of a job that runs to the end: the metadata
   * and URL lookups, then the fetch-stage operations of a job that records.
   */
  function Steps(key: Key, p: Plan): (r: seq<Call>)
    ensures |r| == 6
  {
    [LookupInfo(key.bvid)] + ([ResolveUrls(key.bvid, key.cid, key.quality)] + FetchTrace(p, Recorded))
  }

  /**
   * Whatever stage a job stops at, what it performed is the start of the
   * full pipeline: the stages run in the order of `Steps`, and none after the
   * one that failed.
   */
  lemma TraceIsPrefix(key: Key, p: Plan, o: Outcome)
    ensures Trace(key, p, o) == Steps(key, p)[..StagesRun(o)]
  {
    var n := StagesRun(o);
    if n >= 1 {
      var rest := [ResolveUrls(key.bvid, key.cid, key.quality)] + FetchTrace(p, Recorded);
      PrefixOfJoin([LookupInfo(key.bvid)], rest, n);
      if n >= 2 {
        PrefixOfJoin([ResolveUrls(key.bvid, key.cid, key.quality)], FetchTrace(p, Recorded), n - 1);
      }
    }
  }

  /**
   * The chain of lines 281-326: a known key performs no operation at all;
   * each stage is reached only when every earlier one succeeded, so the audio
   * is fetched only after the video transfer succeeded and the merge only
   * after both; and a job records exactly when every stage succeeds.
   */
  lemma PipelineChain(known: set<Key>, maxRetries: int, key: Key, w: World, p: Plan)
    ensures Stop(known, maxRetries, key, w) == Skipped <==> key in known
    ensures key in known ==> Trace(key, p, Stop(known, maxRetries, key, w)) == []
    ensures StagesRun(Stop(known, maxRetries, key, w)) >= 2 ==>
              w.view.View? && FindPage(w.view.pages, key.cid).Some?
    ensures StagesRun(Stop(known, maxRetries, key, w)) >= 3 ==> UsableUrls(GetMediaUrls(w.play, key.quality))
    ensures StagesRun(Stop(known, maxRetries, key, w)) >= 4 ==> Succeeds(maxRetries, w.videoAttempt)
    ensures StagesRun(Stop(known, maxRetries, key, w)) >= 5 ==> Succeeds(maxRetries, w.audioAttempt)
    ensures Stop(known, maxRetries, key, w) == Recorded <==>
              && key !in known && w.view.View? && FindPage(w.view.pages, key.cid).Some?
              && UsableUrls(GetMediaUrls(w.play, key.quality))
              && Succeeds(maxRetries, w.videoAttempt) && Succeeds(maxRetries, w.audioAttempt)
              && w.merge == Merged
  {
  }

  /** A prefix reaching past `a` is `a` followed by a prefix of `b`. */
  lemma PrefixOfJoin<T>(a: seq<T>, b: seq<T>, n: nat)
    requires |a| <= n <= |a| + |b|
    ensures (a + b)[..n] == a + b[..n - |a|]
  {
    assert forall i :: 0 <= i < n ==> (a + b)[..n][i] == (a + b[..n - |a|])[i];
  }

  /**
   * The temporary directory after a job that ended in `o`: untouched before
   * the fetches start, cleaned of both files after them, except when ffmpeg's
   * failure escaped as an exception, which leaves both behind.
   */
  function TempAfter(temps: set<string>, key: Key, o: Outcome): set<string> {
    if StagesRun(o) < 3 then temps
    else if o == MergeRaised then temps + Temps(key)
    else temps - Temps(key)
  }

  class BilibiliDownloader {
    const savePath: Path
    const maxRetries: int
    /** `self.downloaded`: the keys the skip check consults. */
    var downloaded: set<Key>
    /** The contents of `history_file`. */
    var history: HistoryFile
    /** Names of the files in `temp_dir`. */
    ghost var tempFiles: set<string>

    /** Every key the history file holds is known in memory. */
    ghost predicate Valid()
      reads this
    {
      LoadHistory(history) <= downloaded
    }

    /** `__init__`: `self.downloaded = self._load_download_history()`. */
    constructor (config: Config, store: HistoryFile, ghost temp: set<string>)
      ensures Valid()
      ensures savePath == config.savePath && maxRetries == config.maxRetries
      ensures downloaded == LoadHistory(store) && history == store && tempFiles == temp
    {
      savePath := config.savePath;
      maxRetries := config.maxRetries;
      downloaded := LoadHistory(store);
      history := store;
      tempFiles := temp;
    }

    /**
     * `_save_download_entry`: read the array (none if there is no file),
     * append one record, rewrite the whole file. Any exception is logged and
     * swallowed: a failed read or open leaves the file as it was, and a dump
     * that fails after the truncating open leaves it empty or incomplete.
     */
    method SaveDownloadEntry(bvid: string, cid: int, quality: int, title: string,
                             timestamp: int, wr: WriteResult)
      modifies this`history
      ensures history == Saved(old(history), NewRecord(bvid, cid, quality, title, timestamp), wr)
    {
      var records: seq<Record> := [];
      match history {
        case Missing =>
        case Records(rs) => records := rs;
        case _ => return;   // json.load or append raises
      }
      records := records + [NewRecord(bvid, cid, quality, title, timestamp)];
      match wr {
        case Written => history := Records(records);
        case OpenFailed =>
        case Truncated => history := ZeroSize;
        case PartWritten => history := Corrupt;
      }
    }

    /**
     * Lines 319-321: save the entry, then add the key to `downloaded`. What
     * the history file holds stays known in memory whether or not the save
     * reached the file.
     */
    method RecordDownload(bvid: string, cid: int, quality: int, title: string,
                          timestamp: int, wr: WriteResult)
      requires Valid()
      modifies this`downloaded, this`history
      ensures Valid()
      ensures history == Saved(old(history), NewRecord(bvid, cid, quality, title, timestamp), wr)
      ensures downloaded == old(downloaded) + {Key(bvid, cid, quality)}
    {
      LoadAfterSave(history, NewRecord(bvid, cid, quality, title, timestamp), wr);
      SaveDownloadEntry(bvid, cid, quality, title, timestamp, wr);
      downloaded := downloaded + {Key(bvid, cid, quality)};
    }

    /**
     * `download_video(bvid, cid, quality)` against the world `w`: it stops
     * where `Stop` says, performs the operations of `Trace` (by
     * `TraceIsPrefix`, the first `StagesRun` of `Steps`), records the key in
     * memory and in the history exactly when it reaches the end, and leaves
     * the temporary directory as `TempAfter` says.
     */
    method DownloadVideo(bvid: string, cid: int, quality: int, w: World)
      returns (ok: bool, ghost outcome: Outcome, ghost calls: seq<Call>)
      requires Valid()
      modifies this`downloaded, this`history, this`tempFiles
      ensures Valid()
      ensures outcome == Stop(old(downloaded), maxRetries, Key(bvid, cid, quality), w)
      ensures Key(bvid, cid, quality) in LoadHistory(old(history)) ==> outcome == Skipped && calls == []
      ensures ok <==> outcome == Skipped || outcome == Recorded
      ensures calls == Trace(Key(bvid, cid, quality), PlanOf(savePath, Key(bvid, cid, quality), w), outcome)
      ensures downloaded == if outcome == Recorded then old(downloaded) + {Key(bvid, cid, quality)}
                            else old(downloaded)
      ensures history == if outcome == Recorded then Saved(old(history), PlanOf(savePath, Key(bvid, cid, quality), w).entry, w.write)
                         else old(history)
      ensures tempFiles == TempAfter(old(tempFiles), Key(bvid, cid, quality), outcome)
    {
      var key := Key(bvid, cid, quality);
      calls := [];
      if key in downloaded {
        return true, Skipped, calls;
      }

      calls := [LookupInfo(bvid)];
      if w.view.Unavailable? {
        return false, NoInfo, calls;
      }
      var title := SanitizeTitle(w.view.title);
      var page := FindPage(w.view.pages, cid);
      if page.None? {
        return false, NoPage, calls;
      }
      var outputPath := OutputPath(savePath, w.view.title, page.value.part);

      ghost var tail;
      ok, outcome, tail := ResolveAndFetch(bvid, cid, quality, title, outputPath, w);
      assert PlanOf(savePath, key, w)
             == Plan(UrlsOf(w, quality).0, UrlsOf(w, quality).1,
                     TempName(bvid, cid, VideoTrack), TempName(bvid, cid, AudioTrack), outputPath,
                     NewRecord(bvid, cid, quality, title, w.timestamp));
      calls := [LookupInfo(bvid)] + tail;
    }

    /**
     * Lines 302-326 of `download_video`, once the page is found: ask for the
     * stream URLs and give up unless both are present and non-empty; then
     * fetch, merge and record as `FetchMergeRecord` does, with the temporary
     * names of lines 308-309.
     */
    method ResolveAndFetch(bvid: string, cid: int, quality: int, title: string, outputPath: Path, w: World)
      returns (ok: bool, ghost outcome: Outcome, ghost calls: seq<Call>)
      requires Valid()
      modifies this`downloaded, this`history, this`tempFiles
      ensures Valid()
      ensures outcome == if UsableUrls(GetMediaUrls(w.play, quality)) then FetchStop(maxRetries, w) else NoUrls
      ensures ok <==> outcome == Recorded
      ensures calls == [ResolveUrls(bvid, cid, quality)]
                       + FetchTrace(Plan(UrlsOf(w, quality).0, UrlsOf(w, quality).1,
                                         TempName(bvid, cid, VideoTrack), TempName(bvid, cid, AudioTrack),
                                         outputPath, NewRecord(bvid, cid, quality, title, w.timestamp)), outcome)
      ensures downloaded == if outcome == Recorded then old(downloaded) + {Key(bvid, cid, quality)}
                            else old(downloaded)
      ensures history == if outcome == Recorded
                         then Saved(old(history), NewRecord(bvid, cid, quality, title, w.timestamp), w.write)
                         else old(history)
      ensures tempFiles == if outcome == NoUrls then old(tempFiles)
                           else if outcome == MergeRaised then old(tempFiles) + Temps(Key(bvid, cid, quality))
                           else old(tempFiles) - Temps(Key(bvid, cid, quality))
    {
      calls := [ResolveUrls(bvid, cid, quality)];
      var urls := GetMediaUrls(w.play, quality);
      if urls.None? || urls.value.0 == "" || urls.value.1 == "" {
        return false, NoUrls, calls;
      }
      var videoUrl, audioUrl := urls.value.0, urls.value.1;
      var tempVideo := TempName(bvid, cid, VideoTrack);
      var tempAudio := TempName(bvid, cid, AudioTrack);
      ghost var tail;
      ok, outcome, tail := FetchMergeRecord(bvid, cid, quality, title, videoUrl, audioUrl,
                                            tempVideo, tempAudio, outputPath, w);
      calls := calls + tail;
    }

    /**
     * Lines 307-326 of `download_video`, once the URLs and file names are
     * known: fetch the video, then the audio, then merge, stopping at the
     * first failure; on success add the key to `downloaded` and append the
     * record; then delete both temporary files, which the escaping
     * `AttributeError` of a non-zero ffmpeg exit skips.
     */
    method FetchMergeRecord(bvid: string, cid: int, quality: int, title: string,
                            videoUrl: string, audioUrl: string,
                            tempVideo: string, tempAudio: string, outputPath: Path, w: World)
      returns (ok: bool, ghost outcome: Outcome, ghost calls: seq<Call>)
      requires Valid()
      modifies this`downloaded, this`history, this`tempFiles
      ensures Valid()
      ensures outcome == FetchStop(maxRetries, w)
      ensures ok <==> outcome == Recorded
      ensures calls == FetchTrace(Plan(videoUrl, audioUrl, tempVideo, tempAudio, outputPath,
                                       NewRecord(bvid, cid, quality, title, w.timestamp)), outcome)
      ensures downloaded == if outcome == Recorded then old(downloaded) + {Key(bvid, cid, quality)}
                            else old(downloaded)
      ensures history == if outcome == Recorded
                         then Saved(old(history), NewRecord(bvid, cid, quality, title, w.timestamp), w.write)
                         else old(history)
      ensures tempFiles == if outcome == MergeRaised then old(tempFiles) + {tempVideo, tempAudio}
                           else old(tempFiles) - {tempVideo, tempAudio}
    {
      ghost var p := Plan(videoUrl, audioUrl, tempVideo, tempAudio, outputPath,
                          NewRecord(bvid, cid, quality, title, w.timestamp));
      var success := false;
      ghost var tries, present, after;

      var videoOk;
      videoOk, tries, present, after := DownloadMedia(maxRetries, w.videoAttempt, tempVideo in tempFiles);
      tempFiles := if present then tempFiles + {tempVideo} else tempFiles - {tempVideo};
      outcome, calls := VideoFailed, [FetchTrack(p.videoUrl, p.tempVideo)];
      if videoOk {
        var audioOk;
        audioOk, tries, present, after := DownloadMedia(maxRetries, w.audioAttempt, tempAudio in tempFiles);
        tempFiles := if present then tempFiles + {tempAudio} else tempFiles - {tempAudio};
        outcome, calls := AudioFailed, calls + [FetchTrack(p.audioUrl, p.tempAudio)];
        if audioOk {
          calls := calls + [Mux(p.tempVideo, p.tempAudio, p.output)];
          if w.merge == ExitNonZero {
            // The AttributeError reaches the outer `except` before the cleanup.
            return false, MergeRaised, calls;
          }
          success := w.merge == Merged;
          outcome := if success then Recorded else MergeFailed;
        }
      }

      if success {
        calls := calls + [WriteEntry(p.entry)];
        RecordDownload(bvid, cid, quality, title, w.timestamp, w.write);
      }

      // temp_video.unlink(missing_ok=True); temp_audio.unlink(missing_ok=True)
      tempFiles := tempFiles - {tempVideo, tempAudio};
      ok := success;
    }
  }
}
