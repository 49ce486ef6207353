/** utils/VideoDownloader.js: which video, which stream and which file name a
    download uses, and how a collection becomes a sequence of single-video
    downloads. The HTTP transfer itself is not modelled: the upstream's answers
    come from an `Api.Server` value, and the object records the requests it
    issues and the `downloadVideo` calls it makes. */
module Downloader {
  import opened Common
  import opened Text
  import opened Files
  import opened Api

  // ---------------------------------------------------------------------------
  // _extractBvid: the first match of /BV[a-zA-Z0-9]+/
  // ---------------------------------------------------------------------------

  /** `BV` followed by one or more ASCII letters or digits. */
  predicate IsBvid(b: string)
  {
    |b| >= 3 && b[0] == 'B' && b[1] == 'V' && forall i :: 2 <= i < |b| ==> IsAsciiAlnum(b[i])
  }

  /** A match of the pattern starts at `j`. */
  predicate MatchAt(url: string, j: int)
  {
    0 <= j && j + 2 < |url| && url[j] == 'B' && url[j + 1] == 'V' && IsAsciiAlnum(url[j + 2])
  }

  predicate IsFirstMatch(url: string, j: int)
  {
    MatchAt(url, j) && forall k :: 0 <= k < j ==> !MatchAt(url, k)
  }

  /** `b` occurs at `j` and cannot be extended by another letter or digit. */
  predicate IsMaximalBvidAt(url: string, j: int, b: string)
  {
    && IsBvid(b)
    && 0 <= j && j + |b| <= |url| && url[j..j + |b|] == b
    && (j + |b| == |url| || !IsAsciiAlnum(url[j + |b|]))
  }

  function AlnumEnd(s: string, k: nat): (e: nat)
    requires k <= |s|
    ensures k <= e <= |s|
    ensures forall i :: k <= i < e ==> IsAsciiAlnum(s[i])
    ensures e == |s| || !IsAsciiAlnum(s[e])
    decreases |s| - k
  {
    if k < |s| && IsAsciiAlnum(s[k]) then AlnumEnd(s, k + 1) else k
  }

  function FirstMatch(url: string, from: nat): (j: Option<nat>)
    requires from <= |url|
    requires forall k :: 0 <= k < from ==> !MatchAt(url, k)
    ensures j.None? <==> forall k :: 0 <= k < |url| ==> !MatchAt(url, k)
    ensures j.Some? ==> IsFirstMatch(url, j.value)
    decreases |url| - from
  {
    if from == |url| then None
    else if MatchAt(url, from) then Some(from)
    else FirstMatch(url, from + 1)
  }

  /** `_extractBvid(url)`: the leftmost, longest BV id in the URL, or undefined. */
  function ExtractBvid(url: string): (r: Option<string>)
    ensures r.None? <==> forall k :: 0 <= k < |url| ==> !MatchAt(url, k)
    ensures r.Some? ==> exists j :: IsFirstMatch(url, j) && IsMaximalBvidAt(url, j, r.value)
  {
    match FirstMatch(url, 0)
    case None => None
    case Some(j) =>
      var e := AlnumEnd(url, j + 2);
      var b := url[j..e];
      assert forall i :: 2 <= i < |b| ==> b[i] == url[j + i];
      assert IsMaximalBvidAt(url, j, b);
      Some(b)
  }

  const VideoPageBase := "https://www.bilibili.com/video/"

  /** The URL `downloadCollection` builds for an episode. */
  function VideoPageUrl(bvid: string): string
  {
    VideoPageBase + bvid
  }

  /** The URL built for an episode gives back the episode's BV id. */
  lemma ExtractBvidOfVideoPageUrl(bvid: string)
    requires IsBvid(bvid)
    ensures ExtractBvid(VideoPageUrl(bvid)) == Some(bvid)
  {
    assert forall j :: 0 <= j < |VideoPageBase| ==> VideoPageBase[j] != 'B';
    ExtractBvidAfter(VideoPageBase, bvid);
  }

  /** Behind a prefix without a `B`, a BV id running to the end is the one found. */
  lemma ExtractBvidAfter(prefix: string, bvid: string)
    requires forall j :: 0 <= j < |prefix| ==> prefix[j] != 'B'
    requires IsBvid(bvid)
    ensures ExtractBvid(prefix + bvid) == Some(bvid)
  {
    var url := prefix + bvid;
    var n := |prefix|;
    assert forall j :: 0 <= j < n ==> url[j] == prefix[j];
    assert forall i :: 0 <= i < |bvid| ==> url[n + i] == bvid[i];
    assert MatchAt(url, n);
    var j := FirstMatch(url, 0).value;
    assert j == n;
    var e := AlnumEnd(url, n + 2);
    assert e == |url|;
    assert url[n..e] == bvid;
    assert ExtractBvid(url) == Some(url[j..e]);
  }

  // ---------------------------------------------------------------------------
  // _getCid and _generateFileName
  // ---------------------------------------------------------------------------

  predicate IsFirstPage(pages: seq<Page>, n: int, k: int)
  {
    0 <= k < |pages| && pages[k].page == n && forall j :: 0 <= j < k ==> pages[j].page != n
  }

  function PageIndex(pages: seq<Page>, n: int, from: nat): (k: Option<nat>)
    requires from <= |pages|
    requires forall j :: 0 <= j < from ==> pages[j].page != n
    ensures k.None? <==> forall j :: 0 <= j < |pages| ==> pages[j].page != n
    ensures k.Some? ==> IsFirstPage(pages, n, k.value)
    decreases |pages| - from
  {
    if from == |pages| then None
    else if pages[from].page == n then Some(from)
    else PageIndex(pages, n, from + 1)
  }

  /** `_getCid(videoInfo, pageNumber)`: past page 1, and when the video lists its
      pages, the cid of the first page with that number (undefined if none);
      otherwise the video's own cid. */
  function GetCid(info: VideoInfo, pageNumber: int): (r: Option<int>)
    ensures pageNumber > 1 && info.pages.Some? ==>
      var pages := info.pages.value;
      && (r.None? <==> forall j :: 0 <= j < |pages| ==> pages[j].page != pageNumber)
      && (r.Some? ==> exists k :: IsFirstPage(pages, pageNumber, k) && r.value == pages[k].cid)
    ensures !(pageNumber > 1 && info.pages.Some?) ==> r == Some(info.cid)
  {
    if pageNumber > 1 && info.pages.Some? then
      match PageIndex(info.pages.value, pageNumber, 0)
      case None => None
      case Some(k) => Some(info.pages.value[k].cid)
    else Some(info.cid)
  }

  /** When page numbers are unique, asking for a page's number yields that page's cid. */
  lemma GetCidOfListedPage(info: VideoInfo, i: int)
    requires info.pages.Some? && 0 <= i < |info.pages.value|
    requires forall a, b :: 0 <= a < b < |info.pages.value| ==> info.pages.value[a].page != info.pages.value[b].page
    requires info.pages.value[i].page > 1
    ensures GetCid(info, info.pages.value[i].page) == Some(info.pages.value[i].cid)
  {
    var pages := info.pages.value;
    var n := pages[i].page;
    var k := PageIndex(pages, n, 0).value;
    assert k == i;
  }

  /** `_generateFileName(videoInfo, pageNumber)`: the sanitised title, `_P` and the
      page number past page 1, and `.mp4`. */
  function GenerateFileName(info: VideoInfo, pageNumber: int): string
  {
    NameFor(Sanitize(info.title), pageNumber)
  }

  function NameFor(title: string, pageNumber: int): string
  {
    if pageNumber > 1 then title + "_P" + NatToString(pageNumber) + ".mp4" else title + ".mp4"
  }

  /** The file name begins with the sanitised title, ends in `.mp4` and, like the
      title, holds no character a file system refuses. */
  lemma FileNameIsLegal(info: VideoInfo, pageNumber: int)
    ensures StartsWith(GenerateFileName(info, pageNumber), Sanitize(info.title))
    ensures EndsWith(GenerateFileName(info, pageNumber), ".mp4")
    ensures NoIllegal(GenerateFileName(info, pageNumber))
  {
    NameForIsLegal(Sanitize(info.title), pageNumber);
  }

  lemma NameForIsLegal(title: string, pageNumber: int)
    requires NoIllegal(title)
    ensures StartsWith(NameFor(title, pageNumber), title)
    ensures EndsWith(NameFor(title, pageNumber), ".mp4")
    ensures NoIllegal(NameFor(title, pageNumber))
  {
    var middle := if pageNumber > 1 then "_P" + NatToString(pageNumber) else "";
    assert NameFor(title, pageNumber) == title + middle + ".mp4";
    if pageNumber > 1 {
      NoIllegalConcat("_P", NatToString(pageNumber));
    }
    NoIllegalConcat(title, middle);
    NoIllegalConcat(title + middle, ".mp4");
  }

  lemma NoIllegalConcat(a: string, b: string)
    requires NoIllegal(a) && NoIllegal(b)
    ensures NoIllegal(a + b)
  {
    assert forall i :: 0 <= i < |a + b| ==> (a + b)[i] == if i < |a| then a[i] else b[i - |a|];
  }

  /** Two different page numbers (from 1 up) of one video never share a file name. */
  lemma FileNamesDistinct(info: VideoInfo, p: int, q: int)
    requires 1 <= p && 1 <= q && p != q
    ensures GenerateFileName(info, p) != GenerateFileName(info, q)
  {
    NameForDistinct(Sanitize(info.title), p, q);
  }

  lemma NameForDistinct(t: string, p: int, q: int)
    requires 1 <= p && 1 <= q && p != q
    ensures NameFor(t, p) != NameFor(t, q)
  {
    if p > 1 && q > 1 && NameFor(t, p) == NameFor(t, q) {
      var dp, dq := NatToString(p), NatToString(q);
      var np := t + "_P" + dp + ".mp4";
      var nq := t + "_P" + dq + ".mp4";
      assert |dp| == |dq|;
      assert np[|t| + 2..|t| + 2 + |dp|] == dp;
      assert nq[|t| + 2..|t| + 2 + |dq|] == dq;
      NatToStringInjective(p, q);
    }
  }

  // ---------------------------------------------------------------------------
  // Planning one downloadVideo call
  // ---------------------------------------------------------------------------

  /** A request to the metadata client: `getVideoInfo(bvid)` or `getVideoUrl(bvid, cid)`. */
  datatype Request = VideoInfoRequest(bvid: string) | VideoUrlRequest(bvid: string, cid: int)

  /** The arguments of one `downloadVideo(url, targetDir, pageNumber)` call. */
  datatype DownloadCall = DownloadCall(url: string, targetDir: Path, page: int)

  /** What a download resolves to before the transfer starts. */
  datatype Plan = Plan(bvid: string, cid: int, mediaUrl: string, fileName: string)

  datatype Attempt = Attempt(requests: seq<Request>, result: Result<Plan, Error>)

  /** `!cid` is false: the cid is present and not 0. */
  predicate CidUsable(cid: Option<int>) { cid.Some? && cid.value != 0 }

  /** The part of `downloadVideo` before the transfer: the requests it issues, in
      order, and the plan or the error it stops with. */
  function PlanVideo(server: Server, url: string, pageNumber: int): (a: Attempt)
    ensures a.result == Failure(InvalidLink) <==> ExtractBvid(url).None?
    ensures ExtractBvid(url).None? ==> a.requests == []
    ensures ExtractBvid(url).Some? ==> |a.requests| >= 1 && a.requests[0] == VideoInfoRequest(ExtractBvid(url).value)
    ensures a.result == Failure(CidNotFound) <==>
      ExtractBvid(url).Some? && ExtractBvid(url).value in server.videos &&
      !CidUsable(GetCid(server.videos[ExtractBvid(url).value], pageNumber))
    ensures a.result == Failure(CidNotFound) ==> |a.requests| == 1
    ensures a.result.Success? ==>
      var b := ExtractBvid(url).value;
      var plan := a.result.value;
      && b in server.videos
      && plan.bvid == b
      && GetCid(server.videos[b], pageNumber) == Some(plan.cid) && plan.cid != 0
      && (b, plan.cid) in server.playUrls && plan.mediaUrl == server.playUrls[(b, plan.cid)]
      && plan.fileName == GenerateFileName(server.videos[b], pageNumber)
      && a.requests == [VideoInfoRequest(b), VideoUrlRequest(b, plan.cid)]
  {
    match ExtractBvid(url)
    case None => Attempt([], Failure(InvalidLink))
    case Some(bvid) =>
      match GetVideoInfo(server, bvid)
      case Failure(e) => Attempt([VideoInfoRequest(bvid)], Failure(e))
      case Success(info) =>
        var cid := GetCid(info, pageNumber);
        if !CidUsable(cid) then Attempt([VideoInfoRequest(bvid)], Failure(CidNotFound))
        else
          var requests := [VideoInfoRequest(bvid), VideoUrlRequest(bvid, cid.value)];
          match GetVideoUrl(server, bvid, cid.value)
          case Failure(e) => Attempt(requests, Failure(e))
          case Success(mediaUrl) =>
            Attempt(requests, Success(Plan(bvid, cid.value, mediaUrl, GenerateFileName(info, pageNumber))))
  }

  /** When a plan succeeds, and the errors of the two metadata requests: an
      unknown video fails after its one request, and a missing stream address
      after the second; with the video known and its cid usable, the plan
      succeeds exactly when the stream address is there. */
  lemma PlanVideoOutcomes(server: Server, url: string, pageNumber: int)
    requires ExtractBvid(url).Some?
    ensures var b := ExtractBvid(url).value;
      var a := PlanVideo(server, url, pageNumber);
      && (b !in server.videos ==> a == Attempt([VideoInfoRequest(b)], Failure(VideoInfoFailed)))
      && (b in server.videos && CidUsable(GetCid(server.videos[b], pageNumber)) ==>
            var cid := GetCid(server.videos[b], pageNumber).value;
            && ((b, cid) in server.playUrls <==> a.result.Success?)
            && ((b, cid) !in server.playUrls ==>
                  a == Attempt([VideoInfoRequest(b), VideoUrlRequest(b, cid)], Failure(VideoUrlFailed))))
  {
  }

  /** Asking for a page the video does not list fails with the CID error, and the
      stream address is never requested. */
  lemma UnlistedPageIsCidError(server: Server, url: string, pageNumber: int)
    requires ExtractBvid(url).Some? && ExtractBvid(url).value in server.videos
    requires var info := server.videos[ExtractBvid(url).value];
      pageNumber > 1 && info.pages.Some? &&
      forall j :: 0 <= j < |info.pages.value| ==> info.pages.value[j].page != pageNumber
    ensures PlanVideo(server, url, pageNumber).result == Failure(CidNotFound)
    ensures forall r :: r in PlanVideo(server, url, pageNumber).requests ==> r.VideoInfoRequest?
  {
  }

  /** The outcome of a whole `downloadVideo` call: the saved file's path, or the
      error. A rejected stream request rejects the call as axios does. */
  function VideoOutcome(server: Server, call: DownloadCall): Result<Path, Error>
  {
    var a := PlanVideo(server, call.url, call.page);
    if a.result.Failure? then Failure(a.result.error) else StoreOutcome(server, a.result.value, call.targetDir)
  }

  /** The outcome of the transfer of a planned download: a rejected stream
      request, a stream that breaks off, or the path of the saved file. */
  function StoreOutcome(server: Server, plan: Plan, targetDir: Path): Result<Path, Error>
  {
    if plan.mediaUrl in server.refusedStreams then Failure(NetworkFailure)
    else if plan.mediaUrl in server.brokenStreams then Failure(TransferFailed)
    else Success(Join(targetDir, plan.fileName))
  }

  /** The paths the transfer of a planned download creates under the root
      `root`: the target directory, and the file once the stream request is answered. */
  function StoreCreates(server: Server, root: AbsolutePath, plan: Plan, targetDir: Path): set<AbsolutePath>
  {
    if plan.mediaUrl in server.refusedStreams then {Resolve(root, targetDir)}
    else {Resolve(root, targetDir), Resolve(root, Join(targetDir, plan.fileName))}
  }

  /** The paths one `downloadVideo` call creates under the root `root`: nothing
      when the plan fails, otherwise what the transfer creates. */
  function CallCreates(server: Server, root: AbsolutePath, call: DownloadCall): set<AbsolutePath>
  {
    var a := PlanVideo(server, call.url, call.page);
    if a.result.Failure? then {} else StoreCreates(server, root, a.result.value, call.targetDir)
  }

  /** The outcome and the created paths of one call, split by whether its plan
      succeeds. */
  lemma CallSteps(server: Server, root: AbsolutePath, call: DownloadCall)
    ensures var a := PlanVideo(server, call.url, call.page);
      && (a.result.Failure? ==> VideoOutcome(server, call) == Failure(a.result.error) && CallCreates(server, root, call) == {})
      && (a.result.Success? ==>
            && VideoOutcome(server, call) == StoreOutcome(server, a.result.value, call.targetDir)
            && CallCreates(server, root, call) == StoreCreates(server, root, a.result.value, call.targetDir))
  {
  }

  /** What one `downloadVideo` call yields, from the upstream's answers alone. A
      failed plan yields its error and creates nothing. When the video, a usable
      cid and its stream address are known, the file is always
      `<targetDir>/<generated name>`: a refused stream leaves only the directory
      and a network error, and otherwise both paths exist, with the file's path
      returned unless the stream breaks off. */
  lemma CallEffects(server: Server, root: AbsolutePath, call: DownloadCall)
    ensures PlanVideo(server, call.url, call.page).result.Failure? ==>
      && VideoOutcome(server, call) == Failure(PlanVideo(server, call.url, call.page).result.error)
      && CallCreates(server, root, call) == {}
    ensures ExtractBvid(call.url).Some? && ExtractBvid(call.url).value in server.videos ==>
      var b := ExtractBvid(call.url).value;
      var info := server.videos[b];
      var cid := GetCid(info, call.page);
      CidUsable(cid) && (b, cid.value) in server.playUrls ==>
        var media := server.playUrls[(b, cid.value)];
        var dir := Resolve(root, call.targetDir);
        var file := Join(call.targetDir, GenerateFileName(info, call.page));
        && (media in server.refusedStreams ==>
              VideoOutcome(server, call) == Failure(NetworkFailure) && CallCreates(server, root, call) == {dir})
        && (media !in server.refusedStreams ==> CallCreates(server, root, call) == {dir, Resolve(root, file)})
        && (media !in server.refusedStreams && media in server.brokenStreams ==>
              VideoOutcome(server, call) == Failure(TransferFailed))
        && (media !in server.refusedStreams && media !in server.brokenStreams ==>
              VideoOutcome(server, call) == Success(file))
  {
  }

  /** The paths a run of calls creates. */
  function CreatedBy(server: Server, root: AbsolutePath, calls: seq<DownloadCall>): set<AbsolutePath>
  {
    if calls == [] then {}
    else CreatedBy(server, root, calls[..|calls| - 1]) + CallCreates(server, root, calls[|calls| - 1])
  }

  /** The metadata requests a run of calls issues, in order. */
  function RequestsOf(server: Server, calls: seq<DownloadCall>): seq<Request>
  {
    if calls == [] then []
    else
      var last := calls[|calls| - 1];
      RequestsOf(server, calls[..|calls| - 1]) + PlanVideo(server, last.url, last.page).requests
  }

  /** A run of calls yields at least one path per call that saved a file, and
      every file it saved exists under the root afterwards. */
  lemma {:induction false} SavedFilesExist(server: Server, root: AbsolutePath, calls: seq<DownloadCall>, j: int)
    requires 0 <= j < |calls| && VideoOutcome(server, calls[j]).Success?
    ensures Resolve(root, VideoOutcome(server, calls[j]).value) in CreatedBy(server, root, calls)
    ensures Resolve(root, calls[j].targetDir) in CreatedBy(server, root, calls)
  {
    var front := calls[..|calls| - 1];
    if j < |calls| - 1 {
      assert front[j] == calls[j];
      SavedFilesExist(server, root, front, j);
    } else {
      SavedFileCreated(server, root, calls[j]);
    }
  }

  lemma SavedFileCreated(server: Server, root: AbsolutePath, call: DownloadCall)
    requires VideoOutcome(server, call).Success?
    ensures Resolve(root, VideoOutcome(server, call).value) in CallCreates(server, root, call)
    ensures Resolve(root, call.targetDir) in CallCreates(server, root, call)
  {
  }

  /** What one call leaves behind: the metadata requests it issued and the
      paths it created. The episode loop's invariants speak of these traces
      rather than of `RequestsOf` and `CreatedBy` directly: a trace is computed
      once per episode and read by index, which keeps each loop step small
      enough for the solver; `TracesOfEpisodes` maps the traces back onto
      `RequestsOf` and `CreatedBy`. */
  datatype Trace = Trace(requests: seq<Request>, creates: set<AbsolutePath>)

  function CallTrace(server: Server, root: AbsolutePath, call: DownloadCall): Trace
  {
    Trace(PlanVideo(server, call.url, call.page).requests, CallCreates(server, root, call))
  }

  function TraceRequests(traces: seq<Trace>): seq<Request>
  {
    if traces == [] then [] else TraceRequests(traces[..|traces| - 1]) + traces[|traces| - 1].requests
  }

  function TraceCreates(traces: seq<Trace>): set<AbsolutePath>
  {
    if traces == [] then {} else TraceCreates(traces[..|traces| - 1]) + traces[|traces| - 1].creates
  }

  lemma TraceStep(traces: seq<Trace>, i: int)
    requires 0 <= i < |traces|
    ensures TraceRequests(traces[..i + 1]) == TraceRequests(traces[..i]) + traces[i].requests
    ensures TraceCreates(traces[..i + 1]) == TraceCreates(traces[..i]) + traces[i].creates
  {
    assert traces[..i + 1][..i] == traces[..i];
  }

  /** `traces` lists what the call for each episode leaves behind. */
  predicate EpisodeTraces(server: Server, root: AbsolutePath, episodes: seq<Episode>, targetDir: Path, traces: seq<Trace>)
  {
    && |traces| == |episodes|
    && forall j {:trigger CallTrace(server, root, EpisodeCall(episodes[j], targetDir))} :: 0 <= j < |episodes| ==>
         traces[j] == CallTrace(server, root, EpisodeCall(episodes[j], targetDir))
  }

  function EpisodeTraceSeq(server: Server, root: AbsolutePath, episodes: seq<Episode>, targetDir: Path): (traces: seq<Trace>)
    ensures EpisodeTraces(server, root, episodes, targetDir, traces)
  {
    seq(|episodes|, j requires 0 <= j < |episodes| => CallTrace(server, root, EpisodeCall(episodes[j], targetDir)))
  }

  /** The first `n` episode traces hold the requests and the paths of the
      first `n` episode calls. */
  lemma {:induction false} TracesOfEpisodes(server: Server, root: AbsolutePath, episodes: seq<Episode>, targetDir: Path,
                                            traces: seq<Trace>, n: nat)
    requires EpisodeTraces(server, root, episodes, targetDir, traces) && n <= |episodes|
    ensures TraceRequests(traces[..n]) == RequestsOf(server, EpisodeCalls(episodes, targetDir)[..n])
    ensures TraceCreates(traces[..n]) == CreatedBy(server, root, EpisodeCalls(episodes, targetDir)[..n])
  {
    if n > 0 {
      var calls := EpisodeCalls(episodes, targetDir);
      TracesOfEpisodes(server, root, episodes, targetDir, traces, n - 1);
      assert traces[..n][..n - 1] == traces[..n - 1];
      assert calls[..n][..n - 1] == calls[..n - 1];
      assert traces[n - 1] == CallTrace(server, root, EpisodeCall(episodes[n - 1], targetDir));
    }
  }

  /** A run that stops early has issued a prefix of the requests of a longer run. */
  lemma {:induction false} RequestsOfPrefix(server: Server, calls: seq<DownloadCall>, i: nat)
    requires i <= |calls|
    ensures |RequestsOf(server, calls[..i])| <= |RequestsOf(server, calls)|
    ensures RequestsOf(server, calls) [..|RequestsOf(server, calls[..i])|] == RequestsOf(server, calls[..i])
    decreases |calls|
  {
    if i < |calls| {
      var front := calls[..|calls| - 1];
      assert front[..i] == calls[..i];
      RequestsOfPrefix(server, front, i);
    } else {
      assert calls[..i] == calls;
    }
  }

  // ---------------------------------------------------------------------------
  // Expanding a collection
  // ---------------------------------------------------------------------------

  /** The call `downloadCollection` makes for one episode: the page when truthy, else page 1. */
  function EpisodeCall(episode: Episode, targetDir: Path): DownloadCall
  {
    DownloadCall(VideoPageUrl(episode.bvid), targetDir,
      if episode.page.Some? && episode.page.value != 0 then episode.page.value else 1)
  }

  /** An episode's call fetches that episode's video, into the given directory,
      with a present non-zero page kept and any other page read as 1. */
  lemma EpisodeCallTargets(episode: Episode, targetDir: Path)
    ensures var c := EpisodeCall(episode, targetDir);
      && (IsBvid(episode.bvid) ==> ExtractBvid(c.url) == Some(episode.bvid))
      && c.targetDir == targetDir
      && (episode.page.Some? && episode.page.value != 0 ==> c.page == episode.page.value)
      && (episode.page.None? || episode.page.value == 0 ==> c.page == 1)
  {
    if IsBvid(episode.bvid) {
      ExtractBvidOfVideoPageUrl(episode.bvid);
    }
  }

  function EpisodeCalls(episodes: seq<Episode>, targetDir: Path): (calls: seq<DownloadCall>)
    ensures |calls| == |episodes|
  {
    seq(|episodes|, i requires 0 <= i < |episodes| => EpisodeCall(episodes[i], targetDir))
  }

  /** The outcome of each call, in order. */
  function Outcomes(server: Server, calls: seq<DownloadCall>): (r: seq<Result<Path, Error>>)
    ensures |r| == |calls|
  {
    if calls == [] then [] else [VideoOutcome(server, calls[0])] + Outcomes(server, calls[1..])
  }

  lemma {:induction false} OutcomesAt(server: Server, calls: seq<DownloadCall>, i: int)
    requires 0 <= i < |calls|
    ensures Outcomes(server, calls)[i] == VideoOutcome(server, calls[i])
  {
    if i > 0 {
      OutcomesAt(server, calls[1..], i - 1);
    }
  }

  /** The position of the first failed outcome from `from` on, or `|outcomes|`. */
  function FirstFailure(outcomes: seq<Result<Path, Error>>, from: nat): (k: nat)
    requires from <= |outcomes|
    ensures from <= k <= |outcomes|
    ensures forall j :: from <= j < k ==> outcomes[j].Success?
    ensures k < |outcomes| ==> outcomes[k].Failure?
    decreases |outcomes| - from
  {
    if from == |outcomes| then from
    else if outcomes[from].Failure? then from
    else FirstFailure(outcomes, from + 1)
  }

  /** How many calls a run that stops at its first failure makes: up to and
      including the first failure, or all of them. */
  function RunLength(outcomes: seq<Result<Path, Error>>): (n: nat)
    ensures n <= |outcomes|
    ensures n == |outcomes| || (n > 0 && outcomes[n - 1].Failure?)
    ensures forall j :: 0 <= j < n && j != n - 1 ==> outcomes[j].Success?
  {
    var k := FirstFailure(outcomes, 0);
    if k < |outcomes| then k + 1 else k
  }

  /** `outcomes` lists what the call for each episode yields. */
  predicate EpisodeOutcomes(server: Server, episodes: seq<Episode>, targetDir: Path, outcomes: seq<Result<Path, Error>>)
  {
    && |outcomes| == |episodes|
    && forall j {:trigger VideoOutcome(server, EpisodeCall(episodes[j], targetDir))} :: 0 <= j < |episodes| ==>
         outcomes[j] == VideoOutcome(server, EpisodeCall(episodes[j], targetDir))
  }

  /** The outcomes of the episodes' calls are what each episode's call yields. */
  lemma OutcomesOfEpisodes(server: Server, episodes: seq<Episode>, targetDir: Path)
    ensures EpisodeOutcomes(server, episodes, targetDir, Outcomes(server, EpisodeCalls(episodes, targetDir)))
  {
    var calls := EpisodeCalls(episodes, targetDir);
    forall j | 0 <= j < |episodes|
      ensures Outcomes(server, calls)[j] == VideoOutcome(server, EpisodeCall(episodes[j], targetDir))
    {
      OutcomesAt(server, calls, j);
    }
  }

  /** When every outcome before `k` succeeded and the one at `k` (if any) failed,
      `k` is the first failure. */
  lemma FirstFailureAt(outcomes: seq<Result<Path, Error>>, k: nat)
    requires k <= |outcomes|
    requires forall j :: 0 <= j < k ==> outcomes[j].Success?
    requires k < |outcomes| ==> outcomes[k].Failure?
    ensures FirstFailure(outcomes, 0) == k
    ensures RunLength(outcomes) == if k < |outcomes| then k + 1 else k
  {
    var f := FirstFailure(outcomes, 0);
    assert !(f < k) && !(k < f);
  }

  lemma PrefixStep<T>(s: seq<T>, i: int)
    requires 0 <= i < |s|
    ensures s[..i + 1] == s[..i] + [s[i]]
  {
  }

  /** The episodes of a multi-part video each fetch their own page: past page 1
      the episode's own cid is selected, and no two episodes write the same file. */
  lemma MultiPartEpisodesPlanOwnPages(server: Server, info: VideoInfo, targetDir: Path, i: int, j: int)
    requires IsBvid(info.bvid) && info.bvid in server.videos && server.videos[info.bvid] == info
    requires IsMultiPart(info)
    requires forall a :: 0 <= a < |info.pages.value| ==> info.pages.value[a].page >= 1
    requires forall a, b :: 0 <= a < b < |info.pages.value| ==> info.pages.value[a].page != info.pages.value[b].page
    requires 0 <= i < j < |info.pages.value|
    ensures var calls := EpisodeCalls(HandleMultiPartVideo(info).episodes, targetDir);
      var pi := PlanVideo(server, calls[i].url, calls[i].page);
      var pj := PlanVideo(server, calls[j].url, calls[j].page);
      && (pi.result.Success? && info.pages.value[i].page > 1 ==> pi.result.value.cid == info.pages.value[i].cid)
      && (pi.result.Success? && pj.result.Success? ==> pi.result.value.fileName != pj.result.value.fileName)
  {
    var pages := info.pages.value;
    var calls := EpisodeCalls(HandleMultiPartVideo(info).episodes, targetDir);
    ExtractBvidOfVideoPageUrl(info.bvid);
    assert calls[i].page == pages[i].page && calls[j].page == pages[j].page;
    if pages[i].page > 1 {
      GetCidOfListedPage(info, i);
    }
    FileNamesDistinct(info, pages[i].page, pages[j].page);
  }

  // ---------------------------------------------------------------------------
  // The VideoDownloader object
  // ---------------------------------------------------------------------------

  class VideoDownloader {
    const api: Server
    const files: FileManager
    /** The metadata requests issued so far, in order. */
    ghost var requests: seq<Request>
    /** The `downloadVideo` calls made so far, in order. */
    ghost var downloads: seq<DownloadCall>

    constructor (api: Server, files: FileManager)
      ensures this.api == api && this.files == files
      ensures requests == [] && downloads == []
    {
      this.api := api;
      this.files := files;
      requests := [];
      downloads := [];
    }

    /** `setDownloadDir(dir)`: moves the file manager's root; returns the same object. */
    method SetDownloadDir(dir: Path) returns (self: VideoDownloader)
      modifies files`baseDir
      ensures self == this && files.baseDir == dir && files.entries == old(files.entries)
    {
      var _ := files.SetBaseDir(dir);
      self := this;
    }

    /** `downloadVideo(url, targetDir, pageNumber)`: resolves the video, its cid and
        stream and names the file (`PlanVideo`), makes sure the target directory
        exists and transfers. Each call is logged, and so is each metadata request. */
    method DownloadVideo(url: string, targetDir: Path, pageNumber: int) returns (r: Result<Path, Error>)
      modifies this`requests, this`downloads, files`entries
      ensures downloads == old(downloads) + [DownloadCall(url, targetDir, pageNumber)]
      ensures requests == old(requests) + PlanVideo(api, url, pageNumber).requests
      ensures r == VideoOutcome(api, DownloadCall(url, targetDir, pageNumber))
      ensures files.entries == old(files.entries) + CallCreates(api, files.Root(), DownloadCall(url, targetDir, pageNumber))
      ensures files.Root() == old(files.Root())
      ensures r.Success? ==> files.ResolveIn(r.value) in files.entries
    {
      var call := DownloadCall(url, targetDir, pageNumber);
      downloads := downloads + [call];
      var attempt := PlanVideo(api, url, pageNumber);
      requests := requests + attempt.requests;
      if attempt.result.Failure? {
        CallSteps(api, files.Root(), call);
        return Failure(attempt.result.error);
      }
      r := Store(attempt.result.value, targetDir);
      CallSteps(api, files.Root(), call);
    }

    /** The end of `downloadVideo` and `_handleDownload`: the target directory is
        created and the stream is requested; a rejected request ends the call
        there; otherwise the file is opened, and the stream either ends (the
        file's path is returned) or emits an error. */
    method Store(plan: Plan, targetDir: Path) returns (r: Result<Path, Error>)
      modifies files`entries
      ensures plan.mediaUrl in api.refusedStreams ==>
        r == Failure(NetworkFailure) && files.entries == old(files.entries) + {old(files.ResolveIn(targetDir))}
      ensures plan.mediaUrl !in api.refusedStreams ==>
        files.entries == old(files.entries) + {old(files.ResolveIn(targetDir)), old(files.ResolveIn(Join(targetDir, plan.fileName)))}
      ensures plan.mediaUrl !in api.refusedStreams && plan.mediaUrl in api.brokenStreams ==> r == Failure(TransferFailed)
      ensures plan.mediaUrl !in api.refusedStreams && plan.mediaUrl !in api.brokenStreams ==>
        r == Success(Join(targetDir, plan.fileName))
      ensures r == StoreOutcome(api, plan, targetDir)
      ensures files.entries == old(files.entries) + StoreCreates(api, files.Root(), plan, targetDir)
      ensures r.Success? ==> files.ResolveIn(r.value) in files.entries
    {
      var _ := files.EnsureDir(targetDir);
      if plan.mediaUrl in api.refusedStreams {
        return Failure(NetworkFailure);
      }
      var filePath := Join(targetDir, plan.fileName);
      var _ := files.CreateWriteStream(filePath);
      if plan.mediaUrl in api.brokenStreams {
        return Failure(TransferFailed);
      }
      r := Success(filePath);
    }

    /** `downloadCollection(url)`: without a collection, one `downloadVideo(url)`
        into '.' for page 1; otherwise one call per episode, in episode order, into
        the directory named by the sanitised collection title, stopping at the
        first episode that fails. */
    method DownloadCollection(url: string) returns (r: Result<Option<Path>, Error>)
      modifies this`requests, this`downloads, files`entries
      ensures ExtractBvid(url).None? ==>
        && r == Failure(InvalidLink)
        && downloads == old(downloads) && requests == old(requests) && files.entries == old(files.entries)
      ensures ExtractBvid(url).Some? && GetCollectionInfo(api, ExtractBvid(url).value).Failure? ==>
        && r == Failure(GetCollectionInfo(api, ExtractBvid(url).value).error)
        && downloads == old(downloads)
        && requests == old(requests) + [VideoInfoRequest(ExtractBvid(url).value)]
        && files.entries == old(files.entries)
      ensures ExtractBvid(url).Some? && GetCollectionInfo(api, ExtractBvid(url).value) == Success(None) ==>
        var call := DownloadCall(url, ".", 1);
        var single := VideoOutcome(api, call);
        && r == (if single.Success? then Success(Some(single.value)) else Failure(single.error))
        && downloads == old(downloads) + [call]
        && requests == old(requests) + [VideoInfoRequest(ExtractBvid(url).value)] + PlanVideo(api, url, 1).requests
        && files.entries == old(files.entries) + CallCreates(api, old(files.Root()), call)
      ensures ExtractBvid(url).Some? && GetCollectionInfo(api, ExtractBvid(url).value).Success? &&
              GetCollectionInfo(api, ExtractBvid(url).value).value.Some? ==>
        var collection := GetCollectionInfo(api, ExtractBvid(url).value).value.value;
        var dir := old(files.ResolveIn(Sanitize(collection.title)));
        var calls := EpisodeCalls(collection.episodes, dir);
        var outcomes := Outcomes(api, calls);
        var k := FirstFailure(outcomes, 0);
        var made := calls[..RunLength(outcomes)];
        && (k == |calls| ==> r == Success(None))
        && (k < |calls| ==> r == Failure(outcomes[k].error))
        && downloads == old(downloads) + made
        && requests == old(requests) + [VideoInfoRequest(ExtractBvid(url).value)] + RequestsOf(api, made)
        && files.entries == old(files.entries) + {dir} + CreatedBy(api, old(files.Root()), made)
    {
      var bvid := ExtractBvid(url);
      if bvid.None? {
        return Failure(InvalidLink);
      }
      requests := requests + [VideoInfoRequest(bvid.value)];
      var lookup := GetCollectionInfo(api, bvid.value);
      if lookup.Failure? {
        return Failure(lookup.error);
      }
      if lookup.value.None? {
        var single := DownloadVideo(url, ".", 1);
        if single.Failure? {
          return Failure(single.error);
        }
        return Success(Some(single.value));
      }
      r := DownloadCollected(lookup.value.value);
    }

    /** The part of `downloadCollection` after a collection was found: the
        directory named by the sanitised title is created under the root, and the
        episodes are downloaded into it in order until one fails. */
    method DownloadCollected(collection: CollectionInfo) returns (r: Result<Option<Path>, Error>)
      modifies this`requests, this`downloads, files`entries
      ensures var dir := old(files.ResolveIn(Sanitize(collection.title)));
        var calls := EpisodeCalls(collection.episodes, dir);
        var outcomes := Outcomes(api, calls);
        var k := FirstFailure(outcomes, 0);
        var made := calls[..RunLength(outcomes)];
        && (k == |calls| ==> r == Success(None))
        && (k < |calls| ==> r == Failure(outcomes[k].error))
        && downloads == old(downloads) + made
        && requests == old(requests) + RequestsOf(api, made)
        && files.entries == old(files.entries) + {dir} + CreatedBy(api, old(files.Root()), made)
      ensures files.Root() == old(files.Root())
    {
      var dirName := Sanitize(collection.title);
      var targetDir := files.EnsureDir(dirName);
      ghost var outcomes := Outcomes(api, EpisodeCalls(collection.episodes, targetDir));
      OutcomesOfEpisodes(api, collection.episodes, targetDir);
      ghost var traces := EpisodeTraceSeq(api, files.Root(), collection.episodes, targetDir);
      r := DownloadEpisodes(collection.episodes, targetDir, outcomes, traces);
      TracesOfEpisodes(api, files.Root(), collection.episodes, targetDir, traces, RunLength(outcomes));
    }

    /** One pass of the loop of `downloadCollection`: the call for episode `i`,
        whose outcome is `outcomes[i]`. */
    method DownloadEpisode(episodes: seq<Episode>, i: nat, targetDir: Path,
                           ghost outcomes: seq<Result<Path, Error>>, ghost traces: seq<Trace>)
      returns (result: Result<Path, Error>)
      requires i < |episodes| && EpisodeOutcomes(api, episodes, targetDir, outcomes)
      requires EpisodeTraces(api, files.Root(), episodes, targetDir, traces)
      modifies this`requests, this`downloads, files`entries
      ensures result == outcomes[i]
      ensures downloads == old(downloads) + [EpisodeCall(episodes[i], targetDir)]
      ensures requests == old(requests) + traces[i].requests
      ensures files.entries == old(files.entries) + traces[i].creates
      ensures files.Root() == old(files.Root())
    {
      var episode := episodes[i];
      // A falsy page leaves `downloadVideo`'s default page number, 1.
      var page := if episode.page.Some? && episode.page.value != 0 then episode.page.value else 1;
      result := DownloadVideo(VideoPageUrl(episode.bvid), targetDir, page);
      assert result == VideoOutcome(api, EpisodeCall(episodes[i], targetDir));
      assert traces[i] == CallTrace(api, files.Root(), EpisodeCall(episodes[i], targetDir));
    }

    /** The loop of `downloadCollection`: one `downloadVideo` per episode, in order,
        until one fails; `outcomes` holds what each episode's call yields. */
    method DownloadEpisodes(episodes: seq<Episode>, targetDir: Path,
                            ghost outcomes: seq<Result<Path, Error>>, ghost traces: seq<Trace>)
      returns (r: Result<Option<Path>, Error>)
      requires EpisodeOutcomes(api, episodes, targetDir, outcomes)
      requires EpisodeTraces(api, files.Root(), episodes, targetDir, traces)
      modifies this`requests, this`downloads, files`entries
      ensures var k := FirstFailure(outcomes, 0);
        && (k == |outcomes| ==> r == Success(None))
        && (k < |outcomes| ==> r == Failure(outcomes[k].error))
      ensures var n := RunLength(outcomes);
        && downloads == old(downloads) + EpisodeCalls(episodes, targetDir)[..n]
        && requests == old(requests) + TraceRequests(traces[..n])
        && files.entries == old(files.entries) + TraceCreates(traces[..n])
      ensures files.Root() == old(files.Root())
    {
      ghost var calls := EpisodeCalls(episodes, targetDir);
      var i := 0;
      while i < |episodes|
        invariant 0 <= i <= |episodes|
        invariant forall j :: 0 <= j < i ==> outcomes[j].Success?
        invariant files.Root() == old(files.Root())
        invariant downloads == old(downloads) + calls[..i]
        invariant requests == old(requests) + TraceRequests(traces[..i])
        invariant files.entries == old(files.entries) + TraceCreates(traces[..i])
      {
        var result := DownloadEpisode(episodes, i, targetDir, outcomes, traces);
        PrefixStep(calls, i);
        TraceStep(traces, i);
        if result.Failure? {
          FirstFailureAt(outcomes, i);
          return Failure(result.error);
        }
        i := i + 1;
      }
      FirstFailureAt(outcomes, i);
      r := Success(None);
    }
  }
}
