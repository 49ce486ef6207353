/** utils/BilibiliAPI.js: the metadata client. The HTTP endpoints are not
    modelled; what they answer is given as a value (`Server`, `InfoReply`, one
    `PageReply` per favourites page), and this module models how the client
    turns those answers into collections and favourites lists. */
module Api {
  import opened Common
  import opened Text

  // ---------------------------------------------------------------------------
  // Video metadata (`/x/web-interface/view`) and playable addresses (`/x/player/playurl`)
  // ---------------------------------------------------------------------------

  /** One entry of a video's `pages`: its number, stream id and part title. */
  datatype Page = Page(page: int, cid: int, part: string)

  /** An entry of a collection: a multi-part page or a season episode. */
  datatype Episode = Episode(title: string, bvid: string, cid: Option<int>, page: Option<int>)

  datatype Section = Section(episodes: seq<Episode>)

  datatype Season = Season(title: string, sections: seq<Section>)

  /** The fields of `response.data.data` the downloader reads. */
  datatype VideoInfo = VideoInfo(
    bvid: string,
    title: string,
    cid: int,
    pages: Option<seq<Page>>,
    ugcSeason: Option<Season>)

  datatype CollectionInfo = CollectionInfo(title: string, episodes: seq<Episode>)

  /** What the upstream answers: video metadata by BV id, playable addresses by
      (BV id, cid), the addresses whose GET request is rejected, and the
      addresses whose transfer breaks off after the response arrived. A
      metadata request for a key that is absent fails. */
  datatype Server = Server(
    videos: map<string, VideoInfo>,
    playUrls: map<(string, int), string>,
    refusedStreams: set<string>,
    brokenStreams: set<string>)

  /** `getVideoInfo(bvid)`: every failure becomes '获取视频信息失败'. */
  function GetVideoInfo(server: Server, bvid: string): (r: Result<VideoInfo, Error>)
    ensures r.Success? <==> bvid in server.videos
    ensures r.Failure? ==> r.error == VideoInfoFailed
    ensures r.Success? ==> r.value == server.videos[bvid]
  {
    if bvid in server.videos then Success(server.videos[bvid]) else Failure(VideoInfoFailed)
  }

  /** `getVideoUrl(bvid, cid)`: every failure becomes '获取视频下载地址失败'. */
  function GetVideoUrl(server: Server, bvid: string, cid: int): (r: Result<string, Error>)
    ensures r.Success? <==> (bvid, cid) in server.playUrls
    ensures r.Failure? ==> r.error == VideoUrlFailed
    ensures r.Success? ==> r.value == server.playUrls[(bvid, cid)]
  {
    if (bvid, cid) in server.playUrls then Success(server.playUrls[(bvid, cid)]) else Failure(VideoUrlFailed)
  }

  // ---------------------------------------------------------------------------
  // Collections
  // ---------------------------------------------------------------------------

  /** `videoInfo.pages?.length > 1` */
  predicate IsMultiPart(info: VideoInfo)
  {
    info.pages.Some? && |info.pages.value| > 1
  }

  /** `_handleMultiPartVideo`: the video's title, and one episode per page, in
      page order, carrying the video's BV id and the page's cid, number and part title. */
  function HandleMultiPartVideo(info: VideoInfo): (c: CollectionInfo)
    requires info.pages.Some?
    ensures c.title == info.title
    ensures |c.episodes| == |info.pages.value|
    ensures forall i :: 0 <= i < |c.episodes| ==>
      var p := info.pages.value[i];
      c.episodes[i] == Episode(p.part, info.bvid, Some(p.cid), Some(p.page))
  {
    var pages := info.pages.value;
    CollectionInfo(info.title,
      seq(|pages|, i requires 0 <= i < |pages| => Episode(pages[i].part, info.bvid, Some(pages[i].cid), Some(pages[i].page))))
  }

  /** `_handleUgcSeason`: the season's title and its first section's episodes as
      they are; a season without sections makes `sections[0].episodes` throw. */
  function HandleUgcSeason(info: VideoInfo): (r: Result<CollectionInfo, Error>)
    requires info.ugcSeason.Some?
    ensures r.Failure? <==> info.ugcSeason.value.sections == []
    ensures r.Success? ==>
      r.value.title == info.ugcSeason.value.title &&
      r.value.episodes == info.ugcSeason.value.sections[0].episodes
  {
    var season := info.ugcSeason.value;
    if season.sections == [] then Failure(MalformedResponse)
    else Success(CollectionInfo(season.title, season.sections[0].episodes))
  }

  /** The classification step of `getCollectionInfo`: a multi-part video wins over
      a season; with neither the answer is null. */
  function CollectionOf(info: VideoInfo): (r: Result<Option<CollectionInfo>, Error>)
    ensures IsMultiPart(info) ==> r == Success(Some(HandleMultiPartVideo(info)))
    ensures !IsMultiPart(info) && info.ugcSeason.Some? ==>
      (r.Success? <==> HandleUgcSeason(info).Success?) &&
      (r.Success? ==> r.value == Some(HandleUgcSeason(info).value))
    ensures r == Success(None) <==> !IsMultiPart(info) && info.ugcSeason.None?
  {
    if IsMultiPart(info) then Success(Some(HandleMultiPartVideo(info)))
    else if info.ugcSeason.Some? then
      match HandleUgcSeason(info)
      case Success(c) => Success(Some(c))
      case Failure(e) => Failure(e)
    else Success(None)
  }

  /** `getCollectionInfo(bvid)`: the video's metadata, then its multi-part pages
      or its season. */
  function GetCollectionInfo(server: Server, bvid: string): (r: Result<Option<CollectionInfo>, Error>)
    ensures bvid !in server.videos ==> r == Failure(VideoInfoFailed)
    ensures bvid in server.videos ==> r == CollectionOf(server.videos[bvid])
  {
    match GetVideoInfo(server, bvid)
    case Failure(e) => Failure(e)
    case Success(info) => CollectionOf(info)
  }

  // ---------------------------------------------------------------------------
  // Favourites (`getFavList`)
  // ---------------------------------------------------------------------------

  const PageSize: nat := 20

  /** A favourites folder's description. */
  datatype Folder = Folder(id: nat, title: string, mediaCount: nat)

  /** `infoResponse.data.data`: `info` for an owned folder, `list` for subscribed ones. */
  datatype FavData = FavData(info: Option<Folder>, list: Option<seq<Folder>>)

  /** The answer to the first (folder-information) request. */
  datatype InfoReply =
    | InfoUnreachable
    | InfoReply(code: int, message: string, data: Option<FavData>)

  datatype Media = Media(id: nat, title: string, bvid: string)

  datatype PageData = PageData(medias: Option<seq<Media>>)

  /** The answer to one page request. */
  datatype PageReply =
    | PageUnreachable
    | PageReply(code: int, data: Option<PageData>)

  datatype VideoEntry = VideoEntry(title: string, bvid: string)

  datatype FavList = FavList(title: string, videos: seq<VideoEntry>)

  /** `item.id.toString() === targetFid` */
  predicate FolderMatches(f: Folder, fid: string)
  {
    NatToString(f.id) == fid
  }

  predicate IsFirstFolder(list: seq<Folder>, fid: string, k: int)
  {
    0 <= k < |list| && FolderMatches(list[k], fid) && forall j :: 0 <= j < k ==> !FolderMatches(list[j], fid)
  }

  function FolderIndex(list: seq<Folder>, fid: string, from: nat): (k: Option<nat>)
    requires from <= |list|
    requires forall j :: 0 <= j < from ==> !FolderMatches(list[j], fid)
    ensures k.None? <==> forall j :: 0 <= j < |list| ==> !FolderMatches(list[j], fid)
    ensures k.Some? ==> IsFirstFolder(list, fid, k.value)
    decreases |list| - from
  {
    if from == |list| then None
    else if FolderMatches(list[from], fid) then Some(from)
    else FolderIndex(list, fid, from + 1)
  }

  /** `_findCollectedFavInfo(data, targetFid)`: null without data or list,
      otherwise the first folder whose id reads as `targetFid`, if any. */
  function FindCollectedFolder(data: Option<FavData>, fid: string): (r: Option<Folder>)
    ensures data.None? || data.value.list.None? ==> r.None?
    ensures data.Some? && data.value.list.Some? ==>
      var list := data.value.list.value;
      && (r.None? <==> forall j :: 0 <= j < |list| ==> !FolderMatches(list[j], fid))
      && (r.Some? ==> exists k :: IsFirstFolder(list, fid, k) && r.value == list[k])
  {
    if data.None? || data.value.list.None? then None
    else
      var list := data.value.list.value;
      match FolderIndex(list, fid, 0)
      case None => None
      case Some(k) => Some(list[k])
  }

  /** The folder-information step of `getFavList`: a failed request, a non-zero
      code (thrown with the upstream message) or a missing folder is an error;
      a folder comes only from a reply with code 0. */
  function FolderOf(fid: string, kind: string, reply: InfoReply): (r: Result<Folder, Error>)
    ensures r == Failure(NetworkFailure) <==> reply.InfoUnreachable?
    ensures r.Failure? && r.error.ApiRejected? <==> reply.InfoReply? && reply.code != 0
    ensures r.Failure? && r.error.ApiRejected? ==> r.error.message == reply.message
    ensures r.Success? ==> reply.InfoReply? && reply.code == 0 && reply.data.Some?
    ensures r.Success? && kind == "collected" ==>
      var list := reply.data.value.list;
      list.Some? && exists k :: IsFirstFolder(list.value, fid, k) && r.value == list.value[k]
    ensures r.Success? && kind != "collected" ==> reply.data.value.info == Some(r.value)
    ensures (reply.InfoReply? && reply.code == 0 &&
             if kind == "collected" then FindCollectedFolder(reply.data, fid).Some?
             else reply.data.Some? && reply.data.value.info.Some?) ==> r.Success?
    ensures r == Failure(FolderNotFound) <==>
      reply.InfoReply? && reply.code == 0 &&
      if kind == "collected" then FindCollectedFolder(reply.data, fid).None?
      else reply.data.Some? && reply.data.value.info.None?
    ensures r == Failure(MalformedResponse) <==>
      reply.InfoReply? && reply.code == 0 && kind != "collected" && reply.data.None?
  {
    match reply
    case InfoUnreachable => Failure(NetworkFailure)
    case InfoReply(code, message, data) =>
      if code != 0 then Failure(ApiRejected(message))
      else if kind == "collected" then
        match FindCollectedFolder(data, fid)
        case None => Failure(FolderNotFound)
        case Some(f) => Success(f)
      else if data.None? then Failure(MalformedResponse)
      else if data.value.info.None? then Failure(FolderNotFound)
      else Success(data.value.info.value)
  }

  /** `Math.ceil(totalCount / pageSize)`: just enough pages of 20 to hold every item. */
  function TotalPages(count: nat): (n: nat)
    ensures n * PageSize >= count
    ensures n > 0 ==> (n - 1) * PageSize < count
  {
    (count + PageSize - 1) / PageSize
  }

  /** A page whose answer throws: the request failed, or the code is 0 but `data` is missing. */
  predicate PageThrows(reply: PageReply)
  {
    reply.PageUnreachable? || (reply.code == 0 && reply.data.None?)
  }

  function PageError(reply: PageReply): Error
    requires PageThrows(reply)
  {
    if reply.PageUnreachable? then NetworkFailure else MalformedResponse
  }

  /** The items a page contributes: its medias when the code is 0 and they are
      present, nothing otherwise. */
  function PageItems(reply: PageReply): seq<Media>
  {
    if reply.PageReply? && reply.code == 0 && reply.data.Some? && reply.data.value.medias.Some?
    then reply.data.value.medias.value
    else []
  }

  /** The items of pages 1..`last`, in page order. */
  function Collected(pageReply: int -> PageReply, last: nat): seq<Media>
  {
    if last == 0 then [] else Collected(pageReply, last - 1) + PageItems(pageReply(last))
  }

  /** Pages 1..`last`, in increasing order. */
  function PageNumbers(last: nat): (s: seq<int>)
  {
    seq(last, i requires 0 <= i < last => i + 1)
  }

  /** The first page in `from`..`last` whose answer throws, or `last + 1`. */
  function FirstThrowingPage(pageReply: int -> PageReply, from: nat, last: nat): (k: nat)
    requires 1 <= from <= last + 1
    ensures from <= k <= last + 1
    ensures forall p :: from <= p < k ==> !PageThrows(pageReply(p))
    ensures k <= last ==> PageThrows(pageReply(k))
    decreases last + 1 - from
  {
    if from == last + 1 then from
    else if PageThrows(pageReply(from)) then from
    else FirstThrowingPage(pageReply, from + 1, last)
  }

  /** `getFavList(mid, fid, type)`: reads the folder, then requests pages
      1..ceil(count/20) in order, keeping the medias of the pages that answer
      with code 0, and returns them as `{title, bvid}` entries. Every error is
      re-thrown as a favourites failure. `requested` records the page requests. */
  method GetFavList(fid: string, kind: string, infoReply: InfoReply, pageReply: int -> PageReply)
    returns (r: Result<FavList, Error>, ghost requested: seq<int>)
    ensures FolderOf(fid, kind, infoReply).Failure? ==>
      r == Failure(FavoritesFailed(FolderOf(fid, kind, infoReply).error)) && requested == []
    ensures FolderOf(fid, kind, infoReply).Success? ==>
      var folder := FolderOf(fid, kind, infoReply).value;
      var last := TotalPages(folder.mediaCount);
      var k := FirstThrowingPage(pageReply, 1, last);
      && (k <= last ==> r == Failure(FavoritesFailed(PageError(pageReply(k)))) && requested == PageNumbers(k))
      && (k > last ==> requested == PageNumbers(last) && r.Success?)
    ensures r.Success? ==>
      var folder := FolderOf(fid, kind, infoReply).value;
      var items := Collected(pageReply, TotalPages(folder.mediaCount));
      && FolderOf(fid, kind, infoReply).Success?
      && r.value.title == folder.title
      && |r.value.videos| == |items|
      && forall i :: 0 <= i < |items| ==> r.value.videos[i] == VideoEntry(items[i].title, items[i].bvid)
  {
    requested := [];
    var info := FolderOf(fid, kind, infoReply);
    if info.Failure? {
      return Failure(FavoritesFailed(info.error)), requested;
    }
    var folder := info.value;
    var totalPages := TotalPages(folder.mediaCount);
    ghost var k := FirstThrowingPage(pageReply, 1, totalPages);
    var allVideos: seq<Media> := [];
    var page := 1;
    while page <= totalPages
      invariant 1 <= page <= totalPages + 1
      invariant requested == PageNumbers(page - 1)
      invariant allVideos == Collected(pageReply, page - 1)
      invariant k >= page
    {
      PageNumbersNext(page - 1);
      requested := requested + [page];
      var reply := pageReply(page);
      if PageThrows(reply) {
        assert k == page;
        return Failure(FavoritesFailed(PageError(reply))), requested;
      }
      if reply.code == 0 && reply.data.value.medias.Some? {
        allVideos := allVideos + reply.data.value.medias.value;
      }
      page := page + 1;
    }
    var videos := seq(|allVideos|, i requires 0 <= i < |allVideos| => VideoEntry(allVideos[i].title, allVideos[i].bvid));
    r := Success(FavList(folder.title, videos));
  }

  lemma PageNumbersNext(last: nat)
    ensures PageNumbers(last) + [last + 1] == PageNumbers(last + 1)
  {
  }
}
