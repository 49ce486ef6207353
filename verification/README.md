# bv-downloader, modelled in Dafny

bv-downloader is a command-line tool that downloads Bilibili videos. The user
types a video link. As the program is meant to work, the tool asks whether to
skip the duration check, which directory to save into, and whether to fetch one
video or the whole collection the video belongs to; as written, it stops after
the first question (see Findings). After the questions, it asks the Bilibili
web API for the video's metadata and stream address and writes the stream to an
`.mp4` file.

This project models the tool's core, file by file:

- `files.dfy` (`utils/FileManager.js`): file-name sanitising as a pure
  function, and the `FileManager` object as a class. The class holds the
  download root and the set of paths that exist on disk.
- `api.dfy` (`utils/BilibiliAPI.js`): the metadata client. It covers video
  metadata, stream addresses, collections (multi-part videos and seasons) and
  the paginated favourites list. The upstream's answers are a value
  (`Api.Server`, `Api.InfoReply`, one `Api.PageReply` per page). The
  favourites loop is a method.
- `downloader.dfy` (`utils/VideoDownloader.js`):
  - pure parts: BV-id extraction, cid selection, file naming, and the planning
    of one download;
  - the `VideoDownloader` object as a class. It logs the metadata requests it
    issues and the `downloadVideo` calls it makes, and it creates directories
    and files through its `FileManager`.
- `ui.dfy` (`formatDuration` of `utils/UIManager.js`): the formatter, plus a
  parser for its output that shows the format loses nothing.
- `entry.dfy` (`index.js`): what one typed line leads to. That covers which
  questions are asked and in what order, which settings are taken, and which
  download starts. The answers are given as strings.
- `text.dfy` and `common.dfy`: the string helpers these share (JavaScript's
  whitespace set, `trim`, `includes`, decimal digits) and `Option`/`Result`.

Three things about the code shape the model:

- `downloadCollection`'s loop has no `try`, so the first failing episode ends
  the collection (utils/VideoDownloader.js:108-117).
- Nothing checks a video's duration, skips an existing file or asks before a
  collection starts. `fileExists` is defined but never called.
- index.js calls `downloadFavorites` and `setIgnoreDuration`, which the
  downloader does not define. See Findings.

## Model

| member | source | states |
|---|---|---|
| Text.TrimPadded | index.js:57 | `trim` removes exactly the whitespace around a word whose ends are not whitespace |
| Text.TrimWord | index.js:57 | a word whose ends are not whitespace is its own `trim` |
| Text.TrimAround | index.js:57 | the same whitespace put on both sides of such a word does not change its `trim` |
| Files.Sanitize | utils/FileManager.js:23-28 | the sanitised name has no `<>:"/\|?*`, its only whitespace is single spaces between words, it has no whitespace at either end, and its non-whitespace text is the input's with each illegal character replaced by `_` |
| Files.SanitizeSplit | utils/FileManager.js:23-28 | whitespace of any length between two words becomes exactly one space: sanitising `a`, whitespace, `b` gives sanitised `a`, one space, sanitised `b` |
| Files.SanitizeWord | utils/FileManager.js:23-28 | a name without whitespace only has its illegal characters replaced |
| Files.SanitizePadded | utils/FileManager.js:23-28 | whitespace before and after a word is dropped |
| Files.ReplaceIllegalShape | utils/FileManager.js:25 | the replacement keeps the length and never creates or removes whitespace: a word stays a word, whitespace stays whitespace |
| Files.NonSpaceOfReplaceIllegal | utils/FileManager.js:25 | the non-whitespace text of the replaced name is the input's non-whitespace text with each illegal character turned into `_` |
| Files.CollapseSpaces | utils/FileManager.js:26 | the result is empty exactly when the input is, starts with whitespace exactly when the input does, has only single plain spaces as whitespace, and keeps the non-whitespace text |
| Files.CollapseSpan | utils/FileManager.js:26 | a whitespace run in front of a word becomes one space |
| Files.CollapseAppend | utils/FileManager.js:26 | no whitespace run crosses the end of a piece that ends in a non-space, so such a piece and what follows it collapse separately |
| Text.Trim | utils/FileManager.js:27 | no whitespace is left at either end, the non-whitespace text is unchanged, single spacing is kept, and the result is empty exactly when the input is all whitespace |
| Files.SanitizeIdempotent | utils/FileManager.js:23-28 | sanitising a sanitised name changes nothing |
| Files.SanitizeEmpty | utils/FileManager.js:23-28 | the name comes out empty exactly when the input is empty or all whitespace |
| Files.FileManager.constructor | utils/FileManager.js:5-7 | the new manager has the given root and the file system as given |
| Files.FileManager.SetBaseDir | utils/FileManager.js:9-12 | the root becomes `dir` and the same object is returned; nothing on disk changes |
| Files.FileManager.EnsureDir | utils/FileManager.js:14-21 | the returned path is `dirPath` resolved against the root; afterwards it exists; nothing else is created; an existing directory leaves the disk unchanged |
| Files.FileManager.CreateWriteStream | utils/FileManager.js:30-33 | opening the stream creates the file at the name resolved against the root, and nothing else |
| Files.FileManager.FileExists | utils/FileManager.js:35-37 | true exactly when the path resolved against the current root exists |
| Api.GetVideoInfo | utils/BilibiliAPI.js:11-18 | succeeds exactly for a video the upstream knows, with the upstream's metadata for that BV id; every failure is the video-information error |
| Api.GetVideoUrl | utils/BilibiliAPI.js:20-27 | succeeds exactly when the upstream has an address for the BV id and cid, and returns that address; every failure is the download-address error |
| Api.GetCollectionInfo | utils/BilibiliAPI.js:29-38 | an unknown video fails with the video-information error; otherwise the result is the collection the video's metadata describes |
| Api.HandleMultiPartVideo | utils/BilibiliAPI.js:40-50 | the collection has the video's title and one episode per page, in page order, carrying the video's BV id and the page's part title, cid and number |
| Api.HandleUgcSeason | utils/BilibiliAPI.js:52-57 | the season's title and its first section's episodes, unchanged; a season without sections is an error |
| Api.CollectionOf | utils/BilibiliAPI.js:29-38 | a multi-part video (more than one page) wins over a season; null exactly when the video has neither |
| Api.FindCollectedFolder | utils/BilibiliAPI.js:112-115 | null without data or list; otherwise the first folder whose id reads as the target, and null exactly when none does |
| Api.FolderOf | utils/BilibiliAPI.js:59-78 | an unreachable server, a non-zero code (carrying the upstream message) and a missing folder are distinct errors; a folder comes only from a code-0 reply, from `list` for the `collected` kind and from `info` otherwise; a code-0 reply that holds the folder always yields it |
| Api.TotalPages | utils/BilibiliAPI.js:80-82 | the fewest pages of 20 that hold every item |
| Api.FirstThrowingPage | utils/BilibiliAPI.js:87-95 | the first page in range whose request throws; every earlier page answers |
| Api.GetFavList | utils/BilibiliAPI.js:59-110 | a folder error is rethrown as a favourites error with no page requested; otherwise pages 1, 2, … are requested in order up to the first that throws (whose error is rethrown); if none throws, the result is the folder's title and the `{title, bvid}` of every media of every code-0 page, in page order |
| Downloader.ExtractBvid | utils/VideoDownloader.js:16-18 | undefined exactly when the URL has no `BV` followed by a letter or digit; otherwise the id at the leftmost such position, extended over every following letter and digit |
| Downloader.ExtractBvidOfVideoPageUrl | utils/VideoDownloader.js:113-115 | the URL built for an episode yields that episode's BV id again |
| Downloader.GetCid | utils/VideoDownloader.js:20-26 | past page 1 on a video that lists its pages, the cid of the first page with that number, and undefined exactly when no page has it; otherwise the video's own cid |
| Downloader.GetCidOfListedPage | utils/VideoDownloader.js:20-26 | when page numbers are unique, asking for a listed page's number yields that page's cid |
| Downloader.FileNameIsLegal | utils/VideoDownloader.js:28-31 | the file name starts with the sanitised title, ends in `.mp4` and holds no illegal character |
| Downloader.FileNamesDistinct | utils/VideoDownloader.js:28-31 | two different page numbers (from 1 up) of one video give different file names |
| Downloader.PlanVideo | utils/VideoDownloader.js:64-79 | an invalid link fails before any request; otherwise metadata is requested first; a missing or zero cid fails with the CID error after that one request; on success, the stream of the selected cid is requested second, and the plan carries that address and the generated file name |
| Downloader.PlanVideoOutcomes | utils/VideoDownloader.js:64-79 | an unknown video fails with the video-information error after its one request; with the video known and its cid usable, the plan succeeds exactly when the stream address is known, and otherwise fails with the download-address error after both requests |
| Downloader.UnlistedPageIsCidError | utils/VideoDownloader.js:20-26 | asking for a page the video does not list fails with the CID error, and no stream address is requested |
| Downloader.CallEffects | utils/VideoDownloader.js:64-90 | a call whose plan fails yields that error and creates nothing; when the video, a usable cid and its stream address are known, the file is `<targetDir>/<generated name>`: a refused stream gives the network error and only the directory, otherwise the directory and the file are created and the file's path is returned unless the stream breaks off |
| Downloader.EpisodeCallTargets | utils/VideoDownloader.js:112-116 | an episode's call fetches that episode's video (its link gives back the BV id) into the collection directory, with a truthy page kept and any other read as 1 |
| Downloader.SavedFilesExist | utils/VideoDownloader.js:108-117 | every file a run of calls saved, and its directory, is among the paths the run creates |
| Downloader.RequestsOfPrefix | utils/VideoDownloader.js:108-117 | the requests of a run cut short are a prefix of the requests of the whole run |
| Downloader.RunLength | utils/VideoDownloader.js:108-117 | the number of calls a run makes: all of them when none fails, otherwise up to and including the first failure |
| Downloader.OutcomesAt | utils/VideoDownloader.js:108-117 | the i-th outcome of a run of calls is the outcome of the i-th call |
| Downloader.FirstFailure | utils/VideoDownloader.js:108-117 | the position of the first failed outcome; all before it succeeded |
| Downloader.FirstFailureAt | utils/VideoDownloader.js:108-117 | a position with only successes before it and a failure at it is the first failure |
| Downloader.MultiPartEpisodesPlanOwnPages | utils/VideoDownloader.js:108-116 | each episode of a multi-part video selects its own page's cid, and no two episodes write the same file |
| Downloader.VideoDownloader.constructor | utils/VideoDownloader.js:6-9 | the downloader holds the given client and file manager, and has issued nothing yet |
| Downloader.VideoDownloader.SetDownloadDir | utils/VideoDownloader.js:11-14 | the file manager's root becomes `dir`; the same object is returned |
| Downloader.VideoDownloader.DownloadVideo | utils/VideoDownloader.js:64-90 | the call and exactly its plan's metadata requests are logged; the result is the call's outcome: the plan's error, the transfer's error, or the saved file's path; the disk gains exactly the call's paths: nothing for a failed plan, the directory alone for a rejected stream request, the directory and the file otherwise; the root does not move; a returned path exists |
| Downloader.VideoDownloader.Store | utils/VideoDownloader.js:33-62 | the target directory is created first; a rejected stream request fails with the network error and opens no file; otherwise the file is created too, a stream that breaks off is a transfer error, and a completed one returns the joined path, which exists; nothing else is created |
| Downloader.VideoDownloader.DownloadCollection | utils/VideoDownloader.js:92-120 | an invalid link fails with nothing requested, called or created; a failed lookup fails after its one request with nothing called or created; without a collection, exactly one call for page 1 into `.`, with exactly that call's requests and paths; with one, the directory named by the sanitised title is created, and the episodes' calls are made in order up to and including the first failure, whose error is the result, with exactly those calls' requests and paths |
| Downloader.VideoDownloader.DownloadEpisode | utils/VideoDownloader.js:109-116 | one episode's call, with the page when it is truthy and page 1 otherwise, yields that episode's outcome and leaves exactly that call's requests and paths |
| Downloader.OutcomesOfEpisodes | utils/VideoDownloader.js:108-117 | the i-th outcome of the collection's run of calls is what the i-th episode's call (its BV id's page link, its page, the collection directory) yields |
| Downloader.VideoDownloader.DownloadCollected | utils/VideoDownloader.js:102-117 | the directory named by the sanitised collection title is created; the episodes' calls are made in order up to and including the first failure, whose error is the result (with no failure, all are made); the requests and the created paths are exactly those of the calls made |
| Downloader.VideoDownloader.DownloadEpisodes | utils/VideoDownloader.js:108-117 | the calls for the episodes are made in order up to and including the first failure, whose error is the result (with no failure, all are made); the requests and the created paths are exactly those of the calls made |
| Ui.DurationDecomposition | utils/UIManager.js:169-172 | hours, minutes and seconds are a mixed-radix decomposition of the duration; the hours are non-zero exactly from 3600 s, and (without hours) the minutes from 60 s |
| Ui.ParseFormatDuration | utils/UIManager.js:169-181 | reading the formatted text gives back the number of seconds |
| Ui.FormatDurationInjective | utils/UIManager.js:169-181 | different durations are formatted differently |
| Entry.IgnoresDurationIff | index.js:37-39 | exactly `y` and `Y` turn the duration check off |
| Entry.ChooseMode | index.js:57-67 | after trimming, `1` is a single video, `2` the collection, anything else a single video with a warning |
| Entry.ChooseModePadded | index.js:57 | the same whitespace typed on both sides of an answer does not change the mode it selects |
| Entry.DirectoryChoice | index.js:22-31 | a blank answer keeps the current root; any other is resolved as typed against the working directory |
| Entry.AskDownloadDirectory | index.js:22-32 | a blank answer changes nothing; otherwise the resolved directory exists and becomes the download root |
| Entry.HandleLine | index.js:22-91 | a line without `bilibili.com/` is rejected with no question; otherwise the settings question comes first, then the directory question; a favourites link asks no mode question; any other link asks for the mode and starts that download |
| Entry.AsWrittenNeverDownloads | index.js:35-38 | as written, no line reaches the directory question or a download |
| Entry.VideoPageAccepted | index.js:77 | the link to any video page passes the `bilibili.com/` test |
| Entry.VideoPageNotFavorites | index.js:46 | the link to a video page is never taken for a favourites link |
| Entry.AsWrittenExample | index.js:38 | as written, the link to any video page aborts after the settings question, with no setting taken |
| Entry.IntendedCollectionRun | index.js:45-67 | with the two methods present, a video link answered `2` asks all three questions and downloads the collection |
| Entry.IntendedVideoPageRun | index.js:45-67 | with the two methods present, the link to any video page answered `2` asks all three questions and downloads the collection |

## Left out

- The HTTP transfer, the progress bar and the HTTP headers are not modelled. The stream request is either rejected before the file is opened (`Api.Server.refusedStreams`), or the stream completes or breaks off (`Api.Server.brokenStreams`).
- Downloader.VideoDownloader.Store: an error of the file writer itself is not modelled; only the stream's own error is.
- Api.GetVideoInfo: a reply without `data` (a non-zero code) is modelled as the video-information error after the one request. The source returns `undefined` there, and the next property read (in `_getCid` or `getCollectionInfo`) throws a TypeError instead. The run stops at the same point with a different message.
- Network failures of the metadata requests are not modelled apart from "the answer is missing", which is the only thing the client reacts to.
- The one-second pause between favourites pages is left out. Time is not modelled.
- Console and coloured terminal output are left out. The `UIManager` methods other than `formatDuration` only print.
- readline and the SIGINT handler are left out. The answers to the prompts are parameters, and `rl.close()` has no observable effect in the model.
- `path.resolve` is modelled without normalising `.`/`..` segments. `path.join` is modelled without collapsing separators, and a leading `.` segment is kept: the model joins `.` and `x.mp4` to `./x.mp4` where Node gives `x.mp4`. Node resolves both to the same file; the model, which does not normalise, keeps the `./` in the resolved path as well.
- Directory creation is modelled without creating parent directories (`recursive: true`) and without failing.
- Downloader.VideoDownloader.DownloadVideo: the metadata steps are modelled through `Downloader.PlanVideo` on the `Api.Server` value, not as separate awaited calls.
- The duration gate, the skip of existing files and the confirmation of collections are not modelled, because the modelled code has none of them.
- `downloadFavorites` and `setIgnoreDuration` are not modelled: the downloader class does not define them. `Entry.Capabilities` says whether they exist. `Api.GetFavList` models the favourites lookup `BilibiliAPI` offers.
- Ui.FormatDuration: durations are natural numbers. Negative and fractional seconds are not modelled.
- Api.GetFavList: the `mid` argument, which only enters the URL of the `collected` folder request, and the URL strings are not modelled. The folder reply is the `infoReply` parameter. The `type` argument is the `kind` string.
- Api.HandleUgcSeason: season episodes keep their upstream fields. A `page` that is an object rather than a number is not modelled, so `Downloader.EpisodeCall` treats a present non-zero `page` as the page number.
- Entry.IgnoresDuration: `toLowerCase` is modelled on ASCII letters only. That is exact for the comparison with `y`.
- Entry.HandleLine: the errors raised inside a download are caught by `handleUserChoice` and only printed. The model records which download starts, not its result.

## Findings

| source | as written | input that shows it | evidently intended | confidence | as-written member | corrected member |
|---|---|---|---|---|---|---|
| index.js:38, index.js:48 | `askGlobalSettings` calls `downloader.setIgnoreDuration` and `handleUserChoice` calls `downloader.downloadFavorites`. `VideoDownloader` defines neither, so the first call throws and the line handler's `catch` ends the run after the settings question. | the link to any video page, `https://www.bilibili.com/video/` followed by a BV id, with any answers | the directory and mode questions follow and the chosen download starts | not executed | Entry.AsWrittenNeverDownloads | Entry.IntendedCollectionRun |
