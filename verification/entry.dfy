/** index.js: what the program does with the line typed at its prompt. The
    readline plumbing is left out; the answers to the three questions are given
    as strings, and one run of the `line` handler becomes a `Run` value recording
    which questions were asked, in order, the settings taken, and the download
    started. The methods `downloadFavorites` and `setIgnoreDuration` that the
    handler calls are not defined by the downloader object; whether the object
    provides them is the `Capabilities` parameter. */
module Entry {
  import opened Common
  import opened Text
  import opened Files
  import opened Downloader

  // ---------------------------------------------------------------------------
  // Tests on the typed line and on the answers
  // ---------------------------------------------------------------------------

  /** The line handler only proceeds for lines that contain `bilibili.com/`. */
  predicate Accepts(line: string)
  {
    Contains(line, "bilibili.com/")
  }

  /** `handleUserChoice`'s test for a favourites link. */
  predicate IsFavoritesLink(url: string)
  {
    Contains(url, "space.bilibili.com") && Contains(url, "favlist")
  }

  /** The answer to the settings question: `answer.toLowerCase() === 'y'`. */
  predicate IgnoresDuration(answer: string)
  {
    ToLowerAscii(answer) == "y"
  }

  /** Exactly `y` and `Y` switch the duration check off. */
  lemma IgnoresDurationIff(answer: string)
    ensures IgnoresDuration(answer) <==> answer == "y" || answer == "Y"
  {
    assert ToLowerAscii("y") == "y" && ToLowerAscii("Y") == "y";
    if IgnoresDuration(answer) {
      assert |answer| == 1;
      assert ToLowerAscii(answer)[0] == 'y';
      assert answer == [answer[0]];
    }
  }

  /** The download mode `handleUserChoice` picks. */
  datatype Mode = SingleVideo(warned: bool) | WholeCollection

  /** `switch (choice.trim())`: `1` is a single video, `2` the collection, and any
      other answer a single video after a warning. */
  function ChooseMode(choice: string): (m: Mode)
    ensures m == SingleVideo(false) <==> Trim(choice) == "1"
    ensures m == WholeCollection <==> Trim(choice) == "2"
    ensures m == SingleVideo(true) <==> Trim(choice) != "1" && Trim(choice) != "2"
  {
    var c := Trim(choice);
    if c == "1" then SingleVideo(false)
    else if c == "2" then WholeCollection
    else SingleVideo(true)
  }

  /** Whitespace typed around an answer does not change the mode it selects. */
  lemma ChooseModePadded(pad: string, choice: string)
    requires AllSpace(pad)
    requires choice != [] && NoOuterSpace(choice)
    ensures ChooseMode(pad + choice + pad) == ChooseMode(choice)
  {
    TrimAround(pad, choice);
  }

  /** `askDownloadDirectory`'s reading of the answer: nothing for a blank answer,
      otherwise `path.resolve(dir)` of the answer as typed, against the process's
      working directory. */
  function DirectoryChoice(cwd: AbsolutePath, answer: string): (r: Option<AbsolutePath>)
    ensures r.None? <==> AllSpace(answer)
    ensures r.Some? ==> r.value == Resolve(cwd, answer)
  {
    if Trim(answer) == [] then None else Some(Resolve(cwd, answer))
  }

  // ---------------------------------------------------------------------------
  // askDownloadDirectory on the objects
  // ---------------------------------------------------------------------------

  /** `askDownloadDirectory()` with `answer` typed: a blank answer changes nothing;
      any other is resolved, created and made the download root. */
  method AskDownloadDirectory(downloader: VideoDownloader, answer: string) returns (chosen: Option<AbsolutePath>)
    modifies downloader.files
    ensures chosen == DirectoryChoice(downloader.files.cwd, answer)
    ensures chosen.None? ==>
      downloader.files.baseDir == old(downloader.files.baseDir) && downloader.files.entries == old(downloader.files.entries)
    ensures chosen.Some? ==>
      downloader.files.baseDir == chosen.value && downloader.files.entries == old(downloader.files.entries) + {chosen.value}
    ensures chosen.Some? ==> downloader.files.Root() == chosen.value
  {
    chosen := DirectoryChoice(downloader.files.cwd, answer);
    if chosen.Some? {
      var fullPath := chosen.value;
      var _ := downloader.files.EnsureDir(fullPath);
      var _ := downloader.SetDownloadDir(fullPath);
    }
  }

  // ---------------------------------------------------------------------------
  // One run of the line handler
  // ---------------------------------------------------------------------------

  /** Whether the downloader object provides the two methods the handler calls
      but the downloader class does not define. */
  datatype Capabilities = Capabilities(setIgnoreDuration: bool, downloadFavorites: bool)

  /** The downloader as the source defines it: neither method exists. */
  const AsWritten := Capabilities(false, false)

  /** The downloader the handler is written against. */
  const Intended := Capabilities(true, true)

  datatype Prompt = SettingsPrompt | DirectoryPrompt | ChoicePrompt

  datatype Action =
    | Rejected                         // '请输入有效的B站视频URL'
    | Aborted                          // an error reached the handler's catch: '处理失败: ...'
    | FavoritesDownload(url: string)
    | VideoDownload(url: string, mode: Mode)

  /** The questions asked, in order; the duration setting and download root
      taken, when those steps ran; and the download started. */
  datatype Run = Run(prompts: seq<Prompt>, ignoreDuration: Option<bool>, directory: Option<AbsolutePath>, action: Action)

  /** The `line` handler, with `askGlobalSettings`, `askDownloadDirectory` and
      `handleUserChoice` inlined. */
  function HandleLine(cwd: AbsolutePath, caps: Capabilities, line: string,
                      settingsAnswer: string, directoryAnswer: string, choiceAnswer: string): (r: Run)
    ensures !Accepts(line) ==> r == Run([], None, None, Rejected)
    ensures Accepts(line) && !caps.setIgnoreDuration ==> r.prompts == [SettingsPrompt] && r.action == Aborted
    ensures Accepts(line) && caps.setIgnoreDuration ==>
      && |r.prompts| >= 2 && r.prompts[0] == SettingsPrompt && r.prompts[1] == DirectoryPrompt
      && r.ignoreDuration == Some(IgnoresDuration(settingsAnswer))
      && r.directory == DirectoryChoice(cwd, directoryAnswer)
    ensures Accepts(line) && caps.setIgnoreDuration && IsFavoritesLink(line) ==>
      && r.prompts == [SettingsPrompt, DirectoryPrompt]
      && r.action == (if caps.downloadFavorites then FavoritesDownload(line) else Aborted)
    ensures Accepts(line) && caps.setIgnoreDuration && !IsFavoritesLink(line) ==>
      r.prompts == [SettingsPrompt, DirectoryPrompt, ChoicePrompt] && r.action == VideoDownload(line, ChooseMode(choiceAnswer))
  {
    if !Accepts(line) then Run([], None, None, Rejected)
    else if !caps.setIgnoreDuration then Run([SettingsPrompt], None, None, Aborted)
    else
      var ignore := Some(IgnoresDuration(settingsAnswer));
      var directory := DirectoryChoice(cwd, directoryAnswer);
      if IsFavoritesLink(line) then
        Run([SettingsPrompt, DirectoryPrompt], ignore, directory,
            if caps.downloadFavorites then FavoritesDownload(line) else Aborted)
      else
        Run([SettingsPrompt, DirectoryPrompt, ChoicePrompt], ignore, directory, VideoDownload(line, ChooseMode(choiceAnswer)))
  }

  /** As the source stands, every accepted line ends after the settings question:
      no directory is asked and nothing is downloaded. */
  lemma AsWrittenNeverDownloads(cwd: AbsolutePath, line: string, settingsAnswer: string, directoryAnswer: string, choiceAnswer: string)
    ensures var r := HandleLine(cwd, AsWritten, line, settingsAnswer, directoryAnswer, choiceAnswer);
      !r.action.VideoDownload? && !r.action.FavoritesDownload? && DirectoryPrompt !in r.prompts
  {
  }

  /** The link to any video page is accepted. */
  lemma VideoPageAccepted(bvid: string)
    ensures Accepts(VideoPageUrl(bvid))
  {
    var url := VideoPageUrl(bvid);
    var t := "bilibili.com/";
    assert VideoPageBase[12..25] == t;
    assert url[12..25] == VideoPageBase[12..25];
    assert url[12..][..|t|] == url[12..25];
    assert StartsWith(url[12..], t);
  }

  /** The link to a video page is not taken for a favourites link: its only dots
      are the two of `www.bilibili.com`, and neither sits where `space.bilibili.com`
      has one. */
  lemma VideoPageNotFavorites(bvid: string)
    requires IsBvid(bvid)
    ensures !IsFavoritesLink(VideoPageUrl(bvid))
  {
    var url := VideoPageUrl(bvid);
    var t := "space.bilibili.com";
    VideoPageBaseDots();
    assert VideoPageBase[6] != 's' && VideoPageBase[15] != 's';
    forall k | 0 <= k <= |url| - |t| ensures !StartsWith(url[k..], t) {
      assert url[k..][..|t|][0] == url[k];
      assert url[k..][..|t|][5] == url[k + 5];
      if k + 5 < |VideoPageBase| {
        assert url[k] == VideoPageBase[k] && url[k + 5] == VideoPageBase[k + 5];
      } else {
        assert url[k + 5] == bvid[k + 5 - |VideoPageBase|];
      }
    }
  }

  lemma VideoPageBaseDots()
    ensures forall j :: 0 <= j < |VideoPageBase| && VideoPageBase[j] == '.' ==> j == 11 || j == 20
  {
  }

  /** An example of the above: the link to any video page aborts after the
      settings question. */
  lemma AsWrittenExample(bvid: string, settingsAnswer: string, directoryAnswer: string, choiceAnswer: string)
    ensures HandleLine("/", AsWritten, VideoPageUrl(bvid), settingsAnswer, directoryAnswer, choiceAnswer)
      == Run([SettingsPrompt], None, None, Aborted)
  {
    VideoPageAccepted(bvid);
  }

  /** With the methods present, a video link with answer `2` downloads the
      collection after the two settings questions. */
  lemma IntendedCollectionRun(cwd: AbsolutePath, line: string, settingsAnswer: string, directoryAnswer: string)
    requires Accepts(line) && !IsFavoritesLink(line)
    ensures var r := HandleLine(cwd, Intended, line, settingsAnswer, directoryAnswer, "2");
      r.prompts == [SettingsPrompt, DirectoryPrompt, ChoicePrompt] && r.action == VideoDownload(line, WholeCollection)
  {
    TrimWord("2");
    assert ChooseMode("2") == WholeCollection;
  }

  /** In particular the link to any video page, answered `2`, asks all three
      questions and downloads the collection. */
  lemma IntendedVideoPageRun(cwd: AbsolutePath, bvid: string, settingsAnswer: string, directoryAnswer: string)
    requires IsBvid(bvid)
    ensures var r := HandleLine(cwd, Intended, VideoPageUrl(bvid), settingsAnswer, directoryAnswer, "2");
      r.prompts == [SettingsPrompt, DirectoryPrompt, ChoicePrompt] && r.action == VideoDownload(VideoPageUrl(bvid), WholeCollection)
  {
    VideoPageAccepted(bvid);
    VideoPageNotFavorites(bvid);
    IntendedCollectionRun(cwd, VideoPageUrl(bvid), settingsAnswer, directoryAnswer);
  }
}
