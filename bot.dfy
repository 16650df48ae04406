/** The per-user session state the bot's handlers keep in two
    process-wide dictionaries, `SESSIONS` and `CANCEL_FLAGS`, and the three
    handlers that change them: a link arrives, a button is pressed, a
    download runs. The external steps (probe, download) are inputs. */
module YtmmBot {
  import opened Wrappers
  import opened Config
  import opened Text
  import opened LinkValidator
  import opened SizeEstimator
  import opened CommandBuilder
  import opened ScratchDir

  type UserId = int

  /** `{"url", "info"}` once a link is probed; `height` and `size` are
      added when a resolution is chosen. */
  datatype Session = Session(url: string, info: Info, height: Option<string>, size: Option<nat>)

  /** A chosen height always comes with a size, and is a menu height. */
  predicate WellFormed(s: Session) {
    (s.height.Some? <==> s.size.Some?)
    && (s.height.Some? ==> s.height.value in Resolutions.Values)
  }

  /** What `handle_url` ends with: the commands it ran and the buttons it offered. */
  datatype UrlOutcome =
    | InvalidLink
    | ProbeFailed(probe: seq<string>)
    | MenuShown(probe: seq<string>, buttons: seq<string>)

  /** How `download_video` ends. `NoVideo` is the `IndexError` of
      `files[0]` when the directory holds no `.mp4`. */
  datatype DownloadOutcome =
    | Cancelled
    | DownloadError
    | NoVideo
    | Sent(video: string)
    | TooLarge(video: string)

  /** How `choose_res` ends. `UnknownResolution` is the `IndexError` or
      `KeyError` of the payload lookup; `NoSession` the `TypeError` of
      indexing the missing session. */
  datatype ChoiceOutcome =
    | CancelAcknowledged
    | UnknownResolution
    | NoSession
    | Downloaded(height: string, size: nat, cmd: seq<string>, result: DownloadOutcome)

  /** Callback payload of a resolution button. */
  function ResolutionCallback(key: string): string {
    "res:" + key
  }

  /** The payloads of the menu `handle_url` offers, in layout order. */
  function MenuButtons(): (buttons: seq<string>)
    ensures |buttons| == |MenuOrder| + 1 && buttons[|MenuOrder|] == CancelData
  {
    seq(|MenuOrder|, n requires 0 <= n < |MenuOrder| => ResolutionCallback(MenuOrder[n])) + [CancelData]
  }

  /** `RESOLUTIONS[q.data.split(":")[1]]`, or `None` where it raises. */
  function ChosenHeight(data: string): (r: Option<string>)
    ensures r.Some? ==> r.value in Resolutions.Values
    ensures r.Some? <==> exists key :: key in Resolutions && SecondField(data, ':') == Some(key)
    ensures forall key :: SecondField(data, ':') == Some(key) && key in Resolutions ==> r == Some(Resolutions[key])
  {
    match SecondField(data, ':')
    case None => None
    case Some(key) => if key in Resolutions then Some(Resolutions[key]) else None
  }

  /** The menu lists every resolution of the table, each once. */
  lemma MenuListsResolutions()
    ensures forall key :: key in Resolutions <==> key in MenuOrder
    ensures forall m, n :: 0 <= m < n < |MenuOrder| ==> MenuOrder[m] != MenuOrder[n]
  {
  }

  /** Every button of the menu parses back to its own choice: the cancel
      button to the cancel branch, each resolution button to its height. */
  lemma MenuButtonsParse(n: nat)
    requires n < |MenuButtons()|
    ensures n == |MenuOrder| ==> MenuButtons()[n] == CancelData
    ensures n < |MenuOrder| ==>
              MenuButtons()[n] != CancelData
              && MenuOrder[n] in Resolutions
              && ChosenHeight(MenuButtons()[n]) == Some(Resolutions[MenuOrder[n]])
  {
    if n < |MenuOrder| {
      var key := MenuOrder[n];
      assert ':' !in key by {
        assert n == 0 || n == 1 || n == 2 || n == 3 || n == 4 || n == 5;
      }
      assert MenuButtons()[n] == "res" + [':'] + key + [];
      SecondFieldOfJoin("res", key, [], ':');
      assert MenuButtons()[n][0] != CancelData[0];
    }
  }

  /** The directory after the tool has run on `before`: it deletes the
      entries `removed` (merged intermediates, finished `.part` files) and
      then creates or overwrites the entries `written`. Every listing is
      reachable this way from every `before`. */
  function ToolOutput(before: Listing, removed: set<string>, written: Listing): (after: Listing)
    ensures forall f :: f in after <==> (f in before && f !in removed) || f in written
    ensures forall f :: f in written ==> after[f] == written[f]
    ensures forall f :: f in before && f !in removed && f !in written ==> after[f] == before[f]
  {
    (before - removed) + written
  }

  /** Any listing the tool may leave is a `ToolOutput` of the listing it
      started from. */
  lemma ToolOutputReachesAny(before: Listing, after: Listing)
    ensures ToolOutput(before, before.Keys, after) == after
  {
    assert before - before.Keys == map[];
  }

  /** What one run of `download_video` does, from the state before it to
      the state after it, given the tool's success flag and what the tool
      removes from and writes into the purged directory. */
  ghost predicate DownloadSpec(
    sessions0: map<UserId, Session>, flags0: map<UserId, bool>, files0: Listing,
    user: UserId, now: int, ok: bool, removed: set<string>, written: Listing, result: DownloadOutcome,
    sessions1: map<UserId, Session>, flags1: map<UserId, bool>, files1: Listing)
  {
    var produced := ToolOutput(Purged(files0, now), removed, written);
    if user in flags0 && flags0[user] then
      result == Cancelled && sessions1 == sessions0 && flags1 == flags0 && files1 == produced
    else if !ok then
      result == DownloadError && sessions1 == sessions0 && flags1 == flags0 && files1 == produced
    else if !HasMp4(produced) then
      result == NoVideo && sessions1 == sessions0 && flags1 == flags0 && files1 == produced
    else
      (result.Sent? || result.TooLarge?)
      && IsNewestMp4(produced, result.video)
      && (result.Sent? <==> FitsTelegram(produced[result.video].size))
      && files1 == produced - {result.video}
      && sessions1 == sessions0 - {user}
      && flags1 == flags0 - {user}
  }

  /** A download changes no other user's session or flag. */
  lemma DownloadLeavesOthers(
    sessions0: map<UserId, Session>, flags0: map<UserId, bool>, files0: Listing,
    user: UserId, now: int, ok: bool, removed: set<string>, written: Listing, result: DownloadOutcome,
    sessions1: map<UserId, Session>, flags1: map<UserId, bool>, files1: Listing, other: UserId)
    requires DownloadSpec(sessions0, flags0, files0, user, now, ok, removed, written, result, sessions1, flags1, files1)
    requires other != user
    ensures other in sessions1 <==> other in sessions0
    ensures other in sessions1 ==> sessions1[other] == sessions0[other]
    ensures other in flags1 <==> other in flags0
    ensures other in flags1 ==> flags1[other] == flags0[other]
  {
  }

  /** On the cancelled, failed and no-video paths nothing is cleaned up:
      the session and flag stay, and the directory is exactly what the
      tool left: no file beyond the purge and the tool's own deletions is
      removed. */
  lemma EarlyExitKeepsState(
    sessions0: map<UserId, Session>, flags0: map<UserId, bool>, files0: Listing,
    user: UserId, now: int, ok: bool, removed: set<string>, written: Listing, result: DownloadOutcome,
    sessions1: map<UserId, Session>, flags1: map<UserId, bool>, files1: Listing)
    requires DownloadSpec(sessions0, flags0, files0, user, now, ok, removed, written, result, sessions1, flags1, files1)
    requires (user in flags0 && flags0[user]) || !ok || !HasMp4(ToolOutput(Purged(files0, now), removed, written))
    ensures result == if user in flags0 && flags0[user] then Cancelled else if !ok then DownloadError else NoVideo
    ensures sessions1 == sessions0 && flags1 == flags0
    ensures files1 == ToolOutput(Purged(files0, now), removed, written)
    ensures forall f :: f in files0 && !IsStale(files0[f], now) && f !in removed ==> f in files1
    ensures forall f :: f in written ==> f in files1 && files1[f] == written[f]
  {
  }

  /** On the sent and too-large paths the chosen file is a newest `.mp4`
      of the directory after the download, it is sent exactly when it is
      at most 50 MiB, and afterwards it is deleted and the user forgotten. */
  lemma DeliveryCleansUp(
    sessions0: map<UserId, Session>, flags0: map<UserId, bool>, files0: Listing,
    user: UserId, now: int, ok: bool, removed: set<string>, written: Listing, result: DownloadOutcome,
    sessions1: map<UserId, Session>, flags1: map<UserId, bool>, files1: Listing)
    requires DownloadSpec(sessions0, flags0, files0, user, now, ok, removed, written, result, sessions1, flags1, files1)
    requires result.Sent? || result.TooLarge?
    ensures ok && !(user in flags0 && flags0[user])
    ensures IsNewestMp4(ToolOutput(Purged(files0, now), removed, written), result.video)
    ensures result.Sent? <==> ToolOutput(Purged(files0, now), removed, written)[result.video].size <= 50 * 1024 * 1024
    ensures result.video !in files1 && user !in sessions1 && user !in flags1
  {
    FitsTelegramIffBytes(ToolOutput(Purged(files0, now), removed, written)[result.video].size);
  }

  /** When the directory after the download holds a single file, an
      `.mp4`, that file is the one sent or refused, and it is deleted. */
  lemma SingleVideoDelivered(
    sessions0: map<UserId, Session>, flags0: map<UserId, bool>, files0: Listing,
    user: UserId, now: int, ok: bool, removed: set<string>, written: Listing, result: DownloadOutcome,
    sessions1: map<UserId, Session>, flags1: map<UserId, bool>, files1: Listing,
    video: string, st: FileStat)
    requires DownloadSpec(sessions0, flags0, files0, user, now, ok, removed, written, result, sessions1, flags1, files1)
    requires ok && !(user in flags0 && flags0[user])
    requires ToolOutput(Purged(files0, now), removed, written) == map[video := st] && IsMp4(video)
    ensures result == if st.size <= 50 * 1024 * 1024 then Sent(video) else TooLarge(video)
    ensures files1 == map[] && user !in sessions1 && user !in flags1
  {
    assert HasMp4(map[video := st]);
    FitsTelegramIffBytes(st.size);
  }

  /** The two dictionaries and the scratch directory. */
  class Bot {
    var sessions: map<UserId, Session>
    var cancelFlags: map<UserId, bool>
    const downloads: Directory

    /** Every user with a session has a flag, and every session is well formed. */
    ghost predicate Valid()
      reads this
    {
      sessions.Keys <= cancelFlags.Keys
      && forall u :: u in sessions ==> WellFormed(sessions[u])
    }

    constructor(downloads: Directory)
      ensures Valid() && this.downloads == downloads
      ensures sessions == map[] && cancelFlags == map[]
    {
      this.downloads := downloads;
      sessions := map[];
      cancelFlags := map[];
    }

    /** `handle_url`: strip the text, validate it, probe it; only a valid
        link with a successful probe (re)starts the user's session. */
    method HandleUrl(user: UserId, text: string, probe: Option<Info>) returns (o: UrlOutcome)
      requires Valid()
      modifies this
      ensures Valid() && unchanged(downloads)
      ensures var url := Strip(text);
        if !ValidYoutubeUrl(url) then
          o == InvalidLink && sessions == old(sessions) && cancelFlags == old(cancelFlags)
        else if probe.None? then
          o == ProbeFailed(ProbeCmd(url)) && sessions == old(sessions) && cancelFlags == old(cancelFlags)
        else
          o == MenuShown(ProbeCmd(url), MenuButtons())
          && sessions == old(sessions)[user := Session(url, probe.value, None, None)]
          && cancelFlags == old(cancelFlags)[user := false]
    {
      var url := Strip(text);
      if !ValidYoutubeUrl(url) {
        return InvalidLink;
      }
      var cmd := ProbeCmd(url);
      // `probe` is what the tool answered to `cmd`.
      if probe.None? {
        return ProbeFailed(cmd);
      }
      sessions := sessions[user := Session(url, probe.value, None, None)];
      cancelFlags := cancelFlags[user := false];
      o := MenuShown(cmd, MenuButtons());
    }

    /** `choose_res`: the cancel button only raises the flag; a resolution
        button stores the height and its estimate, then downloads. */
    method ChooseRes(user: UserId, data: string, now: int, ok: bool, removed: set<string>, written: Listing) returns (o: ChoiceOutcome)
      requires Valid()
      modifies this, downloads
      ensures Valid()
      ensures data == CancelData ==>
                o == CancelAcknowledged && sessions == old(sessions)
                && cancelFlags == old(cancelFlags)[user := true] && unchanged(downloads)
      ensures data != CancelData && ChosenHeight(data).None? ==>
                o == UnknownResolution && unchanged(this, downloads)
      ensures data != CancelData && ChosenHeight(data).Some? && user !in old(sessions) ==>
                o == NoSession && unchanged(this, downloads)
      ensures data != CancelData && ChosenHeight(data).Some? && user in old(sessions) ==>
                var h := ChosenHeight(data).value;
                var s := old(sessions)[user];
                var size := EstimateSizeMb(s.info, h);
                o.Downloaded? && o.height == h && o.size == size
                && o.cmd == BuildCmd(s.url, h, DownloadDir)
                && DownloadSpec(old(sessions)[user := s.(height := Some(h), size := Some(size))],
                                old(cancelFlags), old(downloads.files), user, now, ok, removed, written, o.result,
                                sessions, cancelFlags, downloads.files)
    {
      if data == CancelData {
        cancelFlags := cancelFlags[user := true];
        return CancelAcknowledged;
      }
      var height := ChosenHeight(data);
      if height.None? {
        return UnknownResolution;
      }
      if user !in sessions {
        return NoSession;
      }
      var h := height.value;
      var s := sessions[user];
      var size := EstimateSizeMb(s.info, h);
      sessions := sessions[user := s.(height := Some(h), size := Some(size))];
      var result, cmd := DownloadVideo(user, now, ok, removed, written);
      o := Downloaded(h, size, cmd, result);
    }

    /** `download_video`: purge, run the tool, then stop on a raised flag
        or a failure; otherwise pick the newest `.mp4`, send it or refuse
        it by size, delete it and forget the user. */
    method DownloadVideo(user: UserId, now: int, ok: bool, removed: set<string>, written: Listing) returns (result: DownloadOutcome, cmd: seq<string>)
      requires Valid() && user in sessions && sessions[user].height.Some?
      modifies this, downloads
      ensures Valid()
      ensures cmd == BuildCmd(old(sessions)[user].url, old(sessions)[user].height.value, DownloadDir)
      ensures DownloadSpec(old(sessions), old(cancelFlags), old(downloads.files), user, now, ok, removed, written, result,
                           sessions, cancelFlags, downloads.files)
    {
      var session := sessions[user];
      downloads.CleanFiles(now);
      cmd := BuildCmd(session.url, session.height.value, DownloadDir);
      // The tool runs `cmd`: `ok` is its exit status; it deletes `removed`
      // and leaves `written` behind.
      downloads.files := ToolOutput(downloads.files, removed, written);
      if user in cancelFlags && cancelFlags[user] {
        return Cancelled, cmd;
      }
      if !ok {
        return DownloadError, cmd;
      }
      var newest := NewestMp4(downloads.files);
      if newest.None? {
        return NoVideo, cmd;
      }
      var video := newest.value;
      if FitsTelegram(downloads.files[video].size) {
        result := Sent(video);
      } else {
        result := TooLarge(video);
      }
      downloads.Unlink(video);
      sessions := sessions - {user};
      cancelFlags := cancelFlags - {user};
    }
  }
}
