# YTMM bot: a Dafny model of its link, size, command, scratch-directory and session logic

YTMM is a chat bot. A user sends a video link, picks a resolution from an
inline menu, and gets the downloaded file back. A file over the chat
platform's 50 MB attachment limit is refused with a notice. All media work
is done by the external `yt-dlp` tool. The bot's own logic is:

- the link validator (an anchored regular expression);
- the size estimator (a bitrate table);
- the builder of the `yt-dlp` argument list;
- the age-based purge of the shared download directory, and the choice of
  the newest `.mp4` in it;
- the per-user state kept in the two process-wide dictionaries `SESSIONS`
  and `CANCEL_FLAGS`, and the three handlers that change it: a link
  arrives (`handle_url`), a menu button is pressed (`choose_res`), a
  download runs (`download_video`).

This project models that logic and proves what it promises.

Modules, one per component of `YTMM_bot_v3.4_fixed.py`:

- `Config` (config.dfy): the constants. These are the 50 MB limit, the
  subtitle languages, the `RESOLUTIONS` table, the menu order, the cancel
  payload and the download directory.
- `Text` (text.dfy): Python's `str.strip()` and `split(":")[1]`, written
  out.
- `LinkValidator` (validator.dfy): the hand-coded validator. Beside it is a
  reference reading of the pattern as a backtracking matcher would try
  it. They are proved equal.
- `SizeEstimator` (estimator.dfy): the bitrate table and the estimate.
- `CommandBuilder` (command.dfy): the probe and fetch argument lists.
- `ScratchDir` (scratch.dfy): the directory as a map from file name to
  `(mtime, size)`, with integer times. The class `Directory` holds it.
  Its `CleanFiles` deletes stale entries in place, in a loop. The
  module-level `NewestMp4` is the argmax selection, also a loop.
- `YtmmBot` (bot.dfy): the class `Bot`. It has the `sessions` and
  `cancelFlags` map fields and the shared `Directory`. Its methods
  `HandleUrl`, `ChooseRes` and `DownloadVideo` are the three handlers.
  What one download does is stated once, as the relation `DownloadSpec`
  between the state before and the state after. Lemmas about that
  relation give the cleanup facts.
- `Scenarios` (scenarios.dfy): client methods. They follow two end-to-end
  flows, a failed probe and a cancel on the menu, through the handlers'
  contracts alone. The delivery flows are covered by the lemma
  `SingleVideoDelivered` and the estimate lemmas.

External steps are inputs to the handlers:

- the probe's answer, as `Option<Info>`;
- the download's exit status, as `ok: bool`;
- what the tool does to the purged directory, as `removed` (the entries it
  deletes, such as merged intermediate formats and finished `.part` files)
  and `written` (the entries it creates or overwrites). Every listing the
  tool could leave can be written this way (`ToolOutputReachesAny`).
- the clock, as `now`.

An exception raised inside a handler is modelled as its own outcome. The
state is left as it was at the point of the throw: nothing is rolled back,
and nothing after the throw happens. The cases are:

- `KeyError` or `IndexError` on the payload gives `UnknownResolution`;
- the `TypeError` on a missing session gives `NoSession`;
- the `IndexError` when no `.mp4` exists gives `NoVideo`.

Two features of the code shape the session model:

- cancel only sets `CANCEL_FLAGS[user] = True` and keeps the session
  (lines 167-170);
- the cancelled, failed and no-video paths end before the cleanup at lines
  226-228, so the session, the flag and the downloaded files stay.

`ChooseRes`, `EarlyExitKeepsState` and the `CancelKeepsSession` scenario
state this behaviour.

## Model

| member | source | states |
|---|---|---|
| `Text.Strip` | YTMM_bot_v3.4_fixed.py:132 | the stripped text is no longer than the input and neither starts nor ends with whitespace (whitespace as Python's `isspace`) |
| `Text.StripIsInnerSlice` | YTMM_bot_v3.4_fixed.py:132 | the input is whitespace, then the stripped text, then whitespace: only whitespace is removed, and only at the ends |
| `LinkValidator.ValidYoutubeUrl` | YTMM_bot_v3.4_fixed.py:73-77 | the validator: drop `https://` or `http://`, then `www.`, then require `youtube.com/` or `youtu.be/` at the start; characterised by the lemmas below |
| `Text.SecondField` | YTMM_bot_v3.4_fixed.py:172 | `split(":")[1]` exists exactly when the separator occurs, and never contains the separator |
| `Text.SecondFieldOfJoin` | YTMM_bot_v3.4_fixed.py:172 | for fields free of the separator, the second field of `p:k` or `p:k:rest` is `k` |
| `LinkValidator.ValidIffMatchesPattern` | YTMM_bot_v3.4_fixed.py:73-77 | the hand-coded validator accepts exactly the texts that begin with an optional `http://` or `https://`, an optional `www.`, then `youtube.com/` or `youtu.be/`, in both directions |
| `LinkValidator.MatchesPatternImpliesValid` | YTMM_bot_v3.4_fixed.py:73-77 | every text the anchored pattern matches is accepted |
| `LinkValidator.ValidImpliesMatchesPattern` | YTMM_bot_v3.4_fixed.py:73-77 | every accepted text is matched by the anchored pattern |
| `LinkValidator.PrefixClosed` | YTMM_bot_v3.4_fixed.py:74 | only the start is checked: if `s` is accepted, so is `s + t` for every `t` |
| `LinkValidator.AcceptsCanonicalForms` | YTMM_bot_v3.4_fixed.py:75 | each scheme choice, with or without `www.`, for each host, followed by `/` and any path, is accepted |
| `LinkValidator.RejectsEmpty` | YTMM_bot_v3.4_fixed.py:73-77 | the empty text is refused |
| `LinkValidator.RejectsBareHost` | YTMM_bot_v3.4_fixed.py:75 | `youtube.com` with no slash is refused |
| `LinkValidator.RejectsOtherStart` | YTMM_bot_v3.4_fixed.py:74-75 | the match is anchored: a text whose first character is not `h`, `w` or `y` (such as `m.youtube.com/watch`) is refused |
| `SizeEstimator.Duration` | YTMM_bot_v3.4_fixed.py:86 | `info.get("duration", 0)`: the duration, 0 when the key is missing |
| `SizeEstimator.EstimateSizeMb` | YTMM_bot_v3.4_fixed.py:85-95 | the estimate in MB; characterised by `EstimateIsTruncatedQuotient` and the lemmas below |
| `SizeEstimator.Bitrate` | YTMM_bot_v3.4_fixed.py:87-94 | a known height gets its table bucket; the fallback 5 is returned exactly for heights missing from the table |
| `SizeEstimator.EstimateIsTruncatedQuotient` | YTMM_bot_v3.4_fixed.py:85-95 | the estimate `r` is the truncated quotient: `8*r <= duration*bitrate < 8*r + 8`, with a missing duration read as 0 |
| `SizeEstimator.EstimateOfNoDuration` | YTMM_bot_v3.4_fixed.py:86 | a missing or zero duration estimates to 0 at every height |
| `SizeEstimator.EstimateOfHourAt1080` | YTMM_bot_v3.4_fixed.py:85-95 | 3600 seconds at height "1080" estimates to 3150 |
| `SizeEstimator.EstimateOfTenMinutesAt720` | YTMM_bot_v3.4_fixed.py:85-95 | 600 seconds at height "720" estimates to 300 |
| `SizeEstimator.EstimateOfUnknownHeight` | YTMM_bot_v3.4_fixed.py:94 | a height outside the table is estimated with bucket 5 |
| `SizeEstimator.EstimateMonotoneInDuration` | YTMM_bot_v3.4_fixed.py:95 | at a fixed height a longer duration never gets a smaller estimate |
| `SizeEstimator.MenuHeightsHaveBuckets` | YTMM_bot_v3.4_fixed.py:41-48 | every height of `RESOLUTIONS` is a key of the bitrate table, so the fallback is never used for a menu choice |
| `SizeEstimator.MenuEstimateNondecreasing` | YTMM_bot_v3.4_fixed.py:87-94 | along the menu order 360p to 4K the estimate for a fixed duration never decreases |
| `CommandBuilder.ProbeCmd` | YTMM_bot_v3.4_fixed.py:80 | the probe command has four arguments, starts with `yt-dlp` and ends with the url |
| `CommandBuilder.BuildCmd` | YTMM_bot_v3.4_fixed.py:97-110 | the fetch command has 15 arguments: `yt-dlp` first, the url last, the height-bound selector at index 2, the template `<dir>/%(title)s.%(ext)s` at index 13 |
| `CommandBuilder.FormatSelector` | YTMM_bot_v3.4_fixed.py:101 | `bestvideo[height<=H][vcodec!=?vp9]+bestaudio/best` for height `H` |
| `CommandBuilder.OutputTemplate` | YTMM_bot_v3.4_fixed.py:108 | `<dir>/%(title)s.%(ext)s` |
| `CommandBuilder.FormatSelectorInjective` | YTMM_bot_v3.4_fixed.py:101 | different heights give different format selectors |
| `CommandBuilder.OutputTemplateInjective` | YTMM_bot_v3.4_fixed.py:108 | different directories give different output templates |
| `CommandBuilder.HeightOnlyChangesSelector` | YTMM_bot_v3.4_fixed.py:97-110 | commands that differ only in height agree at every index but 2, and agree at 2 exactly when the heights are equal |
| `CommandBuilder.BuildCmdInjective` | YTMM_bot_v3.4_fixed.py:97-110 | equal commands come from equal url, height and directory |
| `ScratchDir.IsStale` | YTMM_bot_v3.4_fixed.py:115 | an entry is stale when `now - mtime > 3600` |
| `ScratchDir.Purged` | YTMM_bot_v3.4_fixed.py:112-116 | the listing with its stale entries removed; characterised by the lemmas below |
| `ScratchDir.PurgeRemovesExactlyStale` | YTMM_bot_v3.4_fixed.py:112-116 | an entry is removed exactly when `now - mtime > 3600`, whatever its name; kept entries are unchanged |
| `ScratchDir.PurgeIdempotent` | YTMM_bot_v3.4_fixed.py:112-116 | a second purge at the same time changes nothing |
| `ScratchDir.PurgeLaterKeepsLess` | YTMM_bot_v3.4_fixed.py:115 | a purge at a later time keeps a subset of what an earlier one keeps |
| `ScratchDir.Directory.CleanFiles` | YTMM_bot_v3.4_fixed.py:112-116 | deleting in place while visiting every entry leaves exactly the purged listing |
| `ScratchDir.Directory.Unlink` | YTMM_bot_v3.4_fixed.py:226 | `unlink(missing_ok=True)` removes the entry, present or not, and nothing else |
| `ScratchDir.IsMp4` | YTMM_bot_v3.4_fixed.py:206 | the `*.mp4` glob: the name ends in `.mp4` |
| `ScratchDir.NewestMp4` | YTMM_bot_v3.4_fixed.py:206-207 | returns nothing exactly when no `.mp4` exists; otherwise an `.mp4` whose mtime is at least that of every other `.mp4` |
| `ScratchDir.NewestMp4Unique` | YTMM_bot_v3.4_fixed.py:206-207 | any two newest `.mp4` files have the same mtime |
| `ScratchDir.SizeMb` | YTMM_bot_v3.4_fixed.py:208 | `st_size / (1024*1024)` as an exact rational |
| `ScratchDir.FitsTelegram` | YTMM_bot_v3.4_fixed.py:210 | the size in MiB is at most `TELEGRAM_LIMIT_MB` |
| `ScratchDir.FitsTelegramIffBytes` | YTMM_bot_v3.4_fixed.py:208-210 | `size / (1024*1024) <= 50` holds exactly when the size is at most 52428800 bytes |
| `YtmmBot.ResolutionCallback` | YTMM_bot_v3.4_fixed.py:150-151 | the payload `res:<key>` of a resolution button |
| `YtmmBot.MenuButtons` | YTMM_bot_v3.4_fixed.py:149-153 | the menu offers one payload per resolution, in menu order, then the cancel payload |
| `YtmmBot.ChosenHeight` | YTMM_bot_v3.4_fixed.py:172-173 | a payload yields a height exactly when its second `:`-field is a key of `RESOLUTIONS`, and the height is `RESOLUTIONS[key]` for that key |
| `YtmmBot.MenuListsResolutions` | YTMM_bot_v3.4_fixed.py:41-48 | the menu lists each key of `RESOLUTIONS` exactly once |
| `YtmmBot.MenuButtonsParse` | YTMM_bot_v3.4_fixed.py:150-152 | each resolution button parses back to its own height, and the cancel button is the cancel payload and no other |
| `YtmmBot.ToolOutput` | YTMM_bot_v3.4_fixed.py:196 | the directory after the tool: an entry survives when the tool did not delete it, or is the tool's own when it wrote it |
| `YtmmBot.ToolOutputReachesAny` | YTMM_bot_v3.4_fixed.py:196 | any listing whatever is a possible directory after the tool, so the tool's effect is unrestricted |
| `YtmmBot.DownloadSpec` | YTMM_bot_v3.4_fixed.py:189-228 | one download: purge, tool, then in this order the cancelled, failed and no-video exits leave everything as the tool left it; otherwise a newest `.mp4` is sent or refused by size, deleted, and the user's session and flag are popped |
| `YtmmBot.DownloadLeavesOthers` | YTMM_bot_v3.4_fixed.py:189-228 | a download changes no other user's session or flag |
| `YtmmBot.EarlyExitKeepsState` | YTMM_bot_v3.4_fixed.py:198-207 | when cancelled, failed or without an `.mp4`, the outcome names which, session and flag stay, and the directory is exactly what the tool left: every unpurged file the tool did not delete and every file it wrote remains |
| `YtmmBot.DeliveryCleansUp` | YTMM_bot_v3.4_fixed.py:206-228 | when sent or refused, the file is a newest `.mp4`; it is sent exactly when it is at most 50 MiB; then it is deleted and the user's session and flag are removed |
| `YtmmBot.SingleVideoDelivered` | YTMM_bot_v3.4_fixed.py:206-228 | when the directory after a successful, uncancelled download holds a single `.mp4`, that file is sent if at most 50 MiB and refused otherwise; either way it is deleted and the user's session and flag are removed |
| `YtmmBot.Bot.constructor` | YTMM_bot_v3.4_fixed.py:50-51 | both dictionaries start empty |
| `YtmmBot.Bot.HandleUrl` | YTMM_bot_v3.4_fixed.py:131-160 | an invalid stripped link or a failed probe changes nothing; otherwise only the caller's session becomes `{url, info}` and only their flag becomes false |
| `YtmmBot.Bot.ChooseRes` | YTMM_bot_v3.4_fixed.py:162-187 | cancel only sets the caller's flag to true and keeps the session. A known resolution with a session stores the height and its estimate, then downloads. An unknown payload or a missing session changes nothing |
| `YtmmBot.Bot.DownloadVideo` | YTMM_bot_v3.4_fixed.py:189-228 | purges, issues the command built from the session, and moves to a state related to the old one by `DownloadSpec`; no other user is touched and the session invariant is kept |

## Left out

- Telegram I/O: replies, message edits, inline keyboards as objects,
  `send_video`, Markdown captions and the `start` text. They are foreign
  library calls. A failure of `send_video`, which would stop before the
  cleanup, is not modelled.
- `run` and `subprocess.run`, `yt-dlp` itself and its timeouts. They are
  external processes and become the inputs `probe`, `ok` and `written`.
- `json.loads` in `yt_info`. A malformed answer, an exception or an empty
  JSON object all end `handle_url` the same way, so all are the probe input
  `None`.
- The metadata beyond `title` and `duration`. A non-integer or `null`
  duration is not modelled: durations are natural numbers.
- The filesystem calls (`glob`, `stat`, `unlink`) and `time.time()`.
  Entries are files with integer mtimes. Sub-directories of the download
  directory are not modelled. The order in which `glob` lists entries is
  not modelled, so the choice among equally new `.mp4` files is left open.
- `Path` normalisation. The directory is the fixed string `YTMM/downloads`,
  which is what `str(Path("./YTMM") / "downloads")` yields.
- Floating point. `int(duration * bitrate / 8)` is modelled as exact
  integer division, and `size_mb` as an exact rational. Both are exact for
  the magnitudes involved. The `:.1f` formatting is not modelled.
- `async`/`await` and concurrent events. The dispatcher may interleave
  events, but each handler is modelled as one atomic step.
- `BOT_TOKEN` checking, `DOWNLOAD_DIR.mkdir`, logging, `main` and the
  handler wiring. These are startup plumbing.
- A general regular-expression engine. The single pattern is hand-coded,
  and its reference reading is spelled out in `LinkValidator`.
- The session dictionary's in-place update of `height` and `size`. It is
  modelled as replacing the session value in the map. Only `SESSIONS` refers
  to that dictionary, so no aliasing is lost.
