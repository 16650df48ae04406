/** Process-wide constants of the bot: the attachment limit, the subtitle
    languages, the resolution menu and the scratch directory. */
module Config {

  /** Largest attachment the chat platform accepts, in megabytes. */
  const TelegramLimitMb: nat := 50

  /** Subtitle languages requested from the media tool. */
  const SubLangs: string := "fr,en,es,it,pt,ru,zh,ja"

  /** Menu label to pixel height, as passed to the media tool. */
  const Resolutions: map<string, string> := map[
    "360p" := "360",
    "480p" := "480",
    "720p" := "720",
    "1080p" := "1080",
    "2K" := "1440",
    "4K" := "2160"
  ]

  /** The order in which the resolution buttons are laid out
      (two rows of three, read left to right, top to bottom). */
  const MenuOrder: seq<string> := ["360p", "480p", "720p", "1080p", "2K", "4K"]

  /** Callback payload of the cancel button. */
  const CancelData: string := "cancel"

  /** `str(Path("./YTMM") / "downloads")`: the shared scratch directory. */
  const DownloadDir: string := "YTMM/downloads"
}
