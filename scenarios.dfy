/** Two end-to-end flows of the bot, followed through the handlers'
    contracts alone (in the manner of a client of the class), for any
    valid link. The delivery flows are stated by
    `YtmmBot.SingleVideoDelivered` and `SizeEstimator.EstimateOfTenMinutesAt720`. */
module Scenarios {
  import opened Wrappers
  import opened Config
  import opened Text
  import opened LinkValidator
  import opened SizeEstimator
  import opened ScratchDir
  import opened YtmmBot

  /** A bot with a fresh, empty directory, after a valid link whose probe
      reports a 600-second video. */
  method ProbedBot(link: string) returns (bot: Bot)
    requires ValidYoutubeUrl(Strip(link))
    ensures fresh(bot) && fresh(bot.downloads) && bot.Valid()
    ensures bot.downloads.files == map[]
    ensures bot.sessions == map[7 := Session(Strip(link), Info(Some("Clip"), Some(600)), None, None)]
    ensures bot.cancelFlags == map[7 := false]
  {
    var dir := new Directory(map[]);
    bot := new Bot(dir);
    var shown := bot.HandleUrl(7, link, Some(Info(Some("Clip"), Some(600))));
  }

  /** A failed probe creates neither a session nor a flag. */
  method FailedProbeCreatesNothing(link: string)
    requires ValidYoutubeUrl(Strip(link))
  {
    var dir := new Directory(map[]);
    var bot := new Bot(dir);
    var shown := bot.HandleUrl(7, link, None);
    assert shown.ProbeFailed?;
    assert bot.sessions == map[] && bot.cancelFlags == map[];
  }

  /** Cancel on the menu raises the flag and keeps the session; no
      download is started. */
  method CancelKeepsSession(link: string)
    requires ValidYoutubeUrl(Strip(link))
  {
    var bot := ProbedBot(link);
    var chosen := bot.ChooseRes(7, MenuButtons()[6], 5000, true, {}, map[]);
    assert chosen == CancelAcknowledged;
    assert 7 in bot.sessions && bot.cancelFlags[7];
    assert bot.downloads.files == map[];
  }
}
