/** The command builder: the argument lists handed to the media tool. */
module CommandBuilder {
  import opened Config

  /** Probe command: metadata as JSON, no playlist expansion. */
  function ProbeCmd(url: string): (cmd: seq<string>)
    ensures |cmd| == 4 && cmd[0] == "yt-dlp" && cmd[|cmd| - 1] == url
  {
    ["yt-dlp", "--dump-json", "--no-playlist", url]
  }

  const SelectorHead: string := "bestvideo[height<="
  const SelectorTail: string := "][vcodec!=?vp9]+bestaudio/best"

  /** Best video no taller than `height` and not VP9, plus best audio,
      falling back to the best single format. */
  function FormatSelector(height: string): string {
    SelectorHead + height + SelectorTail
  }

  /** Output template: the title and extension inside directory `out`. */
  function OutputTemplate(out: string): string {
    out + "/%(title)s.%(ext)s"
  }

  /** The fetch command: fixed flags with the height only in the selector
      and the directory only in the output template. */
  function BuildCmd(url: string, height: string, out: string): (cmd: seq<string>)
    ensures |cmd| == 15
    ensures cmd[0] == "yt-dlp" && cmd[14] == url
    ensures cmd[1] == "-f" && cmd[2] == FormatSelector(height)
    ensures cmd[12] == "-o" && cmd[13] == OutputTemplate(out)
  {
    [
      "yt-dlp",
      "-f", FormatSelector(height),
      "--merge-output-format", "mp4",
      "--recode-video", "mp4",
      "--embed-subs",
      "--sub-langs", SubLangs,
      "--embed-metadata",
      "--no-playlist",
      "-o", OutputTemplate(out),
      url
    ]
  }

  /** The height can be read back from the selector. */
  lemma FormatSelectorInjective(h1: string, h2: string)
    requires FormatSelector(h1) == FormatSelector(h2)
    ensures h1 == h2
  {
    var n := |SelectorHead|;
    assert |h1| == |h2|;
    assert h1 == FormatSelector(h1)[n..n + |h1|];
    assert h2 == FormatSelector(h2)[n..n + |h2|];
  }

  /** The directory can be read back from the output template. */
  lemma OutputTemplateInjective(o1: string, o2: string)
    requires OutputTemplate(o1) == OutputTemplate(o2)
    ensures o1 == o2
  {
    assert |o1| == |o2|;
    assert o1 == OutputTemplate(o1)[..|o1|];
    assert o2 == OutputTemplate(o2)[..|o2|];
  }

  /** Two commands that differ only in the height agree everywhere except
      at the selector, and there they agree exactly when the heights do. */
  lemma HeightOnlyChangesSelector(url: string, h1: string, h2: string, out: string)
    ensures forall n :: 0 <= n < 15 && n != 2 ==> BuildCmd(url, h1, out)[n] == BuildCmd(url, h2, out)[n]
    ensures BuildCmd(url, h1, out)[2] == BuildCmd(url, h2, out)[2] <==> h1 == h2
  {
    if FormatSelector(h1) == FormatSelector(h2) {
      FormatSelectorInjective(h1, h2);
    }
  }

  /** The command determines the url, the height and the directory. */
  lemma BuildCmdInjective(u1: string, h1: string, o1: string, u2: string, h2: string, o2: string)
    requires BuildCmd(u1, h1, o1) == BuildCmd(u2, h2, o2)
    ensures u1 == u2 && h1 == h2 && o1 == o2
  {
    assert BuildCmd(u1, h1, o1)[2] == BuildCmd(u2, h2, o2)[2];
    FormatSelectorInjective(h1, h2);
    assert BuildCmd(u1, h1, o1)[13] == BuildCmd(u2, h2, o2)[13];
    OutputTemplateInjective(o1, o2);
  }
}
