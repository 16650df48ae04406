/** The link validator: the anchored pattern
    `(https?://)?(www\.)?(youtube\.com|youtu\.be)/` applied with Python's
    `re.match`, so only the start of the text is examined. */
module LinkValidator {

  /** `s` with a leading `https://` or `http://` removed. */
  function DropScheme(s: string): string {
    if "https://" <= s then s[8..]
    else if "http://" <= s then s[7..]
    else s
  }

  /** `s` with a leading `www.` removed. */
  function DropWww(s: string): string {
    if "www." <= s then s[4..] else s
  }

  /** The validator as the bot runs it: skip an optional scheme, skip an
      optional `www.`, then demand one of the two hosts followed by `/`. */
  predicate ValidYoutubeUrl(url: string) {
    var rest := DropWww(DropScheme(url));
    "youtube.com/" <= rest || "youtu.be/" <= rest
  }

  // The pattern spelled out as its alternatives, for the reference reading.
  const Schemes: seq<string> := ["", "http://", "https://"]
  const Subdomains: seq<string> := ["", "www."]
  const Hosts: seq<string> := ["youtube.com", "youtu.be"]

  /** Reference reading of `re.match`, one group at a time as a
      backtracking matcher tries them: some scheme alternative is a prefix,
      and the rest matches the remainder of the pattern. */
  ghost predicate MatchesPattern(url: string) {
    exists i :: 0 <= i < |Schemes| && Schemes[i] <= url && MatchesAfterScheme(url[|Schemes[i]|..])
  }

  ghost predicate MatchesAfterScheme(s: string) {
    exists j :: 0 <= j < |Subdomains| && Subdomains[j] <= s && MatchesHost(s[|Subdomains[j]|..])
  }

  ghost predicate MatchesHost(s: string) {
    exists k :: 0 <= k < |Hosts| && Hosts[k] + "/" <= s
  }

  /** Neither `www.` nor a host starts with `h`, so when some scheme
      alternative leads to a match, the validator skips exactly that one. */
  lemma DropSchemeOf(i: nat, url: string)
    requires i < |Schemes| && Schemes[i] <= url
    requires |url| > |Schemes[i]| && (url[|Schemes[i]|] == 'w' || url[|Schemes[i]|] == 'y')
    ensures DropScheme(url) == url[|Schemes[i]|..]
  {
    if i == 0 {
      assert url[0] != "https://"[0] && url[0] != "http://"[0];
    } else if i == 1 {
      assert url[..7] == "http://" && url[4] != "https://"[4];
    } else {
      assert url[..8] == "https://";
    }
  }

  /** No host starts with `w`, so the validator skips exactly the
      subdomain alternative that leads to a match. */
  lemma DropWwwOf(j: nat, s: string)
    requires j < |Subdomains| && Subdomains[j] <= s
    requires |s| > |Subdomains[j]| && s[|Subdomains[j]|] == 'y'
    ensures DropWww(s) == s[|Subdomains[j]|..]
  {
    if j == 0 {
      assert s[0] != "www."[0];
    } else {
      assert s[..4] == "www.";
    }
  }

  /** The text after a matching subdomain alternative starts with `y`. */
  lemma HostStart(s: string)
    requires MatchesHost(s)
    ensures |s| > 0 && s[0] == 'y'
  {
    var k :| 0 <= k < |Hosts| && Hosts[k] + "/" <= s;
    assert s[0] == (Hosts[k] + "/")[0];
  }

  /** The text after a matching scheme alternative starts with `w` or `y`. */
  lemma AfterSchemeStart(s: string)
    requires MatchesAfterScheme(s)
    ensures |s| > 0 && (s[0] == 'w' || s[0] == 'y')
  {
    var j :| 0 <= j < |Subdomains| && Subdomains[j] <= s && MatchesHost(s[|Subdomains[j]|..]);
    HostStart(s[|Subdomains[j]|..]);
    if j == 1 { assert s[0] == "www."[0]; }
  }

  /** A text matching the host group and the slash passes the validator's final test. */
  lemma HostAccepted(host: string)
    requires MatchesHost(host)
    ensures "youtube.com/" <= host || "youtu.be/" <= host
  {
    var k :| 0 <= k < |Hosts| && Hosts[k] + "/" <= host;
    if k == 0 {
      assert Hosts[0] + "/" == "youtube.com/";
    } else {
      assert Hosts[1] + "/" == "youtu.be/";
    }
  }

  /** The hand-coded validator accepts everything the pattern matches. */
  lemma MatchesPatternImpliesValid(url: string)
    requires MatchesPattern(url)
    ensures ValidYoutubeUrl(url)
  {
    var i :| 0 <= i < |Schemes| && Schemes[i] <= url && MatchesAfterScheme(url[|Schemes[i]|..]);
    var afterScheme := url[|Schemes[i]|..];
    AfterSchemeStart(afterScheme);
    DropSchemeOf(i, url);
    var j :| 0 <= j < |Subdomains| && Subdomains[j] <= afterScheme && MatchesHost(afterScheme[|Subdomains[j]|..]);
    var host := afterScheme[|Subdomains[j]|..];
    HostStart(host);
    DropWwwOf(j, afterScheme);
    HostAccepted(host);
  }

  /** Everything the hand-coded validator accepts, the pattern matches. */
  lemma ValidImpliesMatchesPattern(url: string)
    requires ValidYoutubeUrl(url)
    ensures MatchesPattern(url)
  {
    var i := if "https://" <= url then 2 else if "http://" <= url then 1 else 0;
    var afterScheme := DropScheme(url);
    assert Schemes[i] <= url && afterScheme == url[|Schemes[i]|..];
    var j := if "www." <= afterScheme then 1 else 0;
    var host := DropWww(afterScheme);
    assert Subdomains[j] <= afterScheme && host == afterScheme[|Subdomains[j]|..];
    var k := if "youtube.com/" <= host then 0 else 1;
    assert Hosts[k] + "/" == if k == 0 then "youtube.com/" else "youtu.be/";
    assert MatchesHost(host);
    assert MatchesAfterScheme(afterScheme);
  }

  /** The hand-coded validator accepts exactly what the pattern matches. */
  lemma ValidIffMatchesPattern(url: string)
    ensures ValidYoutubeUrl(url) <==> MatchesPattern(url)
  {
    if ValidYoutubeUrl(url) { ValidImpliesMatchesPattern(url); }
    if MatchesPattern(url) { MatchesPatternImpliesValid(url); }
  }

  lemma PrefixExtends(p: string, s: string, t: string)
    requires p <= s
    ensures p <= s + t && (s + t)[|p|..] == s[|p|..] + t
  {
    assert (s + t)[..|p|] == s[..|p|];
  }

  lemma MatchesHostExtends(host: string, t: string)
    requires MatchesHost(host)
    ensures MatchesHost(host + t)
  {
    var k :| 0 <= k < |Hosts| && Hosts[k] + "/" <= host;
    PrefixExtends(Hosts[k] + "/", host, t);
  }

  lemma MatchesAfterSchemeExtends(s: string, t: string)
    requires MatchesAfterScheme(s)
    ensures MatchesAfterScheme(s + t)
  {
    var j :| 0 <= j < |Subdomains| && Subdomains[j] <= s && MatchesHost(s[|Subdomains[j]|..]);
    PrefixExtends(Subdomains[j], s, t);
    MatchesHostExtends(s[|Subdomains[j]|..], t);
  }

  lemma MatchesPatternExtends(s: string, t: string)
    requires MatchesPattern(s)
    ensures MatchesPattern(s + t)
  {
    var i :| 0 <= i < |Schemes| && Schemes[i] <= s && MatchesAfterScheme(s[|Schemes[i]|..]);
    PrefixExtends(Schemes[i], s, t);
    MatchesAfterSchemeExtends(s[|Schemes[i]|..], t);
  }

  /** Only the start is checked: anything may follow an accepted link. */
  lemma PrefixClosed(s: string, t: string)
    requires ValidYoutubeUrl(s)
    ensures ValidYoutubeUrl(s + t)
  {
    ValidImpliesMatchesPattern(s);
    MatchesPatternExtends(s, t);
    MatchesPatternImpliesValid(s + t);
  }

  /** Every form of both hosts, with or without scheme and `www.`, is
      accepted, whatever path follows the slash. */
  lemma AcceptsCanonicalForms(i: nat, j: nat, k: nat, path: string)
    requires i < |Schemes| && j < |Subdomains| && k < |Hosts|
    ensures ValidYoutubeUrl(Schemes[i] + Subdomains[j] + Hosts[k] + "/" + path)
  {
    var host := Hosts[k] + "/" + path;
    var afterScheme := Subdomains[j] + host;
    var url := Schemes[i] + afterScheme;
    assert url == Schemes[i] + Subdomains[j] + Hosts[k] + "/" + path;
    assert Hosts[k] + "/" <= host;
    assert MatchesHost(host);
    assert afterScheme[|Subdomains[j]|..] == host;
    assert MatchesAfterScheme(afterScheme);
    assert url[|Schemes[i]|..] == afterScheme;
    assert MatchesPattern(url);
    MatchesPatternImpliesValid(url);
  }

  /** The empty text is refused. */
  lemma RejectsEmpty()
    ensures !ValidYoutubeUrl("")
  {
  }

  /** A host with no slash after it is refused. */
  lemma RejectsBareHost()
    ensures !ValidYoutubeUrl("youtube.com")
  {
    var bare := "youtube.com";
    assert bare[0] == 'y' && DropWww(DropScheme(bare)) == bare;
    assert bare[5] != "youtu.be/"[5];
  }

  /** The match is anchored: a text starting with any character other
      than `h`, `w` or `y` (such as `m.youtube.com/watch`) is refused. */
  lemma RejectsOtherStart(s: string)
    requires s != [] && s[0] != 'h' && s[0] != 'w' && s[0] != 'y'
    ensures !ValidYoutubeUrl(s)
  {
    assert s[0] != "https://"[0] && s[0] != "http://"[0] && s[0] != "www."[0];
    assert s[0] != "youtube.com/"[0] && s[0] != "youtu.be/"[0];
  }
}
