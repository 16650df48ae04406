/** The two pieces of Python string handling the bot relies on:
    `str.strip()` on the incoming message and `data.split(":")[1]` on a
    button's callback payload. */
module Text {
  import opened Wrappers

  /** Python's `str.isspace()`: the characters `str.strip()` removes. */
  predicate IsSpace(c: char) {
    ('\t' <= c <= '\r') || ('\U{1C}' <= c <= ' ')
    || c == '\U{85}' || c == '\U{A0}' || c == '\U{1680}'
    || ('\U{2000}' <= c <= '\U{200A}')
    || c == '\U{2028}' || c == '\U{2029}' || c == '\U{202F}'
    || c == '\U{205F}' || c == '\U{3000}'
  }

  /** Drops leading whitespace: the result is a suffix of `s`, what was
      dropped is whitespace, and the result does not start with whitespace. */
  function TrimStart(s: string): (r: string)
    ensures |r| <= |s| && r == s[|s| - |r|..]
    ensures forall k :: 0 <= k < |s| - |r| ==> IsSpace(s[k])
    ensures r != [] ==> !IsSpace(r[0])
  {
    if s != [] && IsSpace(s[0]) then
      var r := TrimStart(s[1..]);
      assert forall k :: 1 <= k < |s| - |r| ==> s[k] == s[1..][k - 1];
      r
    else s
  }

  /** Drops trailing whitespace: the result is a prefix of `s`, what was
      dropped is whitespace, and the result does not end with whitespace. */
  function TrimEnd(s: string): (r: string)
    ensures |r| <= |s| && r == s[..|r|]
    ensures forall k :: |r| <= k < |s| ==> IsSpace(s[k])
    ensures r != [] ==> !IsSpace(r[|r| - 1])
  {
    if s != [] && IsSpace(s[|s| - 1]) then TrimEnd(s[..|s| - 1]) else s
  }

  /** `s.strip()`: whitespace removed from both ends. */
  function Strip(s: string): (r: string)
    ensures |r| <= |s|
    ensures r != [] ==> !IsSpace(r[0]) && !IsSpace(r[|r| - 1])
  {
    TrimEnd(TrimStart(s))
  }

  /** `s` is whitespace, then `Strip(s)` starting at offset `i`, then
      whitespace. */
  lemma StripIsInnerSlice(s: string) returns (i: nat)
    ensures i + |Strip(s)| <= |s| && Strip(s) == s[i..i + |Strip(s)|]
    ensures forall k :: 0 <= k < i ==> IsSpace(s[k])
    ensures forall k :: i + |Strip(s)| <= k < |s| ==> IsSpace(s[k])
  {
    var t := TrimStart(s);
    var r := TrimEnd(t);
    i := |s| - |t|;
    assert t == s[i..];
    assert r == s[i..][..|r|] == s[i..i + |r|];
    assert forall k :: i + |r| <= k < |s| ==> s[k] == t[k - i];
  }

  /** Index of the first occurrence of `c` in `s`, if any. */
  function IndexOf(s: string, c: char): (r: Option<nat>)
    ensures r.None? <==> c !in s
    ensures r.Some? ==> r.value < |s| && s[r.value] == c && c !in s[..r.value]
  {
    if s == [] then None
    else if s[0] == c then Some(0)
    else
      match IndexOf(s[1..], c)
      case None => None
      case Some(i) =>
        assert s[..i + 1] == [s[0]] + s[1..][..i];
        Some(i + 1)
  }

  /** `s.split(sep)[1]`: the text between the first and the second `sep`
      (or the end of `s`); `None` where Python raises `IndexError`, that is
      when `sep` does not occur in `s`. */
  function SecondField(s: string, sep: char): (r: Option<string>)
    ensures r.Some? <==> sep in s
    ensures r.Some? ==> sep !in r.value
  {
    match IndexOf(s, sep)
    case None => None
    case Some(i) =>
      var rest := s[i + 1..];
      match IndexOf(rest, sep)
      case None => Some(rest)
      case Some(j) => Some(rest[..j])
  }

  /** The separated fields of `p + [sep] + k + tail` come back apart:
      the second field is `k`, whatever follows it. */
  lemma SecondFieldOfJoin(p: string, k: string, tail: string, sep: char)
    requires sep !in p && sep !in k
    requires tail == [] || tail[0] == sep
    ensures SecondField(p + [sep] + k + tail, sep) == Some(k)
  {
    var rest := k + tail;
    var s := p + [sep] + k + tail;
    assert s == p + ([sep] + rest);
    FirstIndexIs(p, [sep] + rest, sep);
    assert s[|p| + 1..] == rest;
    RestField(k, tail, sep);
  }

  /** After the first separator, the field runs to the next one or the end. */
  lemma RestField(k: string, tail: string, sep: char)
    requires sep !in k
    requires tail == [] || tail[0] == sep
    ensures match IndexOf(k + tail, sep)
            case None => k + tail == k
            case Some(j) => j <= |k + tail| && (k + tail)[..j] == k
  {
    if tail == [] {
      assert k + tail == k;
    } else {
      FirstIndexIs(k, tail, sep);
    }
  }

  lemma {:induction false} FirstIndexIs(p: string, q: string, sep: char)
    requires sep !in p && q != [] && q[0] == sep
    ensures IndexOf(p + q, sep) == Some(|p|)
  {
    if p == [] {
      assert p + q == q;
    } else {
      assert (p + q)[0] == p[0] && (p + q)[1..] == p[1..] + q;
      FirstIndexIs(p[1..], q, sep);
    }
  }
}
