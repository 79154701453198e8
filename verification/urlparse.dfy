/**
 * The two `urllib.parse` helpers whose behaviour the pointer walk depends on:
 * `urldefrag`, which cuts a URI at its fragment, and `unquote`, which decodes
 * percent escapes. (`urlsplit(..).geturl()` stays uninterpreted: it is the
 * `normalize` function of a `UriStore.UriDict`.)
 */
module UrlParse {
  import opened Documents

  /** Index of the first `c` in `s`. */
  function IndexOf(s: string, c: char): (i: nat)
    requires c in s
    ensures i < |s| && s[i] == c && c !in s[..i]
  {
    if s[0] == c then 0 else 1 + IndexOf(s[1..], c)
  }

  /**
   * `urldefrag(url)`: the part before the first '#' and the part after it;
   * without a '#', the whole URI and an empty fragment.
   */
  function Urldefrag(url: Uri): (r: (Uri, string))
    ensures '#' !in r.0
    ensures '#' in url ==> url == r.0 + "#" + r.1
    ensures '#' !in url ==> r == (url, "")
  {
    if '#' in url then
      var i := IndexOf(url, '#');
      assert url == url[..i] + "#" + url[i + 1..];
      (url[..i], url[i + 1..])
    else (url, "")
  }

  predicate IsHexDigit(c: char)
  {
    '0' <= c <= '9' || 'a' <= c <= 'f' || 'A' <= c <= 'F'
  }

  function HexValue(c: char): (v: nat)
    requires IsHexDigit(c)
    ensures v < 16
  {
    if '0' <= c <= '9' then c as nat - '0' as nat
    else if 'a' <= c <= 'f' then c as nat - 'a' as nat + 10
    else c as nat - 'A' as nat + 10
  }

  /** `s` starts with a percent escape of an ASCII byte ("%41", "%2F", "%7e"). */
  predicate StartsWithAsciiEscape(s: string)
  {
    |s| >= 3 && s[0] == '%' && IsHexDigit(s[1]) && IsHexDigit(s[2]) && HexValue(s[1]) < 8
  }

  /**
   * `unquote(s)`: every "%XX" with two hex digits becomes the character with
   * code XX; a '%' not followed by two hex digits is kept as written.
   */
  function Unquote(s: string): (r: string)
    ensures |r| <= |s|
    ensures |r| == |s| ==> r == s
    decreases |s|
  {
    if s == [] then []
    else if StartsWithAsciiEscape(s) then
      [(HexValue(s[1]) * 16 + HexValue(s[2])) as char] + Unquote(s[3..])
    else [s[0]] + Unquote(s[1..])
  }

  /** Text without a '%' comes out of `unquote` unchanged. */
  lemma {:induction false} UnquotePlain(s: string)
    requires '%' !in s
    ensures Unquote(s) == s
  {
    if s != [] {
      assert s[0] in s;
      UnquotePlain(s[1..]);
    }
  }

  /** Two URIs that differ only after their '#' share the same defragmented base. */
  lemma SameBaseDifferentFragments(base: Uri, f1: string, f2: string)
    requires '#' !in base
    ensures Urldefrag(base + "#" + f1).0 == Urldefrag(base + "#" + f2).0 == base
    ensures Urldefrag(base + "#" + f1).1 == f1
  {
    var u := base + "#" + f1;
    assert u[|base|] == '#';
    var i := IndexOf(u, '#');
    assert u[..|base|] == base;
    assert i == |base|;
    assert u[i + 1..] == f1;
    var v := base + "#" + f2;
    assert v[|base|] == '#';
    assert v[..|base|] == base;
  }
}
