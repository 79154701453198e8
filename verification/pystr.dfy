/**
 * The Python `str` operations the pointer walk relies on, as Python defines
 * them: `s.lstrip(c)`, `s.split(sep)`, `s.replace(pat, rep)` and `t in s`.
 */
module PyStr {

  /** Every character of `s` is `c`. */
  predicate AllChar(s: string, c: char)
  {
    forall i | 0 <= i < |s| :: s[i] == c
  }

  /** `s.lstrip(c)`: drops every leading `c`, not just the first. */
  function Lstrip(s: string, c: char): (r: string)
    ensures |r| <= |s| && r == s[|s| - |r|..]
    ensures AllChar(s[..|s| - |r|], c)
    ensures r == [] || r[0] != c
  {
    if s != [] && s[0] == c then Lstrip(s[1..], c) else s
  }

  /** `sep.join(parts)`. */
  function Join(parts: seq<string>, sep: char): (s: string)
    requires |parts| > 0
  {
    if |parts| == 1 then parts[0] else parts[0] + [sep] + Join(parts[1..], sep)
  }

  /** `s.split(sep)` for a one-character separator: never empty, `"".split("/") == [""]`. */
  function Split(s: string, sep: char): (parts: seq<string>)
    ensures |parts| > 0
    ensures Join(parts, sep) == s
    ensures forall i | 0 <= i < |parts| :: sep !in parts[i]
  {
    if s == [] then [[]]
    else
      var rest := Split(s[1..], sep);
      if s[0] == sep then [[]] + rest
      else [[s[0]] + rest[0]] + rest[1..]
  }

  /**
   * `s.replace(pat, rep)` for a non-empty pattern: scans left to right and
   * replaces each occurrence that does not overlap an earlier replaced one.
   */
  function Replace(s: string, pat: string, rep: string): (r: string)
    requires pat != []
    ensures pat[0] !in s ==> r == s
    ensures |rep| <= |pat| ==> |r| <= |s|
    ensures forall c | c in r :: c in s || c in rep
    decreases |s|
  {
    if s == [] then []
    else if pat <= s then rep + Replace(s[|pat|..], pat, rep)
    else [s[0]] + Replace(s[1..], pat, rep)
  }

  /** `t in s` on two strings: `t` is a substring of `s`. */
  predicate IsSubstring(t: string, s: string): (r: bool)
    ensures r <==> exists i | 0 <= i <= |s| :: t <= s[i..]
    decreases |s|
  {
    assert s[0..] == s;
    if t <= s then true
    else if s == [] then false
    else
      assert forall i | 1 <= i <= |s| :: s[i..] == s[1..][i - 1..];
      assert forall j | 0 <= j <= |s[1..]| :: s[1..][j..] == s[j + 1..];
      IsSubstring(t, s[1..])
  }

  /** Replacing a one-character pattern distributes over concatenation. */
  lemma {:induction false} ReplaceCharAppend(a: string, b: string, c: char, rep: string)
    ensures Replace(a + b, [c], rep) == Replace(a, [c], rep) + Replace(b, [c], rep)
  {
    if a == [] {
      assert a + b == b;
    } else {
      var ab := a + b;
      assert ab[0] == a[0];
      assert ab[1..] == a[1..] + b;
      ReplaceCharAppend(a[1..], b, c, rep);
      var tail := Replace(a[1..], [c], rep) + Replace(b, [c], rep);
      if a[0] == c {
        assert [c] <= ab && [c] <= a;
        assert Replace(ab, [c], rep) == rep + tail;
        assert Replace(a, [c], rep) == rep + Replace(a[1..], [c], rep);
      } else {
        assert !([c] <= ab) && !([c] <= a);
        assert Replace(ab, [c], rep) == [a[0]] + tail;
        assert Replace(a, [c], rep) == [a[0]] + Replace(a[1..], [c], rep);
      }
    }
  }

  /** A string without the separator splits into itself alone. */
  lemma {:induction false} SplitWithoutSep(s: string, sep: char)
    requires sep !in s
    ensures Split(s, sep) == [s]
  {
    if s != [] {
      SplitWithoutSep(s[1..], sep);
      assert [s[0]] + s[1..] == s;
    }
  }

  /** Splitting `a + [sep] + b` where `a` has no separator yields `a` followed by the parts of `b`. */
  lemma {:induction false} SplitAtSep(a: string, b: string, sep: char)
    requires sep !in a
    ensures Split(a + [sep] + b, sep) == [a] + Split(b, sep)
  {
    if a == [] {
      assert a + [sep] + b == [sep] + b;
      assert ([sep] + b)[1..] == b;
    } else {
      assert (a + [sep] + b)[1..] == a[1..] + [sep] + b;
      SplitAtSep(a[1..], b, sep);
      assert [a[0]] + a[1..] == a;
    }
  }
}
