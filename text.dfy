/** Python's `str.strip()` with no argument: removes leading and trailing
    whitespace, where whitespace is what `str.isspace` accepts. */
module Text {

  /** The code points Python's `str.isspace` accepts. */
  predicate IsSpace(c: char)
  {
    || ('\t' <= c <= '\r')
    || ('\U{1C}' <= c <= '\U{1F}')
    || c == ' ' || c == '\U{85}' || c == '\U{A0}' || c == '\U{1680}'
    || ('\U{2000}' <= c <= '\U{200A}')
    || c == '\U{2028}' || c == '\U{2029}' || c == '\U{202F}' || c == '\U{205F}' || c == '\U{3000}'
  }

  predicate AllSpace(s: string)
  {
    forall k :: 0 <= k < |s| ==> IsSpace(s[k])
  }

  /** The first index at or after `i` that does not hold whitespace. */
  function SkipForward(s: string, i: nat): (j: nat)
    requires i <= |s|
    ensures i <= j <= |s|
    ensures AllSpace(s[i..j])
    ensures j < |s| ==> !IsSpace(s[j])
    decreases |s| - i
  {
    if i == |s| || !IsSpace(s[i]) then i else SkipForward(s, i + 1)
  }

  /** The smallest `k` in `[lo, j]` such that `s[k..j]` is all whitespace. */
  function SkipBackward(s: string, lo: nat, j: nat): (k: nat)
    requires lo <= j <= |s|
    ensures lo <= k <= j
    ensures AllSpace(s[k..j])
    ensures k > lo ==> !IsSpace(s[k - 1])
    decreases j - lo
  {
    if j == lo || !IsSpace(s[j - 1]) then j
    else
      var k := SkipBackward(s, lo, j - 1);
      assert s[k..j] == s[k..j - 1] + [s[j - 1]];
      k
  }

  /** `s.strip()`: the result is a contiguous piece of `s`, everything cut
      away on either side is whitespace, and the result neither starts nor
      ends with whitespace. */
  function Strip(s: string): (r: string)
    ensures |r| <= |s|
    ensures r == [] || (!IsSpace(r[0]) && !IsSpace(r[|r| - 1]))
    ensures exists i :: 0 <= i <= |s| - |r| && r == s[i..i + |r|] && AllSpace(s[..i]) && AllSpace(s[i + |r|..])
  {
    var i := SkipForward(s, 0);
    var j := SkipBackward(s, i, |s|);
    var r := s[i..j];
    assert s[..i] == s[0..i];
    assert s[j..] == s[j..|s|];
    assert r == s[i..i + |r|];
    assert r != [] ==> r[0] == s[i] && r[|r| - 1] == s[j - 1];
    r
  }

  /** Stripping twice is stripping once. */
  lemma StripIdempotent(s: string)
    ensures Strip(Strip(s)) == Strip(s)
  {
    StripUnchanged(Strip(s));
  }

  /** A string that neither starts nor ends with whitespace is left alone. */
  lemma StripUnchanged(s: string)
    requires s == [] || (!IsSpace(s[0]) && !IsSpace(s[|s| - 1]))
    ensures Strip(s) == s
  {
    if s != [] {
      assert SkipForward(s, 0) == 0;
      assert SkipBackward(s, 0, |s|) == |s|;
    }
  }

  /** Whitespace added on both sides is exactly what `strip` removes. */
  lemma StripPadding(pre: string, s: string, post: string)
    requires AllSpace(pre) && AllSpace(post)
    requires s == [] || (!IsSpace(s[0]) && !IsSpace(s[|s| - 1]))
    ensures Strip(pre + s + post) == s
  {
    var t := pre + s + post;
    var m := if s == [] then |t| else |pre|;
    assert AllSpace(t[0..m]) by {
      forall k | 0 <= k < m ensures IsSpace(t[k]) {
        if k < |pre| { assert t[k] == pre[k]; } else { assert t[k] == post[k - |pre|]; }
      }
    }
    if s != [] { assert t[m] == s[0]; }
    SkipForwardStops(t, 0, m);
    var e := if s == [] then |t| else |pre| + |s|;
    assert AllSpace(t[e..|t|]) by {
      forall k | e <= k < |t| ensures IsSpace(t[k]) { assert t[k] == post[k - |pre| - |s|]; }
    }
    if s != [] { assert t[e - 1] == s[|s| - 1]; }
    SkipBackwardStops(t, m, |t|, e);
    assert t[m..e] == s;
  }

  lemma {:induction false} SkipForwardStops(s: string, i: nat, m: nat)
    requires i <= m <= |s|
    requires AllSpace(s[i..m])
    requires m < |s| ==> !IsSpace(s[m])
    ensures SkipForward(s, i) == m
    decreases m - i
  {
    if i < m {
      assert s[i..m][0] == s[i];
      assert s[i + 1..m] == s[i..m][1..];
      SkipForwardStops(s, i + 1, m);
    }
  }

  lemma {:induction false} SkipBackwardStops(s: string, lo: nat, j: nat, m: nat)
    requires lo <= m <= j <= |s|
    requires AllSpace(s[m..j])
    requires m > lo ==> !IsSpace(s[m - 1])
    ensures SkipBackward(s, lo, j) == m
    decreases j - m
  {
    if m < j {
      assert s[m..j][j - 1 - m] == s[j - 1];
      assert s[m..j - 1] == s[m..j][..j - 1 - m];
      SkipBackwardStops(s, lo, j - 1, m);
    }
  }
}
