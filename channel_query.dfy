// Channel extraction in the `/stream/:name?` handler of ncc-8-0.js:
// `urlParam.match(/[?&]ch=([^&]+)/)` and `channelMatch ? channelMatch[1] : null`.
module ChannelQuery {
  import opened Options

  /** At index `i` the regex's `[?&]ch=` matches and is followed by at least one non-'&'. */
  predicate ChannelStartsAt(s: string, i: int)
  {
    0 <= i && i + 4 < |s| &&
    (s[i] == '?' || s[i] == '&') && s[i + 1] == 'c' && s[i + 2] == 'h' && s[i + 3] == '=' &&
    s[i + 4] != '&'
  }

  /** Where the greedy `[^&]+` run starting at `j` stops: the next '&' or the end. */
  function RunEnd(s: string, j: int): (r: int)
    requires 0 <= j <= |s|
    ensures j <= r <= |s|
    ensures r == |s| || s[r] == '&'
    ensures forall k :: j <= k < r ==> s[k] != '&'
    decreases |s| - j
  {
    if j == |s| || s[j] == '&' then j else RunEnd(s, j + 1)
  }

  /**
   * The leftmost index at or after `i` where the regex matches, or `|s|`
   * when it matches nowhere: the regex engine tries start positions from
   * left to right.
   */
  function FirstChannelStart(s: string, i: int): (k: int)
    requires 0 <= i <= |s|
    ensures i <= k <= |s|
    ensures k < |s| ==> ChannelStartsAt(s, k)
    ensures forall j :: i <= j < k ==> !ChannelStartsAt(s, j)
    decreases |s| - i
  {
    if i == |s| || ChannelStartsAt(s, i) then i else FirstChannelStart(s, i + 1)
  }

  /** The captured `ch=` value, or None (JavaScript's null) when the regex does not match. */
  function ChannelOf(url: string): (r: Option<string>)
    ensures r.None? <==> forall j :: 0 <= j < |url| ==> !ChannelStartsAt(url, j)
    ensures r.Some? ==> |r.value| > 0 && forall c :: c in r.value ==> c != '&'
  {
    var k := FirstChannelStart(url, 0);
    if k < |url| then Some(url[k + 4..RunEnd(url, k + 4)]) else None
  }

  /** The value is taken at the leftmost match, up to the next '&' or the end. */
  lemma ChannelOfFirstMatch(s: string, k: int)
    requires ChannelStartsAt(s, k)
    requires forall j :: 0 <= j < k ==> !ChannelStartsAt(s, j)
    ensures ChannelOf(s) == Some(s[k + 4..RunEnd(s, k + 4)])
  {
    assert FirstChannelStart(s, 0) == k;
  }

  /** With no '&' from `j` on, the run reaches the end of the string. */
  lemma {:induction false} RunEndAtEnd(s: string, j: int)
    requires 0 <= j <= |s|
    requires forall m :: j <= m < |s| ==> s[m] != '&'
    ensures RunEnd(s, j) == |s|
    decreases |s| - j
  {
    if j < |s| {
      RunEndAtEnd(s, j + 1);
    }
  }

  /** The run ends at the first '&' at or after `j`. */
  lemma {:induction false} RunEndStops(s: string, j: int, e: int)
    requires 0 <= j <= e < |s| && s[e] == '&'
    requires forall m :: j <= m < e ==> s[m] != '&'
    ensures RunEnd(s, j) == e
    decreases e - j
  {
    if j < e {
      RunEndStops(s, j + 1, e);
    }
  }

  /**
   * A URL whose text before "?ch=" holds no '?' or '&' yields the value
   * after it up to the next '&', provided the value is non-empty and holds
   * no '&'; anything after that '&' is not part of it.
   */
  lemma {:induction false} ChannelOfSimpleQuery(prefix: string, value: string, rest: string)
    requires '?' !in prefix && '&' !in prefix
    requires |value| > 0 && '&' !in value
    ensures ChannelOf(prefix + "?ch=" + value) == Some(value)
    ensures ChannelOf(prefix + "?ch=" + value + "&" + rest) == Some(value)
  {
    var k := |prefix|;
    var e := k + 4 + |value|;
    var s := prefix + "?ch=" + value;
    var t := prefix + "?ch=" + value + "&" + rest;
    forall u | u == s || u == t
      ensures ChannelOf(u) == Some(value)
    {
      assert u[..e] == s;
      SimpleQueryPrefix(prefix, value, u);
      if u == t {
        assert u[e] == '&';
        RunEndStops(u, k + 4, e);
      } else {
        RunEndAtEnd(u, k + 4);
      }
      assert u[k + 4..e] == value;
      ChannelOfFirstMatch(u, k);
    }
  }

  /**
   * An empty first value does not match `[^&]+`: the regex moves on to
   * the `&ch=` after it and captures that value.
   */
  lemma ChannelOfSkipsEmptyValue(prefix: string, value: string)
    requires '?' !in prefix && '&' !in prefix
    requires |value| > 0 && '&' !in value
    ensures ChannelOf(prefix + "?ch=&ch=" + value) == Some(value)
  {
    var s := prefix + "?ch=&ch=" + value;
    var k := |prefix| + 4;
    forall j | 0 <= j < k
      ensures !ChannelStartsAt(s, j)
    {
      if j < |prefix| {
        assert s[j] == prefix[j];
      } else if j == |prefix| {
        assert s[j + 4] == '&';
      } else {
        assert s[j] == "?ch="[j - |prefix|];
      }
    }
    assert s[k] == '&' && s[k + 1] == 'c' && s[k + 2] == 'h' && s[k + 3] == '=';
    assert s[k + 4] == value[0];
    forall m | k + 4 <= m < |s|
      ensures s[m] != '&'
    {
      assert s[m] == value[m - k - 4];
    }
    RunEndAtEnd(s, k + 4);
    ChannelOfFirstMatch(s, k);
    assert s[k + 4..RunEnd(s, k + 4)] == value;
  }

  /** The facts about `prefix + "?ch=" + value` that the scan reads. */
  lemma SimpleQueryPrefix(prefix: string, value: string, u: string)
    requires '?' !in prefix && '&' !in prefix
    requires |value| > 0 && '&' !in value
    requires |prefix| + 4 + |value| <= |u| && u[..|prefix| + 4 + |value|] == prefix + "?ch=" + value
    ensures ChannelStartsAt(u, |prefix|)
    ensures forall j :: 0 <= j < |prefix| ==> !ChannelStartsAt(u, j)
    ensures forall m :: |prefix| + 4 <= m < |prefix| + 4 + |value| ==> u[m] != '&'
  {
    var k := |prefix|;
    var s := prefix + "?ch=" + value;
    assert forall m :: 0 <= m < |s| ==> u[m] == s[m];
    assert u[k] == '?' && u[k + 1] == 'c' && u[k + 2] == 'h' && u[k + 3] == '=';
    assert u[k + 4] == value[0];
    forall j | 0 <= j < k
      ensures !ChannelStartsAt(u, j)
    {
      assert u[j] == prefix[j];
    }
    forall m | k + 4 <= m < k + 4 + |value|
      ensures u[m] != '&'
    {
      assert u[m] == value[m - k - 4];
    }
  }
}
