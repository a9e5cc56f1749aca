/** The pull-request URL pattern `http[s]://github.com/.+/pull/\d+` of parsers/slack.py,
    searched the way `re.search` does: leftmost start, and at that start the greedy `.+`
    backtracks from the end of the line to the last `/pull/` followed by a digit.
    `[s]` is the single letter `s`; both `.` (the one in `github.com` included) stand for any
    character except a newline; `\d` is an ASCII digit. */
module PullRequestPattern {
  import opened Wrappers
  import Text

  /** "https://github" + one wildcard + "com/" */
  const PrefixLength: nat := 19

  predicate IsDigit(c: char) { '0' <= c <= '9' }

  /** The literal part `https://github.com/` of the pattern matches at `i`. */
  predicate PrefixAt(s: string, i: nat) {
    i + PrefixLength <= |s| &&
    s[i..i + 14] == "https://github" && s[i + 14] != '\n' && s[i + 15..i + 19] == "com/"
  }

  predicate NoNewline(s: string, a: nat, b: nat)
    requires a <= b <= |s|
  {
    forall x :: a <= x < b ==> s[x] != '\n'
  }

  predicate Digits(s: string, a: nat, b: nat)
    requires a <= b <= |s|
  {
    forall x :: a <= x < b ==> IsDigit(s[x])
  }

  /** `s[i..j]` matches the pattern with `.+` covering `s[i + 19..k]` and `/pull/` at `k`. */
  predicate SplitAt(s: string, i: nat, k: nat, j: nat) {
    i + PrefixLength < k && k + 6 < j <= |s| &&
    NoNewline(s, i + PrefixLength, k) && s[k..k + 6] == "/pull/" && Digits(s, k + 6, j)
  }

  /** `s[i..j]` is a string of the pattern's language. */
  ghost predicate MatchSpan(s: string, i: nat, j: nat) {
    PrefixAt(s, i) && exists k :: SplitAt(s, i, k, j)
  }

  /** `t` as a whole is a string of the pattern's language. */
  ghost predicate Matches(t: string) {
    MatchSpan(t, 0, |t|)
  }

  /** `/pull/` followed by a digit starts at `k`. */
  predicate PullAt(s: string, k: nat) {
    k + 6 < |s| && s[k..k + 6] == "/pull/" && IsDigit(s[k + 6])
  }

  /** The end of the run of digits that starts at `p`. */
  function DigitsEnd(s: string, p: nat): (e: nat)
    requires p <= |s|
    ensures p <= e <= |s| && Digits(s, p, e)
    ensures e < |s| ==> !IsDigit(s[e])
    decreases |s| - p
  {
    if p < |s| && IsDigit(s[p]) then DigitsEnd(s, p + 1) else p
  }

  /** The largest `k` in `[lo, hi]` with `PullAt(s, k)`: the backtracking of the greedy `.+`. */
  function LastPull(s: string, lo: nat, hi: nat): (r: Option<nat>)
    ensures r.Some? ==> lo <= r.value <= hi && PullAt(s, r.value)
    ensures r.Some? ==> forall k :: r.value < k <= hi ==> !PullAt(s, k)
    ensures r.None? ==> forall k :: lo <= k <= hi ==> !PullAt(s, k)
    decreases hi
  {
    if hi < lo then None
    else if PullAt(s, hi) then Some(hi)
    else if hi == 0 then None
    else LastPull(s, lo, hi - 1)
  }

  /** The end of the match starting at `i`, if there is one. */
  function MatchAt(s: string, i: nat): Option<nat> {
    if !PrefixAt(s, i) then None
    else
      var lineEnd := Text.FirstOf(s, {'\n'}, i + PrefixLength);
      match LastPull(s, i + PrefixLength + 1, lineEnd)
      case None => None
      case Some(k) => Some(DigitsEnd(s, k + 6))
  }

  /** The leftmost match at or after `i`, as a span. */
  function SearchFrom(s: string, i: nat): Option<(nat, nat)>
    decreases |s| - i
  {
    if |s| < i then None
    else match MatchAt(s, i)
      case Some(j) => Some((i, j))
      case None => if i == |s| then None else SearchFrom(s, i + 1)
  }

  /** `re.search(pattern, s)` followed by `.group()`. */
  function Search(s: string): Option<string> {
    match SearchFrom(s, 0)
    case None => None
    case Some((i, j)) => if i <= j <= |s| then Some(s[i..j]) else None
  }

  /** Two occurrences of `/pull/` followed by a digit cannot overlap. */
  lemma PullNoOverlap(s: string, k1: nat, k2: nat)
    requires k1 < k2 < k1 + 6
    ensures PullAt(s, k1) ==> !PullAt(s, k2)
  {
    var d := k2 - k1;
    if d == 5 {
      assert PullAt(s, k2) ==> s[k2 + 1] == s[k2..k2 + 6][1];
    } else {
      assert PullAt(s, k1) ==> s[k2] == s[k1..k1 + 6][d];
    }
  }

  /** MatchAt finds exactly the longest match at `i`, and none when there is none. */
  lemma MatchAtSpec(s: string, i: nat)
    ensures MatchAt(s, i).Some? ==>
      var j := MatchAt(s, i).value;
      i <= j <= |s| && MatchSpan(s, i, j) && forall j' :: j < j' <= |s| ==> !MatchSpan(s, i, j')
    ensures MatchAt(s, i).None? ==> forall j' :: i <= j' <= |s| ==> !MatchSpan(s, i, j')
  {
    if PrefixAt(s, i) {
      var start := i + PrefixLength;
      var lineEnd := Text.FirstOf(s, {'\n'}, start);
      var found := LastPull(s, start + 1, lineEnd);
      forall j': nat, k': nat
        ensures SplitAt(s, i, k', j') ==> start + 1 <= k' <= lineEnd && PullAt(s, k')
      {
        assert SplitAt(s, i, k', j') ==> IsDigit(s[k' + 6]);
        assert lineEnd < |s| ==> s[lineEnd] == '\n';
      }
      if found.Some? {
        var k := found.value;
        var j := DigitsEnd(s, k + 6);
        assert SplitAt(s, i, k, j);
        forall j': nat, k': nat | j < j' <= |s| ensures !SplitAt(s, i, k', j') {
          if k' == k {
            assert j < |s| ==> !IsDigit(s[j]);
          } else if k' + 6 <= k {
            assert !IsDigit(s[k]);
          } else if k' < k {
            PullNoOverlap(s, k', k);
          }
        }
      }
    }
  }

  /** No match starts in `[lo, hi)`. */
  ghost predicate NoMatchBetween(s: string, lo: nat, hi: nat) {
    forall a', b' :: lo <= a' < hi && a' <= b' <= |s| ==> !MatchSpan(s, a', b')
  }

  /** No match starting at `a` is longer than `s[a..b]`. */
  ghost predicate LongestAt(s: string, a: nat, b: nat) {
    forall b' :: b < b' <= |s| ==> !MatchSpan(s, a, b')
  }

  /** SearchFrom finds the leftmost match at or after `i`, and at that start the longest. */
  lemma {:induction false} SearchFromSpec(s: string, i: nat)
    ensures SearchFrom(s, i).Some? ==>
      var (a, b) := SearchFrom(s, i).value;
      i <= a <= b <= |s| && MatchSpan(s, a, b) && LongestAt(s, a, b) && NoMatchBetween(s, i, a)
    ensures SearchFrom(s, i).None? ==> NoMatchBetween(s, i, |s| + 1)
    decreases |s| - i
  {
    if i <= |s| {
      MatchAtSpec(s, i);
      match MatchAt(s, i)
      case Some(j) =>
        assert SearchFrom(s, i) == Some((i, j));
        assert NoMatchBetween(s, i, i);
      case None =>
        if i < |s| {
          SearchFromSpec(s, i + 1);
          var r := SearchFrom(s, i + 1);
          assert SearchFrom(s, i) == r;
          if r.Some? {
            var (a, b) := r.value;
            NoMatchExtends(s, i, a);
            assert MatchSpan(s, a, b) && LongestAt(s, a, b);
          } else {
            NoMatchExtends(s, i, |s| + 1);
          }
        } else {
          assert SearchFrom(s, i) == None;
          NoMatchExtends(s, i, i + 1);
        }
    }
  }

  /** No match at `i` and none in `(i, hi)` means none in `[i, hi)`. */
  lemma NoMatchExtends(s: string, i: nat, hi: nat)
    requires i < hi
    requires forall b' :: i <= b' <= |s| ==> !MatchSpan(s, i, b')
    requires NoMatchBetween(s, i + 1, hi)
    ensures NoMatchBetween(s, i, hi)
  {
  }

  /** A span of `s` matches iff the substring matches on its own. */
  lemma SpanMatchesSlice(s: string, a: nat, b: nat)
    requires a <= b <= |s|
    ensures MatchSpan(s, a, b) <==> Matches(s[a..b])
  {
    var t := s[a..b];
    assert forall x :: 0 <= x < |t| ==> t[x] == s[a + x];
    if MatchSpan(s, a, b) {
      var k: nat :| SplitAt(s, a, k, b);
      assert t[0..14] == s[a..a + 14] && t[15..19] == s[a + 15..a + 19];
      assert t[k - a..k - a + 6] == s[k..k + 6];
      assert SplitAt(t, 0, k - a, |t|);
    }
    if Matches(t) {
      var k: nat :| SplitAt(t, 0, k, |t|);
      assert t[0..14] == s[a..a + 14] && t[15..19] == s[a + 15..a + 19];
      assert t[k..k + 6] == s[a + k..a + k + 6];
      assert SplitAt(s, a, a + k, b);
    }
  }

  /** `re.search` semantics: a result is a substring that matches, no match starts further
      left, no longer match starts at the same place; no result means no substring matches. */
  lemma SearchSpec(s: string)
    ensures Search(s).Some? ==>
      exists a, b :: 0 <= a <= b <= |s| && Search(s).value == s[a..b] && Matches(s[a..b]) &&
        (forall b' :: b < b' <= |s| ==> !Matches(s[a..b'])) &&
        (forall a', b' :: 0 <= a' < a && a' <= b' <= |s| ==> !Matches(s[a'..b']))
    ensures Search(s).None? ==> forall a, b :: 0 <= a <= b <= |s| ==> !Matches(s[a..b])
  {
    SearchFromSpec(s, 0);
    forall a, b | 0 <= a <= b <= |s| ensures MatchSpan(s, a, b) <==> Matches(s[a..b]) {
      SpanMatchesSlice(s, a, b);
    }
  }

  /** Every match starts with `https://`: a plain `http://` link is never a pull request. */
  lemma MatchIsHttps(t: string)
    requires Matches(t)
    ensures |t| > 26 && t[..8] == "https://" && t[..5] != "http:"
  {
    assert t[..8] == t[0..14][..8];
    assert t[4] == t[0..14][4] == 's';
  }

  /** Example: a plain-http link does not match anywhere. */
  lemma PlainHttpNeverMatches()
    ensures Search("http://github.com/o/r/pull/1") == None
  {
    var s := "http://github.com/o/r/pull/1";
    forall a, b | 0 <= a <= b <= |s| ensures !MatchSpan(s, a, b) {
      if PrefixAt(s, a) {
        assert s[a + 4] == 's';
      }
    }
    SearchFromSpec(s, 0);
  }
}
