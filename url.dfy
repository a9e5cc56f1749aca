/** The part of Python's `urllib.parse.urlparse` that parsers/github.py reads: the path. */
module Url {
  import opened Text

  /** A C0 control character or space, which `urlsplit` strips from the front. */
  predicate IsC0OrSpace(c: char) {
    c <= ' '
  }

  /** `url.lstrip(...)` of those characters. */
  function StripLeading(s: string): (r: string)
    ensures |r| <= |s| && r == s[|s| - |r|..]
    ensures r != [] ==> !IsC0OrSpace(r[0])
    ensures s != [] && !IsC0OrSpace(s[0]) ==> r == s
  {
    if s != [] && IsC0OrSpace(s[0]) then StripLeading(s[1..]) else s
  }

  /** Tab, carriage return and line feed, which `urlsplit` deletes wherever they occur. */
  predicate IsUnsafe(c: char) {
    c == '\t' || c == '\r' || c == '\n'
  }

  function RemoveUnsafe(s: string): (r: string)
    ensures |r| <= |s|
    ensures forall c :: c in r ==> c in s && !IsUnsafe(c)
    ensures (forall c :: c in s ==> !IsUnsafe(c)) ==> r == s
  {
    if s == [] then []
    else (if IsUnsafe(s[0]) then [] else [s[0]]) + RemoveUnsafe(s[1..])
  }

  predicate IsAsciiAlpha(c: char) {
    'a' <= c <= 'z' || 'A' <= c <= 'Z'
  }

  /** The characters a scheme may consist of. */
  predicate IsSchemeChar(c: char) {
    IsAsciiAlpha(c) || '0' <= c <= '9' || c == '+' || c == '-' || c == '.'
  }

  /** `str.lower()` on ASCII text, the only text a scheme holds. */
  function AsciiLower(s: string): (r: string)
    ensures |r| == |s|
    ensures forall i :: 0 <= i < |s| ==> r[i] == if 'A' <= s[i] <= 'Z' then s[i] - 'A' + 'a' else s[i]
  {
    if s == [] then []
    else [if 'A' <= s[0] <= 'Z' then s[0] - 'A' + 'a' else s[0]] + AsciiLower(s[1..])
  }

  /** The schemes whose last path segment may carry `;parameters`. */
  const UsesParams: set<string> := {"", "ftp", "hdl", "prospero", "http", "imap", "https",
    "shttp", "rtsp", "rtsps", "rtspu", "sip", "sips", "mms", "sftp", "tel"}

  datatype ParseResult = ParseResult(scheme: string, netloc: string, path: string,
                                     params: string, query: string, fragment: string)

  /** The index of the scheme's `:`, when `url` opens with a scheme. */
  function SchemeEnd(url: string): (k: nat)
    ensures k <= |url|
    ensures k < |url| ==> url[k] == ':' && 0 < k && forall i :: 0 <= i < k ==> IsSchemeChar(url[i])
  {
    var i := FirstOf(url, {':'}, 0);
    if 0 < i < |url| && IsAsciiAlpha(url[0]) && forall j :: 0 <= j < i ==> IsSchemeChar(url[j]) then i
    else |url|
  }

  /** `urlsplit`'s scheme step: the lowered scheme and what follows its `:`, or no scheme
      and the whole url. */
  function SplitScheme(url: string): (r: (string, string))
    ensures r.1 == url || (SchemeEnd(url) < |url| && r.1 == url[SchemeEnd(url) + 1..])
    ensures |r.1| <= |url| && r.1 == url[|url| - |r.1|..]
  {
    var k := SchemeEnd(url);
    if k < |url| then (AsciiLower(url[..k]), url[k + 1..]) else ("", url)
  }

  /** `_splitnetloc(url, 2)` when the url opens with `//`: the netloc runs to the first
      `/`, `?` or `#`. */
  function SplitNetloc(url: string): (r: (string, string))
    ensures |r.1| <= |url| && r.1 == url[|url| - |r.1|..]
  {
    if |url| >= 2 && url[..2] == "//" then
      var n := FirstOf(url, {'/', '?', '#'}, 2);
      (url[2..n], url[n..])
    else
      assert url[0..] == url;
      ("", url)
  }

  /** `url.split(c, 1)` when `c` occurs, else the url and "". */
  function SplitOnce(url: string, c: char): (r: (string, string))
    ensures |r.0| <= |url| && c !in r.0 && r.0 == url[..|r.0|]
  {
    var k := FirstOf(url, {c}, 0);
    (url[..k], if k < |url| then url[k + 1..] else "")
  }

  /** `urlsplit` followed by `_splitparams`, as `urlparse` does them (fragments allowed, no
      default scheme). */
  function UrlParse(raw: string): (r: ParseResult)
    ensures forall c :: c in r.path ==> c in RemoveUnsafe(StripLeading(raw)) && c !in {'?', '#'}
  {
    var url := RemoveUnsafe(StripLeading(raw));
    var (scheme, rest) := SplitScheme(url);
    var (netloc, afterNetloc) := SplitNetloc(rest);
    var (beforeFragment, fragment) := SplitOnce(afterNetloc, '#');
    var (pathAndParams, query) := SplitOnce(beforeFragment, '?');
    var p := ParamsStart(pathAndParams, scheme);
    InPrefix(pathAndParams, p);
    InPrefix(beforeFragment, |pathAndParams|);
    InPrefix(afterNetloc, |beforeFragment|);
    InSuffix(rest, |rest| - |afterNetloc|);
    InSuffix(url, |url| - |rest|);
    ParseResult(scheme, netloc, pathAndParams[..p],
      if p < |pathAndParams| then pathAndParams[p + 1..] else "", query, fragment)
  }

  lemma InPrefix(s: string, n: nat)
    requires n <= |s|
    ensures forall c :: c in s[..n] ==> c in s
  {
    forall c | c in s[..n] ensures c in s {
      var k :| 0 <= k < n && s[..n][k] == c;
      assert s[k] == c;
    }
  }

  lemma InSuffix(s: string, n: nat)
    requires n <= |s|
    ensures forall c :: c in s[n..] ==> c in s
  {
    forall c | c in s[n..] ensures c in s {
      var k :| 0 <= k < |s| - n && s[n..][k] == c;
      assert s[n + k] == c;
    }
  }

  /** Where `_splitparams` cuts the path: at the first `;` after its last `/`, or at its first
      `;` when it has no `/`; `|path|` when it does not cut. */
  function ParamsStart(path: string, scheme: string): (p: nat)
    ensures p <= |path|
    ensures p < |path| ==> path[p] == ';'
    ensures scheme !in UsesParams || ';' !in path ==> p == |path|
  {
    if scheme in UsesParams && ';' in path then
      if '/' in path then FirstOf(path, {';'}, LastIndex(path, '/')) else FirstOf(path, {';'}, 0)
    else |path|
  }

  lemma {:induction false} SchemeOfHttps(url: string)
    requires |url| >= 8 && url[..8] == "https://"
    ensures SplitScheme(url) == ("https", url[6..])
  {
    HttpsSchemeEnd(url);
    assert url[..5] == url[..8][..5] == "https";
    LowerHttps();
  }

  lemma HttpsSchemeEnd(url: string)
    requires |url| >= 8 && url[..8] == "https://"
    ensures SchemeEnd(url) == 5
  {
    assert url[5] == ':' && url[0] == 'h';
    assert forall i :: 0 <= i < 5 ==> url[i] != ':' && IsSchemeChar(url[i]);
    FirstOfAt(url, {':'}, 0, 5);
  }

  lemma LowerHttps()
    ensures AsciiLower("https") == "https"
  {
  }

  lemma {:induction false} NetlocOfPlainHost(host: string, tail: string)
    requires forall c :: c in host ==> c !in {'/', '?', '#'}
    requires tail != [] && tail[0] == '/'
    ensures SplitNetloc("//" + host + tail) == (host, tail)
  {
    var rest := "//" + host + tail;
    assert rest[..2] == "//";
    assert rest[2 + |host|] == '/';
    forall i | 2 <= i < 2 + |host| ensures rest[i] !in {'/', '?', '#'} {
      assert rest[i] == host[i - 2];
      assert host[i - 2] in host;
    }
    FirstOfAt(rest, {'/', '?', '#'}, 2, 2 + |host|);
    assert rest[2..2 + |host|] == host;
    assert rest[2 + |host|..] == tail;
  }

  lemma {:induction false} SplitOnceAbsent(url: string, c: char)
    requires c !in url
    ensures SplitOnce(url, c) == (url, "")
  {
    FirstOfAt(url, {c}, 0, |url|);
    assert url[..|url|] == url;
  }

  lemma {:induction false} CleanConcat(a: string, b: string, c: string)
    requires forall x :: x in a ==> !IsUnsafe(x)
    requires forall x :: x in b ==> !IsUnsafe(x)
    requires forall x :: x in c ==> !IsUnsafe(x)
    ensures forall x :: x in a + b + c ==> !IsUnsafe(x)
  {
  }

  lemma {:induction false} AbsentAfterSlash(path: string, c: char)
    requires c != '/' && c !in path
    ensures c !in "/" + path
  {
  }

  lemma {:induction false} NothingToClean(raw: string)
    requires raw != [] && !IsC0OrSpace(raw[0])
    requires forall c :: c in raw ==> !IsUnsafe(c)
    ensures RemoveUnsafe(StripLeading(raw)) == raw
  {
  }

  lemma SlicesOfConcat(a: string, b: string, c: string, d: string)
    ensures (a + b) + c + d == a + (b + c + d)
    ensures (a + (b + c + d))[..|a|] == a && (a + (b + c + d))[|a|..] == b + c + d
  {
  }

  lemma HttpsSlices(host: string, tail: string)
    ensures |"https://" + host + tail| >= 8
    ensures ("https://" + host + tail)[..8] == "https://"
    ensures ("https://" + host + tail)[6..] == "//" + host + tail
  {
    assert "https://" == "https:" + "//";
    SlicesOfConcat("https:", "//", host, tail);
    SlicesOfConcat("https://", [], host, tail);
  }

  /** The result of parsing `https://<host>/<path>` when host and path hold none of the
      characters that delimit or are deleted. */
  lemma {:induction false} PlainHttpsPath(host: string, path: string)
    requires '/' !in host && '?' !in host && '#' !in host && forall c :: c in host ==> !IsUnsafe(c)
    requires '?' !in path && '#' !in path && ';' !in path && forall c :: c in path ==> !IsUnsafe(c)
    ensures UrlParse("https://" + host + "/" + path) ==
      ParseResult("https", host, "/" + path, "", "", "")
  {
    var tail := "/" + path;
    var raw := "https://" + host + tail;
    assert raw == "https://" + host + "/" + path;
    CleanConcat("https://", host, tail);
    NothingToClean(raw);
    HttpsSlices(host, tail);
    SchemeOfHttps(raw);
    assert forall c :: c in host ==> c !in {'/', '?', '#'};
    NetlocOfPlainHost(host, tail);
    AbsentAfterSlash(path, '?');
    AbsentAfterSlash(path, '#');
    AbsentAfterSlash(path, ';');
    SplitOnceAbsent(tail, '#');
    SplitOnceAbsent(tail, '?');
    assert ParamsStart(tail, "https") == |tail|;
    assert tail[..|tail|] == tail;
  }
}
