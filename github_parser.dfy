/** parsers/github.py: a pull-request url turned into API parameters and a route, and the
    merged / approved verdicts read from a cached or fetched entry. */
module GitHubParser {
  import opened Wrappers
  import opened Json
  import opened Text
  import Url

  // ---------------------------------------------------------------------------------------
  // PullRequestUrlParser

  /** The keyword arguments the GitHub client is called with: owner, repository and number
      from the url, and the revalidation token a worker may add (`entity_tag` for reviews,
      `last_modified` for details). */
  datatype Params = Params(repoOwner: string, repoName: string, number: string,
                           entityTag: Option<string>, lastModified: Option<string>)

  /** A `PullRequestUrlParser`: the url, its params (None when the path is too short) and
      its `api_route`, which is only set when there are params. */
  datatype PullRequestUrl = PullRequestUrl(url: string, params: Option<Params>, apiRoute: Option<string>)

  /** `parse.urlparse(url).path.split("/")` (line 22). */
  function PathSegments(url: string): (segs: seq<string>)
    ensures |segs| >= 1 && forall s :: s in segs ==> '/' !in s
  {
    Split(Url.UrlParse(url).path, '/')
  }

  /** `generate_pr_params` (lines 21-29): segments 1, 2 and 4 of the path; an `IndexError`
      on a shorter path gives None. Segment 3 is not looked at. */
  function GeneratePrParams(url: string): (p: Option<Params>)
    ensures p.Some? <==> |PathSegments(url)| >= 5
    ensures p.Some? ==> p.value.entityTag.None? && p.value.lastModified.None?
  {
    var segs := PathSegments(url);
    if |segs| >= 5 then Some(Params(segs[1], segs[2], segs[4], None, None)) else None
  }

  /** `api_route` (lines 16-19). */
  function ApiRoute(p: Params): string {
    "repos/" + p.repoOwner + "/" + p.repoName + "/pulls/" + p.number
  }

  /** `PullRequestUrlParser(url)` (lines 9-19). */
  function ParseUrl(url: string): (r: PullRequestUrl)
    ensures r.url == url
    ensures r.params.Some? <==> r.apiRoute.Some?
    ensures r.params.Some? ==> r.apiRoute.value == ApiRoute(r.params.value)
  {
    var params := GeneratePrParams(url);
    PullRequestUrl(url, params, if params.Some? then Some(ApiRoute(params.value)) else None)
  }

  /** A character urlparse keeps inside one path segment: no `/`, `?`, `#`, `;`, tab,
      carriage return or line feed. */
  predicate PlainChar(c: char) {
    c != '/' && c != '?' && c != '#' && c != ';' && !Url.IsUnsafe(c)
  }

  predicate PlainSegment(s: string) {
    forall i :: 0 <= i < |s| ==> PlainChar(s[i])
  }

  /** Plain segments joined by `/`. */
  predicate PlainPath(s: string) {
    forall i :: 0 <= i < |s| ==> s[i] == '/' || PlainChar(s[i])
  }

  lemma {:induction false} PlainJoin(parts: seq<string>)
    requires |parts| >= 1 && forall k :: 0 <= k < |parts| ==> PlainSegment(parts[k])
    ensures PlainPath(Join(parts, '/'))
  {
    if |parts| > 1 {
      var rest := parts[1..];
      assert forall k :: 0 <= k < |rest| ==> rest[k] == parts[k + 1];
      PlainJoin(rest);
      var j := Join(rest, '/');
      var s := Join(parts, '/');
      assert s == parts[0] + ['/'] + j;
      forall i | 0 <= i < |s| ensures s[i] == '/' || PlainChar(s[i]) {
        if i < |parts[0]| {
          assert s[i] == parts[0][i];
        } else if i > |parts[0]| {
          assert s[i] == j[i - |parts[0]| - 1];
        }
      }
    }
  }

  lemma {:induction false} PlainPathFacts(s: string)
    requires PlainPath(s)
    ensures '?' !in s && '#' !in s && ';' !in s && forall c :: c in s ==> !Url.IsUnsafe(c)
  {
    forall c | c in s ensures c != '?' && c != '#' && c != ';' && !Url.IsUnsafe(c) {
      var i :| 0 <= i < |s| && s[i] == c;
    }
  }

  lemma {:induction false} NoSlashInSegments(parts: seq<string>)
    requires forall k :: 0 <= k < |parts| ==> PlainSegment(parts[k])
    ensures forall p :: p in [""] + parts ==> '/' !in p
  {
    forall p | p in [""] + parts ensures '/' !in p {
      if p != "" {
        var k :| 0 <= k < |parts| && parts[k] == p;
        assert forall i :: 0 <= i < |p| ==> p[i] != '/';
      }
    }
  }

  lemma {:induction false} GitHubHost(path: string)
    requires '?' !in path && '#' !in path && ';' !in path && forall c :: c in path ==> !Url.IsUnsafe(c)
    ensures Url.UrlParse("https://github.com/" + path).path == "/" + path
  {
    var host := "github.com";
    GitHubHostPlain();
    Url.PlainHttpsPath(host, path);
    assert "https://github.com/" + path == "https://" + host + "/" + path by {
      GitHubPrefixSplit(path);
    }
  }

  lemma GitHubPrefixSplit(path: string)
    ensures "https://github.com/" + path == "https://" + "github.com" + "/" + path
  {
    assert "https://github.com/" == "https://" + "github.com" + "/";
  }

  lemma GitHubHostPlain()
    ensures '/' !in "github.com" && '?' !in "github.com" && '#' !in "github.com"
    ensures forall c :: c in "github.com" ==> !Url.IsUnsafe(c)
  {
  }

  /** The path of `https://github.com/` followed by plain segments joined by `/` splits
      into an empty segment and those segments. */
  lemma {:induction false} PlainUrlSegments(parts: seq<string>)
    requires |parts| >= 1 && forall k :: 0 <= k < |parts| ==> PlainSegment(parts[k])
    ensures PathSegments("https://github.com/" + Join(parts, '/')) == [""] + parts
  {
    var path := Join(parts, '/');
    PlainJoin(parts);
    PlainPathFacts(path);
    GitHubHost(path);
    var all := [""] + parts;
    assert all[1..] == parts;
    assert Join(all, '/') == "/" + path;
    NoSlashInSegments(parts);
    SplitJoin(all, '/');
    var url := "https://github.com/" + path;
    assert Url.UrlParse(url).path == Join(all, '/');
    assert Split(Url.UrlParse(url).path, '/') == all;
    assert PathSegments(url) == all;
  }

  lemma Join3(a: string, b: string, c: string)
    ensures Join([a, b, c], '/') == a + "/" + b + "/" + c
  {
    assert [a, b, c][1..] == [b, c];
    assert [b, c][1..] == [c];
    assert Join([c], '/') == c;
    assert Join([b, c], '/') == b + "/" + c;
    assert Join([a, b, c], '/') == a + "/" + (b + "/" + c);
  }

  lemma Join4(a: string, b: string, c: string, d: string)
    ensures Join([a, b, c, d], '/') == a + "/" + b + "/" + c + "/" + d
  {
    assert [a, b, c, d][1..] == [b, c, d];
    Join3(b, c, d);
    assert Join([a, b, c, d], '/') == a + "/" + (b + "/" + c + "/" + d);
  }

  lemma Join5(a: string, b: string, c: string, d: string, e: string)
    ensures Join([a, b, c, d, e], '/') == a + "/" + b + "/" + c + "/" + d + "/" + e
  {
    assert [a, b, c, d, e][1..] == [b, c, d, e];
    Join4(b, c, d, e);
    assert Join([a, b, c, d, e], '/') == a + "/" + (b + "/" + c + "/" + d + "/" + e);
  }

  lemma Assoc(x: string, a: string, b: string, c: string, d: string, e: string)
    ensures x + a + b + c + d + e == x + (a + b + c + d + e)
  {
  }

  lemma CanonicalUrl(owner: string, repo: string, number: string)
    ensures "https://github.com/" + owner + "/" + repo + "/pull/" + number ==
      "https://github.com/" + Join([owner, repo, "pull", number], '/')
  {
    assert "/pull/" == "/" + "pull" + "/";
    Assoc("https://github.com/", owner, "/", repo, "/pull/", number);
    assert owner + "/" + repo + "/pull/" + number == owner + "/" + repo + "/" + "pull" + "/" + number;
    Join4(owner, repo, "pull", number);
  }

  lemma ExtraSegmentUrl(owner: string, repo: string, extra: string, number: string)
    ensures "https://github.com/" + owner + "/" + repo + "/" + extra + "/pull/" + number ==
      "https://github.com/" + Join([owner, repo, extra, "pull", number], '/')
  {
    var x := "https://github.com/";
    assert "/pull/" == "/" + "pull" + "/";
    Assoc(x, owner, "/", repo, "/", extra);
    Assoc(x + owner + "/" + repo + "/", extra, "/pull/", number, "", "");
    assert x + owner + "/" + repo + "/" + extra + "/pull/" + number ==
      x + (owner + "/" + repo + "/" + extra + "/pull/" + number);
    assert owner + "/" + repo + "/" + extra + "/pull/" + number ==
      owner + "/" + repo + "/" + extra + "/" + "pull" + "/" + number;
    Join5(owner, repo, extra, "pull", number);
  }

  lemma ShortUrl(owner: string, repo: string)
    ensures "https://github.com/" + owner + "/" + repo + "/pull" ==
      "https://github.com/" + Join([owner, repo, "pull"], '/')
  {
    assert "/pull" == "/" + "pull";
    Assoc("https://github.com/", owner, "/", repo, "/pull", "");
    assert owner + "/" + repo + "/pull" == owner + "/" + repo + "/" + "pull";
    Join3(owner, repo, "pull");
  }

  lemma PullIsPlain()
    ensures PlainSegment("pull")
  {
  }

  /** The canonical pull-request url parses back into its owner, repository and number, and
      its route is the API path of that pull request. */
  lemma {:induction false} ParseUrlRoundTrip(owner: string, repo: string, number: string)
    requires PlainSegment(owner) && PlainSegment(repo) && PlainSegment(number)
    ensures var r := ParseUrl("https://github.com/" + owner + "/" + repo + "/pull/" + number);
      r.params == Some(Params(owner, repo, number, None, None)) &&
      r.apiRoute == Some("repos/" + owner + "/" + repo + "/pulls/" + number)
  {
    CanonicalUrl(owner, repo, number);
    PullIsPlain();
    PlainUrlSegments([owner, repo, "pull", number]);
  }

  /** A url with an extra path segment before `pull` takes `pull` as the number. */
  lemma {:induction false} ExtraSegmentShiftsNumber(owner: string, repo: string, extra: string, number: string)
    requires PlainSegment(owner) && PlainSegment(repo) && PlainSegment(extra) && PlainSegment(number)
    ensures ParseUrl("https://github.com/" + owner + "/" + repo + "/" + extra + "/pull/" + number).params ==
      Some(Params(owner, repo, "pull", None, None))
  {
    ExtraSegmentUrl(owner, repo, extra, number);
    PullIsPlain();
    PlainUrlSegments([owner, repo, extra, "pull", number]);
  }

  /** A path of four segments has no params and so no route. */
  lemma {:induction false} ShortPathHasNoRoute(owner: string, repo: string)
    requires PlainSegment(owner) && PlainSegment(repo)
    ensures ParseUrl("https://github.com/" + owner + "/" + repo + "/pull").apiRoute == None
  {
    ShortUrl(owner, repo);
    PullIsPlain();
    PlainUrlSegments([owner, repo, "pull"]);
  }

  /** A route splits back into its five segments when owner, repository and number hold no
      `/`. */
  lemma {:induction false} ApiRouteSegments(p: Params)
    requires '/' !in p.repoOwner && '/' !in p.repoName && '/' !in p.number
    ensures Split(ApiRoute(p), '/') == ["repos", p.repoOwner, p.repoName, "pulls", p.number]
  {
    var parts := ["repos", p.repoOwner, p.repoName, "pulls", p.number];
    assert Join(parts, '/') == ApiRoute(p) by {
      assert Join(parts[4..], '/') == p.number;
      assert Join(parts[3..], '/') == "pulls/" + p.number;
      assert Join(parts[2..], '/') == p.repoName + "/" + ("pulls/" + p.number);
      assert Join(parts[1..], '/') == p.repoOwner + "/" + (p.repoName + "/" + ("pulls/" + p.number));
    }
    SplitJoin(parts, '/');
  }

  // ---------------------------------------------------------------------------------------
  // PullRequestDataParser

  /** `get_details_merged` (lines 40-47): true when `details["merged"] is True`; false when
      the entry is empty or its `"details"` falsy; a `details` without the key, or not a
      dict, raises. */
  function DetailsMerged(data: Data): (r: Result<bool>)
    ensures r == Ok(true) <==>
      data != map[] && Has(GetField(data, "details"), "merged") &&
      GetField(data, "details").fields["merged"] == Bool(true)
    ensures r.Err? <==>
      data != map[] && Truthy(GetField(data, "details")) && !Has(GetField(data, "details"), "merged")
  {
    var details := GetField(data, "details");
    if data != map[] && Truthy(details) then
      match Subscript(details, "merged")
      case Err(e) => Err(e)
      case Ok(merged) => Ok(merged == Bool(true))
    else Ok(false)
  }

  /** `rev["state"]` for every review of one page, in order. */
  function StatesOf(revs: seq<Json>): (r: Result<seq<Json>>)
    ensures r.Ok? ==> |r.value| == |revs|
  {
    if revs == [] then Ok([])
    else
      match Subscript(revs[0], "state")
      case Err(e) => Err(e)
      case Ok(state) =>
        match StatesOf(revs[1..])
        case Err(e) => Err(e)
        case Ok(rest) => Ok([state] + rest)
  }

  /** The states of one page: `review["review"]`, iterated. */
  function PageStates(page: Json): Result<seq<Json>> {
    match Subscript(page, "review")
    case Err(e) => Err(e)
    case Ok(review) =>
      match Iterate(review)
      case Err(e) => Err(e)
      case Ok(revs) => StatesOf(revs)
  }

  /** The comprehension at line 51 over the pages in order, failing at the first page that
      raises. */
  function PagesStates(pages: seq<Json>): Result<seq<Json>> {
    if pages == [] then Ok([])
    else
      match PageStates(pages[0])
      case Err(e) => Err(e)
      case Ok(first) =>
        match PagesStates(pages[1..])
        case Err(e) => Err(e)
        case Ok(rest) => Ok(first + rest)
  }

  /** `get_reviews_approved` (lines 49-56). */
  function ReviewsApproved(data: Data): (r: Result<bool>)
    ensures data == map[] || !Truthy(GetField(data, "reviews")) ==> r == Ok(false)
  {
    var reviews := GetField(data, "reviews");
    if data != map[] && Truthy(reviews) then
      match Iterate(reviews)
      case Err(e) => Err(e)
      case Ok(pages) =>
        match PagesStates(pages)
        case Err(e) => Err(e)
        case Ok(states) => Ok(states != [] && states[|states| - 1] == Str("APPROVED"))
    else Ok(false)
  }

  // The shape the GitHub client stores (clients/github.py lines 102-118): one page per
  // response, each the response's headers and its decoded body, a list of review objects.

  /** One stored page: the response headers and the reviews of that response. */
  datatype StoredPage = StoredPage(headers: Json, reviews: seq<Json>)

  /** `{"headers": dict(res.headers), "review": response_json}`. */
  function PageJson(page: StoredPage): Json {
    Obj(map["headers" := page.headers, "review" := Arr(page.reviews)])
  }

  function PagesJson(pages: seq<StoredPage>): (ps: seq<Json>)
    ensures |ps| == |pages|
  {
    if pages == [] then [] else [PageJson(pages[0])] + PagesJson(pages[1..])
  }

  /** `{"reviews": [page, ...]}`. */
  function ReviewsEntry(pages: seq<StoredPage>): Data {
    map["reviews" := Arr(PagesJson(pages))]
  }

  /** A review's `"state"`, or null for one without. */
  function State(review: Json): Json {
    if Has(review, "state") then review.fields["state"] else Null
  }

  /** Every review is a dict holding a `"state"`. */
  predicate AllHaveState(reviews: seq<Json>) {
    forall k :: 0 <= k < |reviews| ==> Has(reviews[k], "state")
  }

  /** The states of a list of reviews, position by position. */
  function StateValues(reviews: seq<Json>): (vs: seq<Json>)
    ensures |vs| == |reviews|
  {
    seq(|reviews|, k requires 0 <= k < |reviews| => State(reviews[k]))
  }

  /** Every page's reviews carry a state. */
  predicate Stateful(pages: seq<StoredPage>) {
    forall k :: 0 <= k < |pages| ==> AllHaveState(pages[k].reviews)
  }

  /** The states of all pages, in page order. */
  function AllStates(pages: seq<StoredPage>): seq<Json> {
    if pages == [] then [] else StateValues(pages[0].reviews) + AllStates(pages[1..])
  }

  /** `rev["state"]` over a page's reviews succeeds exactly when every review holds a
      state, and then gives the states in order. */
  lemma {:induction false} StatesOfReviews(reviews: seq<Json>)
    ensures StatesOf(reviews).Ok? <==> AllHaveState(reviews)
    ensures AllHaveState(reviews) ==> StatesOf(reviews) == Ok(StateValues(reviews))
  {
    if reviews != [] {
      var rest := reviews[1..];
      StatesOfReviews(rest);
      assert AllHaveState(reviews) <==> Has(reviews[0], "state") && AllHaveState(rest) by {
        if Has(reviews[0], "state") && AllHaveState(rest) {
          forall k | 0 < k < |reviews| ensures Has(reviews[k], "state") {
            assert reviews[k] == rest[k - 1];
          }
        }
        if AllHaveState(reviews) {
          forall k | 0 <= k < |rest| ensures Has(rest[k], "state") {
            assert rest[k] == reviews[k + 1];
          }
        }
      }
      if AllHaveState(reviews) {
        assert StateValues(reviews) == [State(reviews[0])] + StateValues(rest);
      }
    }
  }

  /** The comprehension over a stored entry's pages succeeds exactly when every review on
      every page holds a state, and then gives all pages' states in page order. */
  lemma {:induction false} PagesStatesOfEntry(pages: seq<StoredPage>)
    ensures PagesStates(PagesJson(pages)).Ok? <==> Stateful(pages)
    ensures Stateful(pages) ==> PagesStates(PagesJson(pages)) == Ok(AllStates(pages))
  {
    if pages != [] {
      var ps := PagesJson(pages);
      var rest := pages[1..];
      assert ps[1..] == PagesJson(rest);
      PagesStatesOfEntry(rest);
      StatesOfReviews(pages[0].reviews);
      assert Subscript(ps[0], "review") == Ok(Arr(pages[0].reviews));
      assert PageStates(ps[0]) == StatesOf(pages[0].reviews);
      assert Stateful(pages) <==> AllHaveState(pages[0].reviews) && Stateful(rest) by {
        if AllHaveState(pages[0].reviews) && Stateful(rest) {
          forall k | 0 < k < |pages| ensures AllHaveState(pages[k].reviews) {
            assert pages[k] == rest[k - 1];
          }
        }
        if Stateful(pages) {
          forall k | 0 <= k < |rest| ensures AllHaveState(rest[k].reviews) {
            assert rest[k] == pages[k + 1];
          }
        }
      }
    }
  }

  /** Last state wins: a stored entry whose reviews all hold a state is approved exactly
      when some review exists and the last one, across all pages, is `APPROVED`, whatever
      the headers and the reviews' other fields; a review without a state raises. */
  lemma {:induction false} ReviewsApprovedLastWins(pages: seq<StoredPage>)
    ensures Stateful(pages) ==> (ReviewsApproved(ReviewsEntry(pages)) ==
      Ok(AllStates(pages) != [] && AllStates(pages)[|AllStates(pages)| - 1] == Str("APPROVED")))
    ensures !Stateful(pages) ==> ReviewsApproved(ReviewsEntry(pages)).Err?
  {
    var data := ReviewsEntry(pages);
    PagesStatesOfEntry(pages);
    if pages == [] {
      assert !Truthy(GetField(data, "reviews"));
    } else {
      assert Truthy(GetField(data, "reviews"));
    }
  }

  /** A review object as the GitHub API returns it, reduced to an id, an author and a state. */
  function Review(id: int, user: string, state: string): Json {
    Obj(map["id" := Num(id), "user" := Obj(map["login" := Str(user)]), "state" := Str(state)])
  }

  /** A change request after an approval on the same page leaves the pull request not
      approved. */
  lemma ChangesAfterApprovalExample()
    ensures ReviewsApproved(ReviewsEntry([StoredPage(Obj(map["ETag" := Str("W/\"1\"")]),
      [Review(1, "ann", "APPROVED"), Review(2, "bob", "CHANGES_REQUESTED")])])) == Ok(false)
  {
    var reviews := [Review(1, "ann", "APPROVED"), Review(2, "bob", "CHANGES_REQUESTED")];
    var pages := [StoredPage(Obj(map["ETag" := Str("W/\"1\"")]), reviews)];
    assert AllHaveState(reviews);
    assert Stateful(pages);
    ReviewsApprovedLastWins(pages);
    assert pages[1..] == [];
    assert AllStates(pages) == [Str("APPROVED"), Str("CHANGES_REQUESTED")];
  }

  /** An approval on a later page overrides a change request on an earlier one, and an empty
      last page does not hide the approval before it. */
  lemma ApprovalOnLaterPageExample()
    ensures ReviewsApproved(ReviewsEntry([StoredPage(Obj(map[]), [Review(1, "ann", "CHANGES_REQUESTED")]),
                                          StoredPage(Obj(map[]), [Review(2, "ann", "APPROVED")]),
                                          StoredPage(Obj(map[]), [])])) == Ok(true)
  {
    var pages := [StoredPage(Obj(map[]), [Review(1, "ann", "CHANGES_REQUESTED")]),
                  StoredPage(Obj(map[]), [Review(2, "ann", "APPROVED")]),
                  StoredPage(Obj(map[]), [])];
    assert AllHaveState(pages[0].reviews) && AllHaveState(pages[1].reviews);
    assert Stateful(pages);
    ReviewsApprovedLastWins(pages);
    assert pages[1..] == pages[1..2] + pages[2..];
    assert pages[1..][1..] == [StoredPage(Obj(map[]), [])];
    assert AllStates(pages[1..][1..]) == [];
    assert AllStates(pages) == [Str("CHANGES_REQUESTED"), Str("APPROVED")];
  }

  // ---------------------------------------------------------------------------------------
  // The revalidation token: `nested_lookup(name, entry)[-1]`

  /** The string value of `name` in one headers dict, if any. */
  function HeaderIn(headers: Json, name: string): (vs: seq<string>)
    ensures |vs| <= 1
  {
    if Has(headers, name) && headers.fields[name].Str? then [headers.fields[name].s] else []
  }

  function PagesHeaders(pages: seq<Json>, name: string): seq<string> {
    if pages == [] then []
    else
      (if pages[0].Obj? then HeaderIn(Get(pages[0], "headers"), name) else []) +
      PagesHeaders(pages[1..], name)
  }

  /** The values of header `name` in an entry: its own `"headers"` (a details entry), then
      each review page's `"headers"` in page order (a reviews entry). */
  function HeaderValues(data: Data, name: string): seq<string> {
    HeaderIn(GetField(data, "headers"), name) +
    (if "reviews" in data && data["reviews"].Arr? then PagesHeaders(data["reviews"].items, name) else [])
  }

  /** The last of them; None where `[-1]` raises `IndexError`. */
  function LastHeaderValue(data: Data, name: string): (v: Option<string>)
    ensures v.None? <==> HeaderValues(data, name) == []
    ensures v.Some? ==> v.value == HeaderValues(data, name)[|HeaderValues(data, name)| - 1]
  {
    var vs := HeaderValues(data, name);
    if vs == [] then None else Some(vs[|vs| - 1])
  }

  /** A details entry's token is its header's value. */
  lemma {:induction false} DetailsToken(headers: map<string, Json>, details: Json, name: string, value: string)
    requires name in headers && headers[name] == Str(value)
    ensures LastHeaderValue(map["headers" := Obj(headers), "details" := details], name) == Some(value)
  {
    var data := map["headers" := Obj(headers), "details" := details];
    assert "reviews" !in data;
    assert HeaderValues(data, name) == [value];
  }

  lemma {:induction false} PagesHeadersAppend(a: seq<Json>, b: seq<Json>, name: string)
    ensures PagesHeaders(a + b, name) == PagesHeaders(a, name) + PagesHeaders(b, name)
  {
    if a != [] {
      assert (a + b)[1..] == a[1..] + b;
      assert (a + b)[0] == a[0];
      PagesHeadersAppend(a[1..], b, name);
    } else {
      assert a + b == b;
    }
  }

  /** A reviews entry's token comes from its last page, when that page carries the header. */
  lemma {:induction false} ReviewsTokenFromLastPage(pages: seq<Json>, last: map<string, Json>, reviews: seq<Json>,
                                 name: string, value: string)
    requires name in last && last[name] == Str(value)
    ensures LastHeaderValue(map["reviews" := Arr(pages + [PageJson(StoredPage(Obj(last), reviews))])], name) == Some(value)
  {
    var page := PageJson(StoredPage(Obj(last), reviews));
    var data := map["reviews" := Arr(pages + [page])];
    PagesHeadersAppend(pages, [page], name);
    assert [page][1..] == [];
    assert PagesHeaders([page], name) == [value];
    assert "headers" !in data;
  }
}
