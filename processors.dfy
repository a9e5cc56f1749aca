/** processors/approved.py and processors/merged.py: the two workers. Both run the same
    per-message algorithm and differ only in the cache file's directory (`reviews` or
    `details`), the revalidation header (`ETag` or `Last-Modified`), the verdict read from an
    entry (approved or merged) and the reaction added. */
module Processors {
  import opened Wrappers
  import opened Json
  import opened SlackParser
  import opened GitHubParser
  import opened LocalCache
  import opened Helpers
  import opened Remote

  /** `MessageApproved` or `MessageMerged`. */
  datatype Condition = Approval | Merge

  /** The settings the workers read from the command line. */
  datatype Config = Config(slackChannelId: string, approvedReactionName: string,
                           mergedReactionName: string, dryRun: bool)

  function EndpointOf(c: Condition): Endpoint {
    match c
    case Approval => PullRequestReviews
    case Merge => PullRequestDetails
  }

  /** The cache directory of a pull request: `f"{api_route}/reviews"` (approved.py line 30)
      or `f"{api_route}/details"` (merged.py line 30). */
  function CachePath(c: Condition, route: string): string {
    route + (match c case Approval => "/reviews" case Merge => "/details")
  }

  /** The header whose last cached value revalidates the entry (line 44). */
  function TokenHeader(c: Condition): string {
    match c
    case Approval => "ETag"
    case Merge => "Last-Modified"
  }

  /** `get_reviews_approved` or `get_details_merged` of an entry. */
  function Verdict(c: Condition, data: Data): Result<bool> {
    match c
    case Approval => ReviewsApproved(data)
    case Merge => DetailsMerged(data)
  }

  /** `pull_request.params.update(...)` (lines 45-47): the token goes in as `entity_tag` or
      `last_modified`; nothing else changes. */
  function WithToken(c: Condition, p: Params, token: string): (q: Params)
    ensures q.repoOwner == p.repoOwner && q.repoName == p.repoName && q.number == p.number
    ensures c == Approval ==> q.entityTag == Some(token) && q.lastModified == p.lastModified
    ensures c == Merge ==> q.lastModified == Some(token) && q.entityTag == p.entityTag
  {
    match c
    case Approval => p.(entityTag := Some(token))
    case Merge => p.(lastModified := Some(token))
  }

  function ReactionName(c: Condition, config: Config): string {
    match c
    case Approval => config.approvedReactionName
    case Merge => config.mergedReactionName
  }

  /** The world a worker acts on: the cache, the GitHub oracle's remaining answers and its
      request log, and the log of Slack reactions. */
  datatype Env = Env(cache: Tree, answers: seq<Data>, requests: seq<Request>, reactions: seq<Reaction>)

  /** The worker's locals while it goes through a message's pull requests (lines 24-27):
      `is_approved`/`is_merged`, `pull_request_states`, `pull_requests_cache`, and the
      exception that ended the loop, if one did. */
  datatype Progress = Progress(env: Env, verdict: bool, states: seq<bool>, paths: seq<string>,
                               crash: Option<Error>)

  /** The locals when a message's loop starts: the verdict is False once per message. */
  function Start(env: Env): Progress {
    Progress(env, false, [], [], None)
  }

  // ---------------------------------------------------------------------------------------
  // One pull request (lines 29-62)

  /** Lines 51-62: call GitHub with `params`; a non-empty answer gives a fresh verdict and is
      merge-saved at `path`; an empty one leaves the verdict and the cache as they are. The
      verdict as it then stands is appended. */
  function Fetch(c: Condition, p: Progress, params: Params, path: string): (r: Progress)
    ensures r.env.reactions == p.env.reactions && r.paths == p.paths
    ensures r.crash.None? ==> p.crash.None?
    ensures r.env.requests == p.env.requests + [Request(EndpointOf(c), params)]
    ensures r.crash.None? ==> r.states == p.states + [r.verdict]
    ensures NextAnswer(p.env.answers) == map[] ==> r == p.(env := r.env, states := p.states + [p.verdict])
    ensures NextAnswer(p.env.answers) == map[] ==> r.env.cache == p.env.cache
    ensures NextAnswer(p.env.answers) != map[] && r.crash.None? ==>
      Verdict(c, NextAnswer(p.env.answers)) == Ok(r.verdict) &&
      Write(p.env.cache, PathOf(path), FileName(None), NextAnswer(p.env.answers)) == Some(r.env.cache)
    ensures NextAnswer(p.env.answers) != map[] && p.crash.None? && r.crash.Some? ==>
      Verdict(c, NextAnswer(p.env.answers)).Err? ||
      Write(p.env.cache, PathOf(path), FileName(None), NextAnswer(p.env.answers)).None?
  {
    var data := NextAnswer(p.env.answers);
    var env := p.env.(answers := RestAnswers(p.env.answers),
                      requests := p.env.requests + [Request(EndpointOf(c), params)]);
    if data == map[] then p.(env := env, states := p.states + [p.verdict])
    else
      match Verdict(c, data)
      case Err(e) => p.(env := env, crash := Some(e))
      case Ok(v) =>
        match Write(env.cache, PathOf(path), FileName(None), data)
        case None => p.(env := env, verdict := v, crash := Some(OSError))
        case Some(t) => p.(env := env.(cache := t), verdict := v, states := p.states + [v])
  }

  /** Lines 35-47, given the entry `get_cached_data` found (`{}` for none; an empty entry is
      falsy just as None is): a cached positive verdict is appended without a call; a cached
      negative one sends the last revalidation header it holds along. */
  function Revalidate(c: Condition, p: Progress, params: Params, path: string, cached: Data): (r: Progress)
    ensures r.env.reactions == p.env.reactions && r.paths == p.paths
    ensures r.crash.None? ==> p.crash.None?
    ensures r.crash.None? ==> r.states == p.states + [r.verdict]
  {
    if cached == map[] then Fetch(c, p, params, path)
    else
      match Verdict(c, cached)
      case Err(e) => p.(crash := Some(e))
      case Ok(v) =>
        if v then p.(verdict := true, states := p.states + [true])
        else
          match LastHeaderValue(cached, TokenHeader(c))
          case None => p.(verdict := false, crash := Some(IndexError))
          case Some(token) => Fetch(c, p.(verdict := false), WithToken(c, params, token), path)
  }

  /** One iteration of the loop over a message's pull requests. A url parser without a route
      raises `AttributeError` at line 30; a cache directory without its file raises `OSError`
      in `load`. Once an exception is raised nothing more happens. */
  function Step(c: Condition, p: Progress, pr: PullRequestUrl): (r: Progress)
    ensures p.crash.Some? ==> r == p
    ensures r.env.reactions == p.env.reactions
    ensures r.crash.None? ==> p.crash.None? && pr.apiRoute.Some? && pr.params.Some?
    ensures r.crash.None? ==> r.paths == p.paths + [CachePath(c, pr.apiRoute.value)]
    ensures r.crash.None? ==> r.states == p.states + [r.verdict]
  {
    if p.crash.Some? then p
    else if pr.apiRoute.None? || pr.params.None? then p.(crash := Some(AttributeError))
    else
      var path := CachePath(c, pr.apiRoute.value);
      var q := p.(paths := p.paths + [path]);
      match Read(p.env.cache, PathOf(path), FileName(None))
      case LoadFailed => q.(crash := Some(OSError))
      case Missing => Revalidate(c, q, pr.params.value, path, map[])
      case Hit(d) => Revalidate(c, q, pr.params.value, path, d)
  }

  /** The loop over `prs`, one `Step` after another. */
  function Steps(c: Condition, p0: Progress, prs: seq<PullRequestUrl>): (r: Progress)
    ensures r.env.reactions == p0.env.reactions
    decreases |prs|
  {
    if prs == [] then p0 else Step(c, Steps(c, p0, prs[..|prs| - 1]), prs[|prs| - 1])
  }

  /** `all(state for state in pull_request_states)`: true of an empty list. */
  predicate AllTrue(states: seq<bool>) {
    forall k :: 0 <= k < |states| ==> states[k]
  }

  /** The cache after `delete` of every path in order (lines 71-72). */
  function RemoveAll(t: Tree, paths: seq<string>): Tree
    decreases |paths|
  {
    if paths == [] then t else Remove(RemoveAll(t, paths[..|paths| - 1]), PathOf(paths[|paths| - 1]))
  }

  /** What handling one message leaves behind: the world, and the exception that ended it. */
  datatype Outcome = Outcome(env: Env, crash: Option<Error>)

  /** The body of the `while True` loop for one message (lines 24-72): the pull requests one by
      one, then, when every state is true, the reaction and the deletion of every recorded
      path. A message without pull requests raises `TypeError` (`for x in None`), and one
      without a `"ts"` raises `KeyError` where the reaction is added. */
  function HandleMessage(c: Condition, config: Config, env: Env, message: Json): Outcome
    requires WellFormedMessage(message)
  {
    match GetPullRequests(message)
    case None => Outcome(env, Some(TypeError))
    case Some(prs) => Conclude(c, config, message, Steps(c, Start(env), prs))
  }

  /** Lines 64-72, after the loop over the pull requests ended in `p`: when every state is
      true, the reaction on the message's `"ts"` and the deletion of every recorded path. */
  function Conclude(c: Condition, config: Config, message: Json, p: Progress): Outcome {
    if p.crash.Some? then Outcome(p.env, p.crash)
    else if !AllTrue(p.states) then Outcome(p.env, None)
    else
      match Subscript(message, "ts")
      case Err(e) => Outcome(p.env, Some(e))
      case Ok(ts) =>
        var reaction := Reaction(config.slackChannelId, ReactionName(c, config), ts, config.dryRun);
        Outcome(p.env.(reactions := p.env.reactions + [reaction],
                       cache := RemoveAll(p.env.cache, p.paths)), None)
  }

  /** A queue item: a message, or the `None` that stops the worker. */
  type Item = Option<Json>

  predicate WellFormedQueue(queue: seq<Item>) {
    forall k :: 0 <= k < |queue| && queue[k].Some? ==> WellFormedMessage(queue[k].value)
  }

  /** What `run` leaves behind after taking items from `queue` in order: the world, the number
      of `task_done` calls, the number of items taken and the exception that ended the thread,
      if one did. The thread waits when the queue runs dry. */
  datatype RunOutcome = RunOutcome(env: Env, tasksDone: nat, taken: nat, crash: Option<Error>)

  /** The per-message handler a worker runs: `HandleMessage` for its condition. */
  function Handler(c: Condition, config: Config): (Env, Json) --> Outcome {
    (env: Env, message: Json) requires WellFormedMessage(message) => HandleMessage(c, config, env, message)
  }

  /** `handle` is `HandleMessage` wherever that is applied. */
  ghost predicate Implements(handle: (Env, Json) --> Outcome, c: Condition, config: Config) {
    forall env, message {:trigger HandleMessage(c, config, env, message)} ::
      WellFormedMessage(message) ==>
        handle.requires(env, message) && handle(env, message) == HandleMessage(c, config, env, message)
  }

  /** `handle` accepts every message of `queue`, in any world. */
  ghost predicate Handles(handle: (Env, Json) --> Outcome, queue: seq<Item>) {
    forall env, k :: 0 <= k < |queue| && queue[k].Some? ==> handle.requires(env, queue[k].value)
  }

  /** `run` (lines 18-74) with `handle` as the body of its loop; the worker's is
      `Handler(c, config)`. */
  function RunQueue(handle: (Env, Json) --> Outcome, env: Env, queue: seq<Item>): RunOutcome
    requires Handles(handle, queue)
    decreases |queue|
  {
    if queue == [] then RunOutcome(env, 0, 0, None)
    else if queue[0].None? then RunOutcome(env, 0, 1, None)
    else
      var o := handle(env, queue[0].value);
      if o.crash.Some? then RunOutcome(o.env, 0, 1, o.crash)
      else
        var rest := RunQueue(handle, o.env, queue[1..]);
        RunOutcome(rest.env, rest.tasksDone + 1, rest.taken + 1, rest.crash)
  }

  lemma HandlerHandles(c: Condition, config: Config, queue: seq<Item>)
    requires WellFormedQueue(queue)
    ensures Handles(Handler(c, config), queue)
  {
  }

  // ---------------------------------------------------------------------------------------
  // Properties of one pull request

  /** A cached positive verdict is appended as true with no GitHub call and no change to the
      world (lines 35-41). */
  lemma CachedVerdictSkipsCall(c: Condition, p: Progress, pr: PullRequestUrl, d: Data)
    requires p.crash.None? && pr.apiRoute.Some? && pr.params.Some?
    requires Read(p.env.cache, PathOf(CachePath(c, pr.apiRoute.value)), FileName(None)) == Hit(d)
    requires d != map[] && Verdict(c, d) == Ok(true)
    ensures Step(c, p, pr) ==
      p.(verdict := true, states := p.states + [true], paths := p.paths + [CachePath(c, pr.apiRoute.value)])
  {
  }

  /** A cached negative verdict sends the last revalidation header of the cached entry along
      with the call, as `entity_tag` for reviews and `last_modified` for details; an entry
      without one raises `IndexError` before any call (lines 43-53). */
  lemma RevalidationToken(c: Condition, p: Progress, pr: PullRequestUrl, d: Data)
    requires p.crash.None? && pr.apiRoute.Some? && pr.params.Some?
    requires Read(p.env.cache, PathOf(CachePath(c, pr.apiRoute.value)), FileName(None)) == Hit(d)
    requires d != map[] && Verdict(c, d) == Ok(false)
    ensures LastHeaderValue(d, TokenHeader(c)).None? ==>
      Step(c, p, pr).crash == Some(IndexError) && Step(c, p, pr).env == p.env
    ensures LastHeaderValue(d, TokenHeader(c)).Some? ==>
      Step(c, p, pr).env.requests ==
        p.env.requests + [Request(EndpointOf(c), WithToken(c, pr.params.value, LastHeaderValue(d, TokenHeader(c)).value))]
  {
  }

  /** A pull request with nothing cached is looked up with the url's own parameters. */
  lemma UncachedPlainRequest(c: Condition, p: Progress, pr: PullRequestUrl)
    requires p.crash.None? && pr.apiRoute.Some? && pr.params.Some?
    requires Read(p.env.cache, PathOf(CachePath(c, pr.apiRoute.value)), FileName(None)) == Missing
    ensures Step(c, p, pr).env.requests == p.env.requests + [Request(EndpointOf(c), pr.params.value)]
  {
  }

  /** An empty answer for an uncached pull request changes neither the cache nor the verdict,
      and the verdict the message's earlier pull requests left is appended for it (lines 26,
      55-62): the carry-over. */
  lemma EmptyFetchCarriesVerdict(c: Condition, p: Progress, pr: PullRequestUrl)
    requires p.crash.None? && pr.apiRoute.Some? && pr.params.Some?
    requires Read(p.env.cache, PathOf(CachePath(c, pr.apiRoute.value)), FileName(None)) == Missing
    requires NextAnswer(p.env.answers) == map[]
    ensures Step(c, p, pr).crash.None?
    ensures Step(c, p, pr).verdict == p.verdict
    ensures Step(c, p, pr).states == p.states + [p.verdict]
    ensures Step(c, p, pr).env.cache == p.env.cache
  {
  }

  /** A non-empty answer for an uncached pull request gives the verdict read from it, and
      the cache then loads back exactly that answer. */
  lemma FreshAnswerSaved(c: Condition, p: Progress, pr: PullRequestUrl, v: bool)
    requires p.crash.None? && pr.apiRoute.Some? && pr.params.Some?
    requires !Exists(p.env.cache, PathOf(CachePath(c, pr.apiRoute.value)))
    requires NextAnswer(p.env.answers) != map[] && Verdict(c, NextAnswer(p.env.answers)) == Ok(v)
    requires Write(p.env.cache, PathOf(CachePath(c, pr.apiRoute.value)), FileName(None),
                   NextAnswer(p.env.answers)).Some?
    ensures Step(c, p, pr).crash.None? && Step(c, p, pr).verdict == v
    ensures Read(Step(c, p, pr).env.cache, PathOf(CachePath(c, pr.apiRoute.value)), FileName(None)) ==
      Hit(NextAnswer(p.env.answers))
  {
    WriteThenReadNew(p.env.cache, PathOf(CachePath(c, pr.apiRoute.value)), FileName(None),
                     NextAnswer(p.env.answers));
  }

  /** A non-empty answer for a pull request whose cached entry is negative and holds a
      revalidation token gives the verdict read from the answer, and the cache then loads back
      the old entry updated with the answer (lines 43-62). */
  lemma RevalidatedAnswerMerged(c: Condition, p: Progress, pr: PullRequestUrl, d: Data, token: string, v: bool)
    requires p.crash.None? && pr.apiRoute.Some? && pr.params.Some?
    requires Read(p.env.cache, PathOf(CachePath(c, pr.apiRoute.value)), FileName(None)) == Hit(d)
    requires d != map[] && Verdict(c, d) == Ok(false) && LastHeaderValue(d, TokenHeader(c)) == Some(token)
    requires NextAnswer(p.env.answers) != map[] && Verdict(c, NextAnswer(p.env.answers)) == Ok(v)
    ensures Step(c, p, pr).crash.None? && Step(c, p, pr).verdict == v
    ensures Step(c, p, pr).states == p.states + [v]
    ensures Read(Step(c, p, pr).env.cache, PathOf(CachePath(c, pr.apiRoute.value)), FileName(None)) ==
      Hit(d + NextAnswer(p.env.answers))
  {
    WriteThenReadExisting(p.env.cache, PathOf(CachePath(c, pr.apiRoute.value)), FileName(None),
                          NextAnswer(p.env.answers));
  }

  /** The carry-over across two pull requests: after one whose answer is positive, a second
      one with nothing cached and an empty answer counts as positive too. */
  lemma CarryOverExample(c: Condition, p: Progress, pr1: PullRequestUrl, pr2: PullRequestUrl)
    requires p.crash.None? && pr1.apiRoute.Some? && pr1.params.Some?
    requires !Exists(p.env.cache, PathOf(CachePath(c, pr1.apiRoute.value)))
    requires NextAnswer(p.env.answers) != map[] && Verdict(c, NextAnswer(p.env.answers)) == Ok(true)
    requires Write(p.env.cache, PathOf(CachePath(c, pr1.apiRoute.value)), FileName(None),
                   NextAnswer(p.env.answers)).Some?
    requires pr2.apiRoute.Some? && pr2.params.Some?
    requires !Exists(Step(c, p, pr1).env.cache, PathOf(CachePath(c, pr2.apiRoute.value)))
    requires NextAnswer(Step(c, p, pr1).env.answers) == map[]
    ensures Step(c, Step(c, p, pr1), pr2).states == p.states + [true, true]
  {
    FreshAnswerSaved(c, p, pr1, true);
    EmptyFetchCarriesVerdict(c, Step(c, p, pr1), pr2);
  }

  // ---------------------------------------------------------------------------------------
  // Properties of the loop over a message's pull requests

  /** When no exception ends the loop, one path and one state are recorded per pull request,
      in order, the short-circuited ones included (lines 29-31). */
  lemma {:induction false} StepsRecordsPaths(c: Condition, p0: Progress, prs: seq<PullRequestUrl>)
    ensures var r := Steps(c, p0, prs);
      r.crash.None? ==>
        p0.crash.None? && |r.states| == |p0.states| + |prs| && r.states[..|p0.states|] == p0.states &&
        |r.paths| == |p0.paths| + |prs| && r.paths[..|p0.paths|] == p0.paths &&
        forall k :: 0 <= k < |prs| ==>
          prs[k].apiRoute.Some? && r.paths[|p0.paths| + k] == CachePath(c, prs[k].apiRoute.value)
    decreases |prs|
  {
    if prs != [] {
      var init := prs[..|prs| - 1];
      StepsRecordsPaths(c, p0, init);
      var r := Steps(c, p0, prs);
      var q := Steps(c, p0, init);
      if r.crash.None? {
        assert q.crash.None? && r == Step(c, q, prs[|prs| - 1]);
        assert r.paths == q.paths + [CachePath(c, prs[|prs| - 1].apiRoute.value)];
        assert r.states == q.states + [r.verdict];
        assert r.states[..|p0.states|] == q.states[..|p0.states|];
        assert r.paths[..|p0.paths|] == q.paths[..|p0.paths|];
        forall k | 0 <= k < |prs|
          ensures prs[k].apiRoute.Some? && r.paths[|p0.paths| + k] == CachePath(c, prs[k].apiRoute.value)
        {
          if k < |prs| - 1 {
            assert prs[k] == init[k];
            assert r.paths[|p0.paths| + k] == q.paths[|p0.paths| + k];
          }
        }
      }
    }
  }

  /** The loop over one more pull request is one more step. */
  lemma StepsSnoc(c: Condition, p0: Progress, prs: seq<PullRequestUrl>, i: nat)
    requires i < |prs|
    ensures Steps(c, p0, prs[..i + 1]) == Step(c, Steps(c, p0, prs[..i]), prs[i])
  {
    assert prs[..i + 1][..i] == prs[..i];
  }

  /** Once an exception is raised, the remaining pull requests change nothing. */
  lemma {:induction false} StepsAfterCrash(c: Condition, p0: Progress, prs: seq<PullRequestUrl>, i: nat)
    requires i <= |prs| && Steps(c, p0, prs[..i]).crash.Some?
    ensures Steps(c, p0, prs) == Steps(c, p0, prs[..i])
    decreases |prs|
  {
    if i < |prs| {
      var init := prs[..|prs| - 1];
      assert init[..i] == prs[..i];
      StepsAfterCrash(c, p0, init, i);
    } else {
      assert prs[..i] == prs;
    }
  }

  // ---------------------------------------------------------------------------------------
  // Properties of one message

  /** A message without pull-request links raises `TypeError` and changes nothing. */
  lemma NoPullRequestsRaise(c: Condition, config: Config, env: Env, message: Json)
    requires WellFormedMessage(message) && MessagePullRequests(message) == []
    ensures HandleMessage(c, config, env, message) == Outcome(env, Some(TypeError))
  {
  }

  /** The reaction is added exactly when no exception was raised, every state is true and the
      message has a `"ts"`; every recorded path is then deleted, in order. Otherwise no
      reaction is added and nothing is deleted (lines 64-72). */
  lemma ReactsIffAllTrue(c: Condition, config: Config, env: Env, message: Json)
    requires WellFormedMessage(message) && GetPullRequests(message).Some?
    ensures var p := Steps(c, Start(env), GetPullRequests(message).value);
      var o := HandleMessage(c, config, env, message);
      var reacts := p.crash.None? && AllTrue(p.states) && Has(message, "ts");
      (reacts ==> o.crash.None? && o.env == p.env.(
        reactions := env.reactions + [Reaction(config.slackChannelId, ReactionName(c, config),
                                               message.fields["ts"], config.dryRun)],
        cache := RemoveAll(p.env.cache, p.paths))) &&
      (!reacts ==> o.env == p.env && o.env.reactions == env.reactions)
  {
  }

  /** Every path deleted is a miss afterwards, provided none of them is a stored file. */
  lemma {:induction false} RemoveAllMisses(t: Tree, paths: seq<string>, name: string)
    requires ValidTree(t)
    requires forall k :: 0 <= k < |paths| ==> PathOf(paths[k]) !in t.files
    ensures ValidTree(RemoveAll(t, paths))
    ensures RemoveAll(t, paths).files.Keys <= t.files.Keys
    ensures forall k :: 0 <= k < |paths| ==> Read(RemoveAll(t, paths), PathOf(paths[k]), name) == Missing
    decreases |paths|
  {
    if paths != [] {
      var init := paths[..|paths| - 1];
      var last := PathOf(paths[|paths| - 1]);
      RemoveAllMisses(t, init, name);
      var u := RemoveAll(t, init);
      RemoveValid(u, last);
      ReadAfterRemove(u, last, name);
      forall k | 0 <= k < |paths| ensures Read(RemoveAll(t, paths), PathOf(paths[k]), name) == Missing {
        if k < |paths| - 1 {
          assert paths[k] == init[k];
          RemoveShrinks(u, last);
        }
      }
    }
  }

  /** A delete only takes directories and files away. */
  lemma RemoveShrinks(t: Tree, p: Path)
    ensures Remove(t, p).dirs <= t.dirs && Remove(t, p).files.Keys <= t.files.Keys
  {
  }

  /** A delete sequence changes no stored entry outside the deleted paths. */
  lemma {:induction false} RemoveAllKeepsOthers(t: Tree, paths: seq<string>, f: Path)
    requires f in t.files
    requires forall k :: 0 <= k < |paths| ==> !(PathOf(paths[k]) <= f)
    ensures f in RemoveAll(t, paths).files && RemoveAll(t, paths).files[f] == t.files[f]
    decreases |paths|
  {
    if paths != [] {
      var init := paths[..|paths| - 1];
      RemoveAllKeepsOthers(t, init, f);
      RemoveKeepsOthers(RemoveAll(t, init), PathOf(paths[|paths| - 1]));
    }
  }

  // ---------------------------------------------------------------------------------------
  // Properties of the queue loop

  /** The queue loop taking its first item. */
  lemma RunQueueUnfold(handle: (Env, Json) --> Outcome, env: Env, queue: seq<Item>)
    requires Handles(handle, queue) && queue != []
    ensures Handles(handle, queue[1..])
    ensures queue[0].None? ==> RunQueue(handle, env, queue) == RunOutcome(env, 0, 1, None)
    ensures queue[0].Some? ==>
      var o := handle(env, queue[0].value);
      (o.crash.Some? ==> RunQueue(handle, env, queue) == RunOutcome(o.env, 0, 1, o.crash)) &&
      (o.crash.None? ==>
        var rest := RunQueue(handle, o.env, queue[1..]);
        RunQueue(handle, env, queue) == RunOutcome(rest.env, rest.tasksDone + 1, rest.taken + 1, rest.crash))
  {
    assert forall k :: 0 <= k < |queue| - 1 ==> queue[1..][k] == queue[k + 1];
  }

  /** `task_done` is called once per message handled without an exception: the thread stops
      after the first `None` without calling it, after an exception without calling it, or
      when the queue runs dry (lines 19-22, 74). */
  lemma {:induction false} RunQueueCounts(handle: (Env, Json) --> Outcome, env: Env, queue: seq<Item>)
    requires Handles(handle, queue)
    ensures var r := RunQueue(handle, env, queue);
      r.tasksDone <= r.taken <= |queue| &&
      (forall k :: 0 <= k < r.taken - 1 ==> queue[k].Some?) &&
      (r.crash.Some? ==> r.tasksDone + 1 == r.taken && queue[r.taken - 1].Some?) &&
      (r.crash.None? ==>
        (r.taken == |queue| && r.tasksDone == r.taken && forall k :: 0 <= k < |queue| ==> queue[k].Some?) ||
        (0 < r.taken && queue[r.taken - 1].None? && r.tasksDone + 1 == r.taken))
    decreases |queue|
  {
    if queue != [] {
      RunQueueUnfold(handle, env, queue);
      if queue[0].Some? {
        var o := handle(env, queue[0].value);
        if o.crash.None? {
          RunQueueCounts(handle, o.env, queue[1..]);
          var rest := RunQueue(handle, o.env, queue[1..]);
          forall k | 0 <= k < |queue| - 1 ensures queue[1..][k] == queue[k + 1] {}
        }
      }
    }
  }

  /** Nothing after the `None` sentinel is ever taken (lines 19-22). */
  lemma {:induction false} RunStopsAtSentinel(handle: (Env, Json) --> Outcome, env: Env, q: seq<Item>, rest: seq<Item>)
    requires Handles(handle, q + [None] + rest) && Handles(handle, q + [None])
    ensures RunQueue(handle, env, q + [None] + rest) == RunQueue(handle, env, q + [None])
    decreases |q|
  {
    if q == [] {
      assert (q + [None] + rest)[0] == None;
      assert (q + [None])[0] == None;
    } else {
      assert (q + [None] + rest)[1..] == q[1..] + [None] + rest;
      assert (q + [None])[1..] == q[1..] + [None];
      assert (q + [None] + rest)[0] == q[0] == (q + [None])[0];
      if q[0].Some? {
        var o := handle(env, q[0].value);
        if o.crash.None? {
          RunStopsAtSentinel(handle, o.env, q[1..], rest);
        }
      }
    }
  }

  // ---------------------------------------------------------------------------------------
  // The worker

  /** A `MessageApproved` or `MessageMerged` thread with the clients it shares. */
  class Worker {
    const condition: Condition
    const config: Config
    const slack: SlackClient
    const github: GitHubClient
    const cache: LocalCacheClient

    constructor (condition: Condition, config: Config, slack: SlackClient, github: GitHubClient,
                 cache: LocalCacheClient)
      ensures this.condition == condition && this.config == config
      ensures this.slack == slack && this.github == github && this.cache == cache
    {
      this.condition := condition;
      this.config := config;
      this.slack := slack;
      this.github := github;
      this.cache := cache;
    }

    function EnvOf(): Env
      reads cache, github, slack
    {
      Env(cache.State(), github.answers, github.requests, slack.reactions)
    }

    ghost predicate Valid()
      reads cache
    {
      cache.Valid()
    }

    /** One pass of the loop at lines 29-62, with the locals passed in and out. */
    method ProcessPullRequest(pr: PullRequestUrl, verdict0: bool, states0: seq<bool>, paths0: seq<string>)
      returns (verdict: bool, states: seq<bool>, paths: seq<string>, crash: Option<Error>)
      requires Valid()
      modifies cache, github
      ensures Valid()
      ensures Progress(EnvOf(), verdict, states, paths, crash) ==
        Step(condition, Progress(old(EnvOf()), verdict0, states0, paths0, None), pr)
    {
      verdict, states, paths, crash := verdict0, states0, paths0, None;
      if pr.apiRoute.None? || pr.params.None? {
        crash := Some(AttributeError);
        return;
      }
      var localCachePath := CachePath(condition, pr.apiRoute.value);
      paths := paths + [localCachePath];
      var localCacheData := GetCachedData(cache, localCachePath);
      if localCacheData.Err? {
        crash := Some(localCacheData.error);
        return;
      }
      var cached := if localCacheData.value.Some? then localCacheData.value.value else map[];
      var params := pr.params.value;
      if cached != map[] {
        var cachedVerdict := Verdict(condition, cached);
        if cachedVerdict.Err? {
          crash := Some(cachedVerdict.error);
          return;
        }
        verdict := cachedVerdict.value;
        if verdict {
          states := states + [verdict];
          return;
        }
        var token := LastHeaderValue(cached, TokenHeader(condition));
        if token.None? {
          crash := Some(IndexError);
          return;
        }
        params := WithToken(condition, params, token.value);
      }
      verdict, states, crash := FetchAndStore(params, localCachePath, verdict, states, paths);
    }

    /** Lines 51-62: ask GitHub; a non-empty answer gives the verdict and is saved, an empty
        one keeps the verdict carried in. */
    method FetchAndStore(params: Params, localCachePath: string, verdict0: bool, states0: seq<bool>,
                         paths: seq<string>)
      returns (verdict: bool, states: seq<bool>, crash: Option<Error>)
      requires Valid()
      modifies cache, github
      ensures Valid()
      ensures Progress(EnvOf(), verdict, states, paths, crash) ==
        Fetch(condition, Progress(old(EnvOf()), verdict0, states0, paths, None), params, localCachePath)
    {
      verdict, states, crash := verdict0, states0, None;
      var data := github.Fetch(EndpointOf(condition), params);
      if data != map[] {
        var freshVerdict := Verdict(condition, data);
        if freshVerdict.Err? {
          crash := Some(freshVerdict.error);
          return;
        }
        verdict := freshVerdict.value;
        var ok := cache.Save(data, localCachePath, None);
        if !ok {
          crash := Some(OSError);
          return;
        }
      }
      states := states + [verdict];
    }

    /** The loop at lines 29-62 over every pull request of a message, stopping at the first
        exception. */
    method ProcessPullRequests(prs: seq<PullRequestUrl>)
      returns (verdict: bool, states: seq<bool>, paths: seq<string>, crash: Option<Error>)
      requires Valid()
      modifies cache, github
      ensures Valid()
      ensures Progress(EnvOf(), verdict, states, paths, crash) == Steps(condition, Start(old(EnvOf())), prs)
    {
      ghost var env0 := EnvOf();
      verdict, states, paths, crash := false, [], [], None;
      var i := 0;
      while i < |prs|
        invariant 0 <= i <= |prs|
        invariant Valid()
        invariant crash.None?
        invariant Steps(condition, Start(env0), prs[..i]) == Progress(EnvOf(), verdict, states, paths, None)
      {
        StepsSnoc(condition, Start(env0), prs, i);
        verdict, states, paths, crash := ProcessPullRequest(prs[i], verdict, states, paths);
        if crash.Some? {
          StepsAfterCrash(condition, Start(env0), prs, i + 1);
          return;
        }
        i := i + 1;
      }
      assert prs[..i] == prs;
    }

    /** Lines 71-72: `delete` of every recorded path, in order. */
    method DeleteAll(paths: seq<string>)
      requires Valid()
      modifies cache
      ensures Valid()
      ensures cache.State() == RemoveAll(old(cache.State()), paths)
    {
      var j := 0;
      while j < |paths|
        invariant 0 <= j <= |paths|
        invariant Valid()
        invariant cache.State() == RemoveAll(old(cache.State()), paths[..j])
      {
        assert paths[..j + 1][..j] == paths[..j];
        cache.Delete(paths[j]);
        j := j + 1;
      }
      assert paths[..j] == paths;
    }

    /** The body of the `while True` loop for one message (lines 24-72); `crash` is the
        exception that ends the thread, if one is raised. */
    method ProcessMessage(message: Json) returns (crash: Option<Error>)
      requires WellFormedMessage(message) && Valid()
      modifies cache, github, slack
      ensures Valid()
      ensures Outcome(EnvOf(), crash) == HandleMessage(condition, config, old(EnvOf()), message)
    {
      var pullRequests := GetPullRequests(message);
      if pullRequests.None? {
        crash := Some(TypeError);
        return;
      }
      var verdict, states, paths;
      verdict, states, paths, crash := ProcessPullRequests(pullRequests.value);
      crash := Finish(message, verdict, states, paths, crash);
    }

    /** Lines 64-72 after the loop ended with `crash0`, `states` and `paths`. */
    method Finish(message: Json, verdict: bool, states: seq<bool>, paths: seq<string>, crash0: Option<Error>)
      returns (crash: Option<Error>)
      requires Valid()
      modifies cache, slack
      ensures Valid()
      ensures Outcome(EnvOf(), crash) == Conclude(condition, config, message, Progress(old(EnvOf()), verdict, states, paths, crash0))
    {
      crash := crash0;
      if crash.Some? || !AllTrue(states) {
        return;
      }
      var ts := Subscript(message, "ts");
      if ts.Err? {
        crash := Some(ts.error);
        return;
      }
      slack.AddMessageReaction(config.slackChannelId, ReactionName(condition, config), ts.value, config.dryRun);
      DeleteAll(paths);
    }

    /** `ProcessMessage` seen through a handler that implements it. */
    method ProcessWith(message: Json, ghost handle: (Env, Json) --> Outcome) returns (crash: Option<Error>)
      requires WellFormedMessage(message) && Valid() && Implements(handle, condition, config)
      modifies cache, github, slack
      ensures Valid() && handle.requires(old(EnvOf()), message)
      ensures Outcome(EnvOf(), crash) == handle(old(EnvOf()), message)
    {
      crash := ProcessMessage(message);
    }

    /** `run` (lines 18-74) over the items of `queue`, in order: `tasksDone` counts the
        `task_done` calls and `taken` the items taken before the thread stopped. */
    method Run(queue: seq<Item>) returns (tasksDone: nat, taken: nat, crash: Option<Error>)
      requires WellFormedQueue(queue) && Valid()
      modifies cache, github, slack
      ensures Valid()
      ensures RunOutcome(EnvOf(), tasksDone, taken, crash) ==
        RunQueue(Handler(condition, config), old(EnvOf()), queue)
    {
      HandlerHandles(condition, config, queue);
      tasksDone, taken, crash := RunWith(queue, Handler(condition, config));
    }

    /** The queue loop against a handler that agrees with `HandleMessage` wherever that is
        applied. */
    method RunWith(queue: seq<Item>, ghost handle: (Env, Json) --> Outcome)
      returns (tasksDone: nat, taken: nat, crash: Option<Error>)
      requires WellFormedQueue(queue) && Handles(handle, queue) && Valid()
      requires Implements(handle, condition, config)
      modifies cache, github, slack
      ensures Valid()
      ensures RunOutcome(EnvOf(), tasksDone, taken, crash) == RunQueue(handle, old(EnvOf()), queue)
    {
      var i := 0;
      tasksDone, crash := 0, None;
      while i < |queue|
        invariant 0 <= i <= |queue| && WellFormedQueue(queue[i..]) && Handles(handle, queue[i..])
        invariant Valid()
        invariant var r := RunQueue(handle, EnvOf(), queue[i..]);
          RunQueue(handle, old(EnvOf()), queue) ==
          RunOutcome(r.env, r.tasksDone + tasksDone, r.taken + i, r.crash)
      {
        RunQueueUnfold(handle, EnvOf(), queue[i..]);
        assert queue[i..][0] == queue[i] && queue[i..][1..] == queue[i + 1..];
        var message := queue[i];
        if message.None? {
          taken := i + 1;
          return;
        }
        var e := ProcessWith(message.value, handle);
        if e.Some? {
          taken := i + 1;
          crash := e;
          return;
        }
        tasksDone := tasksDone + 1;
        i := i + 1;
      }
      taken := i;
    }
  }
}
