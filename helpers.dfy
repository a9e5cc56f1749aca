/** processors/helpers.py: the three helpers the workers and the dispatcher call, each of
    which answers None for "nothing there". */
module Helpers {
  import opened Wrappers
  import opened Json
  import opened SlackParser
  import opened GitHubParser
  import opened LocalCache
  import PullRequestPattern

  /** `get_pull_requests` (lines 8-13): one url parser per pull-request link, in order, or
      None (not an empty list) when the message has none. */
  function GetPullRequests(message: Json): (r: Option<seq<PullRequestUrl>>)
    requires WellFormedMessage(message)
    ensures r.None? <==> MessagePullRequests(message) == []
    ensures r.Some? ==> |r.value| == |MessagePullRequests(message)|
    ensures r.Some? ==> forall k :: 0 <= k < |r.value| ==>
      r.value[k] == ParseUrl(MessagePullRequests(message)[k]) &&
      PullRequestPattern.Matches(r.value[k].url)
  {
    var prs := MessagePullRequests(message);
    if prs != [] then Some(seq(|prs|, k requires 0 <= k < |prs| => ParseUrl(prs[k]))) else None
  }

  /** `get_reactions` (lines 16-20): None when the message has no reactions at all,
      otherwise whether it has the named one. */
  function GetReactions(message: Json, reaction: string): (r: Option<bool>)
    requires WellFormedMessage(message)
    ensures r.None? <==> Reactions(message) == []
    ensures r == Some(true) ==> Str(reaction) in Reactions(message)
    ensures r == Some(false) ==> Str(reaction) !in Reactions(message)
  {
    var reactions := Reactions(message);
    if reactions != [] then Some(LookupReaction(reactions, reaction)) else None
  }

  /** Python's truth value of the optional boolean a helper returns. */
  predicate OptionTruthy(r: Option<bool>) {
    r.Some? && r.value
  }

  /** `get_reactions` is falsy exactly when the message has no reaction of that name, whether
      or not it has any reactions at all. */
  lemma GetReactionsFalsy(message: Json, reaction: string)
    requires WellFormedMessage(message)
    ensures !OptionTruthy(GetReactions(message, reaction)) <==>
      !(Has(message, "reactions") &&
        exists r :: r in message.fields["reactions"].items && Get(r, "name") == Str(reaction))
  {
    LookupReactionSpec(message, reaction);
  }

  /** `get_cached_data(local_client, path)` (lines 23-28): the stored entry, None where
      `load` raises `NoCachedData`, and the `OSError` of a directory without the file passed
      on. It only reads the cache. */
  method GetCachedData(localClient: LocalCacheClient, path: string) returns (r: Result<Option<Data>>)
    ensures r.Ok? && r.value.Some? <==> Read(localClient.State(), PathOf(path), FileName(None)).Hit?
    ensures r.Ok? && r.value.Some? ==>
      r.value.value == Read(localClient.State(), PathOf(path), FileName(None)).data
    ensures r == Ok(None) <==> !Exists(localClient.State(), PathOf(path))
    ensures r.Err? ==> r.error == OSError
  {
    var loaded := localClient.Load(path, None);
    match loaded
    case Hit(data) => r := Ok(Some(data));
    case Missing => r := Ok(None);
    case LoadFailed => r := Err(OSError);
  }
}
