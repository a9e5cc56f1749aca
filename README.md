# slack-pull-request-vigilante, modelled in Dafny

The system watches a Slack channel for messages that link GitHub pull requests:

- When every pull request linked in a message is approved, it adds the "approved" reaction.
- When every one is merged, it adds the "merged" reaction.

A dispatcher thread (`SlackMessageThread.run`) walks the replies of every message in the channel history. It puts each reply that links a pull request and lacks a reaction onto that reaction's queue. Two worker threads, `MessageApproved` and `MessageMerged`, take messages off their queues. For each linked pull request they:

- look up an on-disk cache entry;
- when that is not yet positive, ask GitHub, passing along the cached `ETag` / `Last-Modified` header for revalidation;
- save the answer.

When every pull request came out positive, the worker reacts and deletes the cache entries.

The model has one module per part of the program:

| module | file | models |
|---|---|---|
| `Wrappers`, `Json` | wrappers.dfy, json.dfy | Option/Result, the Python exceptions that can escape, JSON values, `dict.get`, `d[k]`, iteration |
| `Text`, `Url` | text.dfy, url.dfy | `str.split`/`join`, and the path that `urllib.parse.urlparse` extracts |
| `PullRequestPattern` | pattern.dfy | `re.search(r"http[s]://github.com/.+/pull/\d+", url)`: leftmost match, longest at that start |
| `SlackParser` | slack_parser.dfy | parsers/slack.py: block walking, link urls, pull-request urls, reaction names |
| `GitHubParser` | github_parser.dfy | parsers/github.py: url parameters and API route, the merged and approved verdicts, and the revalidation header lookup |
| `LocalCache` | local_cache.dfy | clients/local.py: a directory tree with `save`, `load` and `delete` (rmtree plus pruning of empty directories) |
| `Helpers` | helpers.dfy | processors/helpers.py |
| `Remote` | remote.dfy | the GitHub client as a scripted oracle with a request log, and the Slack client as a reaction log |
| `Processors` | processors.dfy | processors/approved.py and processors/merged.py: per-message semantics as functions, and the `Worker` class whose methods are proved against them |
| `Dispatcher` | dispatcher.dfy | main.py `SlackMessageThread.run` lines 27-41 over two `TaskQueue` objects |

Imperative parts of the source stay imperative:

- `get_block_elements` and its shared Python list (`ElementList`);
- the cache client (`LocalCacheClient`, with its bottom-up pruning loop);
- the workers' loops (`Worker`);
- the dispatcher's loops.

Each method's `ensures` ties its result or new state to a specification function. The properties themselves are lemmas about those functions.

Quirks of the code that the model keeps:

- **No pull requests raises.** A message with no pull-request link makes `get_pull_requests` return `None`. A worker's `for` over it then raises `TypeError` and the thread ends (`Processors.NoPullRequestsRaise`). The dispatcher never queues such a message (`Dispatcher.EnqueuedHavePullRequests`).
- **Not modified looks like a failure.** A `304 Not Modified` reaches the worker as `{}`, exactly like a failed call, with no distinct "unchanged" signal. The worker then appends the verdict variable as it stands. `is_approved`/`is_merged` is reset once per message, not once per pull request. So a pull request that gets no answer inherits the verdict of the one before it (`Processors.CarryOverExample`).
- **Empty cache entries.** An empty cached entry is falsy, so it is handled like a miss.
- **Extra path segment.** A url with an extra path segment before `pull` takes `pull` as the number (segment 4 of the path; `GitHubParser.ExtraSegmentShiftsNumber`).
- **Short paths.** A matched url with too short a path has no `api_route`, and the worker raises `AttributeError` on it.
- **Only `https` links.** The pattern's `[s]` is the letter `s` alone, so plain `http://` links never count (`PullRequestPattern.MatchIsHttps`).
- **Lost leaves.** `get_block_elements` replaces an empty accumulator with a fresh list (`if block_elements`, line 18). Its recursive call at line 29 then fills a list nobody keeps. So while the result is still empty, the leaves of third-level nodes are lost (`SlackParser.WalkSpec`, `SlackParser.WalkLosesLeadingList`). An example is a message that opens with a bulleted list.

## Model

| member | source | states |
|---|---|---|
| Json.GetField | parsers/github.py:41 | `data.get(key)` is the value under the key, or null when the key is missing |
| Json.Subscript | parsers/github.py:43 | `v[key]` succeeds exactly when `v` is a dict holding the key and then gives its value; a dict without it raises `KeyError` |
| Json.Iterate | parsers/github.py:51 | a list yields its items; anything else that does not raise yields nothing and is falsy |
| Text.SplitJoin | parsers/github.py:22 | `split` undoes `join` when no part contains the separator |
| Text.JoinSplit | parsers/github.py:22 | `join` undoes `split` for every string |
| Text.Split | parsers/github.py:22 | `str.split`: at least one part, none holding the separator; `Join` undoes it (`JoinSplit`, `SplitJoin`) |
| Text.Join | parsers/github.py:22 | the inverse of `Split`: `JoinSplit` and `SplitJoin` relate the two |
| Url.UrlParse | parsers/github.py:22 | the path holds only characters of the cleaned url, and never `?` or `#` |
| Url.PlainHttpsPath | parsers/github.py:22 | `https://host/path` parses to scheme `https`, netloc `host` and path `/path`, with no params, query or fragment, when neither part holds a delimiter |
| PullRequestPattern.DigitsEnd | parsers/slack.py:59 | `\d+` runs to the first non-digit |
| PullRequestPattern.LastPull | parsers/slack.py:59 | the greedy `.+` backtracks to the last `/pull/<digit>` on the line |
| PullRequestPattern.MatchAtSpec | parsers/slack.py:59-62 | the match found at a start is a match and the longest there; none is found only when no match starts there |
| PullRequestPattern.SearchFromSpec | parsers/slack.py:59-62 | the span found is a match; no match starts further left; none is longer at that start; nothing found means no span matches |
| PullRequestPattern.SearchSpec | parsers/slack.py:61-62 | `re.search(...).group()` is a substring that matches in full, leftmost and then longest; no result means no substring matches |
| PullRequestPattern.Search | parsers/slack.py:61-62 | `re.search(...).group()`; `SearchSpec` states what it returns in both directions |
| PullRequestPattern.MatchIsHttps | parsers/slack.py:59 | every match is longer than 26 characters and begins `https://` |
| PullRequestPattern.PlainHttpNeverMatches | parsers/slack.py:59 | `http://github.com/o/r/pull/1` has no match |
| SlackParser.Children | parsers/slack.py:21 | the elements of a well-formed node are well formed |
| SlackParser.Walk | parsers/slack.py:17-30 | `get_block_elements` as a function of block and accumulator; `WalkSpec` ties it to the independent leaf definition, `WalkNonEmpty`, `WalkFromEmpty` and `WalkAppendsOnlyLeaves` state its result |
| SlackParser.WalkSpec | parsers/slack.py:17-30 | the walk returns the accumulator followed by the block's leaves in depth-first order, except that leaves at depth 3 or more before the first shallower leaf are lost while the accumulator is empty |
| SlackParser.WalkNonEmpty | parsers/slack.py:17-30 | with a non-empty accumulator every leaf is appended, in order |
| SlackParser.WalkFromEmpty | parsers/slack.py:17-30 | from an empty accumulator the result is the depth-first leaves from the first one at depth 1 or 2 on; every leaf before it sits at depth 3 or more |
| SlackParser.WalkAppendsOnlyLeaves | parsers/slack.py:20-29 | the accumulator is kept as a prefix; only well-formed nodes without an `"elements"` key are appended, and never the block itself |
| SlackParser.WalkLosesLeadingList | parsers/slack.py:18-29 | a block whose first element is a list holding a link has that link as its only leaf, yet the walk returns nothing |
| SlackParser.WalkKeepsListAfterText | parsers/slack.py:17-30 | the same list after a text leaf keeps its link |
| SlackParser.GetBlockElements | parsers/slack.py:17-30 | fills the caller's list when it is non-empty, else a fresh list (leaving the caller's empty one alone); the result is the walk of the block |
| SlackParser.Blocks | parsers/slack.py:12 | the message's `"blocks"` list, or none |
| SlackParser.GetLayoutElements | parsers/slack.py:32-42 | the elements of every block in order, each block walked from an empty list |
| SlackParser.BlocksElements | parsers/slack.py:32-42 | the blocks' elements, each block walked from an empty list; `BlocksElementsAreLeaves` and `BlocksElementsAppend` state them |
| SlackParser.BlocksElementsAreLeaves | parsers/slack.py:32-42 | every layout element is a well-formed node without an `"elements"` key |
| SlackParser.BlocksElementsAppend | parsers/slack.py:35-37 | blocks are walked independently and their elements concatenated |
| SlackParser.Urls | parsers/slack.py:52-53 | never more urls than elements; `UrlsMembers` and `UrlsAppend` give membership and order |
| SlackParser.UrlsMembers | parsers/slack.py:52-53 | a string is among the urls exactly when some link element carries it |
| SlackParser.UrlsAppend | parsers/slack.py:52-53 | the urls of concatenated elements are the concatenated urls |
| SlackParser.PullRequests | parsers/slack.py:58-67 | never more pull requests than urls; `PullRequestsMatch`, `PullRequestsOfUrl` and `PullRequestsAppend` state what they are |
| SlackParser.PullRequestsMatch | parsers/slack.py:58-67 | every pull-request url found matches the pattern in full and is a substring of one of the urls |
| SlackParser.PullRequestsOfUrl | parsers/slack.py:61-62 | one url yields at most one pull request, and yields one exactly when some substring matches; it is then the leftmost, longest match |
| SlackParser.PullRequestsAppend | parsers/slack.py:61-62 | the urls are searched one by one, in order |
| SlackParser.MessagePullRequests | parsers/slack.py:48-67 | every pull-request url of a message matches the pattern in full |
| SlackParser.Reactions | parsers/slack.py:81-88 | the `"name"` of every reaction in order, or nothing when the message has no `"reactions"` |
| SlackParser.LookupReaction | parsers/slack.py:90-96 | `lookup_reaction`; `LookupReactionSpec` states when it holds |
| SlackParser.LookupReactionSpec | parsers/slack.py:90-96 | `lookup_reaction` is true exactly when one of the message's reactions has that name |
| GitHubParser.PathSegments | parsers/github.py:22 | the path splits into at least one segment, none holding `/` |
| GitHubParser.GeneratePrParams | parsers/github.py:21-29 | params exist exactly when the path has five segments or more, and then carry no revalidation token |
| GitHubParser.ParseUrl | parsers/github.py:9-19 | the parser keeps the url; it has a route exactly when it has params, and the route is `repos/<owner>/<repo>/pulls/<number>` of those params |
| GitHubParser.ApiRoute | parsers/github.py:16-19 | the f-string route; `ApiRouteSegments` splits it back into its five segments |
| GitHubParser.PlainUrlSegments | parsers/github.py:22 | `https://github.com/` plus plain segments joined by `/` splits back into an empty segment followed by those segments |
| GitHubParser.ParseUrlRoundTrip | parsers/github.py:9-29 | `https://github.com/<owner>/<repo>/pull/<number>` parses back into that owner, repository and number, with route `repos/<owner>/<repo>/pulls/<number>` |
| GitHubParser.ExtraSegmentShiftsNumber | parsers/github.py:24 | with an extra segment before `pull`, the number is `pull` |
| GitHubParser.ShortPathHasNoRoute | parsers/github.py:13-29 | `https://github.com/<owner>/<repo>/pull` has no route |
| GitHubParser.ApiRouteSegments | parsers/github.py:16-19 | a route splits back into `repos`, owner, repository, `pulls` and number |
| GitHubParser.DetailsMerged | parsers/github.py:40-47 | true exactly when the entry is non-empty and `details["merged"]` is `True`; raises exactly when `"details"` is truthy but lacks `"merged"` |
| GitHubParser.ReviewsApproved | parsers/github.py:49-56 | an empty entry, or one with falsy `"reviews"`, is not approved |
| GitHubParser.PagesStates | parsers/github.py:51 | the comprehension over pages; `PagesStatesOfEntry` states its result on stored entries |
| GitHubParser.StatesOfReviews | parsers/github.py:51 | `rev["state"]` over a page's reviews succeeds exactly when every review is a dict holding a `"state"`, and then gives those states in order, whatever else the reviews hold |
| GitHubParser.PagesStatesOfEntry | parsers/github.py:51 | over the pages the GitHub client stores (any headers, any review objects) the comprehension succeeds exactly when every review holds a state, and then gives every page's states in page order |
| GitHubParser.ReviewsApprovedLastWins | parsers/github.py:49-56 | an entry of the shape the GitHub client stores, whatever its headers and review fields, is approved exactly when it holds some review and the last state across all its pages is `APPROVED`; a review without a state raises |
| GitHubParser.ChangesAfterApprovalExample | parsers/github.py:52 | an approval followed by a change request, on a page with an `ETag` header, is not approved |
| GitHubParser.ApprovalOnLaterPageExample | parsers/github.py:51-52 | an approval on a later page overrides an earlier change request, and an empty last page does not hide it |
| GitHubParser.LastHeaderValue | processors/approved.py:44-46 | the last value of the header found in the entry's header dicts; none exactly when there is none, where `[-1]` raises `IndexError` |
| GitHubParser.DetailsToken | processors/merged.py:44-46 | a details entry's token is its own header's value |
| GitHubParser.ReviewsTokenFromLastPage | processors/approved.py:44-46 | a reviews entry's token comes from its last page when that page carries the header |
| LocalCache.PathOf | clients/local.py:22 | a cache path is a list of non-empty names, none holding `/` |
| LocalCache.FileName | clients/local.py:21 | a missing or empty file name is `data.json` |
| LocalCache.Write | clients/local.py:20-35 | on success the file holds the new data (a new path) or the old object updated with the new one (an existing directory's file); only the path's missing directories and its file are added; every other file is unchanged; `OSError` exactly when a parent of a new path is a file, or an existing path is not a directory holding the file |
| LocalCache.Read | clients/local.py:37-46 | `NoCachedData` exactly when the path does not exist; the data exactly when the directory holds the file |
| LocalCache.WriteValid | clients/local.py:20-35 | a successful save keeps the tree a file-system tree |
| LocalCache.WriteThenReadNew | clients/local.py:23-27 | saving at a new path and loading it gives the data back |
| LocalCache.WriteThenReadExisting | clients/local.py:28-35 | saving at an existing path succeeds exactly when loading it would, and then stores the merge |
| LocalCache.SaveSaveLoad | clients/local.py:20-46 | two saves at a new path load back as the second merged over the first |
| LocalCache.RemoveValid | clients/local.py:48-57 | a delete keeps the tree a file-system tree |
| LocalCache.Rmtree | clients/local.py:50 | `rmtree` with errors ignored; `RmtreeValid` says the tree stays a file-system tree |
| LocalCache.Pruned | clients/local.py:52-57 | the bottom-up removal of empty directories; `PruneStep` and `RemoveLeavesNoEmptyDir` state what stays |
| LocalCache.Remove | clients/local.py:48-57 | `delete`; `RemoveValid`, `RemoveClearsSubtree`, `ReadAfterRemove`, `RemoveKeepsOthers` and `RemoveLeavesNoEmptyDir` state its result |
| LocalCache.RemoveClearsSubtree | clients/local.py:49-50 | after a delete nothing at or below the path exists |
| LocalCache.ReadAfterRemove | clients/local.py:40-50 | loading a deleted path raises `NoCachedData` |
| LocalCache.RemoveKeepsOthers | clients/local.py:48-57 | files outside the deleted path keep their contents |
| LocalCache.RemoveLeavesNoEmptyDir | clients/local.py:52-57 | after a delete no directory but the root is empty, and the root survives |
| LocalCache.RmtreeValid | clients/local.py:50 | `rmtree` keeps the tree a file-system tree |
| LocalCache.PruneStep | clients/local.py:52-57 | removing the empty directories of one depth, deepest first, keeps every directory with a file below it and leaves no empty one at that depth |
| LocalCache.Deepest | clients/local.py:52 | the bottom-up walk starts at the depth of the deepest directory |
| LocalCache.LocalCacheClient.constructor | clients/local.py:14-18 | the cache holds what is on disk, plus the root directory |
| LocalCache.LocalCacheClient.Save | clients/local.py:20-35 | the new tree is `Write` of the old one, or unchanged where `save` raises |
| LocalCache.LocalCacheClient.Load | clients/local.py:37-46 | the result is `Read` of the tree |
| LocalCache.LocalCacheClient.Delete | clients/local.py:48-57 | the new tree is the old one with the path removed and every emptied directory pruned |
| Helpers.GetPullRequests | processors/helpers.py:8-13 | none exactly when the message has no pull-request link; otherwise one url parser per link, in order, each for a url matching the pattern |
| Helpers.GetReactions | processors/helpers.py:16-20 | none exactly when the message has no reactions; otherwise whether it has the named one |
| Helpers.GetReactionsFalsy | processors/helpers.py:16-20 | the answer is falsy exactly when the message has no reaction of that name |
| Helpers.GetCachedData | processors/helpers.py:23-28 | the stored entry when the directory holds the file; none exactly when the path does not exist; otherwise the `OSError` passed on |
| Remote.GitHubClient.Fetch | processors/approved.py:52-53 | each call receives the next scripted answer (empty once they run out) and is logged with its endpoint and parameters |
| Remote.SlackClient.AddMessageReaction | processors/approved.py:65-69 | each reaction asked for is logged with channel, name, timestamp and dry-run flag |
| Processors.WithToken | processors/approved.py:45-47 | the token goes in as `entity_tag` (approval) or `last_modified` (merge); owner, repository and number stay |
| Processors.Verdict | processors/approved.py:36-37 | `get_reviews_approved` or `get_details_merged` of an entry; the `GitHubParser` lemmas about those state it |
| Processors.Fetch | processors/approved.py:51-62 | one call is logged; with no exception the verdict as it then stands is appended; an empty answer changes neither the cache nor anything but the appended verdict; a non-empty one, when nothing is raised, gives the answer's verdict and the cache `save` leaves, and raises only when the verdict or the save does |
| Processors.Revalidate | processors/approved.py:35-47 | the reactions and paths are untouched, and with no exception exactly one verdict is appended |
| Processors.Step | processors/approved.py:29-62 | after an exception nothing changes; with none, the pull request had a route and its cache path and one verdict are recorded |
| Processors.CachedVerdictSkipsCall | processors/approved.py:35-41 | a cached positive verdict is appended as true with no call and no change to the world |
| Processors.RevalidationToken | processors/approved.py:43-53 | a cached negative verdict sends the entry's last revalidation header along; without one the step raises `IndexError` before any call |
| Processors.UncachedPlainRequest | processors/approved.py:51-53 | a pull request with nothing cached is asked for with the url's own parameters |
| Processors.EmptyFetchCarriesVerdict | processors/approved.py:55-62 | an empty answer for an uncached pull request leaves the cache alone and appends the verdict carried in |
| Processors.FreshAnswerSaved | processors/approved.py:55-60 | a non-empty answer for an uncached pull request gives its verdict, and the cache then loads back exactly that answer |
| Processors.RevalidatedAnswerMerged | processors/approved.py:43-62 | a non-empty answer for a cached negative entry with a token gives the answer's verdict, and the cache then loads back the old entry updated with the answer |
| Processors.CarryOverExample | processors/approved.py:26-62 | after a positive answer, an uncached pull request whose call returns nothing counts as positive too |
| Processors.StepsRecordsPaths | processors/approved.py:29-31 | when no exception ends the loop, one path and one state are recorded per pull request, in order, short-circuited ones included |
| Processors.StepsAfterCrash | processors/approved.py:29-62 | once an exception is raised, the remaining pull requests change nothing |
| Processors.Steps | processors/approved.py:29-62 | the loop over a message's pull requests; the reactions are untouched, and `StepsRecordsPaths` and `StepsAfterCrash` state the rest |
| Processors.RemoveAllKeepsOthers | processors/approved.py:71-72 | deleting the recorded paths changes no stored entry outside them |
| Processors.RemoveAllMisses | processors/approved.py:71-72 | after the deletes every recorded path is a miss, and no file was added |
| Processors.RemoveAll | processors/approved.py:71-72 | one `delete` per recorded path, in order; `RemoveAllMisses` and `RemoveAllKeepsOthers` state the result |
| Processors.RemoveShrinks | processors/approved.py:72 | a delete only takes directories and files away |
| Processors.NoPullRequestsRaise | processors/approved.py:27-29 | a message without pull-request links raises `TypeError` and changes nothing |
| Processors.AllTrue | processors/approved.py:64 | `all(state for state in pull_request_states)`; used by `ReactsIffAllTrue` |
| Processors.HandleMessage | processors/approved.py:24-72 | one message; `NoPullRequestsRaise` and `ReactsIffAllTrue` state its outcome |
| Processors.Conclude | processors/approved.py:64-72 | the reaction and the deletes after the loop; `ReactsIffAllTrue` states when they happen |
| Processors.ReactsIffAllTrue | processors/approved.py:64-72 | the reaction is added, and every recorded path deleted, exactly when no exception was raised, every state is true and the message has a `"ts"`; otherwise no reaction is added and nothing is deleted |
| Processors.RunQueueUnfold | processors/approved.py:18-74 | the queue loop takes its first item: a `None` stops it, an exception ends it, and a message handled without one is followed by the rest |
| Processors.RunQueueCounts | processors/approved.py:18-74 | `task_done` is called once per message handled without an exception; the thread stops after the first `None` or the first exception without calling it, or waits when the queue is used up |
| Processors.RunStopsAtSentinel | processors/approved.py:19-22 | nothing after the first `None` is ever taken |
| Processors.RunQueue | processors/approved.py:18-74 | the `while True` loop over the queue; `RunQueueUnfold`, `RunQueueCounts` and `RunStopsAtSentinel` state it |
| Processors.Worker.constructor | processors/approved.py:9-16 | the worker keeps its condition, settings and clients |
| Processors.Worker.ProcessPullRequest | processors/approved.py:29-62 | the new world and locals are `Step` of the old ones |
| Processors.Worker.FetchAndStore | processors/approved.py:51-62 | the new world and locals are `Fetch` of the old ones |
| Processors.Worker.ProcessPullRequests | processors/approved.py:29-62 | the new world and locals are `Steps` over the message's pull requests |
| Processors.Worker.DeleteAll | processors/approved.py:71-72 | the cache is `RemoveAll` of the recorded paths |
| Processors.Worker.Finish | processors/approved.py:64-72 | the new world and exception are `Conclude` of the loop's outcome |
| Processors.Worker.ProcessMessage | processors/approved.py:24-72 | the new world and exception are `HandleMessage` of the message |
| Processors.Worker.Run | processors/approved.py:18-74 | the new world, `task_done` count, items taken and exception are `RunQueue` of the queue |
| Processors.Worker.RunWith | processors/approved.py:18-74 | the same against any handler that implements `HandleMessage` |
| Dispatcher.TaskQueue.Put | main.py:38 | the item is appended to the queue |
| Dispatcher.NeedsReactionSpec | main.py:34-41 | a reply is queued for a reaction exactly when it has a pull-request link and no reaction of that name |
| Dispatcher.NeedsReaction | main.py:34-41 | the test of lines 34-41; `NeedsReactionSpec` states it outright |
| Dispatcher.Flatten | main.py:27-33 | the replies in visiting order; `FlattenMember` and `FlattenAppend` state them |
| Dispatcher.FlattenMember | main.py:27-33 | a reply is visited exactly when it is a reply of some history message |
| Dispatcher.FlattenAppend | main.py:27-33 | the replies of each history message are visited in turn |
| Dispatcher.SelectedMember | main.py:33-41 | a reply is selected exactly when it was visited and passes the test |
| Dispatcher.SelectedAppend | main.py:33-41 | selection keeps visiting order |
| Dispatcher.Selected | main.py:33-41 | never more replies than given; `SelectedMember` and `SelectedAppend` give membership and order |
| Dispatcher.Enqueued | main.py:33-41 | the replies a queue receives; `EnqueuedMember` and `EnqueuedHavePullRequests` state them |
| Dispatcher.EnqueuedMember | main.py:33-41 | a reply is on a reaction's queue exactly when it was visited and needs that reaction |
| Dispatcher.EnqueuedHavePullRequests | main.py:34-41 | every queued reply is well formed and has pull requests, so `get_pull_requests` never answers none for it |
| Dispatcher.QueuesIndependent | main.py:36-41 | a reply goes onto both queues exactly when it needs both reactions, and onto the merge queue alone exactly when it needs only that one |
| Dispatcher.Route | main.py:34-41 | each queue grows by the reply exactly when it needs that queue's reaction |
| Dispatcher.RouteAll | main.py:33-41 | each queue grows by the selected replies of one history message, in order |
| Dispatcher.Dispatch | main.py:27-41 | each queue grows by exactly the replies, over all history messages in order, that need its reaction |
| Dispatcher.DispatchWith | main.py:27-41 | the same against tests that agree with the reaction test |

`processors/merged.py` has the same structure as `processors/approved.py` line for line. Every `Processors` row above covers both, with `details`, `Last-Modified`, `last_modified` and `get_details_merged` in place of `reviews`, `ETag`, `entity_tag` and `get_reviews_approved`.

## Left out

- Threads and concurrency are not modelled: the two workers and the dispatcher share the cache and the clients. Each worker's queue is a given sequence, and `queue.join` (main.py lines 43-44) is not modelled.
- The network is not modelled. clients/github.py and clients/slack.py are not part of this model:
  - the GitHub client is a scripted oracle: each call gets the next answer, and `{}` stands for a `304 Not Modified` and for a failed call;
  - the Slack client records the reactions it was asked to add.
- Errors inside the GitHub client are not modelled. clients/github.py reads `status_code`/`headers` off the `{}` its `api_call` returns after a failure. The model treats a failed call as an empty answer, the same as a `304`.
- Fetching the channel history and the replies is I/O (main.py lines 24-31). The dispatcher receives the replies as one sequence per history message, and `get_conversation_replies`' use of `"ts"` is not modelled.
- The API rate-limit wait, retries, logging, the scheduler, `run_threaded`, `main` and utils.py are not part of this model.
- Cache files are in-memory JSON objects. JSON encoding, a file holding invalid JSON, and partial failures of `rmtree` are not modelled.
- Cache paths are not normalised: `.`, `..` and absolute paths are not modelled, and a file name containing `/` is not either.
- `nested_lookup` is modelled only where the workers use it: string header values in the entry's top-level `"headers"`, then in each review page's `"headers"`. Keys deeper in the payload and non-string values are not modelled.
- Url.UrlParse: the `ValueError` for unbalanced `[`/`]` in the netloc and the NFKC netloc check are not modelled. The contract is stated for the path, the only part the program reads.
- PullRequestPattern.IsDigit: `\d` is taken as ASCII digits only; the other Unicode digits `re` accepts are not modelled.
- Helpers.GetPullRequests, Helpers.GetReactions and SlackParser.MessagePullRequests require a well-formed Slack message (`SlackParser.WellFormedMessage`). On a malformed one the source raises `AttributeError`/`TypeError`, and those paths are not modelled.
- GitHubParser.ReviewsApproved: its own contract covers only empty and falsy entries. The last-state-wins rule is proved (`ReviewsApprovedLastWins`) for entries of the shape clients/github.py lines 102-118 store: a `"reviews"` list of pages, each a dict with any `"headers"` and a `"review"` list of arbitrary JSON values. Entries whose pages lack `"review"`, or whose `"review"` is not a list, are covered only by the function itself.
- LocalCache.LocalCacheClient.Delete: `os.walk(topdown=False)` visits directories in post-order. The model removes empty directories one depth at a time, deepest first. Both leave the same tree, only the order of the removals differs.
