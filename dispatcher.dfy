/** main.py, `SlackMessageThread.run`: the loop that walks the replies of every history
    message and puts each reply that still needs a reaction onto the approval queue, the merge
    queue, or both. Fetching the history and the replies is I/O: the replies arrive as one
    sequence per history message, in history order. */
module Dispatcher {
  import opened Wrappers
  import opened Json
  import opened SlackParser
  import opened Helpers

  /** A `queue.Queue` the thread puts onto; `items` is everything put so far, in order. */
  class TaskQueue {
    var items: seq<Json>

    constructor ()
      ensures items == []
    {
      items := [];
    }

    method Put(item: Json)
      modifies this
      ensures items == old(items) + [item]
    {
      items := items + [item];
    }
  }

  predicate AllWellFormed(replies: seq<Json>) {
    forall k :: 0 <= k < |replies| ==> WellFormedMessage(replies[k])
  }

  predicate ThreadsWellFormed(threads: seq<seq<Json>>) {
    forall i :: 0 <= i < |threads| ==> AllWellFormed(threads[i])
  }

  /** The test of lines 34-41 for one queue: the reply has a pull-request link (so
      `get_pull_requests` is truthy) and `get_reactions(reply, name)` is falsy. */
  predicate NeedsReaction(reply: Json, name: string) {
    WellFormedMessage(reply) && MessagePullRequests(reply) != [] && !OptionTruthy(GetReactions(reply, name))
  }

  /** Every reply of every history message, in the order the loops visit them. */
  function Flatten(threads: seq<seq<Json>>): (replies: seq<Json>)
    ensures |threads| > 0 ==> |replies| >= |threads[|threads| - 1]|
  {
    if threads == [] then [] else Flatten(threads[..|threads| - 1]) + threads[|threads| - 1]
  }

  /** The replies `keep` selects, in visiting order. */
  function Selected(replies: seq<Json>, keep: Json -> bool): (selected: seq<Json>)
    ensures |selected| <= |replies|
  {
    if replies == [] then []
    else
      var last := replies[|replies| - 1];
      Selected(replies[..|replies| - 1], keep) + (if keep(last) then [last] else [])
  }

  /** The test for the queue of reaction `name`. */
  function Keep(name: string): Json -> bool {
    reply => NeedsReaction(reply, name)
  }

  /** `keep` is the test for reaction `name`: it gives the same answer on every reply, so it
      is `Keep(name)` as a function. It is stated with `NeedsReaction` as the only trigger so
      that a proof unfolds the test only for the replies it mentions. */
  ghost predicate Agrees(keep: Json -> bool, name: string) {
    forall m {:trigger NeedsReaction(m, name)} :: keep(m) == NeedsReaction(m, name)
  }

  /** The replies that go onto the queue for reaction `name`, in visiting order. */
  function Enqueued(replies: seq<Json>, name: string): seq<Json> {
    Selected(replies, Keep(name))
  }

  /** A reply is queued for `name` exactly when its message has a pull-request link and
      no reaction called `name`. */
  lemma NeedsReactionSpec(reply: Json, name: string)
    requires WellFormedMessage(reply)
    ensures NeedsReaction(reply, name) <==>
      MessagePullRequests(reply) != [] &&
      !(Has(reply, "reactions") &&
        exists r :: r in reply.fields["reactions"].items && Get(r, "name") == Str(name))
  {
    GetReactionsFalsy(reply, name);
  }

  lemma {:induction false} FlattenWellFormed(threads: seq<seq<Json>>)
    requires ThreadsWellFormed(threads)
    ensures AllWellFormed(Flatten(threads))
  {
    if threads != [] {
      FlattenWellFormed(threads[..|threads| - 1]);
      var init := Flatten(threads[..|threads| - 1]);
      var last := threads[|threads| - 1];
      forall k | 0 <= k < |init + last|
        ensures WellFormedMessage((init + last)[k])
      {
        if k < |init| {
          assert (init + last)[k] == init[k];
        } else {
          assert (init + last)[k] == last[k - |init|];
        }
      }
    }
  }

  /** Flattening visits the replies of each history message in turn. */
  lemma {:induction false} FlattenAppend(a: seq<seq<Json>>, b: seq<seq<Json>>)
    ensures Flatten(a + b) == Flatten(a) + Flatten(b)
    decreases |b|
  {
    if b == [] {
      assert a + b == a;
    } else {
      var b' := b[..|b| - 1];
      assert (a + b)[..|a + b| - 1] == a + b';
      assert (a + b)[|a + b| - 1] == b[|b| - 1];
      FlattenAppend(a, b');
    }
  }

  /** The replies selected after `i + 1` history messages: those after `i`, then those of the
      next one. */
  lemma FlattenStep(threads: seq<seq<Json>>, i: nat, keep: Json -> bool)
    requires i < |threads|
    ensures Selected(Flatten(threads[..i + 1]), keep) == Selected(Flatten(threads[..i]), keep) + Selected(threads[i], keep)
  {
    assert threads[..i + 1] == threads[..i] + [threads[i]];
    FlattenAppend(threads[..i], [threads[i]]);
    assert Flatten([threads[i]]) == threads[i] by {
      assert [threads[i]][..0] == [];
    }
    SelectedAppend(Flatten(threads[..i]), threads[i], keep);
  }

  /** A reply is visited exactly when it is a reply of some history message. */
  lemma {:induction false} FlattenMember(threads: seq<seq<Json>>, m: Json)
    ensures m in Flatten(threads) <==> exists i :: 0 <= i < |threads| && m in threads[i]
  {
    if threads != [] {
      var init := threads[..|threads| - 1];
      FlattenMember(init, m);
      if m in threads[|threads| - 1] {
        assert m in Flatten(threads);
      }
      forall i | 0 <= i < |init| && m in init[i]
        ensures m in Flatten(threads)
      {
        assert threads[i] == init[i];
      }
      if m in Flatten(threads) {
        if m in Flatten(init) {
          var i :| 0 <= i < |init| && m in init[i];
          assert threads[i] == init[i];
        }
      }
    }
  }

  /** A reply is selected exactly when it was visited and passes the test. */
  lemma {:induction false} SelectedMember(replies: seq<Json>, keep: Json -> bool, m: Json)
    ensures m in Selected(replies, keep) <==> (m in replies && keep(m))
  {
    if replies != [] {
      var init := replies[..|replies| - 1];
      SelectedMember(init, keep, m);
      assert replies == init + [replies[|replies| - 1]];
    }
  }

  /** A reply is on the queue for `name` exactly when it was visited and needs that reaction. */
  lemma EnqueuedMember(replies: seq<Json>, name: string, m: Json)
    ensures m in Enqueued(replies, name) <==> (m in replies && NeedsReaction(m, name))
  {
    SelectedMember(replies, Keep(name), m);
  }

  /** One more reply is selected after the earlier ones, or not at all. */
  lemma SelectedSnoc(a: seq<Json>, m: Json, keep: Json -> bool)
    ensures Selected(a + [m], keep) == Selected(a, keep) + (if keep(m) then [m] else [])
  {
    assert (a + [m])[..|a|] == a;
  }

  /** Selection keeps visiting order: the replies of a longer history are selected after those
      of a shorter one. */
  lemma {:induction false} SelectedAppend(a: seq<Json>, b: seq<Json>, keep: Json -> bool)
    ensures Selected(a + b, keep) == Selected(a, keep) + Selected(b, keep)
    decreases |b|
  {
    if b == [] {
      assert a + b == a;
    } else {
      var b', m := b[..|b| - 1], b[|b| - 1];
      assert a + b == (a + b') + [m] && b == b' + [m];
      SelectedAppend(a, b', keep);
      SelectedSnoc(a + b', m, keep);
      SelectedSnoc(b', m, keep);
    }
  }

  /** Replies without a pull-request link are never queued, so no worker ever takes a message
      on which `get_pull_requests` answers None. */
  lemma EnqueuedHavePullRequests(replies: seq<Json>, name: string, m: Json)
    requires m in Enqueued(replies, name)
    ensures WellFormedMessage(m) && GetPullRequests(m).Some? && MessagePullRequests(m) != []
  {
    EnqueuedMember(replies, name, m);
  }

  /** The two decisions are independent: a reply with a pull-request link and neither reaction
      is put onto both queues, one with only the approval reaction onto the merge queue only. */
  lemma {:induction false} QueuesIndependent(replies: seq<Json>, approved: string, merged: string, m: Json)
    requires m in replies
    ensures (m in Enqueued(replies, approved) && m in Enqueued(replies, merged)) <==>
      (NeedsReaction(m, approved) && NeedsReaction(m, merged))
    ensures (m in Enqueued(replies, merged) && m !in Enqueued(replies, approved)) <==>
      (NeedsReaction(m, merged) && !NeedsReaction(m, approved))
  {
    EnqueuedMember(replies, approved, m);
    EnqueuedMember(replies, merged, m);
  }

  /** Lines 34-41 for one reply: put it onto `approval` when it needs the approval reaction
      and onto `merging` when it needs the merge reaction. */
  method Route(reply: Json, approvedName: string, mergedName: string,
               approval: TaskQueue, merging: TaskQueue)
    requires WellFormedMessage(reply) && approval != merging
    modifies approval, merging
    ensures approval.items == old(approval.items) + (if NeedsReaction(reply, approvedName) then [reply] else [])
    ensures merging.items == old(merging.items) + (if NeedsReaction(reply, mergedName) then [reply] else [])
  {
    var pullRequests := GetPullRequests(reply);
    if pullRequests.Some? && !OptionTruthy(GetReactions(reply, approvedName)) {
      approval.Put(reply);
    }
    if pullRequests.Some? && !OptionTruthy(GetReactions(reply, mergedName)) {
      merging.Put(reply);
    }
  }

  /** Lines 33-41 for the replies of one history message, in order, against tests `keepApproval`
      and `keepMerge` that agree with `NeedsReaction` wherever that is applied. */
  method RouteAll(replies: seq<Json>, approvedName: string, mergedName: string,
                  approval: TaskQueue, merging: TaskQueue,
                  ghost keepApproval: Json -> bool, ghost keepMerge: Json -> bool)
    requires AllWellFormed(replies) && approval != merging
    requires Agrees(keepApproval, approvedName) && Agrees(keepMerge, mergedName)
    modifies approval, merging
    ensures approval.items == old(approval.items) + Selected(replies, keepApproval)
    ensures merging.items == old(merging.items) + Selected(replies, keepMerge)
  {
    var j := 0;
    while j < |replies|
      invariant 0 <= j <= |replies|
      invariant approval.items == old(approval.items) + Selected(replies[..j], keepApproval)
      invariant merging.items == old(merging.items) + Selected(replies[..j], keepMerge)
    {
      assert replies[..j + 1] == replies[..j] + [replies[j]];
      SelectedSnoc(replies[..j], replies[j], keepApproval);
      SelectedSnoc(replies[..j], replies[j], keepMerge);
      Route(replies[j], approvedName, mergedName, approval, merging);
      Associative(old(approval.items), Selected(replies[..j], keepApproval),
                  if keepApproval(replies[j]) then [replies[j]] else []);
      Associative(old(merging.items), Selected(replies[..j], keepMerge),
                  if keepMerge(replies[j]) then [replies[j]] else []);
      j := j + 1;
    }
    assert replies[..j] == replies;
  }

  /** Lines 27-41: for each history message, for each of its replies, put the reply onto
      `approval` when it needs the approval reaction and onto `merging` when it needs the
      merge reaction. */
  method Dispatch(threads: seq<seq<Json>>, approvedName: string, mergedName: string,
                  approval: TaskQueue, merging: TaskQueue)
    requires ThreadsWellFormed(threads) && approval != merging
    modifies approval, merging
    ensures approval.items == old(approval.items) + Enqueued(Flatten(threads), approvedName)
    ensures merging.items == old(merging.items) + Enqueued(Flatten(threads), mergedName)
  {
    DispatchWith(threads, approvedName, mergedName, approval, merging, Keep(approvedName), Keep(mergedName));
  }

  /** `Dispatch` against tests that agree with `NeedsReaction` wherever that is applied. */
  method DispatchWith(threads: seq<seq<Json>>, approvedName: string, mergedName: string,
                      approval: TaskQueue, merging: TaskQueue,
                      ghost keepApproval: Json -> bool, ghost keepMerge: Json -> bool)
    requires ThreadsWellFormed(threads) && approval != merging
    requires Agrees(keepApproval, approvedName) && Agrees(keepMerge, mergedName)
    modifies approval, merging
    ensures approval.items == old(approval.items) + Selected(Flatten(threads), keepApproval)
    ensures merging.items == old(merging.items) + Selected(Flatten(threads), keepMerge)
  {
    var i := 0;
    while i < |threads|
      invariant 0 <= i <= |threads|
      invariant approval.items == old(approval.items) + Selected(Flatten(threads[..i]), keepApproval)
      invariant merging.items == old(merging.items) + Selected(Flatten(threads[..i]), keepMerge)
    {
      var replies := threads[i];
      RouteAll(replies, approvedName, mergedName, approval, merging, keepApproval, keepMerge);
      FlattenStep(threads, i, keepApproval);
      FlattenStep(threads, i, keepMerge);
      Associative(old(approval.items), Selected(Flatten(threads[..i]), keepApproval), Selected(replies, keepApproval));
      Associative(old(merging.items), Selected(Flatten(threads[..i]), keepMerge), Selected(replies, keepMerge));
      i := i + 1;
    }
    assert threads[..i] == threads;
  }
}
