/** The two network services the workers talk to, reduced to what the workers see of them.
    clients/github.py is an oracle that hands out the next of a scripted list of answers
    (an empty entry standing for `304 Not Modified` or a failed call) and keeps a log of what
    was asked; clients/slack.py is an append-only log of the reactions asked for. */
module Remote {
  import opened Wrappers
  import opened Json
  import opened GitHubParser

  /** `get_pull_request_reviews` or `get_pull_request_details`. */
  datatype Endpoint = PullRequestReviews | PullRequestDetails

  /** One call to the GitHub client: the endpoint and the keyword arguments. */
  datatype Request = Request(endpoint: Endpoint, params: Params)

  /** One call to `add_message_reaction(channel, reaction, timestamp, dry_run)`. */
  datatype Reaction = Reaction(channel: string, name: string, timestamp: Json, dryRun: bool)

  /** The answer the next call receives: the first scripted one, or an empty entry once the
      script is used up. */
  function NextAnswer(answers: seq<Data>): (data: Data)
    ensures answers == [] ==> data == map[]
    ensures answers != [] ==> data == answers[0]
  {
    if answers == [] then map[] else answers[0]
  }

  function RestAnswers(answers: seq<Data>): (rest: seq<Data>)
    ensures answers == [] ==> rest == []
    ensures answers != [] ==> rest == answers[1..]
  {
    if answers == [] then [] else answers[1..]
  }

  class GitHubClient {
    /** The answers still to be handed out, in order. */
    var answers: seq<Data>
    /** Every call made so far, in order. */
    var requests: seq<Request>

    constructor (script: seq<Data>)
      ensures answers == script && requests == []
    {
      answers := script;
      requests := [];
    }

    /** A call to `endpoint` with `params`: an entry of shape `{"headers", "details"}` or
        `{"reviews": [{"headers", "review"}, ...]}`, or `{}`. */
    method Fetch(endpoint: Endpoint, params: Params) returns (data: Data)
      modifies this
      ensures data == NextAnswer(old(answers))
      ensures answers == RestAnswers(old(answers))
      ensures requests == old(requests) + [Request(endpoint, params)]
    {
      data := NextAnswer(answers);
      answers := RestAnswers(answers);
      requests := requests + [Request(endpoint, params)];
    }
  }

  class SlackClient {
    /** Every reaction asked for so far, in order, dry runs included. */
    var reactions: seq<Reaction>

    constructor ()
      ensures reactions == []
    {
      reactions := [];
    }

    method AddMessageReaction(channel: string, reaction: string, timestamp: Json, dryRun: bool)
      modifies this
      ensures reactions == old(reactions) + [Reaction(channel, reaction, timestamp, dryRun)]
    {
      reactions := reactions + [Reaction(channel, reaction, timestamp, dryRun)];
    }
  }
}
