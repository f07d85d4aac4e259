/** The single-policy page: it shows one fetched record and a vote counter of
    its own, and counts a vote only after the server confirms it. */
module PolicySinglePage {
  import opened PolicyTypes
  import PolicyContext

  /** The page's state: the record shown, its counter and its ledger of voted ids. */
  datatype DetailView = DetailView(
    policy: Option<Policy>,
    votes: int,
    votedPolicies: seq<string>,
    loading: bool)

  /** The state the page mounts with: no record, counter 0, empty ledger. */
  const Mounted := DetailView(None, 0, [], false)

  /** The counter a fetched record starts from: its vote count, or 0 when the
      fetch gave nothing. */
  function InitialVotes(fetched: Option<Policy>): (r: int)
    ensures fetched.None? ==> r == 0
    ensures fetched.Some? ==> r == fetched.value.votes
  {
    match fetched
    case None => 0
    case Some(p) => if p.votes != 0 then p.votes else 0
  }

  /** Loading the record named by the route: the page shows it and restarts the
      counter from it; the ledger is kept. */
  function Load(v: DetailView, fetched: Option<Policy>): (r: DetailView)
    ensures r.policy == fetched && r.votes == InitialVotes(fetched)
    ensures r.votedPolicies == v.votedPolicies && r.loading == v.loading
  {
    v.(policy := fetched, votes := InitialVotes(fetched))
  }

  /** How a press of the upvote button ended. */
  datatype Outcome = NotSignedIn | AlreadyVoted | Counted | Declined | Failed

  /** The upvote button. No record or a guest: refused. An id already in the
      ledger: refused. Otherwise the remote call decides: a reply whose
      `success` flag is set adds one to the counter and the id to the ledger;
      a reply without it, or a thrown call, changes neither. */
  function HandleUpvote(v: DetailView, signedIn: bool, reply: Reply<bool>): (r: (DetailView, Outcome))
    ensures v.policy.None? || !signedIn ==> r == (v, NotSignedIn)
    ensures v.policy.Some? && signedIn && v.policy.value.id in v.votedPolicies ==> r == (v, AlreadyVoted)
    ensures r.1 == Counted <==>
              v.policy.Some? && signedIn && v.policy.value.id !in v.votedPolicies && reply == Ok(true)
    ensures r.1 == Counted ==>
              r.0 == v.(votes := v.votes + 1, votedPolicies := v.votedPolicies + [v.policy.value.id], loading := false)
    ensures r.1 in {Declined, Failed} ==>
              r.0 == v.(loading := false) && (r.1 == Failed <==> reply.Threw?)
    ensures v.policy.Some? && signedIn && v.policy.value.id !in v.votedPolicies && reply != Ok(true) ==>
              r == (v.(loading := false), if reply.Threw? then Failed else Declined)
  {
    if v.policy.None? || !signedIn then (v, NotSignedIn)
    else if v.policy.value.id in v.votedPolicies then (v, AlreadyVoted)
    else
      var settled := v.(loading := false);
      match reply
      case Ok(success) =>
        if success then
          (settled.(votes := v.votes + 1, votedPolicies := v.votedPolicies + [v.policy.value.id]), Counted)
        else (settled, Declined)
      case Threw => (settled, Failed)
  }

  // ---------------------------------------------------------------------------
  // A session on one record

  /** The counter shows the record's count plus one exactly when the record's
      id is in the ledger, and the ledger holds at most that one id. */
  predicate CountsConfirmedVote(v: DetailView, p: Policy) {
    && v.policy == Some(p)
    && (forall i :: 0 <= i < |v.votedPolicies| ==> v.votedPolicies[i] == p.id)
    && |v.votedPolicies| <= 1
    && v.votes == p.votes + |v.votedPolicies|
  }

  /** Pressing the button `replies` times in a row. */
  function PressAll(v: DetailView, signedIn: bool, replies: seq<Reply<bool>>): DetailView
    decreases |replies|
  {
    if |replies| == 0 then v else PressAll(HandleUpvote(v, signedIn, replies[0]).0, signedIn, replies[1..])
  }

  /** One press keeps the session invariant. */
  lemma PressKeepsCount(v: DetailView, p: Policy, signedIn: bool, reply: Reply<bool>)
    requires CountsConfirmedVote(v, p)
    ensures CountsConfirmedVote(HandleUpvote(v, signedIn, reply).0, p)
  {
    if |v.votedPolicies| == 1 {
      assert v.votedPolicies[0] in v.votedPolicies;
    }
  }

  /** However many times the button is pressed after loading a record, and
      whatever the server replies, the counter ends at the record's count or
      one more, never beyond: a vote is counted at most once per page visit. */
  lemma {:induction false} AtMostOneVote(v: DetailView, p: Policy, signedIn: bool, replies: seq<Reply<bool>>)
    requires CountsConfirmedVote(v, p)
    ensures CountsConfirmedVote(PressAll(v, signedIn, replies), p)
    ensures p.votes <= PressAll(v, signedIn, replies).votes <= p.votes + 1
    decreases |replies|
  {
    if |replies| > 0 {
      PressKeepsCount(v, p, signedIn, replies[0]);
      AtMostOneVote(HandleUpvote(v, signedIn, replies[0]).0, p, signedIn, replies[1..]);
    }
  }

  /** Loading a record into a freshly mounted page starts the session invariant. */
  lemma LoadStartsSession(p: Policy)
    ensures CountsConfirmedVote(Load(Mounted, Some(p)), p)
  {
  }

  /** Loading through the context's single-record fetch: a fetched record
      starts the session with its own count; a failed fetch leaves no record,
      a counter of 0, and a button that refuses every press. */
  lemma LoadThroughContext(reply: Reply<Policy>, signedIn: bool, press: Reply<bool>)
    ensures reply.Ok? ==> CountsConfirmedVote(Load(Mounted, PolicyContext.FetchPolicy(reply)), reply.value)
    ensures reply.Threw? ==>
              var v := Load(Mounted, PolicyContext.FetchPolicy(reply));
              && v.policy.None? && v.votes == 0
              && HandleUpvote(v, signedIn, press) == (v, NotSignedIn)
  {
  }
}
