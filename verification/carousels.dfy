/** The two carousels over the shared feed: the two-up latest-policies strip
    and the one-up slider. Each advances a slide index on a timer and keeps
    its own ledger of voted ids; an upvote goes through the context (which
    swallows errors) and then adds one vote locally. */
module Carousels {
  import opened PolicyTypes
  import opened PolicyLists
  import PolicyContext

  /** The two-up strip: wraps to 0 once the next pair would run past the end. */
  function ListStep(i: nat, n: nat): (r: nat)
    ensures i + 2 >= n ==> r == 0
    ensures i + 2 < n ==> r == i + 1
    ensures r <= if n >= 2 then n - 2 else 0
  {
    if i + 2 >= n then 0 else i + 1
  }

  /** The one-up slider: wraps to 0 once the next slide would run past the end. */
  function CarouselStep(i: nat, n: nat): (r: nat)
    ensures i + 1 >= n ==> r == 0
    ensures i + 1 < n ==> r == i + 1
    ensures n >= 1 ==> r < n
  {
    if i + 1 >= n then 0 else i + 1
  }

  /** The index after `k` ticks of the one-up slider over `n` slides. */
  function CarouselAfter(k: nat, i: nat, n: nat): nat
    decreases k
  {
    if k == 0 then i else CarouselAfter(k - 1, CarouselStep(i, n), n)
  }

  /** The index after `k` ticks of the two-up strip over `n` slides. */
  function ListAfter(k: nat, i: nat, n: nat): nat
    decreases k
  {
    if k == 0 then i else ListAfter(k - 1, ListStep(i, n), n)
  }

  /** From index `i`, `k` ticks walk forward one slide each while no wrap occurs. */
  lemma {:induction false} CarouselWalk(k: nat, i: nat, n: nat)
    requires i + k < n
    ensures CarouselAfter(k, i, n) == i + k
    decreases k
  {
    if k > 0 {
      CarouselWalk(k - 1, i + 1, n);
    }
  }

  /** The slider is periodic: from slide 0, `n` ticks come back to slide 0,
      after visiting every slide in order. */
  lemma CarouselCycle(n: nat)
    requires n >= 1
    ensures forall k :: 0 <= k < n ==> CarouselAfter(k, 0, n) == k
    ensures CarouselAfter(n, 0, n) == 0
  {
    forall k | 0 <= k < n ensures CarouselAfter(k, 0, n) == k {
      CarouselWalk(k, 0, n);
    }
    CarouselWalkThenWrap(n);
  }

  lemma CarouselWalkThenWrap(n: nat)
    requires n >= 1
    ensures CarouselAfter(n, 0, n) == 0
  {
    CarouselShift(n - 1, 0, n);
    CarouselWalk(n - 1, 0, n);
  }

  /** Taking `k` ticks then one more is one tick after the first `k`. */
  lemma {:induction false} CarouselShift(k: nat, i: nat, n: nat)
    ensures CarouselAfter(k + 1, i, n) == CarouselStep(CarouselAfter(k, i, n), n)
    decreases k
  {
    if k > 0 {
      CarouselShift(k - 1, CarouselStep(i, n), n);
    }
  }

  /** From index `i`, `k` ticks of the strip walk forward while no wrap occurs. */
  lemma {:induction false} ListWalk(k: nat, i: nat, n: nat)
    requires i + k + 1 < n
    ensures ListAfter(k, i, n) == i + k
    decreases k
  {
    if k > 0 {
      ListWalk(k - 1, i + 1, n);
    }
  }

  lemma {:induction false} ListShift(k: nat, i: nat, n: nat)
    ensures ListAfter(k + 1, i, n) == ListStep(ListAfter(k, i, n), n)
    decreases k
  {
    if k > 0 {
      ListShift(k - 1, ListStep(i, n), n);
    }
  }

  /** The strip shows pairs, so with `n >= 2` slides it cycles with period
      `n - 1`: every left slide 0 .. n-2 is visited once before the wrap. */
  lemma ListCycle(n: nat)
    requires n >= 2
    ensures forall k :: 0 <= k < n - 1 ==> ListAfter(k, 0, n) == k
    ensures ListAfter(n - 1, 0, n) == 0
  {
    forall k | 0 <= k < n - 1 ensures ListAfter(k, 0, n) == k {
      ListWalk(k, 0, n);
    }
    ListShift(n - 2, 0, n);
    ListWalk(n - 2, 0, n);
  }

  // ---------------------------------------------------------------------------
  // Upvote composed with the context

  /** What a carousel's upvote touches: the shared context and its own ledger. */
  datatype CarouselView = CarouselView(
    context: PolicyContext.ContextState,
    votedPolicies: seq<string>,
    loading: bool)

  /** Loading the user's votes: the server's list replaces the ledger wholesale. */
  function LoadVotes(v: CarouselView, reply: Reply<seq<string>>): (r: CarouselView)
    ensures reply.Ok? ==> r == v.(votedPolicies := reply.value)
    ensures reply.Threw? ==> r == v
  {
    match reply
    case Ok(votes) => v.(votedPolicies := votes)
    case Threw => v
  }

  /** The upvote button of either carousel. A guest or an id already in the
      ledger changes nothing. Otherwise the context applies the server copy
      (or nothing, its error being swallowed), then each record carrying the id
      gets one more vote, and the id always joins the ledger. */
  function HandleUpvote(v: CarouselView, signedIn: bool, id: string, server: Reply<Policy>): (r: CarouselView)
    ensures !signedIn || id in v.votedPolicies ==> r == v
    ensures signedIn && id !in v.votedPolicies ==>
              && r.votedPolicies == v.votedPolicies + [id]
              && !r.loading
              && |r.context.policies| == |v.context.policies|
              && r.context == v.context.(policies := r.context.policies)
    ensures signedIn && id !in v.votedPolicies && server.Threw? ==>
              r.context.policies == IncrementVotes(v.context.policies, id)
    ensures signedIn && id !in v.votedPolicies && server.Ok? ==>
              r.context.policies == IncrementVotes(ReplaceById(v.context.policies, server.value), id)
  {
    if !signedIn || id in v.votedPolicies then v
    else
      var afterServer := PolicyContext.UpvotePolicy(v.context, server);
      var shown := afterServer.(policies := IncrementVotes(afterServer.policies, id));
      CarouselView(shown, v.votedPolicies + [id], false)
  }

  /** Net effect on one record of an accepted upvote: a record carrying the id
      shows the server copy's count plus one when the server answered with that
      record, and its own count plus one when the call failed; a record with
      another id is the server copy if it carries the server copy's id, and is
      unchanged otherwise. */
  lemma UpvoteNetEffect(v: CarouselView, id: string, server: Reply<Policy>, i: int)
    requires id !in v.votedPolicies
    requires 0 <= i < |v.context.policies|
    ensures var p := v.context.policies[i];
            var q := HandleUpvote(v, true, id, server).context.policies[i];
            && (p.id == id && server.Ok? && server.value.id == id ==>
                  q == server.value.(votes := server.value.votes + 1))
            && (p.id == id && server.Threw? ==> q == p.(votes := p.votes + 1))
            && (p.id != id && server.Ok? && p.id == server.value.id ==> q == server.value)
            && (p.id != id && (server.Threw? || p.id != server.value.id) ==> q == p)
  {
  }

  /** The ledger only grows under upvotes, and a second press on an id already
      recorded changes nothing, whatever the server says. */
  lemma UpvoteOnce(v: CarouselView, signedIn: bool, id: string, first: Reply<Policy>, second: Reply<Policy>)
    ensures var r := HandleUpvote(v, signedIn, id, first);
            && |r.votedPolicies| >= |v.votedPolicies|
            && r.votedPolicies[..|v.votedPolicies|] == v.votedPolicies
            && (signedIn ==> id in r.votedPolicies)
            && (signedIn ==> HandleUpvote(r, signedIn, id, second) == r)
  {
  }

  /** Reloading the ledger from a server list that lacks the id makes a carousel
      press possible again: the id is recorded a second time and the context's
      records carrying it are touched again. */
  lemma LedgerReloadReopens(v: CarouselView, id: string, server: seq<string>, first: Reply<Policy>, second: Reply<Policy>)
    requires id !in v.votedPolicies && id !in server
    ensures var once := LoadVotes(HandleUpvote(v, true, id, first), Ok(server));
            var twice := HandleUpvote(once, true, id, second);
            && id !in once.votedPolicies
            && twice.votedPolicies == server + [id]
            && (second.Threw? ==> twice.context.policies == IncrementVotes(once.context.policies, id))
            && (second.Ok? ==>
                  twice.context.policies == IncrementVotes(ReplaceById(once.context.policies, second.value), id))
  {
  }
}
