/** Records exchanged between the policy views, the shared policy context and
    the remote policy service. */
module PolicyTypes {

  /** A value that may be missing (a `null` or `undefined` in the client). */
  datatype Option<+T> = None | Some(value: T)

  /** How an awaited remote call ended: it resolved with a value, or it threw. */
  datatype Reply<+T> = Ok(value: T) | Threw

  /** The author of a policy; reference data that no operation here changes. */
  datatype Owner = Owner(id: string, name: string, email: string)

  /** A votable policy record; `id` is its identity and `votes` its upvote count. */
  datatype Policy = Policy(
    id: string,
    title: string,
    description: string,
    category: string,
    votes: int,
    owner: Owner,
    createdAt: string)

  /** The list filters: categories and years as ordered lists (duplicates kept),
      and a sort key where the empty string means "no sort". */
  datatype Filters = Filters(categories: seq<string>, years: seq<string>, sortBy: string)

  /** One page of the feed as the list endpoint returns it. */
  datatype PageResponse = PageResponse(policies: seq<Policy>, hasMore: bool, totalPolicies: int)

  /** The envelope the "policies of the current user" endpoint returns. */
  datatype UserPoliciesResponse = UserPoliciesResponse(success: bool, data: seq<Policy>)
}
