/** The paginated policy list with filter sidebar: its own page of records, its
    own filters and page number, and its own ledger of voted ids. A fetch
    replaces the page wholesale; an upvote is applied locally once the remote
    call returns without throwing. */
module HorizontalPolicyList {
  import opened PolicyTypes
  import opened PolicyLists
  import Seqs
  import Paging

  /** The view's state. `votedPolicies` is the ledger of ids this user voted on. */
  datatype ListView = ListView(
    policies: seq<Policy>,
    filters: Filters,
    page: int,
    totalPolicies: int,
    votedPolicies: seq<string>,
    loading: bool)

  const ItemsPerPage := 10

  /** The state the view mounts with: sorted by votes, page 1, nothing loaded. */
  const Mounted := ListView([], Filters([], [], "votes"), 1, 0, [], false)

  /** The reply to the list request: the page replaces the view's records
      (no merge) and the total is taken from the reply; a thrown call keeps both. */
  function ApplyFetch(v: ListView, reply: Reply<PageResponse>): (r: ListView)
    ensures !r.loading
    ensures reply.Ok? ==>
              r.policies == reply.value.policies && r.totalPolicies == reply.value.totalPolicies
    ensures reply.Threw? ==> r.policies == v.policies && r.totalPolicies == v.totalPolicies
    ensures r.filters == v.filters && r.page == v.page && r.votedPolicies == v.votedPolicies
  {
    match reply
    case Ok(data) => v.(policies := data.policies, totalPolicies := data.totalPolicies, loading := false)
    case Threw => v.(loading := false)
  }

  /** Loading the user's votes: the server's list replaces the ledger wholesale. */
  function LoadVotes(v: ListView, reply: Reply<seq<string>>): (r: ListView)
    ensures reply.Ok? ==> r == v.(votedPolicies := reply.value)
    ensures reply.Threw? ==> r == v
  {
    match reply
    case Ok(votes) => v.(votedPolicies := votes)
    case Threw => v
  }

  /** The upvote button. A guest or an id already in the ledger changes
      nothing. Otherwise, when the remote call returns, each record carrying
      the id gets one more vote and the id joins the ledger; when it throws,
      records and ledger stay. The loading flag ends cleared. */
  function HandleUpvote(v: ListView, signedIn: bool, id: string, callSucceeded: bool): (r: ListView)
    ensures !signedIn || id in v.votedPolicies ==> r == v
    ensures signedIn && id !in v.votedPolicies ==>
              && r.filters == v.filters && r.page == v.page
              && r.totalPolicies == v.totalPolicies && !r.loading
    ensures signedIn && id !in v.votedPolicies && callSucceeded ==>
              && r.policies == IncrementVotes(v.policies, id)
              && r.votedPolicies == v.votedPolicies + [id]
    ensures signedIn && id !in v.votedPolicies && !callSucceeded ==>
              r.policies == v.policies && r.votedPolicies == v.votedPolicies
  {
    if !signedIn || id in v.votedPolicies then v
    else if callSucceeded then
      v.(policies := IncrementVotes(v.policies, id), votedPolicies := v.votedPolicies + [id], loading := false)
    else
      v.(loading := false)
  }

  /** The filter test "differs from `value`", as a value. */
  function Differs(value: string): string -> bool {
    (c: string) => c != value
  }

  /** `values` without any occurrence of `value`, the rest in order. */
  function RemoveAll(values: seq<string>, value: string): (r: seq<string>)
    ensures value !in r
    ensures forall c :: c != value ==> multiset(r)[c] == multiset(values)[c]
    ensures Seqs.IsSubsequence(r, values)
  {
    forall c ensures multiset(Seqs.Filter(values, Differs(value)))[c]
                     == if c != value then multiset(values)[c] else 0 {
      Seqs.FilterCounts(values, Differs(value), c);
    }
    Seqs.FilterIsSubsequence(values, Differs(value));
    Seqs.Filter(values, Differs(value))
  }

  /** Checking a value appends it; unchecking removes every occurrence. */
  function Toggle(values: seq<string>, value: string, checked: bool): (r: seq<string>)
    ensures checked ==> r == values + [value]
    ensures !checked ==> r == RemoveAll(values, value)
  {
    if checked then values + [value] else RemoveAll(values, value)
  }

  /** A category or year checkbox. Only the list it names changes; any other
      kind changes nothing, and the page is never reset. */
  function HandleFilterChange(v: ListView, kind: string, value: string, checked: bool): (r: ListView)
    ensures r == v.(filters := r.filters)
    ensures kind == "category" ==>
              r.filters == v.filters.(categories := Toggle(v.filters.categories, value, checked))
    ensures kind == "year" ==>
              r.filters == v.filters.(years := Toggle(v.filters.years, value, checked))
    ensures kind != "category" && kind != "year" ==> r == v
  {
    if kind == "category" then
      v.(filters := v.filters.(categories := Toggle(v.filters.categories, value, checked)))
    else if kind == "year" then
      v.(filters := v.filters.(years := Toggle(v.filters.years, value, checked)))
    else v
  }

  /** The sort select: only the sort key changes; the page is kept. */
  function HandleSortChange(v: ListView, sortBy: string): (r: ListView)
    ensures r.filters.sortBy == sortBy
    ensures r == v.(filters := v.filters.(sortBy := r.filters.sortBy))
  {
    v.(filters := v.filters.(sortBy := sortBy))
  }

  /** The pager buttons: the page becomes the requested one, unchecked. */
  function HandlePageChange(v: ListView, newPage: int): (r: ListView)
    ensures r.page == newPage && r == v.(page := r.page)
  {
    v.(page := newPage)
  }

  /** Number of pages the reported total fills. */
  function TotalPages(totalPolicies: int): int {
    Paging.CeilDiv(totalPolicies, ItemsPerPage)
  }

  /** Whether the "Previous" button is shown. */
  predicate ShowPrevious(v: ListView) {
    v.page > 1
  }

  /** Whether the "Next" button is shown. */
  predicate ShowNext(v: ListView) {
    v.page < TotalPages(v.totalPolicies)
  }

  // ---------------------------------------------------------------------------
  // Properties

  /** "Next" is shown exactly when some reported record lies beyond the
      current page, and "Previous" exactly when a lower page exists. */
  lemma PagerButtons(v: ListView)
    ensures ShowNext(v) <==> v.page * 10 < v.totalPolicies
    ensures ShowPrevious(v) <==> v.page - 1 >= 1
  {
  }

  /** Unchecking after checking a value that was not selected restores the list. */
  lemma ToggleRoundTrip(values: seq<string>, value: string)
    requires value !in values
    ensures Toggle(Toggle(values, value, true), value, false) == values
  {
    Seqs.FilterAppend(values, [value], Differs(value));
    Seqs.FilterKeepsAll(values, Differs(value));
    Seqs.FilterDropsAll([value], Differs(value));
  }

  /** A filter or sort change keeps the page, the records, the total and the
      ledger: the view is not reset to page 1. */
  lemma FilterChangeKeepsPage(v: ListView, kind: string, value: string, checked: bool, sortBy: string)
    ensures HandleFilterChange(v, kind, value, checked).page == v.page
    ensures HandleSortChange(v, sortBy).page == v.page
    ensures HandleFilterChange(v, kind, value, checked).votedPolicies == v.votedPolicies
    ensures HandleFilterChange(v, kind, value, checked).policies == v.policies
    ensures HandleSortChange(v, sortBy).policies == v.policies
    ensures HandleSortChange(v, sortBy).votedPolicies == v.votedPolicies
  {
  }

  /** After an accepted upvote the total of displayed votes grew by the number of
      records carrying the id; a second press on the same id changes nothing. */
  lemma UpvoteOnce(v: ListView, id: string, callSucceeded: bool, again: bool)
    requires id !in v.votedPolicies
    ensures var r := HandleUpvote(v, true, id, callSucceeded);
            && TotalVotes(r.policies) == TotalVotes(v.policies) + (if callSucceeded then CountId(v.policies, id) else 0)
            && (callSucceeded ==> HandleUpvote(r, true, id, again) == r)
  {
    IncrementTotal(v.policies, id);
  }

  /** A refetch after an accepted upvote throws the local +1 away (the page
      replaces the records), while the ledger keeps the id, so pressing again
      cannot restore it. */
  lemma RefetchDropsLocalVote(v: ListView, id: string, data: PageResponse)
    requires id !in v.votedPolicies
    ensures var r := ApplyFetch(HandleUpvote(v, true, id, true), Ok(data));
            && r.policies == ApplyFetch(v, Ok(data)).policies == data.policies
            && id in r.votedPolicies
            && HandleUpvote(r, true, id, true) == r
  {
  }

  /** Reloading the ledger from a server list that lacks the id makes the press
      possible again: a second accepted press adds another vote, so each record
      carrying the id ends two votes up. */
  lemma LedgerReloadReopens(v: ListView, id: string, server: seq<string>)
    requires id !in v.votedPolicies && id !in server
    ensures var once := LoadVotes(HandleUpvote(v, true, id, true), Ok(server));
            var twice := HandleUpvote(once, true, id, true);
            && id !in once.votedPolicies
            && twice.votedPolicies == server + [id]
            && |twice.policies| == |v.policies|
            && forall i :: 0 <= i < |v.policies| && v.policies[i].id == id ==>
                 twice.policies[i].votes == v.policies[i].votes + 2
  {
    var once := LoadVotes(HandleUpvote(v, true, id, true), Ok(server));
    IncrementMatching(v.policies, id);
    IncrementMatching(once.policies, id);
  }

  /** A freshly mounted list shows no pager button; once a fetch reports a
      total, "Next" appears exactly when that total exceeds one page. */
  lemma MountedPager(data: PageResponse)
    ensures !ShowPrevious(Mounted) && !ShowNext(Mounted)
    ensures ShowNext(ApplyFetch(Mounted, Ok(data))) <==> data.totalPolicies > 10
  {
    PagerButtons(Mounted);
    PagerButtons(ApplyFetch(Mounted, Ok(data)));
  }
}
