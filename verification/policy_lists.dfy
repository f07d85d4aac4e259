/** Whole-list operations on cached policy records: the page merge of the
    shared context, the replace-by-id it applies with a server copy, and the
    optimistic vote increment the list views apply. */
module PolicyLists {
  import opened PolicyTypes
  import Seqs

  /** The ids carried by a list of records. */
  function IdSet(s: seq<Policy>): set<string> {
    set p | p in s :: p.id
  }

  /** No two positions of `s` carry the same id. */
  predicate UniqueIds(s: seq<Policy>) {
    forall i, j :: 0 <= i < j < |s| ==> s[i].id != s[j].id
  }

  /** Number of positions of `s` whose record carries `id`. */
  function CountId(s: seq<Policy>, id: string): nat {
    if |s| == 0 then 0
    else (if s[0].id == id then 1 else 0) + CountId(s[1..], id)
  }

  /** Sum of the vote counts of `s`. */
  function TotalVotes(s: seq<Policy>): int {
    if |s| == 0 then 0 else s[0].votes + TotalVotes(s[1..])
  }

  /** The test "this record's id is not among `ids`", as a value. */
  function KeepAbsent(ids: set<string>): Policy -> bool {
    (p: Policy) => p.id !in ids
  }

  /** The records of `s` whose id is not among `ids`, in their original order. */
  function Without(s: seq<Policy>, ids: set<string>): (r: seq<Policy>)
    ensures forall p :: p in r <==> p in s && p.id !in ids
  {
    Seqs.Filter(s, KeepAbsent(ids))
  }

  /** The page merge of the shared feed: old records whose id the page does not
      carry, in their old order, followed by the whole page in server order. */
  function Merge(prev: seq<Policy>, page: seq<Policy>): (r: seq<Policy>)
    ensures |r| == |Without(prev, IdSet(page))| + |page| <= |prev| + |page|
    ensures r[|r| - |page|..] == page
    ensures forall p :: p in r <==> (p in prev && p.id !in IdSet(page)) || p in page
  {
    Without(prev, IdSet(page)) + page
  }

  /** Every record carrying the id of `u` becomes `u`; every other record stays. */
  function ReplaceById(s: seq<Policy>, u: Policy): (r: seq<Policy>)
    ensures |r| == |s|
    ensures forall i :: 0 <= i < |s| ==> r[i].id == s[i].id
    ensures forall i :: 0 <= i < |s| && s[i].id != u.id ==> r[i] == s[i]
  {
    seq(|s|, i requires 0 <= i < |s| => if s[i].id == u.id then u else s[i])
  }

  /** Every record carrying `id` gets one more vote; nothing else changes. */
  function IncrementVotes(s: seq<Policy>, id: string): (r: seq<Policy>)
    ensures |r| == |s|
    ensures forall i :: 0 <= i < |s| ==> r[i] == s[i].(votes := r[i].votes)
    ensures forall i :: 0 <= i < |s| && s[i].id != id ==> r[i] == s[i]
  {
    seq(|s|, i requires 0 <= i < |s| => if s[i].id == id then s[i].(votes := s[i].votes + 1) else s[i])
  }

  // ---------------------------------------------------------------------------
  // Merge

  lemma UniqueTail(s: seq<Policy>)
    requires |s| > 0 && UniqueIds(s)
    ensures UniqueIds(s[1..])
    ensures forall p :: p in s[1..] ==> p.id != s[0].id
  {
  }

  /** Dropping records never introduces a repeated id. */
  lemma {:induction false} WithoutUnique(s: seq<Policy>, ids: set<string>)
    requires UniqueIds(s)
    ensures UniqueIds(Without(s, ids))
  {
    if |s| > 0 {
      UniqueTail(s);
      WithoutUnique(s[1..], ids);
      var rest := Without(s[1..], ids);
      assert Without(s, ids) == (if s[0].id !in ids then [s[0]] else []) + rest;
    }
  }

  /** The merged list: the kept old records in their old relative order, then
      the page; its length is the number kept plus the page length. */
  lemma MergeShape(prev: seq<Policy>, page: seq<Policy>)
    ensures Seqs.IsSubsequence(Merge(prev, page)[..|Merge(prev, page)| - |page|], prev)
    ensures forall p :: p in Merge(prev, page)[..|Merge(prev, page)| - |page|]
                       <==> p in prev && p.id !in IdSet(page)
    ensures Merge(prev, page)[|Merge(prev, page)| - |page|..] == page
  {
    var kept := Without(prev, IdSet(page));
    assert Merge(prev, page)[..|Merge(prev, page)| - |page|] == kept;
    Seqs.FilterIsSubsequence(prev, KeepAbsent(IdSet(page)));
  }

  /** The ordinary case: when no cached record shares an id with the page, the
      page is simply appended and the feed grows by exactly its length. */
  lemma MergeFreshPage(prev: seq<Policy>, page: seq<Policy>)
    requires forall p :: p in prev ==> p.id !in IdSet(page)
    ensures Merge(prev, page) == prev + page
    ensures |Merge(prev, page)| == |prev| + |page|
  {
    Seqs.FilterKeepsAll(prev, KeepAbsent(IdSet(page)));
  }

  /** Dropping the same ids twice is dropping them once. */
  lemma WithoutIdempotent(s: seq<Policy>, ids: set<string>)
    ensures Without(Without(s, ids), ids) == Without(s, ids)
  {
    Seqs.FilterIdempotent(s, KeepAbsent(ids));
  }

  /** Dropping ids distributes over concatenation. */
  lemma WithoutAppend(a: seq<Policy>, b: seq<Policy>, ids: set<string>)
    ensures Without(a + b, ids) == Without(a, ids) + Without(b, ids)
  {
    Seqs.FilterAppend(a, b, KeepAbsent(ids));
  }

  /** Dropping a page's own ids from it leaves nothing. */
  lemma WithoutOwnIds(page: seq<Policy>)
    ensures Without(page, IdSet(page)) == []
  {
    var ids := IdSet(page);
    forall p | p in page
      ensures !KeepAbsent(ids)(p)
    {
      assert p.id in ids;
    }
    Seqs.FilterDropsAll(page, KeepAbsent(ids));
  }

  /** Merging the same page twice gives the list that merging it once gives. */
  lemma MergeIdempotent(prev: seq<Policy>, page: seq<Policy>)
    ensures Merge(Merge(prev, page), page) == Merge(prev, page)
  {
    var ids := IdSet(page);
    var kept := Without(prev, ids);
    WithoutAppend(kept, page, ids);
    WithoutIdempotent(prev, ids);
    WithoutOwnIds(page);
    assert Merge(Merge(prev, page), page) == Without(kept + page, ids) + page;
  }

  /** When the old list and the page each have distinct ids, so does the merged
      list, and each page id appears in it exactly once, with the page's copy. */
  lemma MergeUnique(prev: seq<Policy>, page: seq<Policy>)
    requires UniqueIds(prev) && UniqueIds(page)
    ensures UniqueIds(Merge(prev, page))
    ensures forall j, k ::
              (0 <= j < |Merge(prev, page)| && 0 <= k < |page| && Merge(prev, page)[j].id == page[k].id)
              ==> Merge(prev, page)[j] == page[k]
  {
    var ids := IdSet(page);
    var kept := Without(prev, ids);
    var r := Merge(prev, page);
    WithoutUnique(prev, ids);
    forall i | 0 <= i < |kept|
      ensures r[i].id !in ids
    {
      assert r[i] == kept[i] && kept[i] in kept;
    }
    forall k | 0 <= k < |page|
      ensures r[|kept| + k] == page[k] && page[k].id in ids
    {
      assert page[k] in page;
    }
  }

  // ---------------------------------------------------------------------------
  // Replace-by-id

  /** Every record carrying the server copy's id now is that copy: its vote
      count is the server's absolute value, whatever the list held before. */
  lemma ReplaceSetsServerCopy(s: seq<Policy>, u: Policy)
    ensures forall i :: 0 <= i < |s| && s[i].id == u.id ==> ReplaceById(s, u)[i] == u
    ensures IdSet(ReplaceById(s, u)) == IdSet(s)
    ensures UniqueIds(s) ==> UniqueIds(ReplaceById(s, u))
  {
  }

  /** Applying the same server copy twice is applying it once: a repeated
      authoritative reply never double counts. */
  lemma ReplaceIdempotent(s: seq<Policy>, u: Policy)
    ensures ReplaceById(ReplaceById(s, u), u) == ReplaceById(s, u)
  {
  }

  // ---------------------------------------------------------------------------
  // Optimistic increment

  /** The total vote count grows by exactly the number of records carrying `id`. */
  lemma {:induction false} IncrementTotal(s: seq<Policy>, id: string)
    ensures TotalVotes(IncrementVotes(s, id)) == TotalVotes(s) + CountId(s, id)
  {
    if |s| > 0 {
      var r := IncrementVotes(s, id);
      assert r[1..] == IncrementVotes(s[1..], id);
      IncrementTotal(s[1..], id);
    }
  }

  /** A record carrying `id` has exactly one more vote, and all its other fields
      are kept; the ids of the list are unchanged. */
  lemma IncrementMatching(s: seq<Policy>, id: string)
    ensures forall i :: 0 <= i < |s| && s[i].id == id ==>
              IncrementVotes(s, id)[i] == s[i].(votes := s[i].votes + 1)
    ensures forall i :: 0 <= i < |s| ==> IncrementVotes(s, id)[i].id == s[i].id
  {
  }
}
