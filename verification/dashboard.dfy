/** The dashboard of the current user's policies: a client-side pager of five
    records per page over the context's list, and the delete confirmation. */
module Dashboard {
  import opened PolicyTypes
  import PolicyContext
  import Paging

  const ItemsPerPage := 5

  /** The dashboard's state: the shared context, the page shown, the id picked
      for deletion ("" for none) and whether the confirmation dialog is open. */
  datatype DashboardView = DashboardView(
    context: PolicyContext.ContextState,
    currentPage: int,
    currPolicy: string,
    modalOpen: bool)

  /** Number of pages the list fills. */
  function TotalPages(len: nat): (r: nat)
    ensures (r - 1) * 5 < len <= r * 5
  {
    Paging.CeilDiv(len, ItemsPerPage)
  }

  /** Clamps a slice bound the way `Array.prototype.slice` does: a negative
      bound counts from the end, and every bound ends up within the list. */
  function SliceBound(b: int, len: nat): (r: nat)
    ensures r <= len
    ensures 0 <= b <= len ==> r == b
    ensures b > len ==> r == len
    ensures b < 0 ==> r == (if len + b < 0 then 0 else len + b)
  {
    if b < 0 then (if len + b < 0 then 0 else len + b) else if b > len then len else b
  }

  /** `s.slice(start, end)`. */
  function Slice<T>(s: seq<T>, start: int, end: int): (r: seq<T>)
    ensures |r| <= |s|
  {
    var from := SliceBound(start, |s|);
    var to := SliceBound(end, |s|);
    if from >= to then [] else s[from..to]
  }

  /** The records shown on page `page`. */
  function PageSlice<T>(s: seq<T>, page: int): seq<T> {
    Slice(s, (page - 1) * ItemsPerPage, page * ItemsPerPage)
  }

  /** The "Previous" button: one page back unless already on page 1. */
  function HandlePrevPage(v: DashboardView): (r: DashboardView)
    ensures v.currentPage > 1 ==> r.currentPage == v.currentPage - 1
    ensures v.currentPage <= 1 ==> r == v
    ensures r == v.(currentPage := r.currentPage)
  {
    if v.currentPage > 1 then v.(currentPage := v.currentPage - 1) else v
  }

  /** The "Next" button: one page on unless already on or past the last page. */
  function HandleNextPage(v: DashboardView): (r: DashboardView)
    ensures v.currentPage < TotalPages(|v.context.policies|) ==> r.currentPage == v.currentPage + 1
    ensures v.currentPage >= TotalPages(|v.context.policies|) ==> r == v
    ensures r == v.(currentPage := r.currentPage)
  {
    if v.currentPage < TotalPages(|v.context.policies|) then v.(currentPage := v.currentPage + 1) else v
  }

  /** The trash link: picks the record and opens the confirmation dialog. */
  function OnHandleDelete(v: DashboardView, id: string): (r: DashboardView)
    ensures r.currPolicy == id && r.modalOpen
    ensures r.context == v.context && r.currentPage == v.currentPage
  {
    v.(currPolicy := id, modalOpen := true)
  }

  /** How the confirmed delete ended. */
  datatype DeleteOutcome = NothingPicked | DeleteFailed | Deleted(message: string)

  /** The dialog's confirm button. With no record picked nothing happens.
      Otherwise the delete request for the picked id is sent; if it throws,
      nothing else happens; if it returns, the dialog closes, its message is
      reported and the user's policies are reloaded into the context. */
  function HandleDelete(v: DashboardView, deleteReply: Reply<string>, reload: Reply<UserPoliciesResponse>)
    : (r: (DashboardView, DeleteOutcome))
    ensures v.currPolicy == "" ==> r == (v, NothingPicked)
    ensures v.currPolicy != "" && deleteReply.Threw? ==> r == (v, DeleteFailed)
    ensures v.currPolicy != "" && deleteReply.Ok? ==>
              && r.1 == Deleted(deleteReply.value)
              && !r.0.modalOpen
              && r.0.currentPage == v.currentPage && r.0.currPolicy == v.currPolicy
              && r.0.context == PolicyContext.FetchUserPolicies(v.context, reload).0
  {
    if v.currPolicy == "" then (v, NothingPicked)
    else
      match deleteReply
      case Threw => (v, DeleteFailed)
      case Ok(message) =>
        (v.(modalOpen := false, context := PolicyContext.FetchUserPolicies(v.context, reload).0), Deleted(message))
  }

  // ---------------------------------------------------------------------------
  // Properties

  /** Page `page` (from 1) holds at most five records: those from position
      (page-1)*5 up to page*5 or the end of the list. */
  lemma PageSliceBounds<T>(s: seq<T>, page: int)
    requires page >= 1
    ensures var from := if (page - 1) * 5 <= |s| then (page - 1) * 5 else |s|;
            var to := if page * 5 <= |s| then page * 5 else |s|;
            PageSlice(s, page) == s[from..to]
    ensures |PageSlice(s, page)| <= 5
  {
  }

  /** The pages 1 .. k laid end to end. */
  function PagesUpTo<T>(s: seq<T>, k: nat): seq<T>
    decreases k
  {
    if k == 0 then [] else PagesUpTo(s, k - 1) + PageSlice(s, k)
  }

  /** The first `k` pages together are the list's first `5k` records (or the
      whole list once it runs out). */
  lemma {:induction false} PagesPrefix<T>(s: seq<T>, k: nat)
    ensures PagesUpTo(s, k) == s[..if k * 5 <= |s| then k * 5 else |s|]
    decreases k
  {
    if k > 0 {
      PagesPrefix(s, k - 1);
      PageSliceBounds(s, k);
    }
  }

  /** Laying the pages 1 .. TotalPages end to end gives back the whole list,
      in order: every record is on exactly one page. */
  lemma PagesCoverList<T>(s: seq<T>)
    ensures PagesUpTo(s, TotalPages(|s|)) == s
  {
    PagesPrefix(s, TotalPages(|s|));
  }

  /** A sequence of pager clicks; `true` is "Next", `false` is "Previous". */
  function Navigate(v: DashboardView, clicks: seq<bool>): DashboardView
    decreases |clicks|
  {
    if |clicks| == 0 then v
    else Navigate(if clicks[0] then HandleNextPage(v) else HandlePrevPage(v), clicks[1..])
  }

  /** With the list fixed, a page in range stays in range,
      1 .. max(1, TotalPages), whatever the clicks. */
  lemma {:induction false} NavigateStaysInRange(v: DashboardView, clicks: seq<bool>)
    requires 1 <= v.currentPage
    requires v.currentPage <= 1 || v.currentPage <= TotalPages(|v.context.policies|)
    ensures var r := Navigate(v, clicks);
            && 1 <= r.currentPage
            && (r.currentPage <= 1 || r.currentPage <= TotalPages(|v.context.policies|))
            && r.context == v.context
    decreases |clicks|
  {
    if |clicks| > 0 {
      var next := if clicks[0] then HandleNextPage(v) else HandlePrevPage(v);
      NavigateStaysInRange(next, clicks[1..]);
    }
  }

  /** The dashboard mounts on page 1, so it never leaves 1 .. max(1, TotalPages)
      while its list is unchanged. */
  lemma PageFromMountInRange(ctx: PolicyContext.ContextState, clicks: seq<bool>)
    ensures var r := Navigate(DashboardView(ctx, 1, "", false), clicks);
            1 <= r.currentPage <= (if TotalPages(|ctx.policies|) > 1 then TotalPages(|ctx.policies|) else 1)
  {
    NavigateStaysInRange(DashboardView(ctx, 1, "", false), clicks);
  }

  /** Picking a record and confirming: a picked non-empty id reaches the
      delete call; a record whose id is empty cannot be deleted. */
  lemma PickThenConfirm(v: DashboardView, id: string, deleteReply: Reply<string>, reload: Reply<UserPoliciesResponse>)
    ensures var r := HandleDelete(OnHandleDelete(v, id), deleteReply, reload);
            && (id == "" <==> r.1 == NothingPicked)
            && (id != "" && deleteReply.Ok? ==> !r.0.modalOpen)
            && (id != "" && deleteReply.Threw? ==> r.0.modalOpen)
  {
  }

  /** A successful delete keeps the page even when the reloaded list has fewer
      pages: the page is then out of range, shows nothing, and "Next" is a no-op. */
  lemma DeleteCanStrandPage(v: DashboardView, message: string, data: seq<Policy>)
    requires v.currPolicy != ""
    requires TotalPages(|data|) < v.currentPage
    ensures var r := HandleDelete(v, Ok(message), Ok(UserPoliciesResponse(true, data))).0;
            && r.currentPage == v.currentPage
            && r.currentPage > TotalPages(|r.context.policies|)
            && PageSlice(r.context.policies, r.currentPage) == []
            && HandleNextPage(r) == r
  {
    var t := TotalPages(|data|);
    assert |data| <= t * 5 <= (v.currentPage - 1) * 5;
  }

  /** For instance: on page 3 of eleven records, deleting one leaves ten
      records, two pages, and page 3 empty. */
  lemma DeleteFromLastPage(ctx: PolicyContext.ContextState, p: Policy, message: string)
    requires |ctx.policies| == 11
    ensures TotalPages(11) == 3 && TotalPages(10) == 2
    ensures var v := DashboardView(ctx, 3, p.id + "x", true);
            var r := HandleDelete(v, Ok(message), Ok(UserPoliciesResponse(true, ctx.policies[..10]))).0;
            && 1 <= v.currentPage <= TotalPages(|v.context.policies|)
            && r.currentPage > TotalPages(|r.context.policies|)
            && PageSlice(r.context.policies, r.currentPage) == []
  {
    DeleteCanStrandPage(DashboardView(ctx, 3, p.id + "x", true), message, ctx.policies[..10]);
  }
}
