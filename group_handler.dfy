/** GetGroups (group_handler.go): resolve page and limit, fetch one page of
    live groups and the live count, and report the page count. */
module GroupHandler {
  import opened Wrappers
  import opened Seqs
  import opened Models
  import opened Queries
  import opened Pagination

  /** The JSON body of GetGroups: data, page, limit, pages, total. */
  datatype GroupsPage = GroupsPage(data: seq<GroupListRow>, page: int, limit: int, pages: nat, total: nat)

  /** GetGroups over the current groups table; pageQ and limitQ are the
      query strings as strconv.Atoi leaves them. */
  function GetGroups(groups: seq<GroupRow>, pageQ: Option<int>, limitQ: Option<int>): (r: GroupsPage)
    ensures r.page == ResolvePage(pageQ) && r.limit == ResolveLimit(limitQ)
    ensures r.page >= 1 && r.limit >= 1
    ensures r.total == GroupsCount(groups)
    ensures r.pages == PageCount(r.total, r.limit)
    ensures IsCeiling(r.pages, r.total, r.limit)
    ensures r.data == GroupsWithPagination(groups, r.limit, Offset(r.page, r.limit))
    ensures |r.data| <= r.limit
  {
    var page := ResolvePage(pageQ);
    var limit := ResolveLimit(limitQ);
    var offset := Offset(page, limit);
    var data := GroupsWithPagination(groups, limit, offset);
    var total := GroupsCount(groups);
    PageCountIsCeiling(total, limit);
    GroupsPage(data, page, limit, PageCount(total, limit), total)
  }

  /** The response echoes the resolved page and limit: asking again with the
      echoed values returns the same response. */
  lemma GetGroupsEcho(groups: seq<GroupRow>, pageQ: Option<int>, limitQ: Option<int>)
    ensures var r := GetGroups(groups, pageQ, limitQ);
      GetGroups(groups, Some(r.page), Some(r.limit)) == r
  {
    ResolveEcho(pageQ, DefaultPage);
    ResolveEcho(limitQ, DefaultLimit);
  }

  /** A page is empty exactly when its number is past the page count. */
  lemma GetGroupsEmptyIff(groups: seq<GroupRow>, pageQ: Option<int>, limitQ: Option<int>)
    ensures var r := GetGroups(groups, pageQ, limitQ);
      r.data == [] <==> r.page > r.pages
  {
    var r := GetGroups(groups, pageQ, limitQ);
    OffsetInRange(r.page, r.limit, r.total);
  }

  /** The data of pages 1 .. n with a given limit, concatenated. */
  function GroupPages(groups: seq<GroupRow>, limit: int, n: nat): seq<GroupListRow>
    requires limit >= 1
  {
    if n == 0 then [] else GroupPages(groups, limit, n - 1) + GetGroups(groups, Some(n), Some(limit)).data
  }

  lemma {:induction false} GroupPagesArePaged(groups: seq<GroupRow>, limit: int, n: nat)
    requires limit >= 1
    ensures GroupPages(groups, limit, n) == Map(Paged(LiveGroupsByNewest(groups), limit, n), ListGroup)
  {
    if n > 0 {
      var sorted := LiveGroupsByNewest(groups);
      GroupPagesArePaged(groups, limit, n - 1);
      assert Offset(n, limit) == (n - 1) * limit;
      assert GetGroups(groups, Some(n), Some(limit)).data == Map(Window(sorted, limit, (n - 1) * limit), ListGroup);
      MapAppend(Paged(sorted, limit, n - 1), Window(sorted, limit, (n - 1) * limit), ListGroup);
    }
  }

  /** Reading pages 1 .. pages lists every live group exactly once, newest
      first, and no deleted group. */
  lemma GroupPagesCover(groups: seq<GroupRow>, limitQ: Option<int>)
    ensures var r := GetGroups(groups, None, limitQ);
      GroupPages(groups, r.limit, r.pages) == Map(LiveGroupsByNewest(groups), ListGroup)
  {
    var r := GetGroups(groups, None, limitQ);
    GroupPagesArePaged(groups, r.limit, r.pages);
    PagesCover(LiveGroupsByNewest(groups), r.limit);
  }
}
