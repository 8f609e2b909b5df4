/**
 * Offset pagination as both stores do it: a load-more is refused while one is
 * pending or when the last page said there is nothing more; otherwise it
 * captures the list as it is, asks for the page at offset = its length, and
 * on success writes back that captured list followed by the page.
 */
module Paging {

  /** The `limit` and `offset` query parameters of a page request. */
  datatype PageQuery = PageQuery(limit: nat, offset: nat)

  /** What a started load-more captured: the list as it was, and the query it sent. */
  datatype MoreRequest<T> = MoreRequest(snapshot: seq<T>, query: PageQuery)

  /** A page of results and the server's `hasMore` flag. */
  datatype Page<T> = Page(items: seq<T>, hasMore: bool)

  /** The guard at the top of a load-more. */
  predicate MayLoadMore(isLoadingMore: bool, hasMore: bool) {
    !isLoadingMore && hasMore
  }

  /** The request a permitted load-more sends for `list`. */
  function StartMore<T>(list: seq<T>, limit: nat): (r: MoreRequest<T>)
    ensures r.snapshot == list
    ensures r.query.offset == |list| && r.query.limit == limit
  {
    MoreRequest(list, PageQuery(limit, |list|))
  }

  /** The list a successful load-more writes: the captured list followed by the page. */
  function Extend<T>(req: MoreRequest<T>, page: Page<T>): (r: seq<T>)
    ensures |r| == |req.snapshot| + |page.items|
    ensures r[..|req.snapshot|] == req.snapshot && r[|req.snapshot|..] == page.items
  {
    req.snapshot + page.items
  }
}
