/**
 * `_get_paginated_data`: request pages 1, 2, ... of 20 items, append each
 * page's items, and stop after a page that is short, carries a non-zero
 * `code`, or fails.
 */
module Pagination {

  /** The `ps` of line 149 and the short-page threshold of line 162. */
  const PageSize: nat := 20

  /**
   * The answer to one page request. `Failed` is any exception in the `try`
   * block (transport, HTTP status, JSON, a missing `code` or `data` key);
   * `items` is `data["data"].get(data_key, [])`.
   */
  datatype PageReply<T> = Failed | Reply(code: int, items: seq<T>)

  /** The answer to the request for page `i + 1`; past the end of `replies` the request fails. */
  function ReplyAt<T>(replies: seq<PageReply<T>>, i: nat): PageReply<T> {
    if i < |replies| then replies[i] else Failed
  }

  /** After this answer the loop asks for the next page. */
  predicate Continues<T>(r: PageReply<T>) {
    r.Reply? && r.code == 0 && |r.items| >= PageSize
  }

  /** What an answer adds to `results`: its items when its code is 0, nothing otherwise. */
  function Accepted<T>(r: PageReply<T>): seq<T> {
    if r.Reply? && r.code == 0 then r.items else []
  }

  /** Items of a run of answers, concatenated in page order. */
  function Concat<T>(rs: seq<PageReply<T>>): seq<T> {
    if rs == [] then [] else Concat(rs[..|rs| - 1]) + Accepted(rs[|rs| - 1])
  }

  /**
   * `requested` pages are asked for: every page before the last was a full
   * code-0 page, the last ends the loop, and `results` is the items of all
   * of them in page order (the last one's only if its code is 0).
   */
  method GetPaginatedData<T>(replies: seq<PageReply<T>>) returns (results: seq<T>, ghost requested: nat)
    ensures 1 <= requested <= |replies| + 1
    ensures forall i :: 0 <= i < requested - 1 ==> Continues(replies[i])
    ensures !Continues(ReplyAt(replies, requested - 1))
    ensures results == Concat(replies[..requested - 1]) + Accepted(ReplyAt(replies, requested - 1))
    ensures |results| >= PageSize * (requested - 1)
  {
    results := [];
    var page: nat := 1;
    while true
      invariant 1 <= page <= |replies| + 1
      invariant forall i :: 0 <= i < page - 1 ==> Continues(replies[i])
      invariant results == Concat(replies[..page - 1])
      invariant |results| >= PageSize * (page - 1)
      decreases |replies| + 1 - page
    {
      var reply := ReplyAt(replies, page - 1);
      if reply.Failed? {
        break;
      }
      if reply.code != 0 {
        break;
      }
      results := results + reply.items;
      if |reply.items| < PageSize {
        break;
      }
      assert replies[..page] == replies[..page - 1] + [reply];
      page := page + 1;
    }
    requested := page;
  }
}
