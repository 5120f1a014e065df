/**
 * The three tables behind the repositories and the /topic/updates channel, as one object
 * whose fields the service operations update in place.
 */
module Repositories {
  import opened Wrappers
  import opened Entities
  import opened Errors

  class Database {
    var users: map<int, User>
    var tasks: map<int, Task>
    var comments: map<int, Comment>
    /** Every message published to /topic/updates, oldest first. */
    var notifications: seq<string>
    /** The next key each IDENTITY column hands out. */
    var nextUserId: int
    var nextTaskId: int
    var nextCommentId: int

    /** Keys are generated from 1 upwards and every record carries its own key. */
    ghost predicate Valid()
      reads this
    {
      && 1 <= nextUserId && 1 <= nextTaskId && 1 <= nextCommentId
      && (forall id :: id in users ==> 1 <= id < nextUserId && users[id].id == id)
      && (forall id :: id in tasks ==> 1 <= id < nextTaskId && tasks[id].id == id)
      && (forall id :: id in comments ==> 1 <= id < nextCommentId && comments[id].id == id)
    }

    constructor ()
      ensures Valid()
      ensures users == map[] && tasks == map[] && comments == map[] && notifications == []
      ensures nextUserId == 1 && nextTaskId == 1 && nextCommentId == 1
    {
      users, tasks, comments := map[], map[], map[];
      notifications := [];
      nextUserId, nextTaskId, nextCommentId := 1, 1, 1;
    }
  }

  /** The keys of `keys` in [1, hi), ascending: the order in which findAll returns rows. */
  function OrderedIds(keys: set<int>, hi: int): (ids: seq<int>)
    ensures forall i :: i in ids <==> i in keys && 1 <= i < hi
    ensures forall a, b :: 0 <= a < b < |ids| ==> ids[a] < ids[b]
    decreases hi
  {
    if hi <= 1 then []
    else
      var below := OrderedIds(keys, hi - 1);
      if hi - 1 in keys then
        assert forall k :: 0 <= k < |below| ==> below[k] < hi - 1 by {
          forall k | 0 <= k < |below| ensures below[k] < hi - 1 {
            assert below[k] in below;
          }
        }
        below + [hi - 1]
      else below
  }

  /** The keys of `keys` in [1, hi). */
  function KeysBelow(keys: set<int>, hi: int): set<int>
  {
    set i | i in keys && 1 <= i < hi
  }

  /** The ordered list has no repetitions: its length is the number of keys it covers. */
  lemma {:induction false} OrderedIdsCount(keys: set<int>, hi: int)
    ensures |OrderedIds(keys, hi)| == |KeysBelow(keys, hi)|
    decreases hi
  {
    if hi <= 1 {
      assert KeysBelow(keys, hi) == {};
    } else {
      OrderedIdsCount(keys, hi - 1);
      if hi - 1 in keys {
        assert KeysBelow(keys, hi) == KeysBelow(keys, hi - 1) + {hi - 1};
      } else {
        assert KeysBelow(keys, hi) == KeysBelow(keys, hi - 1);
      }
    }
  }

  /** When every key lies in [1, hi), the ordered list holds each key exactly once. */
  lemma OrderedIdsCoverKeys<V>(m: map<int, V>, hi: int)
    requires forall id :: id in m ==> 1 <= id < hi
    ensures |OrderedIds(m.Keys, hi)| == |m|
  {
    OrderedIdsCount(m.Keys, hi);
    assert KeysBelow(m.Keys, hi) == m.Keys;
  }

  /** A validated page request: a page index and a page size of at least one. */
  datatype PageRequest = PageRequest(page: nat, size: nat)

  /**
   * PageRequest.of(page, size): a negative page index or a size below one is an
   * IllegalArgumentException.
   */
  function PageRequestOf(page: int, size: int): (r: Result<PageRequest>)
    ensures r.Ok? <==> page >= 0 && size >= 1
    ensures r.Ok? ==> r.value.page == page && r.value.size == size
    ensures page < 0 ==> r == Err(Internal("Page index must not be less than zero"))
    ensures page >= 0 && size < 1 ==> r == Err(Internal("Page size must not be less than one"))
  {
    if page < 0 then Err(Internal("Page index must not be less than zero"))
    else if size < 1 then Err(Internal("Page size must not be less than one"))
    else Ok(PageRequest(page, size))
  }

  /** One page of a listing, as Spring's Page reports it. */
  datatype Page<+T> = Page(content: seq<T>, number: int, size: int, totalElements: int)

  /**
   * The page `req` of the full listing `items`: the items at positions page * size up to
   * (page + 1) * size, cut at the end of the listing, with the listing's total.
   */
  function PageOf<T>(items: seq<T>, req: PageRequest): (p: Page<T>)
    requires req.size >= 1
    ensures p.number == req.page && p.size == req.size && p.totalElements == |items|
    ensures |p.content| <= req.size
    ensures forall k :: 0 <= k < |p.content| ==>
              req.page * req.size + k < |items| && p.content[k] == items[req.page * req.size + k]
    ensures req.page * req.size + req.size <= |items| ==> |p.content| == req.size
    ensures req.page * req.size < |items| <= req.page * req.size + req.size ==>
              |p.content| == |items| - req.page * req.size
    ensures |items| <= req.page * req.size ==> p.content == []
  {
    var start := if req.page * req.size <= |items| then req.page * req.size else |items|;
    var end := if start + req.size <= |items| then start + req.size else |items|;
    Page(items[start..end], req.page, req.size, |items|)
  }

  /** A page holds only items of the listing it was cut from. */
  lemma PageHoldsListedItems<T>(items: seq<T>, req: PageRequest)
    requires req.size >= 1
    ensures forall x :: x in PageOf(items, req).content ==> x in items
  {
    var p := PageOf(items, req);
    forall x | x in p.content ensures x in items {
      var k :| 0 <= k < |p.content| && p.content[k] == x;
      assert p.content[k] == items[req.page * req.size + k];
    }
  }

  /** Stored comments are never rewritten in place: a comment in both maps is the same record. */
  predicate CommentsKept(before: map<int, Comment>, after: map<int, Comment>)
  {
    forall c :: c in before && c in after ==> after[c] == before[c]
  }
}
