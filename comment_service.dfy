/**
 * Comment creation, listing per task, lookup and deletion over the comment table. A stored
 * comment is never rewritten: its content and creation time stay as first written.
 */
module CommentService {
  import opened Wrappers
  import opened Entities
  import opened Errors
  import opened Repositories
  import opened TaskDtos
  import AppConstants

  /** mapToDto: the comment as returned to clients, with the ids of its task and author. */
  function MapToDto(c: Comment): (d: CommentDto)
    ensures d.id == c.id && d.comment == c.content && d.createdAt == c.createdAt
    ensures d.taskId == c.taskId && d.authorId == c.authorId
  {
    CommentDto(c.id, c.content, c.createdAt, c.taskId, c.authorId)
  }

  /**
   * createComment: the task is looked up first, then the author; a new comment with the
   * request's content, that task and that author, created at `now`, is stored under the
   * next key.
   */
  method CreateComment(db: Database, dto: CommentRequestDto, now: DateTime) returns (r: Result<CommentDto>)
    requires db.Valid() && CommentRequestComplete(dto)
    modifies db
    ensures db.Valid()
    ensures dto.taskId.value !in old(db.tasks) ==> r == Err(ResourceNotFound(AppConstants.TASK_NOT_FOUND_PLAIN))
    ensures dto.taskId.value in old(db.tasks) && dto.authorId.value !in old(db.users) ==>
              r == Err(ResourceNotFound(AppConstants.AUTHOR_NOT_FOUND))
    ensures r.Ok? <==> dto.taskId.value in old(db.tasks) && dto.authorId.value in old(db.users)
    ensures r.Err? ==> unchanged(db)
    ensures r.Ok? ==>
              var id := old(db.nextCommentId);
              var c := Comment(id, dto.content.value, now, dto.taskId.value, dto.authorId.value, 0);
              && id !in old(db.comments)
              && db.comments == old(db.comments)[id := c]
              && db.nextCommentId == id + 1
              && r.value == MapToDto(c)
    ensures CommentsKept(old(db.comments), db.comments)
    ensures db.users == old(db.users) && db.tasks == old(db.tasks) && db.notifications == old(db.notifications)
    ensures db.nextUserId == old(db.nextUserId) && db.nextTaskId == old(db.nextTaskId)
  {
    var taskId, authorId := dto.taskId.value, dto.authorId.value;
    if taskId !in db.tasks {
      return Err(ResourceNotFound(AppConstants.TASK_NOT_FOUND_PLAIN));
    }
    if authorId !in db.users {
      return Err(ResourceNotFound(AppConstants.AUTHOR_NOT_FOUND));
    }
    var comment := Comment(db.nextCommentId, dto.content.value, now, taskId, authorId, 0);
    db.comments := db.comments[comment.id := comment];
    db.nextCommentId := db.nextCommentId + 1;
    r := Ok(MapToDto(comment));
  }

  /** The keys among `ids` of the comments on task `taskId`, in the order of `ids`. */
  function IdsOnTask(comments: map<int, Comment>, ids: seq<int>, taskId: int): (r: seq<int>)
    ensures forall i :: i in r <==> i in ids && i in comments && comments[i].taskId == taskId
    ensures |r| <= |ids|
    ensures (forall a, b :: 0 <= a < b < |ids| ==> ids[a] < ids[b]) ==>
              forall a, b :: 0 <= a < b < |r| ==> r[a] < r[b]
  {
    if ids == [] then []
    else
      var rest := IdsOnTask(comments, ids[1..], taskId);
      assert (forall a, b :: 0 <= a < b < |ids| ==> ids[a] < ids[b]) ==>
               forall k :: 0 <= k < |rest| ==> ids[0] < rest[k] by {
        if forall a, b :: 0 <= a < b < |ids| ==> ids[a] < ids[b] {
          forall k | 0 <= k < |rest| ensures ids[0] < rest[k] {
            assert rest[k] in ids[1..];
            var j :| 0 <= j < |ids[1..]| && ids[1..][j] == rest[k];
            assert ids[j + 1] == rest[k];
          }
        }
      }
      if ids[0] in comments && comments[ids[0]].taskId == taskId then [ids[0]] + rest else rest
  }

  /** The keys of the stored comments on task `taskId`. */
  function TaskCommentIds(comments: map<int, Comment>, taskId: int): set<int>
  {
    set id | id in comments && comments[id].taskId == taskId
  }

  /** The responses for the comments under `ids`, in that order. */
  function CommentDtosOf(comments: map<int, Comment>, ids: seq<int>): (ds: seq<CommentDto>)
    requires forall k :: 0 <= k < |ids| ==> ids[k] in comments
    ensures |ds| == |ids|
    ensures forall k :: 0 <= k < |ids| ==> ds[k] == MapToDto(comments[ids[k]])
  {
    if ids == [] then [] else [MapToDto(comments[ids[0]])] + CommentDtosOf(comments, ids[1..])
  }

  /**
   * findByTaskId without paging, in key order: exactly the stored comments of the task,
   * in strictly ascending id order, so none is listed twice.
   */
  function CommentsOnTask(db: Database, taskId: int): (ds: seq<CommentDto>)
    reads db
    requires db.Valid()
    ensures forall d :: d in ds ==> d.taskId == taskId && d.id in db.comments && d == MapToDto(db.comments[d.id])
    ensures forall id :: id in db.comments && db.comments[id].taskId == taskId ==> MapToDto(db.comments[id]) in ds
    ensures forall a, b :: 0 <= a < b < |ds| ==> ds[a].id < ds[b].id
  {
    var ids := IdsOnTask(db.comments, OrderedIds(db.comments.Keys, db.nextCommentId), taskId);
    var ds := CommentDtosOf(db.comments, ids);
    assert forall k :: 0 <= k < |ids| ==> ds[k].id == ids[k] by {
      forall k | 0 <= k < |ids| ensures ds[k].id == ids[k] {
        assert ids[k] in ids;
      }
    }
    assert forall d :: d in ds ==> d.taskId == taskId && d.id in db.comments && d == MapToDto(db.comments[d.id]) by {
      forall d | d in ds ensures d.taskId == taskId && d.id in db.comments && d == MapToDto(db.comments[d.id]) {
        var k :| 0 <= k < |ds| && ds[k] == d;
        assert ids[k] in ids;
      }
    }
    assert forall id :: id in db.comments && db.comments[id].taskId == taskId ==> MapToDto(db.comments[id]) in ds by {
      forall id | id in db.comments && db.comments[id].taskId == taskId
        ensures MapToDto(db.comments[id]) in ds
      {
        assert id in ids;
        var k :| 0 <= k < |ids| && ids[k] == id;
        assert ds[k] == MapToDto(db.comments[id]);
      }
    }
    ds
  }

  /**
   * getCommentsByTaskId: page `page` of size `size` of the comments on `taskId`; the page
   * request is rejected for a negative index or a size below one.
   */
  function GetCommentsByTaskId(db: Database, taskId: int, page: int, size: int): (r: Result<Page<CommentDto>>)
    reads db
    requires db.Valid()
    ensures r.Ok? <==> page >= 0 && size >= 1
    ensures r.Err? ==> r.failure == PageRequestOf(page, size).failure
    ensures r.Ok? ==> && r.value == PageOf(CommentsOnTask(db, taskId), PageRequest(page, size))
                      && |r.value.content| <= size
                      && r.value.totalElements == |CommentsOnTask(db, taskId)|
    ensures r.Ok? ==> r.value.totalElements == |TaskCommentIds(db.comments, taskId)|
  {
    CommentsOnTaskCount(db, taskId);
    match PageRequestOf(page, size)
    case Err(f) => Err(f)
    case Ok(req) => Ok(PageOf(CommentsOnTask(db, taskId), req))
  }

  /** The ids of a list of comment responses. */
  function IdsOf(ds: seq<CommentDto>): (r: set<int>)
    ensures forall x :: x in r <==> exists k :: 0 <= k < |ds| && ds[k].id == x
  {
    if ds == [] then {}
    else
      var rest := IdsOf(ds[1..]);
      assert forall x :: x in rest <==> exists k :: 1 <= k < |ds| && ds[k].id == x by {
        forall x | x in rest ensures exists k :: 1 <= k < |ds| && ds[k].id == x {
          var j :| 0 <= j < |ds[1..]| && ds[1..][j].id == x;
          assert ds[j + 1].id == x;
        }
        forall x | (exists k :: 1 <= k < |ds| && ds[k].id == x) ensures x in rest {
          var k :| 1 <= k < |ds| && ds[k].id == x;
          assert ds[1..][k - 1].id == x;
        }
      }
      {ds[0].id} + rest
  }

  /** The tail of an ascending list is ascending, and every id in it exceeds the head's. */
  lemma AscendingTail(ds: seq<CommentDto>)
    requires |ds| >= 1
    requires forall a, b :: 0 <= a < b < |ds| ==> ds[a].id < ds[b].id
    ensures forall a, b :: 0 <= a < b < |ds[1..]| ==> ds[1..][a].id < ds[1..][b].id
    ensures forall k :: 0 <= k < |ds[1..]| ==> ds[0].id < ds[1..][k].id
  {
    forall a, b | 0 <= a < b < |ds[1..]| ensures ds[1..][a].id < ds[1..][b].id {
      assert ds[1..][a] == ds[a + 1] && ds[1..][b] == ds[b + 1];
    }
    forall k | 0 <= k < |ds[1..]| ensures ds[0].id < ds[1..][k].id {
      assert ds[1..][k] == ds[k + 1];
    }
  }

  /** A list in strictly ascending id order has one id per entry. */
  lemma {:induction false} AscendingIdsCount(ds: seq<CommentDto>)
    requires forall a, b :: 0 <= a < b < |ds| ==> ds[a].id < ds[b].id
    ensures |IdsOf(ds)| == |ds|
  {
    if ds != [] {
      var tail := ds[1..];
      AscendingTail(ds);
      AscendingIdsCount(tail);
      assert IdsOf(ds) == {ds[0].id} + IdsOf(tail);
      assert ds[0].id !in IdsOf(tail);
    }
  }

  /** A list holding exactly the responses of a task's stored comments has their ids. */
  lemma ListedIdsAreTaskCommentIds(ds: seq<CommentDto>, comments: map<int, Comment>, taskId: int)
    requires forall id :: id in comments ==> comments[id].id == id
    requires forall d :: d in ds ==> d.taskId == taskId && d.id in comments && d == MapToDto(comments[d.id])
    requires forall id :: id in comments && comments[id].taskId == taskId ==> MapToDto(comments[id]) in ds
    ensures IdsOf(ds) == TaskCommentIds(comments, taskId)
  {
    forall x | x in IdsOf(ds) ensures x in TaskCommentIds(comments, taskId) {
      var k :| 0 <= k < |ds| && ds[k].id == x;
      assert ds[k] in ds;
    }
    forall x | x in TaskCommentIds(comments, taskId) ensures x in IdsOf(ds) {
      assert MapToDto(comments[x]) in ds;
      var k :| 0 <= k < |ds| && ds[k] == MapToDto(comments[x]);
      assert ds[k].id == x;
    }
  }

  /** The task's listing holds as many entries as the task has stored comments. */
  lemma CommentsOnTaskCount(db: Database, taskId: int)
    requires db.Valid()
    ensures |CommentsOnTask(db, taskId)| == |TaskCommentIds(db.comments, taskId)|
  {
    var ds := CommentsOnTask(db, taskId);
    AscendingIdsCount(ds);
    ListedIdsAreTaskCommentIds(ds, db.comments, taskId);
  }

  /** Every comment on a page belongs to the requested task and is the stored comment. */
  lemma PagedCommentsBelongToTask(db: Database, taskId: int, page: int, size: int)
    requires db.Valid() && page >= 0 && size >= 1
    ensures forall d :: d in GetCommentsByTaskId(db, taskId, page, size).value.content ==>
              d.taskId == taskId && d.id in db.comments && d == MapToDto(db.comments[d.id])
  {
    PageHoldsListedItems(CommentsOnTask(db, taskId), PageRequest(page, size));
  }

  /** deleteComment: an unknown comment is not found; otherwise exactly that comment goes. */
  method DeleteComment(db: Database, id: int) returns (r: Result<()>)
    requires db.Valid()
    modifies db
    ensures db.Valid()
    ensures r.Ok? <==> id in old(db.comments)
    ensures r.Err? ==> r.failure == ResourceNotFound(AppConstants.COMMENT_NOT_FOUND) && unchanged(db)
    ensures r.Ok? ==> db.comments == old(db.comments) - {id}
    ensures CommentsKept(old(db.comments), db.comments)
    ensures db.users == old(db.users) && db.tasks == old(db.tasks) && db.notifications == old(db.notifications)
    ensures db.nextUserId == old(db.nextUserId) && db.nextTaskId == old(db.nextTaskId)
    ensures db.nextCommentId == old(db.nextCommentId)
  {
    if id !in db.comments {
      return Err(ResourceNotFound(AppConstants.COMMENT_NOT_FOUND));
    }
    db.comments := db.comments - {id};
    r := Ok(());
  }

  /** getCommentById: the stored comment, or not found. */
  function GetCommentById(db: Database, id: int): (r: Result<CommentDto>)
    reads db
    ensures r.Ok? <==> id in db.comments
    ensures r.Ok? ==> r.value == MapToDto(db.comments[id])
    ensures r.Err? ==> r.failure == ResourceNotFound(AppConstants.COMMENT_NOT_FOUND)
  {
    if id in db.comments then Ok(MapToDto(db.comments[id]))
    else Err(ResourceNotFound(AppConstants.COMMENT_NOT_FOUND))
  }
}
