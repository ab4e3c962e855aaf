/**
 * The interaction routes of the Express backend: like and bookmark toggles over the
 * `likes` and `bookmarks` tables, and comment creation, editing and deletion with their
 * ownership rules. The tables are fields of one object; the route's `userId` is the one
 * in the caller's verified token.
 */
module InteractionRoutes {
  import opened Util
  import opened JsUtil

  const MaxCommentLength := 500

  const MsgServerError := "서버 오류가 발생했습니다"
  const MsgEmptyComment := "댓글 내용을 입력해주세요"
  const MsgCommentTooLong := "댓글은 500자 이내로 작성해주세요"
  const MsgNoComment := "댓글을 찾을 수 없습니다"
  const MsgNotYourEdit := "본인의 댓글만 수정할 수 있습니다"
  const MsgNotYourDelete := "본인의 댓글만 삭제할 수 있습니다"
  const MsgDeleted := "댓글이 삭제되었습니다"

  /** The table after a toggle of `p`: removed when present, added when absent. */
  function Toggle(s: set<(int, int)>, p: (int, int)): (r: set<(int, int)>)
    ensures p in r <==> p !in s
    ensures forall q :: q != p ==> (q in r <==> q in s)
  {
    if p in s then s - {p} else s + {p}
  }

  /** Toggling twice gives the table back. */
  lemma ToggleInvolution(s: set<(int, int)>, p: (int, int))
    ensures Toggle(Toggle(s, p), p) == s
  {
  }

  /** `SELECT COUNT(*) ... WHERE news_id = $1`. */
  function CountFor(s: set<(int, int)>, newsId: int): nat
  {
    |set q | q in s && q.1 == newsId|
  }

  /** A toggle moves the count of its own news by exactly one. */
  lemma ToggleCount(s: set<(int, int)>, user: int, newsId: int)
    ensures CountFor(Toggle(s, (user, newsId)), newsId) == CountFor(s, newsId) + (if (user, newsId) in s then -1 else 1)
  {
    var p := (user, newsId);
    var before := set q | q in s && q.1 == newsId;
    var after := set q | q in Toggle(s, p) && q.1 == newsId;
    if p in s {
      assert after == before - {p};
    } else {
      assert after == before + {p};
    }
  }

  /** ... and leaves every other news' count alone. */
  lemma ToggleCountOther(s: set<(int, int)>, user: int, newsId: int, other: int)
    requires other != newsId
    ensures CountFor(Toggle(s, (user, newsId)), other) == CountFor(s, other)
  {
    assert (set q | q in Toggle(s, (user, newsId)) && q.1 == other) == (set q | q in s && q.1 == other);
  }

  /** A `comments` row. */
  datatype Comment = Comment(userId: int, newsId: int, content: string, createdAt: int, updatedAt: int)

  /** The comment text check shared by create and edit: present and not only whitespace. */
  predicate HasText(content: string)
  {
    content != [] && Trim(content) != []
  }

  /** Text with something besides whitespace passes; whitespace alone never does. */
  lemma HasTextMeaning(content: string)
    ensures HasText(content) <==> exists k :: 0 <= k < |content| && !JsIsSpace(content[k])
  {
    TrimEmpty(content);
  }

  /** A comment row as `GET /news/:id/comments` lists it. */
  datatype CommentView = CommentView(id: int, content: string, nickname: string, createdAt: int, updatedAt: int, isMine: bool)

  /** One row of that query: the comment, its id and its author's nickname. */
  datatype CommentRow = CommentRow(id: int, comment: Comment, nickname: string)

  /**
   * The listing for a viewer whose verified token carried `viewer` (`None` with no token,
   * an invalid one, or no `userId`): a row is the viewer's exactly when the ids are equal.
   */
  function ListComments(rows: seq<CommentRow>, viewer: Option<int>): (r: seq<CommentView>)
    ensures |r| == |rows|
    ensures forall i :: 0 <= i < |rows| ==> (r[i].id == rows[i].id && r[i].content == rows[i].comment.content
      && r[i].nickname == rows[i].nickname && r[i].createdAt == rows[i].comment.createdAt
      && r[i].updatedAt == rows[i].comment.updatedAt)
    ensures forall i :: 0 <= i < |rows| ==> (r[i].isMine <==> viewer == Some(rows[i].comment.userId))
  {
    if rows == [] then []
    else
      var row := rows[|rows| - 1];
      ListComments(rows[..|rows| - 1], viewer)
        + [CommentView(row.id, row.comment.content, row.nickname, row.comment.createdAt, row.comment.updatedAt,
                       viewer.Some? && viewer.value == row.comment.userId)]
  }

  /** Without a usable token nothing is marked as the viewer's. */
  lemma AnonymousOwnsNothing(rows: seq<CommentRow>)
    ensures forall i :: 0 <= i < |rows| ==> !ListComments(rows, None)[i].isMine
  {
  }

  class InteractionDb {
    /** `(user_id, news_id)` pairs. */
    var likes: set<(int, int)>
    var bookmarks: set<(int, int)>
    /** By `comment_id`. */
    var comments: map<int, Comment>
    /** The next value of the `comment_id` sequence. */
    var nextCommentId: int

    ghost predicate Valid()
      reads this
    {
      forall id :: id in comments ==> id < nextCommentId
    }

    constructor (likes: set<(int, int)>, bookmarks: set<(int, int)>, comments: map<int, Comment>, nextId: int)
      requires forall id :: id in comments ==> id < nextId
      ensures Valid()
      ensures this.likes == likes && this.bookmarks == bookmarks && this.comments == comments && nextCommentId == nextId
    {
      this.likes := likes;
      this.bookmarks := bookmarks;
      this.comments := comments;
      nextCommentId := nextId;
    }

    /** `POST /news/:id/like`: the pair is removed when present and added when absent, and the news' new like count is returned. */
    method ToggleLike(user: int, newsId: int) returns (liked: bool, likeCount: nat)
      modifies this
      ensures liked <==> (user, newsId) !in old(likes)
      ensures likes == Toggle(old(likes), (user, newsId))
      ensures likeCount == CountFor(likes, newsId)
      ensures bookmarks == old(bookmarks) && comments == old(comments) && nextCommentId == old(nextCommentId)
    {
      if (user, newsId) in likes {
        likes := likes - {(user, newsId)};
        liked := false;
      } else {
        likes := likes + {(user, newsId)};
        liked := true;
      }
      likeCount := CountFor(likes, newsId);
    }

    /** `POST /news/:id/bookmark`, the same rule over `bookmarks`. */
    method ToggleBookmark(user: int, newsId: int) returns (bookmarked: bool, bookmarkCount: nat)
      modifies this
      ensures bookmarked <==> (user, newsId) !in old(bookmarks)
      ensures bookmarks == Toggle(old(bookmarks), (user, newsId))
      ensures bookmarkCount == CountFor(bookmarks, newsId)
      ensures likes == old(likes) && comments == old(comments) && nextCommentId == old(nextCommentId)
    {
      if (user, newsId) in bookmarks {
        bookmarks := bookmarks - {(user, newsId)};
        bookmarked := false;
      } else {
        bookmarks := bookmarks + {(user, newsId)};
        bookmarked := true;
      }
      bookmarkCount := CountFor(bookmarks, newsId);
    }

    /**
     * `POST /news/:id/comments`: the length limit applies to the text as sent, the row stores
     * it trimmed. `id` is the new comment's id on success.
     */
    method CreateComment(user: int, newsId: int, content: string, now: int) returns (reply: Reply, id: int)
      requires Valid()
      modifies this
      ensures Valid()
      ensures !HasText(content) ==> reply == Reply(400, false, MsgEmptyComment)
      ensures HasText(content) && Utf16Length(content) > MaxCommentLength ==> reply == Reply(400, false, MsgCommentTooLong)
      ensures HasText(content) && Utf16Length(content) <= MaxCommentLength ==> reply.status == 201 && reply.success
      ensures reply.success ==> (id == old(nextCommentId) && id !in old(comments)
        && comments == old(comments)[id := Comment(user, newsId, Trim(content), now, now)]
        && nextCommentId == old(nextCommentId) + 1)
      ensures !reply.success ==> comments == old(comments) && nextCommentId == old(nextCommentId)
      ensures likes == old(likes) && bookmarks == old(bookmarks)
    {
      id := nextCommentId;
      if !HasText(content) {
        return Reply(400, false, MsgEmptyComment), id;
      }
      if Utf16Length(content) > MaxCommentLength {
        return Reply(400, false, MsgCommentTooLong), id;
      }
      comments := comments[id := Comment(user, newsId, Trim(content), now, now)];
      nextCommentId := nextCommentId + 1;
      reply := Reply(201, true, "");
    }

    /**
     * `PUT /comments/:id`: only the author may edit, and only that comment's text and
     * `updated_at` change. Unlike creation, no length limit is applied.
     */
    method UpdateComment(commentId: int, user: int, content: string, now: int) returns (reply: Reply)
      requires Valid()
      modifies this
      ensures Valid()
      ensures !HasText(content) ==> reply == Reply(400, false, MsgEmptyComment)
      ensures HasText(content) && commentId !in old(comments) ==> reply == Reply(404, false, MsgNoComment)
      ensures HasText(content) && commentId in old(comments) && old(comments)[commentId].userId != user
        ==> reply == Reply(403, false, MsgNotYourEdit)
      ensures HasText(content) && commentId in old(comments) && old(comments)[commentId].userId == user
        ==> reply.status == 200 && reply.success
      ensures comments == if reply.success
        then old(comments)[commentId := old(comments)[commentId].(content := Trim(content), updatedAt := now)]
        else old(comments)
      ensures forall c :: c in old(comments) && old(comments)[c].userId != user ==> c in comments && comments[c] == old(comments)[c]
      ensures likes == old(likes) && bookmarks == old(bookmarks) && nextCommentId == old(nextCommentId)
    {
      if !HasText(content) {
        return Reply(400, false, MsgEmptyComment);
      }
      if commentId !in comments {
        return Reply(404, false, MsgNoComment);
      }
      if comments[commentId].userId != user {
        return Reply(403, false, MsgNotYourEdit);
      }
      comments := comments[commentId := comments[commentId].(content := Trim(content), updatedAt := now)];
      reply := Reply(200, true, "");
    }

    /** `DELETE /comments/:id`: only the author may delete, and only that comment goes. */
    method DeleteComment(commentId: int, user: int) returns (reply: Reply)
      requires Valid()
      modifies this
      ensures Valid()
      ensures commentId !in old(comments) ==> reply == Reply(404, false, MsgNoComment)
      ensures commentId in old(comments) && old(comments)[commentId].userId != user ==> reply == Reply(403, false, MsgNotYourDelete)
      ensures commentId in old(comments) && old(comments)[commentId].userId == user ==> reply == Reply(200, true, MsgDeleted)
      ensures comments == if reply.success then old(comments) - {commentId} else old(comments)
      ensures forall c :: c in old(comments) && old(comments)[c].userId != user ==> c in comments && comments[c] == old(comments)[c]
      ensures likes == old(likes) && bookmarks == old(bookmarks) && nextCommentId == old(nextCommentId)
    {
      if commentId !in comments {
        return Reply(404, false, MsgNoComment);
      }
      if comments[commentId].userId != user {
        return Reply(403, false, MsgNotYourDelete);
      }
      comments := comments - {commentId};
      reply := Reply(200, true, MsgDeleted);
    }
  }
}
