/** The guards the like/unlike and comment/uncomment handlers evaluate on a post's
    `likes` and `comments` arrays, and what their edits (`unshift`, then `splice`
    at an `indexOf` position) do to those arrays. */
module Registry {
  import opened Entities
  import opened JsArray

  /** `likes.filter(like => like.user.toString() === u)` */
  function LikesBy(likes: seq<Like>, u: UserId): (r: seq<Like>)
    ensures |r| <= |likes|
    ensures forall l :: l in r ==> l == Like(u)
    ensures |r| == 0 <==> u !in LikeUsers(likes)
  {
    if likes == [] then []
    else
      assert LikeUsers(likes) == [likes[0].user] + LikeUsers(likes[1..]);
      if likes[0].user == u then [likes[0]] + LikesBy(likes[1..], u)
      else LikesBy(likes[1..], u)
  }

  /** `comments.find(comment => comment.id === cid)`: the first comment with that id. */
  function FindComment(comments: seq<Comment>, cid: CommentId): (r: Option<Comment>)
    ensures r.None? <==> cid !in CommentIds(comments)
    ensures r.Some? ==> r.value == comments[IndexOf(CommentIds(comments), cid)]
  {
    if comments == [] then None
    else
      assert CommentIds(comments) == [comments[0].id] + CommentIds(comments[1..]);
      if comments[0].id == cid then Some(comments[0])
      else FindComment(comments[1..], cid)
  }

  /** `removeIndex` of the unlike handler: the position of the first like by `u`, or -1. */
  function UnlikeIndex(likes: seq<Like>, u: UserId): (k: int)
    ensures -1 <= k < |likes|
    ensures k == -1 <==> forall j :: 0 <= j < |likes| ==> likes[j].user != u
    ensures 0 <= k ==> likes[k] == Like(u) && forall j :: 0 <= j < k ==> likes[j].user != u
  {
    var k := IndexOf(LikeUsers(likes), u);
    assert 0 <= k ==> forall j :: 0 <= j < k ==> LikeUsers(likes)[..k][j] == likes[j].user;
    k
  }

  /** `removeIndex` of the uncomment handler: the position of the first comment
      AUTHORED by `u`, whichever comment the request named, or -1. */
  function UncommentIndex(comments: seq<Comment>, u: UserId): (k: int)
    ensures -1 <= k < |comments|
    ensures k == -1 <==> forall j :: 0 <= j < |comments| ==> comments[j].user != u
    ensures 0 <= k ==> comments[k].user == u && forall j :: 0 <= j < k ==> comments[j].user != u
  {
    var k := IndexOf(CommentUsers(comments), u);
    assert 0 <= k ==> forall j :: 0 <= j < k ==> CommentUsers(comments)[..k][j] == comments[j].user;
    k
  }

  /** Under the one-like-per-user invariant, the filter the like guards use finds
      at most one like of any user. */
  lemma {:induction false} UniqueLikersFilterAtMostOne(likes: seq<Like>, u: UserId)
    requires UniqueLikers(likes)
    ensures |LikesBy(likes, u)| <= 1
  {
    if likes != [] {
      var rest := likes[1..];
      assert UniqueLikers(rest) by {
        forall i, j | 0 <= i < j < |rest| ensures rest[i].user != rest[j].user {
          assert rest[i] == likes[i + 1] && rest[j] == likes[j + 1];
        }
      }
      UniqueLikersFilterAtMostOne(rest, u);
      if likes[0].user == u {
        assert u !in LikeUsers(rest) by {
          forall i | 0 <= i < |rest| ensures LikeUsers(rest)[i] != u {
            assert rest[i] == likes[i + 1];
          }
        }
      }
    }
  }

  /** A like that passes the "already liked" guard and is unshifted keeps at most one
      like per user, and the liker now has exactly one. */
  lemma LikeKeepsUniqueLikers(likes: seq<Like>, u: UserId)
    requires UniqueLikers(likes)
    requires |LikesBy(likes, u)| == 0
    ensures UniqueLikers([Like(u)] + likes)
    ensures |LikesBy([Like(u)] + likes, u)| == 1
  {
  }

  /** An unlike that passes the "not yet liked" guard splices at a real position
      (never -1), removes exactly that one like, keeps the others in order, and
      leaves the user without a like when likes were unique. */
  lemma UnlikeRemovesTheLike(likes: seq<Like>, u: UserId)
    requires |LikesBy(likes, u)| > 0
    ensures 0 <= UnlikeIndex(likes, u) < |likes|
    ensures likes[UnlikeIndex(likes, u)] == Like(u)
    ensures var r := Splice(likes, UnlikeIndex(likes, u));
      |r| == |likes| - 1 && multiset(r) + multiset{Like(u)} == multiset(likes)
    ensures UniqueLikers(likes) ==> var r := Splice(likes, UnlikeIndex(likes, u));
      UniqueLikers(r) && |LikesBy(r, u)| == 0
  {
  }

  /** Liking and then unliking restores the likes array exactly. */
  lemma LikeUnlikeRoundTrip(likes: seq<Like>, u: UserId)
    requires |LikesBy(likes, u)| == 0
    ensures |LikesBy([Like(u)] + likes, u)| > 0
    ensures Splice([Like(u)] + likes, UnlikeIndex([Like(u)] + likes, u)) == likes
  {
  }

  /** Commenting and then uncommenting the new comment by its own id passes both
      uncomment guards and restores the comments array exactly. */
  lemma CommentUncommentRoundTrip(comments: seq<Comment>, c: Comment)
    ensures FindComment([c] + comments, c.id) == Some(c)
    ensures UncommentIndex([c] + comments, c.user) == 0
    ensures Splice([c] + comments, UncommentIndex([c] + comments, c.user)) == comments
  {
  }

  /** When the uncomment guards pass (comment `cid` exists and `u` wrote it), the
      handler removes the first comment written by `u`. That is the named comment
      exactly when `u` wrote no comment before it; otherwise an earlier comment of
      `u`'s goes. Either way one comment of `u`'s is removed and the rest keep their order. */
  lemma UncommentRemovesFirstOwnComment(comments: seq<Comment>, u: UserId, cid: CommentId)
    requires FindComment(comments, cid).Some?
    requires FindComment(comments, cid).value.user == u
    ensures var k := UncommentIndex(comments, u); var t := IndexOf(CommentIds(comments), cid);
      0 <= k <= t < |comments| &&
      comments[k].user == u &&
      (k == t <==> u !in CommentUsers(comments)[..t])
    ensures var r := Splice(comments, UncommentIndex(comments, u));
      |r| == |comments| - 1 &&
      multiset(r) + multiset{comments[UncommentIndex(comments, u)]} == multiset(comments)
  {
  }

  /** A user with two comments who asks to delete the second loses the first. */
  lemma UncommentCanRemoveAnotherComment()
    ensures var first := Comment("c1", "alice", "first", "Alice", "a.png");
      var second := Comment("c2", "alice", "second", "Alice", "a.png");
      FindComment([first, second], "c2") == Some(second) &&
      Splice([first, second], UncommentIndex([first, second], "alice")) == [second]
  {
  }
}
