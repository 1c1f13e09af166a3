/** Request sequences against a fresh store, worked out from the handlers'
    contracts alone. */
module Scenarios {
  import opened Entities
  import opened Posts

  /** User `a` creates a post; `b` likes it, likes it again, unlikes it; `a` deletes
      it; fetching it then finds nothing. */
  method LikeLifecycle(a: UserId, b: UserId, pid: PostId, profiles: map<UserId, Profile>, now: int)
    returns (statuses: seq<int>, bodies: seq<Body>)
    requires a in profiles && IsObjectId(pid)
    ensures statuses == [200, 200, 400, 200, 200, 404]
    ensures |bodies| == 6
    ensures bodies[1] == LikesBody([Like(b)])
    ensures bodies[2] == MsgBody("Post already liked")
    ensures bodies[3] == LikesBody([])
    ensures bodies[5] == MsgBody("Post not found")
  {
    var store := new PostStore(profiles);
    var gen := Fresh(pid, "", now);
    var created := store.CreatePost(a, "hi", gen);
    var liked := store.LikePost(b, pid);
    var likedAgain := store.LikePost(b, pid);
    var unliked := store.UnlikePost(b, pid);
    var deleted := store.DeletePost(a, pid);
    var fetched := store.GetPostById(pid);
    statuses := [created.status, liked.status, likedAgain.status, unliked.status, deleted.status, fetched.status];
    bodies := [created.body, liked.body, likedAgain.body, unliked.body, deleted.body, fetched.body];
  }

  /** User `a` comments twice on a post, then asks to delete the OLDER comment (`c1`).
      The newer comment `c2` sits first in the array, so it is the one removed and
      the comment named in the request survives. */
  method DeleteOlderOwnComment(a: UserId, pid: PostId, profiles: map<UserId, Profile>)
    returns (resp: Response)
    requires a in profiles && IsObjectId(pid)
    ensures resp == Response(200, CommentsBody([Comment("c1", a, "first", profiles[a].name, profiles[a].avatar)]))
  {
    var store := new PostStore(profiles);
    var created := store.CreatePost(a, "hi", Fresh(pid, "", 0));
    var first := store.AddComment(a, pid, "first", Fresh(pid, "c1", 1));
    var second := store.AddComment(a, pid, "second", Fresh(pid, "c2", 2));
    var c1 := Comment("c1", a, "first", profiles[a].name, profiles[a].avatar);
    var c2 := Comment("c2", a, "second", profiles[a].name, profiles[a].avatar);
    assert store.posts[pid].comments == [c2, c1];
    Registry.CommentUncommentRoundTrip([c1], c2);
    assert Registry.FindComment([c2, c1], "c1") == Some(c1) by {
      assert JsArray.IndexOf(CommentIds([c2, c1]), "c1") == 1 by {
        assert CommentIds([c2, c1]) == ["c2", "c1"];
      }
    }
    resp := store.DeleteComment(a, pid, "c1");
  }
}
