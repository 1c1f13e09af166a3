/** The posts routes: a store of Post documents keyed by id and the eight handlers
    that read and edit it, each answering with a status and a body. A handler that
    edits a post reads the document, edits its `likes` or `comments` array
    (`unshift` puts at the front, `splice` removes at an index) and saves the
    whole document back. */
module Posts {
  import opened Entities
  import opened JsArray
  import opened Registry
  import Auth

  /** Newest first. */
  predicate SortedByDateDesc(ps: seq<Post>) {
    forall i, j :: 0 <= i < j < |ps| ==> ps[i].date >= ps[j].date
  }

  /** Puts `p` into a newest-first listing, before the first post that is not newer. */
  function InsertByDate(p: Post, ps: seq<Post>): (r: seq<Post>)
    requires SortedByDateDesc(ps)
    ensures SortedByDateDesc(r)
    ensures multiset(r) == multiset(ps) + multiset{p}
  {
    if ps == [] || p.date >= ps[0].date then
      PrependNewest(p, ps);
      [p] + ps
    else
      var rest := InsertByDate(p, ps[1..]);
      NoNewerThan(ps[0], p, ps[1..], rest);
      PrependNewest(ps[0], rest);
      assert ps == [ps[0]] + ps[1..];
      [ps[0]] + rest
  }

  /** A post no older than the head of a newest-first listing may go in front of it. */
  lemma PrependNewest(p: Post, ps: seq<Post>)
    requires SortedByDateDesc(ps)
    requires ps != [] ==> p.date >= ps[0].date
    ensures SortedByDateDesc([p] + ps)
  {
  }

  /** Everything in `rest`, the older posts plus `p`, is no newer than `head`. */
  lemma NoNewerThan(head: Post, p: Post, older: seq<Post>, rest: seq<Post>)
    requires p.date < head.date
    requires forall x :: x in older ==> x.date <= head.date
    requires multiset(rest) == multiset(older) + multiset{p}
    ensures rest != [] ==> head.date >= rest[0].date
  {
    if rest != [] {
      assert rest[0] in multiset(rest);
    }
  }

  /** `listing` holds every post of `posts` once and nothing else. */
  ghost predicate ListsStore(posts: map<PostId, Post>, listing: seq<Post>) {
    |listing| == |posts| &&
    (forall p :: p in listing ==> p.id in posts && posts[p.id] == p) &&
    (forall id :: id in posts ==> posts[id] in listing)
  }

  /** The id generator and clock a request may draw on. */
  datatype Fresh = Fresh(postId: PostId, commentId: CommentId, now: int)

  /** The eight routes, with their URL parameters and body text. */
  datatype Route =
    | CreateReq(text: string)                             // POST   /api/posts
    | GetAllReq                                           // GET    /api/posts
    | GetByIdReq(id: PostId)                              // GET    /api/posts/:id
    | DeleteReq(id: PostId)                               // DELETE /api/posts/:id
    | LikeReq(id: PostId)                                 // PUT    /api/posts/like/:id
    | UnlikeReq(id: PostId)                               // PUT    /api/posts/unlike/:id
    | CommentReq(id: PostId, text: string)                // POST   /api/posts/comment/:id
    | UncommentReq(id: PostId, commentId: CommentId)      // DELETE /api/posts/comment/:id/:comment_id

  class PostStore {
    var posts: map<PostId, Post>
    /** The user collection; the posts routes only read it. */
    const users: map<UserId, Profile>

    /** Every post is stored under its own id, a canonical ObjectId, and no user likes a post twice. */
    ghost predicate Valid()
      reads this
    {
      forall id :: id in posts ==>
        posts[id].id == id && IsObjectId(id) && UniqueLikers(posts[id].likes)
    }

    /** The model's `Post.findById(id)` yielding a document: the id is a canonical
        ObjectId and a post is stored under exactly that string. In a valid store
        that is just "stored". */
    predicate Found(id: PostId)
      reads this
      ensures Valid() ==> (Found(id) <==> id in posts)
      ensures Valid() && Found(id) ==> posts[id].id == id
    {
      IsObjectId(id) && id in posts
    }

    constructor (users: map<UserId, Profile>)
      ensures Valid() && posts == map[] && this.users == users
    {
      posts := map[];
      this.users := users;
    }

    /** POST /api/posts by user `u`. */
    method CreatePost(u: UserId, text: string, gen: Fresh) returns (resp: Response)
      requires Valid()
      requires IsObjectId(gen.postId) && gen.postId !in posts
      modifies this`posts
      ensures Valid()
      ensures text == "" ==> resp == TextRequired && posts == old(posts)
      ensures text != "" && u !in users ==> resp == ServerError && posts == old(posts)
      ensures text != "" && u in users ==>
        var p := Post(gen.postId, u, text, users[u].name, users[u].avatar, [], [], gen.now);
        resp == Response(200, PostBody(p)) && posts == old(posts)[gen.postId := p]
    {
      if text == "" {
        return TextRequired;
      }
      if u !in users {
        // user.name on the null the lookup returned throws
        return ServerError;
      }
      var user := users[u];
      var newPost := Post(gen.postId, u, text, user.name, user.avatar, [], [], gen.now);
      posts := posts[gen.postId := newPost];
      resp := Response(200, PostBody(newPost));
    }

    /** GET /api/posts: every post, newest first. */
    method GetAllPosts() returns (resp: Response)
      requires Valid()
      ensures resp.status == 200 && resp.body.PostsBody?
      ensures SortedByDateDesc(resp.body.posts)
      ensures ListsStore(posts, resp.body.posts)
    {
      var pending := posts.Keys;
      var listed: seq<Post> := [];
      while pending != {}
        invariant pending <= posts.Keys
        invariant SortedByDateDesc(listed)
        invariant |listed| + |pending| == |posts|
        invariant forall p :: p in listed ==> p.id in posts && posts[p.id] == p && p.id !in pending
        invariant forall id :: id in posts && id !in pending ==> posts[id] in listed
        decreases |pending|
      {
        var id :| id in pending;
        var before := listed;
        listed := InsertByDate(posts[id], listed);
        assert forall p :: p in listed ==> p == posts[id] || p in before by {
          forall p | p in listed ensures p == posts[id] || p in before {
            assert p in multiset(listed);
          }
        }
        assert posts[id] in multiset(listed);
        assert forall p :: p in before ==> p in multiset(listed);
        pending := pending - {id};
      }
      resp := Response(200, PostsBody(listed));
    }

    /** GET /api/posts/:id */
    method GetPostById(id: PostId) returns (resp: Response)
      ensures !Found(id) ==> resp == PostNotFound
      ensures Found(id) ==> resp == Response(200, PostBody(posts[id]))
    {
      if !IsObjectId(id) {
        // the cast error has kind "ObjectId"
        return PostNotFound;
      }
      if id !in posts {
        return PostNotFound;
      }
      resp := Response(200, PostBody(posts[id]));
    }

    /** DELETE /api/posts/:id by user `u`: only the post's owner may delete it. */
    method DeletePost(u: UserId, id: PostId) returns (resp: Response)
      requires Valid()
      modifies this`posts
      ensures Valid()
      ensures old(!Found(id)) ==> resp == PostNotFound && posts == old(posts)
      ensures old(Found(id)) && old(posts)[id].user != u ==> resp == NotAuthorized && posts == old(posts)
      ensures old(Found(id)) && old(posts)[id].user == u ==>
        resp == Response(200, MsgBody("Post removed")) && posts == old(posts) - {id}
    {
      if !IsObjectId(id) || id !in posts {
        return PostNotFound;
      }
      var post := posts[id];
      if post.user != u {
        return NotAuthorized;
      }
      posts := posts - {id};
      resp := Response(200, MsgBody("Post removed"));
    }

    /** PUT /api/posts/like/:id by user `u`. A post that is not found is not
        checked for: reading its likes throws and the request ends in 500. */
    method LikePost(u: UserId, id: PostId) returns (resp: Response)
      requires Valid()
      modifies this`posts
      ensures Valid()
      ensures old(!Found(id)) ==> resp == ServerError && posts == old(posts)
      ensures old(Found(id)) && |LikesBy(old(posts)[id].likes, u)| > 0 ==>
        resp == Response(400, MsgBody("Post already liked")) && posts == old(posts)
      ensures old(Found(id)) && |LikesBy(old(posts)[id].likes, u)| == 0 ==>
        var likes := [Like(u)] + old(posts)[id].likes;
        resp == Response(200, LikesBody(likes)) &&
        posts == old(posts)[id := old(posts)[id].(likes := likes)] &&
        |LikesBy(likes, u)| == 1
    {
      if !IsObjectId(id) || id !in posts {
        return ServerError;
      }
      var post := posts[id];
      if |LikesBy(post.likes, u)| > 0 {
        return Response(400, MsgBody("Post already liked"));
      }
      LikeKeepsUniqueLikers(post.likes, u);
      post := post.(likes := [Like(u)] + post.likes);
      posts := posts[id := post];
      resp := Response(200, LikesBody(post.likes));
    }

    /** PUT /api/posts/unlike/:id by user `u`. */
    method UnlikePost(u: UserId, id: PostId) returns (resp: Response)
      requires Valid()
      modifies this`posts
      ensures Valid()
      ensures old(!Found(id)) ==> resp == ServerError && posts == old(posts)
      ensures old(Found(id)) && |LikesBy(old(posts)[id].likes, u)| == 0 ==>
        resp == Response(400, MsgBody("Post has not yet been liked")) && posts == old(posts)
      ensures old(Found(id)) && |LikesBy(old(posts)[id].likes, u)| > 0 ==>
        var before := old(posts)[id].likes;
        var k := UnlikeIndex(before, u);
        var likes := Splice(before, k);
        0 <= k < |before| && before[k] == Like(u) &&
        resp == Response(200, LikesBody(likes)) &&
        posts == old(posts)[id := old(posts)[id].(likes := likes)] &&
        |likes| == |before| - 1 && u !in LikeUsers(likes)
    {
      if !IsObjectId(id) || id !in posts {
        return ServerError;
      }
      var post := posts[id];
      if |LikesBy(post.likes, u)| == 0 {
        return Response(400, MsgBody("Post has not yet been liked"));
      }
      var removeIndex := IndexOf(LikeUsers(post.likes), u);
      UnlikeRemovesTheLike(post.likes, u);
      post := post.(likes := Splice(post.likes, removeIndex));
      posts := posts[id := post];
      resp := Response(200, LikesBody(post.likes));
    }

    /** POST /api/posts/comment/:id by user `u`. */
    method AddComment(u: UserId, id: PostId, text: string, gen: Fresh) returns (resp: Response)
      requires Valid()
      modifies this`posts
      ensures Valid()
      ensures text == "" ==> resp == TextRequired && posts == old(posts)
      ensures text != "" && (u !in users || old(!Found(id))) ==> resp == ServerError && posts == old(posts)
      ensures text != "" && u in users && old(Found(id)) ==>
        var c := Comment(gen.commentId, u, text, users[u].name, users[u].avatar);
        var comments := [c] + old(posts)[id].comments;
        resp == Response(200, CommentsBody(comments)) &&
        posts == old(posts)[id := old(posts)[id].(comments := comments)]
    {
      if text == "" {
        return TextRequired;
      }
      if u !in users || !IsObjectId(id) || id !in posts {
        // a null user or post is dereferenced
        return ServerError;
      }
      var user := users[u];
      var post := posts[id];
      var newComment := Comment(gen.commentId, u, text, user.name, user.avatar);
      post := post.(comments := [newComment] + post.comments);
      posts := posts[id := post];
      resp := Response(200, CommentsBody(post.comments));
    }

    /** DELETE /api/posts/comment/:id/:comment_id by user `u`. The guards check the
        comment named `cid`, but the splice removes the first comment written by `u`. */
    method DeleteComment(u: UserId, id: PostId, cid: CommentId) returns (resp: Response)
      requires Valid()
      modifies this`posts
      ensures Valid()
      ensures old(!Found(id)) ==> resp == ServerError && posts == old(posts)
      ensures old(Found(id)) && FindComment(old(posts)[id].comments, cid).None? ==>
        resp == Response(404, MsgBody("Comment does not exist")) && posts == old(posts)
      ensures old(Found(id)) && FindComment(old(posts)[id].comments, cid).Some? &&
              FindComment(old(posts)[id].comments, cid).value.user != u ==>
        resp == NotAuthorized && posts == old(posts)
      ensures old(Found(id)) && FindComment(old(posts)[id].comments, cid).Some? &&
              FindComment(old(posts)[id].comments, cid).value.user == u ==>
        var before := old(posts)[id].comments;
        var k := UncommentIndex(before, u);
        var comments := Splice(before, k);
        0 <= k < |before| && before[k].user == u && |comments| == |before| - 1 &&
        resp == Response(200, CommentsBody(comments)) &&
        posts == old(posts)[id := old(posts)[id].(comments := comments)]
    {
      if !IsObjectId(id) || id !in posts {
        return ServerError;
      }
      var post := posts[id];
      var comment := FindComment(post.comments, cid);
      if comment.None? {
        return Response(404, MsgBody("Comment does not exist"));
      }
      if comment.value.user != u {
        return NotAuthorized;
      }
      var removeIndex := IndexOf(CommentUsers(post.comments), u);
      UncommentRemovesFirstOwnComment(post.comments, u, cid);
      post := post.(comments := Splice(post.comments, removeIndex));
      posts := posts[id := post];
      resp := Response(200, CommentsBody(post.comments));
    }

    /** One request: the token gate runs first; only when it passes does the route's
        handler run, as the user the token names. */
    method Handle(req: Auth.Request, verify: string -> Option<Identity>, route: Route, gen: Fresh)
      returns (resp: Response)
      requires Valid()
      requires route.CreateReq? ==> IsObjectId(gen.postId) && gen.postId !in posts
      modifies this`posts, req`user
      ensures Valid()
      ensures !Auth.Gate(req.headers, verify).Pass? ==>
        resp == Auth.Rejection(Auth.Gate(req.headers, verify)) &&
        posts == old(posts) && req.user == old(req.user)
      ensures Auth.Gate(req.headers, verify).Pass? ==>
        req.user == Some(Auth.Gate(req.headers, verify).user)
      ensures route.GetAllReq? || route.GetByIdReq? ==> posts == old(posts)
    {
      var rejected, nextCalls := Auth.Authenticate(req, verify);
      if rejected.Some? {
        return rejected.value;
      }
      var u := req.user.value.id;
      match route {
        case CreateReq(text) => resp := CreatePost(u, text, gen);
        case GetAllReq => resp := GetAllPosts();
        case GetByIdReq(id) => resp := GetPostById(id);
        case DeleteReq(id) => resp := DeletePost(u, id);
        case LikeReq(id) => resp := LikePost(u, id);
        case UnlikeReq(id) => resp := UnlikePost(u, id);
        case CommentReq(id, text) => resp := AddComment(u, id, text, gen);
        case UncommentReq(id, cid) => resp := DeleteComment(u, id, cid);
      }
    }
  }
}
