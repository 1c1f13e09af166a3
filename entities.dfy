/** The documents the posts API works with: identities, likes, comments, posts and
    the user records a post is attributed to, plus the HTTP responses it sends. */
module Entities {

  datatype Option<+T> = None | Some(value: T)

  type UserId = string
  type PostId = string
  type CommentId = string

  /** The identity the auth middleware attaches to the request (`req.user`). */
  datatype Identity = Identity(id: UserId)

  /** The part of a User document a post or comment copies (the password is never selected). */
  datatype Profile = Profile(name: string, avatar: string)

  datatype Like = Like(user: UserId)

  datatype Comment = Comment(id: CommentId, user: UserId, text: string, name: string, avatar: string)

  /** A Post document; `date` is the creation timestamp as an integer. */
  datatype Post = Post(
    id: PostId,
    user: UserId,
    text: string,
    name: string,
    avatar: string,
    likes: seq<Like>,
    comments: seq<Comment>,
    date: int)

  /** One entry of express-validator's error array. */
  datatype FieldError = FieldError(param: string, msg: string)

  datatype Body =
    | MsgBody(msg: string)                    // res.json({msg})
    | ErrorsBody(errors: seq<FieldError>)     // res.json({errors})
    | PostBody(post: Post)
    | PostsBody(posts: seq<Post>)
    | LikesBody(likes: seq<Like>)
    | CommentsBody(comments: seq<Comment>)
    | TextBody(text: string)                  // res.send(text)

  datatype Response = Response(status: int, body: Body)

  const ServerError: Response := Response(500, TextBody("Server Error"))
  const PostNotFound: Response := Response(404, MsgBody("Post not found"))
  const NotAuthorized: Response := Response(401, MsgBody("User not authorized"))
  const TextRequired: Response := Response(400, ErrorsBody([FieldError("text", "Text is required")]))

  /** A lower-case hexadecimal digit. */
  predicate IsHexDigit(c: char) {
    '0' <= c <= '9' || 'a' <= c <= 'f'
  }

  /** The canonical spelling of an ObjectId, the one ids are stored and sent in:
      24 lower-case hexadecimal digits. Ids are compared as exact strings. */
  predicate IsObjectId(s: string) {
    |s| == 24 && forall i :: 0 <= i < |s| ==> IsHexDigit(s[i])
  }

  /** `s.map(f)`: `f` applied to each element, in order. */
  function Project<T, U>(s: seq<T>, f: T -> U): (r: seq<U>)
    ensures |r| == |s|
    ensures forall i :: 0 <= i < |s| ==> r[i] == f(s[i])
  {
    seq(|s|, i requires 0 <= i < |s| => f(s[i]))
  }

  /** `likes.map(like => like.user)`: who gave each like. */
  function LikeUsers(likes: seq<Like>): (r: seq<UserId>)
    ensures |r| == |likes|
    ensures forall i :: 0 <= i < |likes| ==> r[i] == likes[i].user
  {
    Project(likes, (l: Like) => l.user)
  }

  /** `comments.map(comment => comment.user)`: who wrote each comment. */
  function CommentUsers(comments: seq<Comment>): (r: seq<UserId>)
    ensures |r| == |comments|
    ensures forall i :: 0 <= i < |comments| ==> r[i] == comments[i].user
  {
    Project(comments, (c: Comment) => c.user)
  }

  /** The id of each comment, which `find` matches the requested comment id against. */
  function CommentIds(comments: seq<Comment>): (r: seq<CommentId>)
    ensures |r| == |comments|
    ensures forall i :: 0 <= i < |comments| ==> r[i] == comments[i].id
  {
    Project(comments, (c: Comment) => c.id)
  }

  /** At most one like per user. */
  predicate UniqueLikers(likes: seq<Like>) {
    forall i, j :: 0 <= i < j < |likes| ==> likes[i].user != likes[j].user
  }
}
