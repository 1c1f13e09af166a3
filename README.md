# DevConnector posts API and token gate, modelled in Dafny

This project models the server-side core of DevConnector's posts API:

- the `auth` middleware that guards every posts route;
- the eight post handlers: create, list, fetch, delete, like, unlike, comment and uncomment.

The middleware reads the `x-auth-token` header. A missing or empty header gets 401 "No token, authorization denied". A token that does not verify gets 401 "Token is not valid". Otherwise the token's user is attached to the request and control passes to the handler.

Post documents live in a store keyed by post id (`Posts.PostStore.posts`, a map). A post has:

- an owner (`user`), a text, and the owner's name and avatar;
- a creation `date`;
- a `likes` array of `{user}`;
- a `comments` array of `{id, user, text, name, avatar}`.

The handlers follow the code's steps:

- validate the body text;
- look the post up;
- run the guards: the filter on likes, `find` on comments, the ownership comparisons;
- edit the array: `unshift` puts at the front, `splice` removes at an index found with `indexOf`;
- save the document back.

Each handler answers with a status and a body (`Entities.Response`).

Files:

- `entities.dfy`: documents, responses, the canonical ObjectId check, and `map` as `Project`.
- `jsarray.dfy`: JavaScript's `indexOf` and `splice(start, 1)`, including `splice`'s treatment of a negative start.
- `registry.dfy`: the like and comment guards, and lemmas about what the handlers' array edits do.
- `auth.dfy`: the token gate, as a three-way decision and as the middleware method that writes `req.user`.
- `posts.dfy`: the store class, the handlers, newest-first listing, and a `Handle` method that runs the gate before a route.
- `scenarios.dfy`: two request sequences proved from the handlers' contracts.

Behaviour the model keeps as the code has it:

- **Missing posts on four routes give 500.** Like, unlike, comment and uncomment never check for a missing post. Reading a field of the `null` document throws, and the catch answers 500 "Server Error". A malformed id also gives 500 on these four routes. Fetch and delete answer 404 "Post not found" in both cases.
- **Uncomment can remove the wrong comment.** It checks that comment `comment_id` exists and that the requester wrote it. It then splices out the FIRST comment written by the requester, which need not be the one named.
  - `Registry.UncommentRemovesFirstOwnComment` states exactly when the two coincide: when the requester wrote no earlier comment.
  - `Registry.UncommentCanRemoveAnotherComment` and `Scenarios.DeleteOlderOwnComment` show a case where they differ.
- **Create and comment give 500 for an unknown user.** Both look the requester up in the user collection. If that lookup finds nothing, the handler answers 500.
- **Text is not trimmed.** The text check rejects only the empty string.

## Model

| member | source | states |
|---|---|---|
| `Auth.Gate` | middleware/auth.js:4-17 | Exactly three outcomes. Missing iff the `x-auth-token` header is absent or empty. Invalid iff it is present and the verifier rejects it. Pass iff the verifier accepts it, carrying the verified user. |
| `Auth.Rejection` | middleware/auth.js:6-16 | A rejection is a 401. Its message is "No token, authorization denied" for a missing token and "Token is not valid" for one that fails to verify. |
| `Auth.GateReadsOnlyTokenHeader` | middleware/auth.js:5 | The decision depends on no header but `x-auth-token`. |
| `Auth.Authenticate` | middleware/auth.js:4-17 | The middleware either answers with the rejection and does not call `next`, or sets `req.user` to the verified user and calls `next` exactly once. Never both. A rejected request's `req.user` is unchanged. |
| `Entities.Project` | routes/api/posts.js:132 | `Array.prototype.map`: same length, and each element is `f` applied to the element at the same position. |
| `Entities.LikeUsers` | routes/api/posts.js:132 | `likes.map(like => like.user)`: the user of each like, position by position. |
| `Entities.CommentUsers` | routes/api/posts.js:194 | `comments.map(comment => comment.user)`: the author of each comment, position by position. |
| `JsArray.IndexOf` | routes/api/posts.js:132 | -1 iff the value is absent. Otherwise the index of its first occurrence: it is there, and not in the prefix before it. |
| `Entities.CommentIds` | routes/api/posts.js:187 | The id of each comment, position by position: what `find` compares with `comment_id`. |
| `JsArray.SpliceStart` | routes/api/posts.js:134 | `splice`'s start position: a start in range is kept, a negative start counts back from the end (clamped at 0), and the result never passes the length. |
| `JsArray.Splice` | routes/api/posts.js:134 | For an index in range: one element fewer, the elements before it unchanged, and the elements after it shifted down by one. The removed element is the only multiset difference. A start of -1 removes the last element; a start past the end changes nothing. |
| `Registry.LikesBy` | routes/api/posts.js:105 | The filter on likes keeps only likes by the given user. It is empty iff that user has no like. |
| `Registry.UnlikeIndex` | routes/api/posts.js:132 | `removeIndex` of unlike: -1 iff the requester has no like. Otherwise the requester's like sits there and no earlier like is theirs. |
| `Registry.UncommentIndex` | routes/api/posts.js:194 | `removeIndex` of uncomment: -1 iff the requester wrote no comment. Otherwise the requester wrote the comment there and none earlier; the comment named in the request plays no part. |
| `Registry.FindComment` | routes/api/posts.js:187 | `find` by comment id: none iff no comment has that id. Otherwise the comment at the first position with that id. |
| `Registry.UniqueLikersFilterAtMostOne` | routes/api/posts.js:105-107 | While no user has two likes, the "already liked" filter finds at most one like of any user. |
| `Registry.LikeKeepsUniqueLikers` | routes/api/posts.js:105-113 | A like that passes the guard and is unshifted keeps at most one like per user. The liker then has exactly one. |
| `Registry.UnlikeRemovesTheLike` | routes/api/posts.js:128-138 | After the "not yet liked" guard passes, `removeIndex` is a real position (never -1) holding the requester's like. The splice removes exactly that one like. Under unique likes, the requester has no like left and likes stay unique. |
| `Registry.LikeUnlikeRoundTrip` | routes/api/posts.js:105-134 | Liking, then unliking, restores the likes array exactly. |
| `Registry.CommentUncommentRoundTrip` | routes/api/posts.js:160-196 | A new comment, deleted by its own id, passes both uncomment guards. The deletion restores the comments array exactly. |
| `Registry.UncommentRemovesFirstOwnComment` | routes/api/posts.js:187-196 | Once the guards pass, the splice removes the requester's first comment, at or before the named one. That is the named comment iff the requester wrote no comment before it. Exactly one comment goes. |
| `Registry.UncommentCanRemoveAnotherComment` | routes/api/posts.js:187-196 | A user with comments `c1`, `c2` who deletes `c2` is left with `[c2]`: `c1` was removed instead. |
| `Posts.InsertByDate` | routes/api/posts.js:44 | Inserting into a newest-first listing keeps it newest-first, and adds exactly the new post. |
| `Posts.PostStore.Found` | routes/api/posts.js:58-61 | Whether the post lookup yields a document. In a valid store this holds iff a post is stored under the id, and that post carries the id. |
| `Posts.PostStore.CreatePost` | routes/api/posts.js:12-36 | Empty text: 400 with the "Text is required" error for `text`, and nothing saved. Unknown requester: 500, and nothing saved. Otherwise a post is saved under the new id and returned. Its text is the request's, its owner is the requester, its name and avatar come from the requester's user record, and it has no likes or comments. |
| `Posts.PostStore.GetAllPosts` | routes/api/posts.js:42-50 | 200 with every stored post exactly once and nothing else, ordered by `date` descending. |
| `Posts.PostStore.GetPostById` | routes/api/posts.js:56-70 | 404 "Post not found" when the id is malformed or not stored. Otherwise 200 with the stored post. |
| `Posts.PostStore.DeletePost` | routes/api/posts.js:76-96 | 404 for a malformed or unknown id. 401 "User not authorized" for a non-owner, with the post kept. The owner removes exactly that post. |
| `Posts.PostStore.LikePost` | routes/api/posts.js:102-119 | 500 for a malformed or unknown id. 400 "Post already liked" with nothing changed when the requester has a like. Otherwise the likes become `[{user: requester}]` followed by the old likes, and are returned. The one-like-per-user invariant is kept. |
| `Posts.PostStore.UnlikePost` | routes/api/posts.js:125-144 | 500 for a malformed or unknown id. 400 "Post has not yet been liked" with nothing changed when the requester has no like. Otherwise the requester's like is spliced out. There is one like fewer, the requester has none, and the others keep their order. |
| `Posts.PostStore.AddComment` | routes/api/posts.js:150-178 | Empty text: 400 and nothing saved. Unknown requester or post: 500. Otherwise a new comment is put at the front and the comments are returned. It carries the text, the requester, and the requester's name and avatar; the other comments are unchanged and keep their order. |
| `Posts.PostStore.DeleteComment` | routes/api/posts.js:184-205 | 500 for a malformed or unknown post id. 404 "Comment does not exist" when no comment has `comment_id`. 401 when that comment's author is not the requester. Otherwise the requester's FIRST comment is spliced out, leaving one comment fewer. No change on any failure. |
| `Posts.PostStore.Handle` | routes/api/posts.js:12-205 | The gate runs before every route. Without a verified identity, the response is the gate's 401 and the store and `req.user` are unchanged. With one, `req.user` is the verified user. The two read routes never change the store. |
| `Scenarios.LikeLifecycle` | routes/api/posts.js:12-144 | Create; like (likes `[b]`); like again (400 "Post already liked"); unlike (likes `[]`); owner delete; fetch. The statuses are 200, 200, 400, 200, 200, 404. |
| `Scenarios.DeleteOlderOwnComment` | routes/api/posts.js:150-205 | After comments `c1` then `c2` by the same user, deleting `c1` answers 200 with comments `[c1]`. The named comment survives. |

## Left out

- Mongoose is replaced by the map `posts`, as follows.
  - `Post.findById`, `save` and `remove` become map lookup, update and removal.
  - A post id counts only in its canonical spelling, 24 lower-case hexadecimal digits (`Entities.IsObjectId`), and is compared with the stored ids as an exact string. Any other string is treated as malformed; its cast error is not modelled further.
  - Other spellings the ObjectId cast accepts are not found in the model, although `findById` would find the post. These include upper-case hex and, with the bson 1.x driver, any 12-character string taken as raw bytes. For such an id the model answers 404 on fetch and delete and 500 on the other four routes, where the code would act on the post.
  - Storage failures other than a null document are not modelled. Each would end in the same 500.
- New post ids, new comment ids and `Date.now()` come from the store's generator. They are the `Fresh` parameter.
  - `Posts.PostStore.CreatePost` requires a well-formed post id not already stored, which ObjectId generation provides.
  - Duplicate comment ids are not excluded, and the code does not check for them either.
- Comments carry no `date` field. No handler reads one.
- The user collection is the read-only map `users` from user id to name and avatar. It stands for `User.findById(...).select("-password")`.
- `express-validator` is reduced to its one rule on `text`: the empty string fails. A request body without `text` is modelled as empty text.
- `jwt.verify`, the secret from `config`, and token expiry are the `verify` parameter.
  - An expired or forged token is one `verify` maps to `None`.
  - A payload without a `user` field is not modelled.
- Express lower-cases incoming header names. The model takes the header map as already lower-cased and does not model case-insensitive lookup.
- `console.error` logging and the Express response object are left out. Handlers return a status and a body instead.
- Concurrency is left out, including the read-modify-write races between simultaneous like or comment requests. The model handles one request at a time.
- The posts handlers edit a post as a value and write it back. Aliasing of in-memory documents is not modelled.
- Posts.PostStore.Handle: for a request that passes the gate, it states only that `req.user` is set and that the read routes leave the store alone. What each route then does is stated by that route's handler method, which `Handle` calls.
- Posts.PostStore.GetAllPosts: the order among posts with equal `date` is left open, as MongoDB's sort leaves it.
