/** The post handlers (routes/posts.js), over the `posts` collection in its natural order. */
module PostsRouter {
  import opened Common
  import opened Json
  import Joi
  import Arrays
  import PostValidation
  import ObjectIdValidation
  import opened PostModel
  import UserModel

  const NoPosts: ErrorMap := map["noPost" := "No posts available"]
  const NotFoundForGet: ErrorMap := map["post" := "No post found with given ID"]
  const NotFoundForDelete: ErrorMap := map["post" := "No post found with given id"]
  const NotFoundForLike: ErrorMap := map["error" := "No post found"]
  const NotFoundForComment: ErrorMap := map["post" := "No post found"]
  const NotAuthor: ErrorMap := map["error" := "Unauthorized user"]
  const NoSuchComment: ErrorMap := map["error" := "Comment does not exist"]

  /** A handler's answer together with the collection it leaves behind. */
  datatype Handled<P> = Handled(reply: Response<P>, posts: seq<Post>)

  function WithId(id: Id): Post -> bool
  {
    (p: Post) => p.id == id
  }

  function LikedBy(user: Id): Like -> bool
  {
    (l: Like) => l.user == user
  }

  function WithCommentId(id: Id): Comment -> bool
  {
    (c: Comment) => c.id == id
  }

  /** The driver casts an id string to an ObjectId: 24 hex digits, or any 12 characters. */
  predicate Castable(id: string)
  {
    Joi.IsObjectId(id) || |id| == 12
  }

  /** Distinct post ids, at most one like per user, and the required texts present. */
  predicate Consistent(posts: seq<Post>)
  {
    && (forall i, j :: 0 <= i < j < |posts| ==> posts[i].id != posts[j].id)
    && (forall i :: 0 <= i < |posts| ==> UniqueLikers(posts[i].likes) && Savable(posts[i]))
  }

  predicate FreshId(posts: seq<Post>, id: Id)
  {
    forall i :: 0 <= i < |posts| ==> posts[i].id != id
  }

  /** Newest first, as `sort({date: -1})` orders them. */
  predicate NewestFirst(s: seq<Post>)
  {
    forall i, j :: 0 <= i < j < |s| ==> s[i].date >= s[j].date
  }

  // ---------------------------------------------------------------------------
  // Listing
  // ---------------------------------------------------------------------------

  /** Insert a post into a newest-first sequence, before the first older one. */
  function InsertByDate(p: Post, s: seq<Post>): (r: seq<Post>)
    ensures multiset(r) == multiset(s) + multiset{p}
  {
    if s == [] then [p]
    else if p.date >= s[0].date then [p] + s
    else
      assert s == [s[0]] + s[1..];
      [s[0]] + InsertByDate(p, s[1..])
  }

  lemma {:induction false} InsertKeepsNewestFirst(p: Post, s: seq<Post>)
    requires NewestFirst(s)
    ensures NewestFirst(InsertByDate(p, s))
  {
    var r := InsertByDate(p, s);
    if s == [] {
    } else if p.date >= s[0].date {
      assert r == [p] + s;
      forall j | 0 < j < |r| ensures r[0].date >= r[j].date {
        assert r[j] == s[j - 1];
      }
    } else {
      var rest := InsertByDate(p, s[1..]);
      InsertKeepsNewestFirst(p, s[1..]);
      InsertKeepsBound(p, s[1..], s[0].date);
      assert r == [s[0]] + rest;
    }
  }

  /** Inserting a post no newer than `d` into posts no newer than `d` gives posts no newer than `d`. */
  lemma InsertKeepsBound(p: Post, s: seq<Post>, d: int)
    requires p.date <= d
    requires forall k :: 0 <= k < |s| ==> s[k].date <= d
    ensures forall k :: 0 <= k < |InsertByDate(p, s)| ==> InsertByDate(p, s)[k].date <= d
  {
    var r := InsertByDate(p, s);
    forall k | 0 <= k < |r| ensures r[k].date <= d {
      assert r[k] in multiset(r);
      if r[k] != p {
        assert r[k] in multiset(s);
        var m :| 0 <= m < |s| && s[m] == r[k];
      }
    }
  }


  // ---------------------------------------------------------------------------
  // The handlers, as functions of the collection
  // ---------------------------------------------------------------------------

  /** GET /:id: check the id, then find the post. */
  function HandleGet(posts: seq<Post>, id: Id): (r: Response<Post>)
    ensures !Joi.IsObjectId(id) ==> r == Err(400, ObjectIdValidation.InvalidId)
    ensures Joi.IsObjectId(id) ==>
      (r.Ok? <==> exists i :: 0 <= i < |posts| && posts[i].id == id) &&
      (!r.Ok? ==> r == Err(404, NotFoundForGet))
    ensures r.Ok? ==> r.body in posts && r.body.id == id
  {
    var v := ObjectIdValidation.Check(Some(id));
    if v.Reject? then Err(v.status, v.errors)
    else
      var i := Arrays.FindFirst(posts, WithId(id));
      if i < 0 then Err(404, NotFoundForGet) else Ok(posts[i])
  }

  /** The post that POST / stores: the body's text, the requester's id and name, nothing liked. */
  function NewPost(me: UserModel.PublicUser, body: Body, id: Id, now: int): (p: Post)
    ensures p.id == id && p.date == now
    ensures p.user == me.id && p.name == me.name
    ensures p.likes == [] && p.comments == []
    ensures PostValidation.Acceptable(body) ==> Some(p.text) == StrMember(body, "text") && Savable(p)
  {
    Post(id, me.id, Text(body, "text"), me.name, [], [], now)
  }

  /** POST /: validate, then store the new post at the end of the collection. */
  function HandleCreate(posts: seq<Post>, me: UserModel.PublicUser, fm: Formats, body: Body, id: Id, now: int)
    : (h: Handled<Post>)
    ensures PostValidation.Verdict(fm, body).Reject? ==>
      h == Handled(Err(400, PostValidation.Verdict(fm, body).errors), posts)
    ensures h.reply.Ok? <==> PostValidation.Acceptable(body)
    ensures h.reply.Ok? ==>
      && h.posts == posts + [h.reply.body]
      && h.reply.body == Post(id, me.id, StrMember(body, "text").value, me.name, [], [], now)
      && Savable(h.reply.body)
  {
    var v := PostValidation.Verdict(fm, body);
    if v.Reject? then Handled(Err(400, v.errors), posts)
    else
      PostValidation.PassGivesText(fm, body);
      var p := NewPost(me, body, id, now);
      Handled(Ok(p), posts + [p])
  }

  /** DELETE /:id: check the id, find the post, require its author, remove it. */
  function HandleDelete(posts: seq<Post>, me: UserModel.PublicUser, id: Id): (h: Handled<Deleted>)
    ensures !h.reply.Ok? ==> h.posts == posts
    ensures !Joi.IsObjectId(id) ==> h.reply == Err(400, ObjectIdValidation.InvalidId)
    ensures Joi.IsObjectId(id) && FreshId(posts, id) ==> h.reply == Err(404, NotFoundForDelete)
    ensures h.reply.Ok? ==> exists i ::
      && 0 <= i < |posts| && posts[i].id == id && posts[i].user == me.id
      && h.posts == posts[..i] + posts[i + 1..]
  {
    var v := ObjectIdValidation.Check(Some(id));
    if v.Reject? then Handled(Err(v.status, v.errors), posts)
    else
      var i := Arrays.FindFirst(posts, WithId(id));
      if i < 0 then Handled(Err(404, NotFoundForDelete), posts)
      else if posts[i].user != me.id then Handled(Err(401, NotAuthor), posts)
      else Handled(Ok(Deleted), posts[..i] + posts[i + 1..])
  }

  /**
   * The likes after a toggle by `user`: when `likes.filter(...)` finds a like of theirs, the
   * entry at `likes.map(like => like.user).indexOf(user)` is spliced out; otherwise
   * `{user}` is pushed at the end.  The model compares the stored ObjectId with the
   * requester's id string by value.
   */
  function ToggledLikes(likes: seq<Like>, user: Id): seq<Like>
  {
    if Arrays.FindFirst(likes, LikedBy(user)) >= 0 then Arrays.Splice(likes, Arrays.IndexOf(LikeUsers(likes), user))
    else likes + [Like(user)]
  }

  /** POST /like/:id: check the id, find the post, toggle the requester's like. */
  function HandleToggleLike(posts: seq<Post>, me: UserModel.PublicUser, id: Id): (h: Handled<Post>)
    ensures !h.reply.Ok? ==> h.posts == posts
    ensures !Joi.IsObjectId(id) ==> h.reply == Err(400, ObjectIdValidation.InvalidId)
    ensures Joi.IsObjectId(id) ==>
      (h.reply.Ok? <==> exists i :: 0 <= i < |posts| && posts[i].id == id) &&
      (!h.reply.Ok? ==> h.reply == Err(404, NotFoundForLike))
    ensures h.reply.Ok? ==> exists i ::
      && 0 <= i < |posts| && posts[i].id == id
      && h.reply.body == posts[i].(likes := ToggledLikes(posts[i].likes, me.id))
      && h.posts == posts[i := h.reply.body]
  {
    var v := ObjectIdValidation.Check(Some(id));
    if v.Reject? then Handled(Err(v.status, v.errors), posts)
    else
      var i := Arrays.FindFirst(posts, WithId(id));
      if i < 0 then Handled(Err(404, NotFoundForLike), posts)
      else
        var p := posts[i].(likes := ToggledLikes(posts[i].likes, me.id));
        Handled(Ok(p), posts[i := p])
  }

  /** The comment POST /comment/:id adds: the body's text, the requester's id and name. */
  function NewComment(me: UserModel.PublicUser, body: Body, commentId: Id, now: int): (c: Comment)
    ensures c.id == commentId && c.date == now
    ensures c.user == me.id && c.name == me.name
    ensures PostValidation.Acceptable(body) ==> Some(c.text) == StrMember(body, "text") && c.text != ""
  {
    Comment(commentId, me.id, Text(body, "text"), me.name, now)
  }

  /**
   * POST /comment/:id as written: the id check is run on `req.params.user_id`, which this
   * route does not have, so it always passes; a malformed `:id` then reaches `findById`,
   * whose cast error the handler does not catch.
   */
  function HandleAddCommentAsWritten(posts: seq<Post>, me: UserModel.PublicUser, fm: Formats, body: Body,
                                     id: Id, commentId: Id, now: int): (h: Handled<Post>)
    ensures !h.reply.Ok? ==> h.posts == posts
  {
    var checked := ObjectIdValidation.Check(None);
    if checked.Reject? then Handled(Err(checked.status, checked.errors), posts)
    else
      var v := PostValidation.Verdict(fm, body);
      if v.Reject? then Handled(Err(400, v.errors), posts)
      else if !Castable(id) then Handled(Fault, posts)
      else
        var i := Arrays.FindFirst(posts, WithId(id));
        if i < 0 then Handled(Err(404, NotFoundForComment), posts)
        else
          var p := posts[i].(comments := [NewComment(me, body, commentId, now)] + posts[i].comments);
          Handled(Ok(p), posts[i := p])
  }

  /** POST /comment/:id with the id check on the route's own `:id`. */
  function HandleAddComment(posts: seq<Post>, me: UserModel.PublicUser, fm: Formats, body: Body,
                            id: Id, commentId: Id, now: int): (h: Handled<Post>)
    ensures !h.reply.Ok? ==> h.posts == posts
    ensures !Joi.IsObjectId(id) ==> h.reply == Err(400, ObjectIdValidation.InvalidId)
    ensures Joi.IsObjectId(id) && PostValidation.Verdict(fm, body).Reject? ==>
      h.reply == Err(400, PostValidation.Verdict(fm, body).errors)
    ensures Joi.IsObjectId(id) && PostValidation.Acceptable(body) ==>
      (h.reply.Ok? <==> exists i :: 0 <= i < |posts| && posts[i].id == id) &&
      (!h.reply.Ok? ==> h.reply == Err(404, NotFoundForComment))
    ensures h.reply != Fault
    ensures h.reply.Ok? ==> exists i ::
      && 0 <= i < |posts| && posts[i].id == id
      && h.reply.body == posts[i].(comments := [NewComment(me, body, commentId, now)] + posts[i].comments)
      && h.posts == posts[i := h.reply.body]
  {
    var checked := ObjectIdValidation.Check(Some(id));
    if checked.Reject? then Handled(Err(checked.status, checked.errors), posts)
    else
      var v := PostValidation.Verdict(fm, body);
      if v.Reject? then Handled(Err(400, v.errors), posts)
      else
        var i := Arrays.FindFirst(posts, WithId(id));
        if i < 0 then Handled(Err(404, NotFoundForComment), posts)
        else
          var p := posts[i].(comments := [NewComment(me, body, commentId, now)] + posts[i].comments);
          Handled(Ok(p), posts[i := p])
  }

  /**
   * DELETE /comment/:id/:comment_id: check both ids, find the post, require the POST's
   * author, require the comment, and splice it out.
   */
  function HandleDeleteComment(posts: seq<Post>, me: UserModel.PublicUser, id: Id, commentId: Id): (h: Handled<Post>)
    ensures !h.reply.Ok? ==> h.posts == posts
    ensures !Joi.IsObjectId(id) || !Joi.IsObjectId(commentId) ==> h.reply == Err(400, ObjectIdValidation.InvalidId)
    ensures Joi.IsObjectId(id) && Joi.IsObjectId(commentId) && FreshId(posts, id) ==>
      h.reply == Err(404, NotFoundForComment)
    ensures h.reply.Ok? ==> exists i ::
      && 0 <= i < |posts| && posts[i].id == id && posts[i].user == me.id
      && commentId in CommentIds(posts[i].comments)
      && h.posts == posts[i := h.reply.body]
  {
    var v := ObjectIdValidation.Check(Some(id));
    if v.Reject? then Handled(Err(v.status, v.errors), posts)
    else
      var w := ObjectIdValidation.Check(Some(commentId));
      if w.Reject? then Handled(Err(w.status, w.errors), posts)
      else
        var i := Arrays.FindFirst(posts, WithId(id));
        if i < 0 then Handled(Err(404, NotFoundForComment), posts)
        else if posts[i].user != me.id then Handled(Err(401, NotAuthor), posts)
        else if Arrays.FindFirst(posts[i].comments, WithCommentId(commentId)) < 0 then
          Handled(Err(404, NoSuchComment), posts)
        else
          CommentFoundIffListed(posts[i].comments, commentId);
          var k := Arrays.IndexOf(CommentIds(posts[i].comments), commentId);
          var p := posts[i].(comments := Arrays.Splice(posts[i].comments, k));
          Handled(Ok(p), posts[i := p])
  }

  // ---------------------------------------------------------------------------
  // Properties
  // ---------------------------------------------------------------------------

  lemma {:induction false} LikedIffListed(likes: seq<Like>, user: Id)
    ensures Arrays.FindFirst(likes, LikedBy(user)) >= 0 <==> user in LikeUsers(likes)
  {
    var users := LikeUsers(likes);
    if user in users {
      var k :| 0 <= k < |users| && users[k] == user;
      assert LikedBy(user)(likes[k]);
    }
  }

  lemma {:induction false} CommentFoundIffListed(comments: seq<Comment>, id: Id)
    ensures Arrays.FindFirst(comments, WithCommentId(id)) >= 0 <==> id in CommentIds(comments)
  {
    var ids := CommentIds(comments);
    if id in ids {
      var k :| 0 <= k < |ids| && ids[k] == id;
      assert WithCommentId(id)(comments[k]);
    }
  }

  /**
   * A toggle by a user who has liked removes exactly their (first) like and keeps the
   * others in order; by a user who has not, it appends their like at the end.
   */
  lemma ToggleRemovesOrAppends(likes: seq<Like>, user: Id)
    ensures user in LikeUsers(likes) ==>
      exists k ::
        && 0 <= k < |likes| && likes[k] == Like(user)
        && user !in LikeUsers(likes[..k])
        && ToggledLikes(likes, user) == likes[..k] + likes[k + 1..]
    ensures user in LikeUsers(likes) ==>
      multiset(ToggledLikes(likes, user)) + multiset{Like(user)} == multiset(likes)
    ensures user !in LikeUsers(likes) ==> ToggledLikes(likes, user) == likes + [Like(user)]
  {
    if user in LikeUsers(likes) {
      var k := UnlikeRemoves(likes, user);
    } else {
      LikeAppends(likes, user);
    }
  }

  /** The unlike half of the toggle, with the position it removes. */
  lemma UnlikeRemoves(likes: seq<Like>, user: Id) returns (k: int)
    requires user in LikeUsers(likes)
    ensures 0 <= k < |likes| && likes[k] == Like(user)
    ensures user !in LikeUsers(likes[..k])
    ensures ToggledLikes(likes, user) == likes[..k] + likes[k + 1..]
    ensures multiset(ToggledLikes(likes, user)) + multiset{Like(user)} == multiset(likes)
  {
    LikedIffListed(likes, user);
    Arrays.SpliceAtIndexOf(likes, LikeUsers(likes), user);
    k := Arrays.IndexOf(LikeUsers(likes), user);
    assert likes[k] == Like(user);
    assert LikeUsers(likes[..k]) == LikeUsers(likes)[..k];
  }

  /** The like half of the toggle. */
  lemma LikeAppends(likes: seq<Like>, user: Id)
    requires user !in LikeUsers(likes)
    ensures ToggledLikes(likes, user) == likes + [Like(user)]
  {
    LikedIffListed(likes, user);
  }


  lemma RemovalKeepsUnique(likes: seq<Like>, k: nat)
    requires UniqueLikers(likes) && k < |likes|
    ensures UniqueLikers(likes[..k] + likes[k + 1..])
    ensures likes[k].user !in LikeUsers(likes[..k] + likes[k + 1..])
  {
    var r := likes[..k] + likes[k + 1..];
    assert forall m :: 0 <= m < k ==> r[m] == likes[m];
    assert forall m :: k <= m < |r| ==> r[m] == likes[m + 1];
    assert forall m :: 0 <= m < |r| ==> LikeUsers(r)[m] == r[m].user;
  }

  lemma AppendKeepsUnique(likes: seq<Like>, user: Id)
    requires UniqueLikers(likes) && user !in LikeUsers(likes)
    ensures UniqueLikers(likes + [Like(user)])
  {
    var r := likes + [Like(user)];
    forall i | 0 <= i < |likes| ensures r[i].user != user {
      assert LikeUsers(likes)[i] == likes[i].user;
    }
  }

  /** Toggling keeps at most one like per user. */
  lemma ToggleKeepsUniqueLikers(likes: seq<Like>, user: Id)
    requires UniqueLikers(likes)
    ensures UniqueLikers(ToggledLikes(likes, user))
  {
    if user in LikeUsers(likes) {
      var k := UnlikeRemoves(likes, user);
      RemovalKeepsUnique(likes, k);
    } else {
      LikeAppends(likes, user);
      AppendKeepsUnique(likes, user);
    }
  }


  /** With at most one like per user, a toggle flips whether the user likes the post. */
  lemma ToggleFlipsLike(likes: seq<Like>, user: Id)
    requires UniqueLikers(likes)
    ensures user in LikeUsers(ToggledLikes(likes, user)) <==> user !in LikeUsers(likes)
  {
    if user in LikeUsers(likes) {
      var k := UnlikeRemoves(likes, user);
      RemovalKeepsUnique(likes, k);
    } else {
      LikeAppends(likes, user);
      assert LikeUsers(likes + [Like(user)])[|likes|] == user;
    }
  }


  /** Liking and then unliking gives back the likes the post had. */
  lemma ToggleTwiceRestores(likes: seq<Like>, user: Id)
    requires user !in LikeUsers(likes)
    ensures ToggledLikes(ToggledLikes(likes, user), user) == likes
  {
    var once := likes + [Like(user)];
    LikeAppends(likes, user);
    assert LikeUsers(once)[|likes|] == user;
    forall m | 0 <= m < |likes| ensures once[m].user != user {
      assert LikeUsers(likes)[m] == likes[m].user;
    }
    var k := UnlikeRemoves(once, user);
    assert k == |likes|;
    assert once[..|likes|] == likes;
  }


  /** Creating a post under a fresh id and then fetching that id answers the new post. */
  lemma CreateThenGet(posts: seq<Post>, me: UserModel.PublicUser, fm: Formats, body: Body, id: Id, now: int)
    requires FreshId(posts, id) && Joi.IsObjectId(id)
    requires PostValidation.Acceptable(body)
    ensures var h := HandleCreate(posts, me, fm, body, id, now);
      HandleGet(h.posts, id) == h.reply
  {
    var h := HandleCreate(posts, me, fm, body, id, now);
    assert forall k :: 0 <= k < |posts| ==> h.posts[k] == posts[k];
    Arrays.FirstIsUnique(h.posts, WithId(id), |posts|);
  }

  /** The author deleting a post just created under a fresh id gives back the collection. */
  lemma CreateThenDelete(posts: seq<Post>, me: UserModel.PublicUser, fm: Formats, body: Body, id: Id, now: int)
    requires FreshId(posts, id) && Joi.IsObjectId(id)
    requires PostValidation.Acceptable(body)
    ensures var h := HandleCreate(posts, me, fm, body, id, now);
      HandleDelete(h.posts, me, id) == Handled(Ok(Deleted), posts)
  {
    var h := HandleCreate(posts, me, fm, body, id, now);
    assert forall k :: 0 <= k < |posts| ==> h.posts[k] == posts[k];
    Arrays.FirstIsUnique(h.posts, WithId(id), |posts|);
    assert h.posts[..|posts|] == posts;
  }

  /** Only the author can delete: anyone else gets 401 and the post stays. */
  lemma DeleteNeedsAuthor(posts: seq<Post>, me: UserModel.PublicUser, id: Id, i: nat)
    requires Consistent(posts) && Joi.IsObjectId(id)
    requires i < |posts| && posts[i].id == id && posts[i].user != me.id
    ensures HandleDelete(posts, me, id) == Handled(Err(401, NotAuthor), posts)
  {
    Arrays.FirstIsUnique(posts, WithId(id), i);
  }

  /** The author deleting their post removes exactly it, keeping the others in order. */
  lemma DeleteByAuthorSucceeds(posts: seq<Post>, me: UserModel.PublicUser, id: Id, i: nat)
    requires Consistent(posts) && Joi.IsObjectId(id)
    requires i < |posts| && posts[i].id == id && posts[i].user == me.id
    ensures HandleDelete(posts, me, id) == Handled(Ok(Deleted), posts[..i] + posts[i + 1..])
  {
    Arrays.FirstIsUnique(posts, WithId(id), i);
  }

  /** A like toggle on a stored post answers that post with its likes toggled and stores it. */
  lemma ToggleLikeAt(posts: seq<Post>, me: UserModel.PublicUser, id: Id, i: nat)
    requires Consistent(posts) && Joi.IsObjectId(id)
    requires i < |posts| && posts[i].id == id
    ensures var p := posts[i].(likes := ToggledLikes(posts[i].likes, me.id));
      HandleToggleLike(posts, me, id) == Handled(Ok(p), posts[i := p])
  {
    Arrays.FirstIsUnique(posts, WithId(id), i);
  }

  /** A valid comment on a stored post is put first among that post's comments, which is stored. */
  lemma AddCommentAt(posts: seq<Post>, me: UserModel.PublicUser, fm: Formats, body: Body,
                     id: Id, commentId: Id, now: int, i: nat)
    requires Consistent(posts) && Joi.IsObjectId(id) && PostValidation.Acceptable(body)
    requires i < |posts| && posts[i].id == id
    ensures var p := posts[i].(comments := [NewComment(me, body, commentId, now)] + posts[i].comments);
      HandleAddComment(posts, me, fm, body, id, commentId, now) == Handled(Ok(p), posts[i := p])
  {
    Arrays.FirstIsUnique(posts, WithId(id), i);
  }

  /**
   * With both ids well formed and the post stored: anyone but its author gets 401, a comment id
   * it does not hold gets 404, and otherwise the first comment with that id is removed.
   */
  lemma DeleteCommentOutcomes(posts: seq<Post>, me: UserModel.PublicUser, id: Id, commentId: Id, i: nat)
    requires Consistent(posts) && Joi.IsObjectId(id) && Joi.IsObjectId(commentId)
    requires i < |posts| && posts[i].id == id
    ensures posts[i].user != me.id ==>
      HandleDeleteComment(posts, me, id, commentId) == Handled(Err(401, NotAuthor), posts)
    ensures posts[i].user == me.id && commentId !in CommentIds(posts[i].comments) ==>
      HandleDeleteComment(posts, me, id, commentId) == Handled(Err(404, NoSuchComment), posts)
    ensures posts[i].user == me.id && commentId in CommentIds(posts[i].comments) ==>
      var k := Arrays.IndexOf(CommentIds(posts[i].comments), commentId);
      var p := posts[i].(comments := posts[i].comments[..k] + posts[i].comments[k + 1..]);
      HandleDeleteComment(posts, me, id, commentId) == Handled(Ok(p), posts[i := p])
  {
    Arrays.FirstIsUnique(posts, WithId(id), i);
    CommentFoundIffListed(posts[i].comments, commentId);
  }

  /** A malformed id is answered 400 before the collection is looked at. */
  lemma MalformedIdIgnoresStore(posts: seq<Post>, others: seq<Post>, me: UserModel.PublicUser, id: Id, commentId: Id)
    requires !Joi.IsObjectId(id)
    ensures HandleGet(posts, id) == HandleGet(others, id)
    ensures HandleDelete(posts, me, id).reply == HandleDelete(others, me, id).reply
    ensures HandleToggleLike(posts, me, id).reply == HandleToggleLike(others, me, id).reply
    ensures HandleDeleteComment(posts, me, id, commentId).reply == HandleDeleteComment(others, me, id, commentId).reply
  {
  }

  /** Replacing a post by one with the same id, unique likers and the required texts keeps validity. */
  lemma ReplaceKeepsConsistent(posts: seq<Post>, i: nat, p: Post)
    requires Consistent(posts) && i < |posts|
    requires p.id == posts[i].id && UniqueLikers(p.likes) && Savable(p)
    ensures Consistent(posts[i := p])
  {
    var r := posts[i := p];
    assert forall k :: 0 <= k < |r| ==> r[k].id == posts[k].id;
  }

  /** Creating a post under a fresh id keeps the collection valid. */
  lemma CreateKeepsConsistent(posts: seq<Post>, me: UserModel.PublicUser, fm: Formats, body: Body, id: Id, now: int)
    requires Consistent(posts) && FreshId(posts, id)
    ensures Consistent(HandleCreate(posts, me, fm, body, id, now).posts)
  {
    var h := HandleCreate(posts, me, fm, body, id, now);
    if h.reply.Ok? {
      AppendKeepsConsistent(posts, h.reply.body);
    }
  }

  lemma AppendKeepsConsistent(posts: seq<Post>, p: Post)
    requires Consistent(posts) && FreshId(posts, p.id) && Savable(p) && p.likes == []
    ensures Consistent(posts + [p])
  {
    var r := posts + [p];
    assert forall k :: 0 <= k < |posts| ==> r[k] == posts[k];
    assert r[|posts|] == p;
  }

  /** Toggling a like keeps the collection valid. */
  lemma ToggleLikeKeepsConsistent(posts: seq<Post>, me: UserModel.PublicUser, id: Id)
    requires Consistent(posts)
    ensures Consistent(HandleToggleLike(posts, me, id).posts)
  {
    var h := HandleToggleLike(posts, me, id);
    if h.reply.Ok? {
      var i := Arrays.FindFirst(posts, WithId(id));
      ToggleKeepsUniqueLikers(posts[i].likes, me.id);
      ReplaceKeepsConsistent(posts, i, h.reply.body);
    }
  }

  /** Adding a comment keeps the collection valid. */
  lemma AddCommentKeepsConsistent(posts: seq<Post>, me: UserModel.PublicUser, fm: Formats, body: Body, id: Id, commentId: Id, now: int)
    requires Consistent(posts)
    ensures Consistent(HandleAddComment(posts, me, fm, body, id, commentId, now).posts)
  {
    var h := HandleAddComment(posts, me, fm, body, id, commentId, now);
    if h.reply.Ok? {
      PostValidation.PassGivesText(fm, body);
      var i := Arrays.FindFirst(posts, WithId(id));
      var c := NewComment(me, body, commentId, now);
      var p := posts[i].(comments := [c] + posts[i].comments);
      assert h == Handled(Ok(p), posts[i := p]);
      PrependKeepsSavable(posts[i], c);
      ReplaceKeepsConsistent(posts, i, p);
    }
  }

  lemma PrependKeepsSavable(p: Post, c: Comment)
    requires Savable(p) && c.text != ""
    ensures Savable(p.(comments := [c] + p.comments))
  {
    var cs := [c] + p.comments;
    assert forall k :: 1 <= k < |cs| ==> cs[k] == p.comments[k - 1];
  }


  /**
   * The new comment goes first, carries the requester's id and name whatever `name` the
   * body sends, and the other comments follow unchanged.
   */
  lemma AddCommentPrepends(posts: seq<Post>, me: UserModel.PublicUser, fm: Formats, body: Body, id: Id, commentId: Id, now: int)
    requires HandleAddComment(posts, me, fm, body, id, commentId, now).reply.Ok?
    ensures var p := HandleAddComment(posts, me, fm, body, id, commentId, now).reply.body;
      && |p.comments| >= 1
      && p.comments[0] == Comment(commentId, me.id, StrMember(body, "text").value, me.name, now)
      && p.id == id
  {
    PostValidation.PassGivesText(fm, body);
  }

  /** Deleting a comment removes exactly the first comment with that id, keeping the order. */
  lemma DeleteCommentRemovesIt(posts: seq<Post>, me: UserModel.PublicUser, id: Id, commentId: Id) returns (i: int, k: int)
    requires HandleDeleteComment(posts, me, id, commentId).reply.Ok?
    ensures 0 <= i < |posts| && posts[i].id == id && posts[i].user == me.id
    ensures 0 <= k < |posts[i].comments| && posts[i].comments[k].id == commentId
    ensures commentId !in CommentIds(posts[i].comments[..k])
    ensures var p := posts[i].(comments := posts[i].comments[..k] + posts[i].comments[k + 1..]);
      HandleDeleteComment(posts, me, id, commentId) == Handled(Ok(p), posts[i := p])
  {
    var h := HandleDeleteComment(posts, me, id, commentId);
    i := Arrays.FindFirst(posts, WithId(id));
    var cs := posts[i].comments;
    CommentFoundIffListed(cs, commentId);
    k := Arrays.IndexOf(CommentIds(cs), commentId);
    assert h.reply.body.comments == Arrays.Splice(cs, k);
    Arrays.SpliceAtIndexOf(cs, CommentIds(cs), commentId);
    assert CommentIds(cs[..k]) == CommentIds(cs)[..k];
  }


  /** The post's author deleting a comment just added under a well-formed id gives back the collection. */
  lemma AddThenDeleteComment(posts: seq<Post>, me: UserModel.PublicUser, fm: Formats, body: Body, id: Id,
                             commentId: Id, now: int)
    requires Joi.IsObjectId(commentId)
    requires HandleAddComment(posts, me, fm, body, id, commentId, now).reply.Ok?
    requires forall i :: 0 <= i < |posts| && posts[i].id == id ==> posts[i].user == me.id
    ensures var h := HandleAddComment(posts, me, fm, body, id, commentId, now);
      HandleDeleteComment(h.posts, me, id, commentId).posts == posts
  {
    var h := HandleAddComment(posts, me, fm, body, id, commentId, now);
    var i := Arrays.FindFirst(posts, WithId(id));
    var c := NewComment(me, body, commentId, now);
    var p := posts[i].(comments := [c] + posts[i].comments);
    assert h.posts == posts[i := p];
    Arrays.FirstIsUnique(posts[i := p], WithId(id), i);
    DeleteCommentAfterAdd(posts[i := p], me, id, commentId, i, c, posts[i].comments);
    assert p.(comments := posts[i].comments) == posts[i];
  }

  lemma DeleteCommentAfterAdd(q: seq<Post>, me: UserModel.PublicUser, id: Id, commentId: Id, i: int,
                              c: Comment, rest: seq<Comment>)
    requires Joi.IsObjectId(id) && Joi.IsObjectId(commentId)
    requires 0 <= i == Arrays.FindFirst(q, WithId(id)) && q[i].user == me.id
    requires q[i].comments == [c] + rest && c.id == commentId
    ensures HandleDeleteComment(q, me, id, commentId).posts == q[i := q[i].(comments := rest)]
  {
    var cs := q[i].comments;
    Arrays.FirstIsUnique(cs, WithCommentId(commentId), 0);
    assert CommentIds(cs)[0] == commentId;
    assert Arrays.IndexOf(CommentIds(cs), commentId) == 0;
    assert Arrays.Splice(cs, 0) == rest;
  }


  /** Removing a post keeps the collection consistent. */
  lemma DeleteKeepsConsistent(posts: seq<Post>, me: UserModel.PublicUser, id: Id)
    requires Consistent(posts)
    ensures Consistent(HandleDelete(posts, me, id).posts)
  {
    var h := HandleDelete(posts, me, id);
    if h.reply.Ok? {
      var i := Arrays.FindFirst(posts, WithId(id));
      var r := h.posts;
      assert forall k :: 0 <= k < i ==> r[k] == posts[k];
      assert forall k :: i <= k < |r| ==> r[k] == posts[k + 1];
    }
  }

  lemma RemoveCommentKeepsSavable(p: Post, k: nat)
    requires Savable(p) && k < |p.comments|
    ensures Savable(p.(comments := p.comments[..k] + p.comments[k + 1..]))
  {
    var r := p.comments[..k] + p.comments[k + 1..];
    assert forall m :: 0 <= m < k ==> r[m] == p.comments[m];
    assert forall m :: k <= m < |r| ==> r[m] == p.comments[m + 1];
  }

  /** Removing a comment keeps the collection consistent. */
  lemma DeleteCommentKeepsConsistent(posts: seq<Post>, me: UserModel.PublicUser, id: Id, commentId: Id)
    requires Consistent(posts)
    ensures Consistent(HandleDeleteComment(posts, me, id, commentId).posts)
  {
    var h := HandleDeleteComment(posts, me, id, commentId);
    if h.reply.Ok? {
      var i, k := DeleteCommentRemovesIt(posts, me, id, commentId);
      assert h.reply.body == posts[i].(comments := posts[i].comments[..k] + posts[i].comments[k + 1..]);
      RemoveCommentKeepsSavable(posts[i], k);
      ReplaceKeepsConsistent(posts, i, h.reply.body);
    }
  }


  // ---------------------------------------------------------------------------
  // The comment route's id check
  // ---------------------------------------------------------------------------

  /**
   * With a body that passes validation and a `:id` the driver cannot cast, the route as
   * written lets the cast error escape, where the corrected route answers 400.
   */
  lemma UncastableCommentTarget(posts: seq<Post>, me: UserModel.PublicUser, fm: Formats, body: Body,
                                id: Id, commentId: Id, now: int)
    requires PostValidation.Acceptable(body) && !Castable(id)
    ensures HandleAddCommentAsWritten(posts, me, fm, body, id, commentId, now).reply == Fault
    ensures HandleAddComment(posts, me, fm, body, id, commentId, now).reply == Err(400, ObjectIdValidation.InvalidId)
  {
  }

  /** The concrete request `POST /comment/xyz` with body `{text: "Nice post"}`. */
  lemma UncastableCommentTargetExample(posts: seq<Post>, me: UserModel.PublicUser, fm: Formats, commentId: Id, now: int)
    ensures HandleAddCommentAsWritten(posts, me, fm, [Entry("text", Str("Nice post"))], "xyz", commentId, now).reply == Fault
    ensures HandleAddComment(posts, me, fm, [Entry("text", Str("Nice post"))], "xyz", commentId, now).reply
            == Err(400, ObjectIdValidation.InvalidId)
  {
    var body := [Entry("text", Str("Nice post"))];
    assert Lookup(body, "text") == Some(Str("Nice post"));
    assert Lookup(body, "name") == None;
    assert PostValidation.Acceptable(body);
    UncastableCommentTarget(posts, me, fm, body, "xyz", commentId, now);
  }

  /** On a well-formed `:id` the two versions of the route agree. */
  lemma CommentRoutesAgree(posts: seq<Post>, me: UserModel.PublicUser, fm: Formats, body: Body,
                           id: Id, commentId: Id, now: int)
    requires Joi.IsObjectId(id)
    ensures HandleAddCommentAsWritten(posts, me, fm, body, id, commentId, now)
            == HandleAddComment(posts, me, fm, body, id, commentId, now)
  {
  }

  // ---------------------------------------------------------------------------
  // The collection and its routes
  // ---------------------------------------------------------------------------

  /** The `posts` collection; each method is one route handler. */
  class PostStore {
    var posts: seq<Post>

    constructor()
      ensures posts == []
    {
      posts := [];
    }

    /** GET /: every post, newest first, or 404 when there is none. */
    method List() returns (reply: Response<seq<Post>>)
      ensures reply.Ok? <==> |posts| > 0
      ensures !reply.Ok? ==> reply == Err(404, NoPosts)
      ensures reply.Ok? ==> NewestFirst(reply.body) && multiset(reply.body) == multiset(posts)
    {
      var sorted: seq<Post> := [];
      var i := 0;
      while i < |posts|
        invariant 0 <= i <= |posts|
        invariant NewestFirst(sorted)
        invariant multiset(sorted) == multiset(posts[..i])
      {
        InsertKeepsNewestFirst(posts[i], sorted);
        sorted := InsertByDate(posts[i], sorted);
        assert posts[..i + 1] == posts[..i] + [posts[i]];
        i := i + 1;
      }
      assert posts[..i] == posts;
      if |sorted| == 0 {
        return Err(404, NoPosts);
      }
      reply := Ok(sorted);
    }

    /** GET /:id. */
    method Get(id: Id) returns (reply: Response<Post>)
      ensures reply == HandleGet(posts, id)
    {
      var v := ObjectIdValidation.Check(Some(id));
      if v.Reject? {
        return Err(v.status, v.errors);
      }
      var i := Arrays.Find(posts, WithId(id));
      if i < 0 {
        return Err(404, NotFoundForGet);
      }
      reply := Ok(posts[i]);
    }

    /** POST /: the database supplies a fresh id. */
    method Create(me: UserModel.PublicUser, fm: Formats, body: Body, id: Id, now: int) returns (reply: Response<Post>)
      requires Consistent(posts) && FreshId(posts, id)
      modifies this
      ensures Handled(reply, posts) == HandleCreate(old(posts), me, fm, body, id, now)
      ensures Consistent(posts)
    {
      var v := PostValidation.Validate(fm, body);
      if v.Reject? {
        return Err(400, v.errors);
      }
      var post := NewPost(me, body, id, now);
      posts := posts + [post];
      reply := Ok(post);
      CreateKeepsConsistent(old(posts), me, fm, body, id, now);
    }

    /** DELETE /:id. */
    method Delete(me: UserModel.PublicUser, id: Id) returns (reply: Response<Deleted>)
      requires Consistent(posts)
      modifies this
      ensures Handled(reply, posts) == HandleDelete(old(posts), me, id)
      ensures Consistent(posts)
    {
      DeleteKeepsConsistent(posts, me, id);
      var v := ObjectIdValidation.Check(Some(id));
      if v.Reject? {
        return Err(v.status, v.errors);
      }
      var i := Arrays.Find(posts, WithId(id));
      if i < 0 {
        return Err(404, NotFoundForDelete);
      }
      if posts[i].user != me.id {
        return Err(401, NotAuthor);
      }
      posts := posts[..i] + posts[i + 1..];
      reply := Ok(Deleted);
    }

    /** POST /like/:id. */
    method ToggleLike(me: UserModel.PublicUser, id: Id) returns (reply: Response<Post>)
      requires Consistent(posts)
      modifies this
      ensures Handled(reply, posts) == HandleToggleLike(old(posts), me, id)
      ensures Consistent(posts)
    {
      ToggleLikeKeepsConsistent(posts, me, id);
      var v := ObjectIdValidation.Check(Some(id));
      if v.Reject? {
        return Err(v.status, v.errors);
      }
      var i := Arrays.Find(posts, WithId(id));
      if i < 0 {
        return Err(404, NotFoundForLike);
      }
      var post := posts[i];
      var mine := Arrays.Find(post.likes, LikedBy(me.id));
      var likes: seq<Like>;
      if mine >= 0 {
        var removeIndex := Arrays.IndexOf(LikeUsers(post.likes), me.id);
        likes := Arrays.Splice(post.likes, removeIndex);
      } else {
        likes := post.likes + [Like(me.id)];
      }
      var updated := post.(likes := likes);
      posts := posts[i := updated];
      reply := Ok(updated);
    }

    /** POST /comment/:id, with the id check on `:id`; the database supplies the comment's id. */
    method AddComment(me: UserModel.PublicUser, fm: Formats, body: Body, id: Id, commentId: Id, now: int)
      returns (reply: Response<Post>)
      requires Consistent(posts)
      modifies this
      ensures Handled(reply, posts) == HandleAddComment(old(posts), me, fm, body, id, commentId, now)
      ensures Consistent(posts)
    {
      AddCommentKeepsConsistent(posts, me, fm, body, id, commentId, now);
      var checked := ObjectIdValidation.Check(Some(id));
      if checked.Reject? {
        return Err(checked.status, checked.errors);
      }
      var v := PostValidation.Validate(fm, body);
      if v.Reject? {
        return Err(400, v.errors);
      }
      var i := Arrays.Find(posts, WithId(id));
      if i < 0 {
        return Err(404, NotFoundForComment);
      }
      var updated := posts[i].(comments := [NewComment(me, body, commentId, now)] + posts[i].comments);
      posts := posts[i := updated];
      reply := Ok(updated);
    }

    /** DELETE /comment/:id/:comment_id. */
    method DeleteComment(me: UserModel.PublicUser, id: Id, commentId: Id) returns (reply: Response<Post>)
      requires Consistent(posts)
      modifies this
      ensures Handled(reply, posts) == HandleDeleteComment(old(posts), me, id, commentId)
      ensures Consistent(posts)
    {
      DeleteCommentKeepsConsistent(posts, me, id, commentId);
      var v := ObjectIdValidation.Check(Some(id));
      if v.Reject? {
        return Err(v.status, v.errors);
      }
      var w := ObjectIdValidation.Check(Some(commentId));
      if w.Reject? {
        return Err(w.status, w.errors);
      }
      var i := Arrays.Find(posts, WithId(id));
      if i < 0 {
        return Err(404, NotFoundForComment);
      }
      var post := posts[i];
      if post.user != me.id {
        return Err(401, NotAuthor);
      }
      var found := Arrays.Find(post.comments, WithCommentId(commentId));
      if found < 0 {
        return Err(404, NoSuchComment);
      }
      CommentFoundIffListed(post.comments, commentId);
      var removeIndex := Arrays.IndexOf(CommentIds(post.comments), commentId);
      var updated := post.(comments := Arrays.Splice(post.comments, removeIndex));
      posts := posts[i := updated];
      reply := Ok(updated);
    }
  }
}
