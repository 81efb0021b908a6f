/** The post document (models/post.js): likes and comments are embedded arrays. */
module PostModel {
  import opened Common

  /** A like carries nothing but the liking user's id. */
  datatype Like = Like(user: Id)

  /** An embedded comment, with its own `_id`; `date` defaults to the time it was added. */
  datatype Comment = Comment(id: Id, user: Id, text: string, name: string, date: int)

  /** A post; `date` defaults to the creation time. */
  datatype Post = Post(
    id: Id, user: Id, text: string, name: string,
    likes: seq<Like>, comments: seq<Comment>, date: int)

  /** `likes.map(like => like.user)`. */
  function LikeUsers(likes: seq<Like>): (users: seq<Id>)
    ensures |users| == |likes|
    ensures forall i :: 0 <= i < |likes| ==> users[i] == likes[i].user
  {
    if likes == [] then [] else [likes[0].user] + LikeUsers(likes[1..])
  }

  /** `comments.map(comment => comment._id)`. */
  function CommentIds(comments: seq<Comment>): (ids: seq<Id>)
    ensures |ids| == |comments|
    ensures forall i :: 0 <= i < |comments| ==> ids[i] == comments[i].id
  {
    if comments == [] then [] else [comments[0].id] + CommentIds(comments[1..])
  }

  /** Mongoose `required` on `text`, for the post and for each of its comments. */
  predicate Savable(p: Post)
  {
    p.text != "" && forall i :: 0 <= i < |p.comments| ==> p.comments[i].text != ""
  }

  /** No user appears twice among the likes. */
  predicate UniqueLikers(likes: seq<Like>)
  {
    forall i, j :: 0 <= i < j < |likes| ==> likes[i].user != likes[j].user
  }
}
