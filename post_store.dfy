/**
 * The post store: the feed list and the open post with its comments. Each
 * request-backed action is one method taking the response, `None` standing
 * for a failed request; the like and comment counters are kept by pure list
 * transforms.
 */
module PostStore {
  import opened Options
  import opened Entities
  import Keyed

  /** The open post and its loaded comments, newest first. */
  datatype PostView = PostView(post: Post, comments: seq<Comment>)

  datatype PostState = PostState(posts: seq<Post>, singlePost: Option<PostView>)

  /** A like list holds user ids, so each entry is its own key. */
  function LikeKey(userId: string): string { userId }

  /** The like list after a like (appended, duplicates kept) or an unlike (every occurrence removed). */
  function UpdatedLikes(likes: seq<string>, userId: string, isLike: bool): (r: seq<string>)
    ensures isLike ==> r == likes + [userId]
    ensures !isLike ==> userId !in r && |r| <= |likes|
    ensures !isLike ==> forall i :: 0 <= i < |likes| && likes[i] != userId ==> likes[i] in r
    ensures !isLike ==> forall i :: 0 <= i < |r| ==> r[i] in likes
  {
    if isLike then likes + [userId]
    else
      var r := Keyed.Without(likes, LikeKey, userId);
      assert forall i :: 0 <= i < |r| ==> Keyed.Keys(r, LikeKey)[i] == r[i];
      r
  }

  /** updatePostLike on the list: the matching posts get the new likes and a count equal to their length. */
  function ApplyLike(posts: seq<Post>, postId: string, userId: string, isLike: bool): (r: seq<Post>)
    ensures |r| == |posts|
    ensures forall i :: 0 <= i < |posts| && posts[i].id != postId ==> r[i] == posts[i]
    ensures forall i :: 0 <= i < |posts| && posts[i].id == postId ==>
      && r[i] == posts[i].(likes := UpdatedLikes(posts[i].likes, userId, isLike), likesCount := |r[i].likes|)
      && r[i].likesCount == |r[i].likes|
  {
    seq(|posts|, i requires 0 <= i < |posts| =>
      if posts[i].id == postId then
        var likes := UpdatedLikes(posts[i].likes, userId, isLike);
        posts[i].(likes := likes, likesCount := |likes|)
      else posts[i])
  }

  /** Unliking undoes any number of earlier likes by the same user. */
  lemma UnlikeAfterLike(posts: seq<Post>, postId: string, userId: string)
    ensures ApplyLike(ApplyLike(posts, postId, userId, true), postId, userId, false)
         == ApplyLike(posts, postId, userId, false)
  {
    var liked := ApplyLike(posts, postId, userId, true);
    var a := ApplyLike(liked, postId, userId, false);
    var b := ApplyLike(posts, postId, userId, false);
    forall i | 0 <= i < |posts| && posts[i].id == postId
      ensures a[i] == b[i]
    {
      var l := posts[i].likes;
      Keyed.WithoutAppend(l, [userId], LikeKey, userId);
      assert Keyed.Without([userId], LikeKey, userId) == [];
      assert Keyed.Without(l + [userId], LikeKey, userId) == Keyed.Without(l, LikeKey, userId);
    }
  }

  /** Unliking twice is unliking once. */
  lemma UnlikeIdempotent(posts: seq<Post>, postId: string, userId: string)
    ensures ApplyLike(ApplyLike(posts, postId, userId, false), postId, userId, false)
         == ApplyLike(posts, postId, userId, false)
  {
    var once := ApplyLike(posts, postId, userId, false);
    var twice := ApplyLike(once, postId, userId, false);
    forall i | 0 <= i < |posts| && posts[i].id == postId
      ensures twice[i] == once[i]
    {
      Keyed.WithoutTwice(posts[i].likes, LikeKey, userId);
    }
  }

  /** likePost/unlikePost on the list: the server's likes and count copied onto every post with that id. */
  function CopyLikes(posts: seq<Post>, postId: string, server: Post): (r: seq<Post>)
    ensures |r| == |posts| && Keyed.Keys(r, PostId) == Keyed.Keys(posts, PostId)
    ensures forall i :: 0 <= i < |posts| && posts[i].id != postId ==> r[i] == posts[i]
    ensures forall i :: 0 <= i < |posts| && posts[i].id == postId ==>
      r[i].likes == server.likes && r[i].likesCount == server.likesCount
      && r[i].(likes := posts[i].likes, likesCount := posts[i].likesCount) == posts[i]
  {
    seq(|posts|, i requires 0 <= i < |posts| =>
      if posts[i].id == postId then posts[i].(likes := server.likes, likesCount := server.likesCount) else posts[i])
  }

  /** addNewComment on the list: the matching posts count one more comment. */
  function BumpComments(posts: seq<Post>, postId: string): (r: seq<Post>)
    ensures |r| == |posts| && Keyed.Keys(r, PostId) == Keyed.Keys(posts, PostId)
    ensures forall i :: 0 <= i < |posts| && posts[i].id != postId ==> r[i] == posts[i]
    ensures forall i :: 0 <= i < |posts| && posts[i].id == postId ==>
      r[i].commentsCount == posts[i].commentsCount + 1 && r[i].(commentsCount := posts[i].commentsCount) == posts[i]
  {
    seq(|posts|, i requires 0 <= i < |posts| =>
      if posts[i].id == postId then posts[i].(commentsCount := posts[i].commentsCount + 1) else posts[i])
  }

  /**
   * The fetchComments reducer: the open post takes the comments when it is the
   * post asked for; otherwise the first list post with that id is opened with
   * them; otherwise nothing changes.
   */
  function WithComments(view: Option<PostView>, posts: seq<Post>, postId: string, comments: seq<Comment>): (r: Option<PostView>)
    ensures view.Some? && view.value.post.id == postId ==> r == Some(view.value.(comments := comments))
    ensures !(view.Some? && view.value.post.id == postId) && postId in Keyed.Keys(posts, PostId) ==>
      r == Some(PostView(posts[Keyed.IndexOf(posts, PostId, postId)], comments))
    ensures !(view.Some? && view.value.post.id == postId) && postId !in Keyed.Keys(posts, PostId) ==> r == view
    ensures r.Some? && r != view ==> r.value.post.id == postId && r.value.comments == comments
  {
    if view.Some? && view.value.post.id == postId then Some(view.value.(comments := comments))
    else
      match Keyed.Find(posts, PostId, postId)
      case Some(p) => Some(PostView(p, comments))
      case None => view
  }

  class PostStore {
    var posts: seq<Post>
    var singlePost: Option<PostView>

    function State(): PostState
      reads this
    {
      PostState(posts, singlePost)
    }

    constructor ()
      ensures State() == PostState([], None)
    {
      posts := [];
      singlePost := None;
    }

    /** fetchFeed and fetchUserPosts: the response replaces the list; a failure leaves it. */
    method FetchPosts(response: Option<seq<Post>>)
      modifies this
      ensures response.Some? ==> State() == old(State()).(posts := response.value)
      ensures response.None? ==> State() == old(State())
    {
      if response.Some? {
        posts := response.value;
      }
    }

    /** createPost: on success the new post goes first and is returned; on failure nothing changes and null is returned. */
    method CreatePost(response: Option<Post>) returns (r: Option<Post>)
      modifies this
      ensures r == response
      ensures response.Some? ==> State() == old(State()).(posts := [response.value] + old(posts))
      ensures response.None? ==> State() == old(State())
    {
      if response.None? {
        return None;
      }
      posts := [response.value] + posts;
      r := response;
    }

    /** fetchPostById: the fetched post opens with no comments. */
    method FetchPostById(response: Option<Post>)
      modifies this
      ensures response.Some? ==> State() == old(State()).(singlePost := Some(PostView(response.value, [])))
      ensures response.None? ==> State() == old(State())
    {
      if response.Some? {
        singlePost := Some(PostView(response.value, []));
      }
    }

    /** deletePost: the posts with that id leave the list once the request succeeded. */
    method DeletePost(postId: string, succeeded: bool)
      modifies this
      ensures succeeded ==> State() == old(State()).(posts := Keyed.Without(old(posts), PostId, postId))
      ensures succeeded ==> postId !in Keyed.Keys(posts, PostId)
      ensures !succeeded ==> State() == old(State())
    {
      if succeeded {
        posts := Keyed.Without(posts, PostId, postId);
      }
    }

    /**
     * likePost and unlikePost: the server's likes and count are copied onto the
     * list, then onto the open post when it is that post.
     */
    method CompleteLikeRequest(postId: string, response: Option<Post>)
      modifies this
      ensures response.None? ==> State() == old(State())
      ensures response.Some? ==> posts == CopyLikes(old(posts), postId, response.value)
      ensures response.Some? && old(singlePost).Some? && old(singlePost).value.post.id == postId ==>
        singlePost == Some(old(singlePost).value.(post := old(singlePost).value.post.(
          likes := response.value.likes, likesCount := response.value.likesCount)))
      ensures !(old(singlePost).Some? && old(singlePost).value.post.id == postId) ==> singlePost == old(singlePost)
    {
      if response.None? {
        return;
      }
      var server := response.value;
      posts := CopyLikes(posts, postId, server);
      if singlePost.Some? && singlePost.value.post.id == postId {
        var v := singlePost.value;
        singlePost := Some(v.(post := v.post.(likes := server.likes, likesCount := server.likesCount)));
      }
    }

    /** updatePostLike: the local like toggle on the list; the open post is left as it is. */
    method UpdatePostLike(postId: string, userId: string, isLike: bool)
      modifies this
      ensures State() == old(State()).(posts := ApplyLike(old(posts), postId, userId, isLike))
    {
      posts := ApplyLike(posts, postId, userId, isLike);
    }

    /**
     * addNewComment: the list count goes up by one, then, when the open post is
     * that post, its count goes up by one and the comment goes first.
     */
    method AddNewComment(postId: string, comment: Comment)
      modifies this
      ensures posts == BumpComments(old(posts), postId)
      ensures old(singlePost).Some? && old(singlePost).value.post.id == postId ==>
        var v := old(singlePost).value;
        singlePost == Some(PostView(v.post.(commentsCount := v.post.commentsCount + 1), [comment] + v.comments))
      ensures !(old(singlePost).Some? && old(singlePost).value.post.id == postId) ==> singlePost == old(singlePost)
    {
      posts := BumpComments(posts, postId);
      if singlePost.Some? && singlePost.value.post.id == postId {
        var v := singlePost.value;
        singlePost := Some(PostView(v.post.(commentsCount := v.post.commentsCount + 1), [comment] + v.comments));
      }
    }

    /** createComment: on success the created comment is added as addNewComment does. */
    method CreateComment(postId: string, response: Option<Comment>)
      modifies this
      ensures response.None? ==> State() == old(State())
      ensures response.Some? ==> posts == BumpComments(old(posts), postId)
      ensures response.Some? && old(singlePost).Some? && old(singlePost).value.post.id == postId ==>
        var v := old(singlePost).value;
        singlePost == Some(PostView(v.post.(commentsCount := v.post.commentsCount + 1), [response.value] + v.comments))
      ensures response.Some? && !(old(singlePost).Some? && old(singlePost).value.post.id == postId) ==>
        singlePost == old(singlePost)
    {
      if response.Some? {
        AddNewComment(postId, response.value);
      }
    }

    /** fetchComments: the fetched comments go through the reducer; a failure changes nothing. */
    method FetchComments(postId: string, response: Option<seq<Comment>>)
      modifies this
      ensures response.Some? ==> State() == old(State()).(singlePost := WithComments(old(singlePost), old(posts), postId, response.value))
      ensures response.None? ==> State() == old(State())
    {
      if response.Some? {
        singlePost := WithComments(singlePost, posts, postId, response.value);
      }
    }
  }
}
