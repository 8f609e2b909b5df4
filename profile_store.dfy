/**
 * The profile store: the profile header, the profile's post grid with the
 * same guarded offset pagination as the chat list, and the profile edit.
 * Request-backed actions are split into Begin and Complete methods; a
 * response of `None` stands for a failed request.
 */
module ProfileStore {
  import opened Options
  import opened Entities
  import opened Paging

  /** The page size of the post grid. */
  const PostsPageSize: nat := 12

  datatype ProfileState = ProfileState(
    profile: Option<UserProfile>,
    posts: seq<Post>,
    isLoadingProfile: bool,
    isLoadingPosts: bool,
    isLoadingMore: bool,
    hasMorePosts: bool,
    isUpdating: bool)

  class ProfileStore {
    var profile: Option<UserProfile>
    var posts: seq<Post>
    var isLoadingProfile: bool
    var isLoadingPosts: bool
    var isLoadingMore: bool
    var hasMorePosts: bool
    var isUpdating: bool

    function State(): ProfileState
      reads this
    {
      ProfileState(profile, posts, isLoadingProfile, isLoadingPosts, isLoadingMore, hasMorePosts, isUpdating)
    }

    constructor ()
      ensures State() == ProfileState(None, [], false, false, false, true, false)
    {
      profile := None;
      posts := [];
      isLoadingProfile := false;
      isLoadingPosts := false;
      isLoadingMore := false;
      hasMorePosts := true;
      isUpdating := false;
    }

    /** fetchUserProfile before the request. */
    method BeginFetchUserProfile()
      modifies this
      ensures State() == old(State()).(isLoadingProfile := true)
    {
      isLoadingProfile := true;
    }

    /** fetchUserProfile when the request settled: the response replaces the profile; the flag always drops. */
    method CompleteFetchUserProfile(response: Option<UserProfile>)
      modifies this
      ensures response.Some? ==> State() == old(State()).(profile := response, isLoadingProfile := false)
      ensures response.None? ==> State() == old(State()).(isLoadingProfile := false)
    {
      if response.Some? {
        profile := response;
      }
      isLoadingProfile := false;
    }

    /** fetchUserPosts before the request: always the first page. */
    method BeginFetchUserPosts() returns (q: PageQuery)
      modifies this
      ensures q == PageQuery(PostsPageSize, 0)
      ensures State() == old(State()).(isLoadingPosts := true)
    {
      isLoadingPosts := true;
      q := PageQuery(PostsPageSize, 0);
    }

    /** fetchUserPosts when the request settled: the first page replaces the posts and hasMorePosts. */
    method CompleteFetchUserPosts(response: Option<Page<Post>>)
      modifies this
      ensures response.Some? ==> State() == old(State()).(posts := response.value.items,
                                                         hasMorePosts := response.value.hasMore,
                                                         isLoadingPosts := false)
      ensures response.None? ==> State() == old(State()).(isLoadingPosts := false)
    {
      if response.Some? {
        posts := response.value.items;
        hasMorePosts := response.value.hasMore;
      }
      isLoadingPosts := false;
    }

    /**
     * fetchMorePosts before the request: a no-op while one is pending or when
     * no more posts exist; otherwise captures the grid and asks for the page at
     * offset = its length.
     */
    method BeginFetchMorePosts() returns (req: Option<MoreRequest<Post>>)
      modifies this
      ensures !MayLoadMore(old(isLoadingMore), old(hasMorePosts)) ==> req.None? && State() == old(State())
      ensures MayLoadMore(old(isLoadingMore), old(hasMorePosts)) ==>
        && req == Some(StartMore(old(posts), PostsPageSize))
        && State() == old(State()).(isLoadingMore := true)
    {
      if isLoadingMore || !hasMorePosts {
        return None;
      }
      isLoadingMore := true;
      req := Some(StartMore(posts, PostsPageSize));
    }

    /** fetchMorePosts on success: the captured grid followed by the page; hasMorePosts from the response. */
    method CompleteFetchMorePostsOk(req: MoreRequest<Post>, page: Page<Post>)
      modifies this
      ensures State() == old(State()).(posts := Extend(req, page), hasMorePosts := page.hasMore, isLoadingMore := false)
    {
      posts := Extend(req, page);
      hasMorePosts := page.hasMore;
      isLoadingMore := false;
    }

    /** fetchMorePosts on failure: only the flag is reset; the grid is untouched. */
    method CompleteFetchMorePostsFail()
      modifies this
      ensures State() == old(State()).(isLoadingMore := false)
    {
      isLoadingMore := false;
    }

    /** updateProfile before the request. */
    method BeginUpdateProfile()
      modifies this
      ensures State() == old(State()).(isUpdating := true)
    {
      isUpdating := true;
    }

    /**
     * updateProfile when the request settled: on success only the user of an
     * existing profile is replaced (a missing profile stays missing); a failure
     * is rethrown to the caller. isUpdating drops either way.
     */
    method CompleteUpdateProfile(response: Option<User>) returns (rethrown: bool)
      modifies this
      ensures rethrown <==> response.None?
      ensures response.Some? && old(profile).Some? ==>
        State() == old(State()).(profile := Some(old(profile).value.(user := response.value)), isUpdating := false)
      ensures !(response.Some? && old(profile).Some?) ==> State() == old(State()).(isUpdating := false)
    {
      rethrown := response.None?;
      if response.Some? && profile.Some? {
        profile := Some(profile.value.(user := response.value));
      }
      isUpdating := false;
    }

    /** clearProfile: no profile, no posts, and more posts assumed; the loading flags are kept. */
    method ClearProfile()
      modifies this
      ensures State() == old(State()).(profile := None, posts := [], hasMorePosts := true)
    {
      profile := None;
      posts := [];
      hasMorePosts := true;
    }
  }

  /**
   * clearProfile does not cancel a load-more in flight: when the page arrives
   * after the clear, the previous profile's posts are written back.
   */
  method ClearDuringLoadMore(store: ProfileStore, page: Page<Post>)
    requires MayLoadMore(store.isLoadingMore, store.hasMorePosts)
    modifies store
    ensures store.profile.None?
    ensures store.posts == old(store.posts) + page.items
  {
    var req := store.BeginFetchMorePosts();
    store.ClearProfile();
    store.CompleteFetchMorePostsOk(req.value, page);
  }
}
