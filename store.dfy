/** The blog's post store: one shared, mutable table of posts and the five
    operations the view calls on it.  Each mutator changes the table in place
    and is proved to leave exactly the table the `Posts` functions describe;
    the lookups are functions of the current table and so change nothing. */
module Store {
  import opened Posts

  class PostStore {
    /** `mockPosts`: the canonical table, in insertion order. */
    var posts: seq<Post>

    /** The store's invariant: no two stored posts share an id. */
    ghost predicate Valid()
      reads this
    {
      UniqueIds(posts)
    }

    /** The table as the page loads it: the four sample posts, ids 1 to 4. */
    constructor ()
      ensures posts == InitialPosts()
      ensures Valid()
    {
      posts := InitialPosts();
    }

    /** `fetchPosts`: a snapshot of every record, in stored order. */
    function FetchPosts(): (r: seq<Post>)
      reads this
      ensures |r| == |posts|
      ensures forall i :: 0 <= i < |r| ==> r[i] == posts[i]
    {
      posts
    }

    /** `fetchPostById`: the first record carrying `id`, or "Post not found". */
    function FetchPostById(id: int): (r: Result<Post>)
      reads this
      ensures r.Ok? <==> HasId(posts, id)
      ensures r.Err? ==> r.error == PostNotFound
      ensures r.Ok? ==> r.value.id == id
      ensures r.Ok? ==> exists i :: IsFirstMatch(posts, id, i) && posts[i] == r.value
    {
      var index := FindIndex(posts, id);
      if index == -1 then Err(PostNotFound) else Ok(posts[index])
    }

    /** `createPost`: appends the caller's fields under id max + 1 and returns
        the stored record.  The table must be non-empty: on an empty table the
        largest id is undefined. */
    method CreatePost(draft: Post) returns (created: Post)
      requires Valid() && |posts| > 0
      modifies this
      ensures Valid()
      ensures posts == Created(old(posts), draft)
      ensures posts == old(posts) + [created]
      ensures created == draft.(id := NextId(old(posts)))
      ensures FetchPostById(created.id) == Ok(created)
    {
      CreatedKeepsIdsUnique(posts, draft);
      CreatedThenFound(posts, draft);
      posts := Created(posts, draft);
      created := posts[|posts| - 1];
    }

    /** `updatePost`: replaces the first record carrying `post.id` by `post`
        and returns it; fails, changing nothing, when no record carries it. */
    method UpdatePost(post: Post) returns (r: Result<Post>)
      requires Valid()
      modifies this
      ensures Valid()
      ensures r.Ok? <==> HasId(old(posts), post.id)
      ensures r.Ok? ==> r.value == post && posts == Updated(old(posts), post).value
      ensures r.Ok? ==> FetchPostById(post.id) == Ok(post)
      ensures r.Err? ==> r.error == PostNotFound && posts == old(posts)
    {
      var updated := Updated(posts, post);
      if updated.Err? {
        return Err(PostNotFound);
      }
      UpdatedKeepsIdsUnique(posts, post);
      UpdatedThenFound(posts, post, post.id);
      posts := updated.value;
      r := Ok(post);
    }

    /** `deletePost`: splices out the first record carrying `id`; fails,
        changing nothing, when no record carries it.  Either way the id can
        no longer be looked up afterwards. */
    method DeletePost(id: int) returns (r: Result<()>)
      requires Valid()
      modifies this
      ensures Valid()
      ensures r.Ok? <==> HasId(old(posts), id)
      ensures r.Ok? ==> posts == Deleted(old(posts), id).value && |posts| == |old(posts)| - 1
      ensures r.Err? ==> r.error == PostNotFound && posts == old(posts)
      ensures FetchPostById(id) == Err(PostNotFound)
    {
      var deleted := Deleted(posts, id);
      if deleted.Err? {
        return Err(PostNotFound);
      }
      DeletedKeepsIdsUnique(posts, id);
      DeletedThenMissing(posts, id);
      posts := deleted.value;
      r := Ok(());
    }
  }

  /** A sample session on a freshly loaded store: create a post, update it,
      delete it, then look it up and delete an id that never existed. */
  method InitialSession(draft: Post, edit: Post)
    returns (created: Post, edited: Result<Post>, afterDelete: seq<Post>, lookup: Result<Post>,
             missing: Result<()>, afterMissing: seq<Post>)
    ensures created == draft.(id := 5)
    ensures edited == Ok(edit.(id := 5))
    ensures afterDelete == InitialPosts()
    ensures lookup == Err(PostNotFound)
    ensures missing == Err(PostNotFound) && afterMissing == InitialPosts()
  {
    var store := new PostStore();
    InitialRoundTrip(draft, edit.(id := 5));
    created := store.CreatePost(draft);
    edited := store.UpdatePost(edit.(id := created.id));
    var deleted := store.DeletePost(created.id);
    afterDelete := store.FetchPosts();
    lookup := store.FetchPostById(created.id);
    missing := store.DeletePost(99);
    afterMissing := store.FetchPosts();
  }
}
