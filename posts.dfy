/** Blog posts and the in-memory post table they live in, as values.

    A table is a `seq<Post>` in insertion order.  The functions below say
    what each store operation does to such a table; the `Store` module runs
    them in place on a shared table, and the lemmas here are what makes
    those operations safe to compose (ids stay unique, a deleted id is gone,
    create/update/delete of a fresh id is a round trip). */
module Posts {

  /** One blog post: the store's only record type. */
  datatype Post = Post(id: int, title: string, content: string, author: string, image: string)

  /** The store's single failure: the operation named an id the table does not hold. */
  datatype Error = PostNotFound

  datatype Result<T> = Ok(value: T) | Err(error: Error)

  /** The ids of a table, position by position. */
  function Ids(posts: seq<Post>): (r: seq<int>)
    ensures |r| == |posts|
    ensures forall i :: 0 <= i < |posts| ==> r[i] == posts[i].id
  {
    seq(|posts|, i requires 0 <= i < |posts| => posts[i].id)
  }

  /** Some record of the table carries `id`. */
  predicate HasId(posts: seq<Post>, id: int) {
    exists i :: 0 <= i < |posts| && posts[i].id == id
  }

  /** No two records of the table share an id. */
  predicate UniqueIds(posts: seq<Post>) {
    forall i, j :: 0 <= i < j < |posts| ==> posts[i].id != posts[j].id
  }

  /** `i` is the first position of the table whose record carries `id`. */
  predicate IsFirstMatch(posts: seq<Post>, id: int, i: int) {
    0 <= i < |posts| && posts[i].id == id &&
    forall j :: 0 <= j < i ==> posts[j].id != id
  }

  /** `findIndex(p => p.id === id)`: the first position carrying `id`, or -1. */
  function FindIndex(posts: seq<Post>, id: int): (r: int)
    ensures -1 <= r < |posts|
    ensures r == -1 <==> !HasId(posts, id)
    ensures r != -1 ==> IsFirstMatch(posts, id, r)
  {
    if |posts| == 0 then -1
    else if posts[0].id == id then 0
    else
      var k := FindIndex(posts[1..], id);
      assert HasId(posts[1..], id) ==> HasId(posts, id) by {
        if HasId(posts[1..], id) {
          var i :| 0 <= i < |posts| - 1 && posts[1..][i].id == id;
          assert posts[i + 1].id == id;
        }
      }
      assert HasId(posts, id) ==> HasId(posts[1..], id) by {
        if HasId(posts, id) {
          var i :| 0 <= i < |posts| && posts[i].id == id;
          assert i != 0 && posts[1..][i - 1].id == id;
        }
      }
      if k == -1 then -1 else k + 1
  }

  /** `Math.max(...posts.map(p => p.id))` on a non-empty table: the largest id. */
  function MaxId(posts: seq<Post>): (r: int)
    requires |posts| > 0
    ensures HasId(posts, r)
    ensures forall i :: 0 <= i < |posts| ==> posts[i].id <= r
  {
    if |posts| == 1 then posts[0].id
    else
      var rest := MaxId(posts[1..]);
      assert forall i :: 1 <= i < |posts| ==> posts[i] == posts[1..][i - 1];
      if posts[0].id < rest then rest else posts[0].id
  }

  /** The id `createPost` hands out: one past the largest id in the table. */
  function NextId(posts: seq<Post>): (r: int)
    requires |posts| > 0
    ensures forall i :: 0 <= i < |posts| ==> posts[i].id < r
    ensures !HasId(posts, r)
  {
    MaxId(posts) + 1
  }

  /** The table after `createPost(draft)`: the draft's fields under the next id, appended. */
  function Created(posts: seq<Post>, draft: Post): (r: seq<Post>)
    requires |posts| > 0
    ensures |r| == |posts| + 1 && r[..|posts|] == posts
    ensures r[|posts|].title == draft.title && r[|posts|].content == draft.content
    ensures r[|posts|].author == draft.author && r[|posts|].image == draft.image
    ensures forall i :: 0 <= i < |posts| ==> posts[i].id < r[|posts|].id
  {
    posts + [draft.(id := NextId(posts))]
  }

  /** The table after `updatePost(post)`: the first record carrying `post.id`
      is replaced by `post`; without such a record the update fails. */
  function Updated(posts: seq<Post>, post: Post): (r: Result<seq<Post>>)
    ensures r.Ok? <==> HasId(posts, post.id)
    ensures r.Err? ==> r.error == PostNotFound
    ensures r.Ok? ==> |r.value| == |posts| && Ids(r.value) == Ids(posts)
    ensures r.Ok? ==> exists i :: IsFirstMatch(posts, post.id, i) && r.value == posts[i := post]
  {
    var index := FindIndex(posts, post.id);
    if index == -1 then Err(PostNotFound)
    else
      var s := posts[index := post];
      assert Ids(s) == Ids(posts) by {
        assert forall i :: 0 <= i < |s| ==> Ids(s)[i] == Ids(posts)[i];
      }
      Ok(s)
  }

  /** The table after `deletePost(id)`: the first record carrying `id` is
      spliced out; without such a record the delete fails. */
  function Deleted(posts: seq<Post>, id: int): (r: Result<seq<Post>>)
    ensures r.Ok? <==> HasId(posts, id)
    ensures r.Err? ==> r.error == PostNotFound
    ensures r.Ok? ==> |r.value| == |posts| - 1
    ensures r.Ok? ==> exists i :: IsFirstMatch(posts, id, i) && r.value == posts[..i] + posts[i + 1..]
  {
    var index := FindIndex(posts, id);
    if index == -1 then Err(PostNotFound) else Ok(posts[..index] + posts[index + 1..])
  }

  /** The four records the page starts with. */
  function InitialPosts(): (r: seq<Post>)
    ensures |r| == 4 && forall i :: 0 <= i < 4 ==> r[i].id == i + 1
  {
    [ Post(1, "Car Spotting in Kileleshwa", Content1, "Emily Carter", Image1),
      Post(2, "Where I Spent My Weekend", Content2, "David Kim", Image2),
      Post(3, "A Weekend Guide to Nairobi, Kenya", Content3, "Grace Njoroge", Image3),
      Post(4, "Why Mindfulness Changed My Life", Content4, "Liam Thompson", Image4) ]
  }

  const Content1 := "Spent my weekend spotting the best rides in Kenya \U{2014} and trust me, Nairobi doesn't disappoint!"
  const Content2 := "Villa Rosa Kempinski is one of the most lavish hotels in Nairobi \U{2014} and the experience was pure luxury."
  const Content3 := "From bustling markets to serene parks and delicious local cuisine, here's how to make the most of a weekend in Kenya\U{2019}s vibrant capital..."
  const Content4 := "I used to rush through my days. Mindfulness helped me slow down, focus, and enjoy life more fully. Here\U{2019}s what I learned..."
  const Image1 := "https://i.pinimg.com/736x/34/6b/25/346b25ab6c234c06d4969275588d57b9.jpg"
  const Image2 := "https://i.pinimg.com/736x/80/4a/e3/804ae3ced8176a5831be6cb1672ea0dc.jpg"
  const Image3 := "https://i.pinimg.com/736x/74/ad/ad/74adadbb0a5e498ff06181fa8d5fd2e0.jpg"
  const Image4 := "https://i.pinimg.com/736x/3c/0e/62/3c0e6216b6c062a7c1f7cda5201e67cc.jpg"

  // ---------------------------------------------------------------------------
  // Lookups depend only on the ids.

  /** Two tables with the same id sequence agree on every `findIndex`. */
  lemma FindIndexFollowsIds(a: seq<Post>, b: seq<Post>, id: int)
    requires Ids(a) == Ids(b)
    ensures FindIndex(a, id) == FindIndex(b, id)
  {
  }

  // ---------------------------------------------------------------------------
  // Id uniqueness is kept by every mutator.

  lemma CreatedKeepsIdsUnique(posts: seq<Post>, draft: Post)
    requires |posts| > 0 && UniqueIds(posts)
    ensures UniqueIds(Created(posts, draft))
  {
  }

  lemma UpdatedKeepsIdsUnique(posts: seq<Post>, post: Post)
    requires UniqueIds(posts) && Updated(posts, post).Ok?
    ensures UniqueIds(Updated(posts, post).value)
  {
  }

  lemma DeletedKeepsIdsUnique(posts: seq<Post>, id: int)
    requires UniqueIds(posts) && Deleted(posts, id).Ok?
    ensures UniqueIds(Deleted(posts, id).value)
  {
  }

  // ---------------------------------------------------------------------------
  // What a later lookup sees.

  /** The record `createPost` appended is what a lookup of its id finds. */
  lemma CreatedThenFound(posts: seq<Post>, draft: Post)
    requires |posts| > 0
    ensures FindIndex(Created(posts, draft), NextId(posts)) == |posts|
  {
  }

  /** After an update, a lookup of the updated id finds exactly the caller's
      record, and a lookup of any other id finds the record it found before. */
  lemma UpdatedThenFound(posts: seq<Post>, post: Post, id: int)
    requires Updated(posts, post).Ok?
    ensures var s := Updated(posts, post).value;
      FindIndex(s, id) == FindIndex(posts, id) &&
      (id == post.id ==> s[FindIndex(s, id)] == post) &&
      (id != post.id && HasId(posts, id) ==> s[FindIndex(s, id)] == posts[FindIndex(posts, id)])
  {
    // An update keeps the id sequence, so every lookup lands where it did before.
    FindIndexFollowsIds(Updated(posts, post).value, posts, id);
  }

  /** With unique ids, a deleted id can no longer be found. */
  lemma DeletedThenMissing(posts: seq<Post>, id: int)
    requires UniqueIds(posts) && Deleted(posts, id).Ok?
    ensures !HasId(Deleted(posts, id).value, id)
  {
  }

  /** Without unique ids the guarantee above is lost: deleting removes only
      the first of two records that share an id. */
  lemma DeletedDuplicateStillFound()
    ensures var twin := Post(7, "", "", "", "");
      Deleted([twin, twin], 7) == Ok([twin])
  {
    var twin := Post(7, "", "", "", "");
    var k := FindIndex([twin, twin], 7);
    assert [twin, twin][0].id == 7;
    assert k == 0;
    assert [twin, twin][..0] + [twin, twin][1..] == [twin];
  }

  // ---------------------------------------------------------------------------
  // Round trips.

  /** Creating a post, overwriting it under its new id and deleting that id
      gives back the table that was there before. */
  lemma CreateUpdateDeleteRoundTrip(posts: seq<Post>, draft: Post, edit: Post)
    requires |posts| > 0 && edit.id == NextId(posts)
    ensures Updated(Created(posts, draft), edit) == Ok(posts + [edit])
    ensures Deleted(posts + [edit], edit.id) == Ok(posts)
  {
    var s := Created(posts, draft);
    CreatedThenFound(posts, draft);
    assert s[|posts| := edit] == posts + [edit];
    assert IsFirstMatch(posts + [edit], edit.id, |posts|) by {
      forall j | 0 <= j < |posts| ensures (posts + [edit])[j].id != edit.id {
        assert (posts + [edit])[j] == posts[j];
      }
    }
    var k := FindIndex(posts + [edit], edit.id);
    assert k == |posts|;
    assert (posts + [edit])[..k] + (posts + [edit])[k + 1..] == posts;
  }

  /** A sample session on the initial four posts: `createPost` hands out
      id 5, and updating then deleting id 5 restores the four posts. */
  lemma InitialRoundTrip(draft: Post, edit: Post)
    requires edit.id == 5
    ensures NextId(InitialPosts()) == 5
    ensures Created(InitialPosts(), draft)[4].id == 5
    ensures Updated(Created(InitialPosts(), draft), edit) == Ok(InitialPosts() + [edit])
    ensures Deleted(InitialPosts() + [edit], 5) == Ok(InitialPosts())
  {
    var init := InitialPosts();
    assert NextId(init) == 5 by {
      var m := MaxId(init);
      assert init[3].id == 4;
      var i :| 0 <= i < 4 && init[i].id == m;
    }
    CreateUpdateDeleteRoundTrip(init, draft, edit);
  }
}
