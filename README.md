# Blog post store — a verified Dafny model

The blog page keeps its posts in one in-memory table, `mockPosts`. Each post has an
`id`, `title`, `content`, `author` and `image`. The page starts with four sample posts
with ids 1 to 4. Five store operations act on the table:

- `fetchPosts` returns a snapshot of the table.
- `fetchPostById` returns the first post with a given id, or fails with "Post not found".
- `createPost` appends the caller's fields under a new id, one past the largest id in the table.
- `updatePost` replaces the first post with the caller's id, or fails.
- `deletePost` splices out the first post with the given id, or fails.

This project models that store and proves what each operation does to the table.

- `posts.dfy` (module `Posts`) defines the `Post` record, a `Result` type for the
  "Post not found" failure, and the specification functions over a `seq<Post>`:
  `FindIndex` (JavaScript's `findIndex` by id), `MaxId`/`NextId` (`Math.max` over the ids, plus one),
  `Created`, `Updated` and `Deleted`. It also holds the lemmas. Every mutator keeps ids
  unique. A lookup after an update sees the new record, and other lookups are unaffected.
  With unique ids, a deleted id is gone. Create, then update, then delete of the new id
  restores the table.
- `store.dfy` (module `Store`) defines the class `PostStore`, whose field `posts` is the
  shared table. The three mutators are methods that change `posts` in place. Each one is
  proved to leave exactly the table the matching `Posts` function gives. The two lookups
  are functions of the current table, so they cannot change it. `InitialSession` runs a
  sample create/update/delete session on a freshly loaded store. `Valid()` states the
  class invariant that ids are unique; the constructor establishes it and every mutator
  keeps it.

Failures are values (`Err(PostNotFound)`), not exceptions. Every failing operation is
proved to leave the table unchanged.

## Model

| member | source | states |
|---|---|---|
| `Posts.FindIndex` | index.js:61-62 | `findIndex` by id yields -1 exactly when no record has the id; otherwise it yields the first position holding that id |
| `Posts.MaxId` | index.js:52 | `Math.max` over the ids of a non-empty table is an id of some record and no record's id exceeds it |
| `Posts.NextId` | index.js:52 | the id `createPost` assigns is strictly greater than every stored id, so no stored record has it |
| `Posts.Created` | index.js:50-56 | create appends exactly one record at the end: earlier records are untouched, it has the caller's title, content, author and image, and its id exceeds every existing id |
| `Posts.Updated` | index.js:59-66 | update succeeds exactly when the id is stored, otherwise fails with PostNotFound; on success only the first matching position is replaced by the caller's record, so the length and the id sequence are unchanged |
| `Posts.Deleted` | index.js:68-74 | delete succeeds exactly when the id is stored, otherwise fails with PostNotFound; on success the first matching record is spliced out, the length drops by one and the rest keep their order |
| `Posts.InitialPosts` | index.js:2-33 | the page starts with four posts whose ids are 1, 2, 3, 4 in that order |
| `Posts.FindIndexFollowsIds` | index.js:61 | a `findIndex` by id depends only on the id sequence of the table |
| `Posts.CreatedKeepsIdsUnique` | index.js:52-54 | if ids were pairwise distinct before a create, they are after it |
| `Posts.UpdatedKeepsIdsUnique` | index.js:61-63 | if ids were pairwise distinct before an update, they are after it |
| `Posts.DeletedKeepsIdsUnique` | index.js:70-72 | if ids were pairwise distinct before a delete, they are after it |
| `Posts.CreatedThenFound` | index.js:52-54 | after a create, a lookup of the new id finds the appended record |
| `Posts.UpdatedThenFound` | index.js:61-63 | after an update, a lookup of its id finds exactly the caller's record; a lookup of any other id finds the same position and the same record as before |
| `Posts.DeletedThenMissing` | index.js:70-72 | with unique ids, after a delete no record carries the deleted id |
| `Posts.DeletedDuplicateStillFound` | index.js:70-72 | delete removes only the first record with the id: of two records sharing id 7, one remains |
| `Posts.CreateUpdateDeleteRoundTrip` | index.js:50-74 | on any non-empty table, create, then update under the new id, then delete of that id gives back the original table exactly |
| `Posts.InitialRoundTrip` | index.js:2-74 | a sample session on the initial four posts: create assigns id 5, and updating then deleting id 5 restores the four posts exactly |
| `Store.PostStore.constructor` | index.js:2-33 | a fresh store holds the four initial posts and satisfies the invariant `Valid()` (unique ids) |
| `Store.PostStore.FetchPosts` | index.js:38-40 | the snapshot has every stored record in stored order, and the store is not changed |
| `Store.PostStore.FetchPostById` | index.js:42-47 | the lookup fails with PostNotFound exactly when no record has the id; otherwise it returns the first stored record with that id |
| `Store.PostStore.CreatePost` | index.js:50-56 | the table becomes the old table plus the returned record, which is the caller's record under id max + 1; a lookup of that id returns it; the unique-ids invariant is kept |
| `Store.PostStore.UpdatePost` | index.js:59-66 | it succeeds exactly when the id was stored, and then the table is `Updated`'s result, the caller's record is returned and a lookup of its id returns it; on failure it returns PostNotFound and the table is unchanged; the unique-ids invariant is kept |
| `Store.PostStore.DeletePost` | index.js:68-74 | it succeeds exactly when the id was stored, and then the table is `Deleted`'s result, one record shorter; on failure it returns PostNotFound and the table is unchanged; either way a later lookup of the id fails; the unique-ids invariant is kept |
| `Store.InitialSession` | index.js:2-74 | a sample session on a fresh store: create yields id 5; update of id 5 succeeds; delete of 5 restores the four initial posts; a later lookup of 5 fails; delete of 99 fails and leaves the table as it was |

## Left out

- `Store.PostStore.CreatePost`: requires a non-empty table. On an empty table the source computes `Math.max()` of no ids, which is `-Infinity`, and stores the post under the id `-Infinity`. That is floating-point behaviour, and the model excludes that call rather than modelling it. `Posts.Created`, `Posts.NextId` and `Posts.MaxId` carry the same precondition.
- `Store.PostStore.UpdatePost`, `Store.PostStore.DeletePost`: like `CreatePost`, they require the invariant `Valid()` (no two stored posts share an id). The constructor establishes it and every mutator keeps it, so it holds on every store the model can reach. In the source, unique ids hold only until a create runs on an empty table: after deleting every post, two creates both store the id `-Infinity` (`Math.max()` of no ids is `-Infinity`, and `-Infinity + 1` is still `-Infinity`), and a delete of that id then removes only the first of the two. The model keeps `Valid()` because it excludes that create (see the `CreatePost` line). What the table functions do on a table with duplicate ids is stated by `Posts.Updated`, `Posts.Deleted` and `Posts.DeletedDuplicateStillFound`, not by the methods.
- Simulated latency (`delay`, `setTimeout`, the promise chains): every operation is modelled as one synchronous step. Overlapping requests and their ordering are not modelled.
- Copies and aliasing: `fetchPosts` and `fetchPostById` return copies (`[...mockPosts]`, `{ ...post }`). `createPost` copies the caller's argument into a new object (`{ ...post, id }`), stores it and returns that same stored object, so the result aliases the stored record. `updatePost` stores and returns the caller's own object. Posts here are immutable values, so copying and aliasing cannot be observed.
- Numbers: ids are unbounded integers, and `===` on ids is integer equality. JavaScript's doubles, with their precision loss above 2^53 and `NaN` ids, are not modelled.
- Records missing fields: a post always has all five fields. The source would store whatever object the caller passes.
- DOM rendering, templating and event wiring (`renderPosts`, `showPostDetails`, `editPost`, `removePost` with its `confirm` prompt, the form and button handlers, page start-up). They only read and write the page. This includes the edit handler's placeholder `author: "Unknown", image: ""`, which belongs to the view, not the store.
