# Yatube posts schema in Dafny

Yatube is a blogging platform. Users write posts, file them under groups,
comment on posts and follow other authors to get a personal feed. This
project models the relational schema of the `posts` application as an
in-memory database. The application's views (posting, following, the
follow feed) are its own code built on the web framework. They are not
part of this model, except that the follow feed is stated as a query over
the tables.

The model has four modules:

- `Seqs` (`seqs.dfy`) holds generic operations on table rows. They select
  rows, keep a key unique, and order rows by a key (an insertion sort).
- `Schema` (`schema.dfy`) holds the four row types `Group`, `Post`,
  `Comment` and `Follow`, each with its auto-assigned primary key. It also
  holds the integrity errors, the printed names of rows, the default
  orderings, and the counting of follow edges.
- `Store` (`store.dfy`) holds the class `Database`. It keeps the set of
  user ids and the four tables, and its methods change them in place. Its
  invariant `Valid()` has four parts:
  - every primary key is unique, group slugs are unique, and `(user,
    author)` pairs of follow edges are unique;
  - every foreign key resolves;
  - no follow edge has `user == author`;
  - every stored id is below its table's next id.

  Every insert checks the constraints. On success it appends exactly one
  row. On failure it returns the error and changes nothing. Every delete
  applies the declared referential actions. Every method is proved to keep
  `Valid()` and to leave the other tables unchanged.
- `Scenarios` (`scenarios.dfy`) replays the follow tests against the
  contracts of `Database` alone.

Users belong to the identity service, so they are plain natural numbers
here. Timestamps are natural numbers, and a larger one is later. The
clock is a parameter `now` of the insert that would read it.

## Model

| member | source | states |
|---|---|---|
| Schema.PostStr | yatube/posts/models.py:67-68 | `str(post)` is a prefix of the text. Its length is min(15, length of the text). |
| Schema.ObjectNames | yatube/posts/tests/test_models.py:24-34 | A text of at most 15 characters prints whole. A longer text prints as exactly its first 15 characters. A group prints as its title, and a comment as its text (models.py:27-28, 97-98). |
| Schema.NewestFirst | yatube/posts/models.py:65 | The default post order is a permutation of the table, with `pub_date` non-increasing. |
| Schema.OldestFirst | yatube/posts/models.py:95 | The default comment order is a permutation of the table, with `pub_date` non-decreasing. |
| Store.DetachAll | yatube/posts/models.py:46-53 | SET_NULL over the post table: every post keeps its place and every field except `group`. A reference to the deleted group becomes null, and any other group reference is kept. |
| Store.Database.IsFollowing | yatube/posts/tests/test_subs.py:39-40 | `user` follows `author` exactly when at least one edge joins the pair, which is the `count() > 0` the follow test asserts (also lines 50-51 and 58-59). |
| Schema.EdgeCountAtMostOne | yatube/posts/models.py:118-121 | While `(user, author)` is unique among the edges, each pair has at most one edge. |
| Store.Database.AddUser | yatube/posts/models.py:6 | Adds a user id from the identity service. The tables are unchanged and the invariant still holds. |
| Store.Database.CreateGroup | yatube/posts/models.py:15-18 | Fails with `DuplicateSlug` exactly when the slug is already in use, and then changes nothing. Otherwise it appends one group with a fresh id. Slugs stay pairwise distinct. |
| Store.Database.CreatePost | yatube/posts/models.py:31-53 | Fails with `UnknownUser` or `UnknownGroup` exactly when the author or the given group is missing, and then changes nothing. Otherwise it appends one post with a fresh id, stamped `now`. The group may be null. |
| Store.Database.CreateComment | yatube/posts/models.py:71-91 | Fails with `UnknownPost` or `UnknownUser` exactly when the post or the author is missing, and then changes nothing. Otherwise it appends one comment with a fresh id. |
| Store.Database.CreateFollow | yatube/posts/models.py:101-125 | Self-follow fails with `SelfFollow`. An existing pair fails with `DuplicateFollow`. A missing user fails with `UnknownUser`. A failure changes nothing. A success appends exactly this edge, so the pair then has exactly one edge. A pair never has more than one edge. |
| Store.Database.DeleteFollow | yatube/posts/tests/test_subs.py:42-59 | Unfollow removes the edge for this pair and no other edge. The pair then has no edge. Without an edge, nothing changes. |
| Store.Database.DeleteUser | yatube/posts/models.py:40-45 | Cascade: the user, its posts, its comments, the comments on its posts, and its edges in either role are removed. Every other row stays, and the invariant still holds. |
| Store.Database.RemoveFollowsOf | yatube/posts/models.py:102-113 | First cascade step: exactly the edges in which the user is `user` or `author` are removed. |
| Store.Database.RemoveCommentsOf | yatube/posts/models.py:72-85 | Second cascade step: exactly the comments the user wrote, and the comments on posts the user wrote, are removed. No remaining comment is on such a post. |
| Store.Database.RemovePostsBy | yatube/posts/models.py:40-45 | Third cascade step: exactly the user's posts are removed. Every remaining comment is still on a remaining post. |
| Store.Database.DeletePost | yatube/posts/models.py:72-79 | Cascade: the post and exactly its comments are removed. Every other post and comment stays. |
| Store.Database.DeleteGroup | yatube/posts/models.py:46-53 | SET_NULL: the group is removed. The post table keeps its length. Posts of that group get a null group, and every other field of every post is kept. |
| Store.Database.CommentsOf | yatube/posts/models.py:72-95 | `post.comments` holds exactly the comments on that post, oldest first. Each such comment appears as many times as in the table, and no other comment appears. |
| Store.Database.FeedOf | yatube/posts/tests/test_subs.py:61-74 | The feed holds exactly the posts whose author the viewer follows, newest first. Each such post appears as many times as in the table, and no other post appears. |
| Store.Database.FeedOfNoFollows | yatube/posts/tests/test_subs.py:72-74 | A user who follows nobody has an empty feed. |
| Scenarios.FollowFeedScenario | yatube/posts/tests/test_subs.py:61-74 | After user 1 follows the author of the only post, user 1's feed has one post and user 3's feed has none. |
| Scenarios.UnfollowScenario | yatube/posts/tests/test_subs.py:42-59 | After follow, the edge exists. After unfollow, it does not. |

## Left out

- Image upload and file storage for `Post.image` (models.py:55-59) are file-system side effects.
- `verbose_name`, `help_text` and the Russian field labels are display metadata with no behaviour.
- Length limits are not modelled, and strings of any length are accepted:
  - `Group.title` has `max_length=200` (models.py:10-14). Most backends store it as `varchar(200)`.
  - `Group.slug` is a `SlugField` with the implicit `max_length=50` (models.py:15-18). Most backends store it as `varchar(50)`.
  - `Comment.text` is a `TextField` with `max_length=20000` (models.py:86-91). That limit is enforced only by the form widget, never by the database.
- `blank=False` and the slug's character set are form validation, which is not part of this model.
- `pub_date` is a natural number passed in as `now`, not a clock reading (`auto_now_add`, models.py:36-39).
- `Comment.pub_date` comes from `core.models.CreatedModel`, and core/models.py is not part of this model. The field is used only as the sort key of line 95.
- The User model is external. `AddUser` stands in for registering a user, and `DeleteUser` for deleting one.
- Post editing is done by a view that is not part of this model.
- The application's views (`posts:profile_follow`, `posts:profile_unfollow`, `posts:follow_index` and the others) are not part of this model. The same holds for login redirects, templates, 404 pages, pagination (10 posts per page) and the page cache. `CreateFollow`, `DeleteFollow` and `FeedOf` state the table changes and the query those views perform.
- The group and profile listings are views that are not part of this model. Only the follow feed is modelled, as `FeedOf`.
- NewestFirst and OldestFirst fix one order for rows with equal `pub_date`. The database leaves that order unspecified, so the contracts only state a sorted permutation.
- DeleteUser, DeletePost and DeleteFollow state the remaining rows of each table by membership. They do not state the rows' order inside the table, which the schema does not define either.
- CreateFollow checks the constraints in this order: the check constraint, then the unique pair, then the foreign keys. When several are violated at once, the error the database reports depends on the backend. This order follows the usual behaviour, where foreign-key checks are deferred to commit.
- CreatePost reports `UnknownUser` before `UnknownGroup`, and CreateComment reports `UnknownPost` before `UnknownUser`. When both foreign keys of one row are broken, the error the database reports depends on the backend, as with CreateFollow. The contracts fix this order, and the condition for success does not depend on it.
- Transactions and concurrent requests are not modelled. Each method is one atomic write.
