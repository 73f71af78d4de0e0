/**
 * The rows of the four tables of the posts application (Group, Post,
 * Comment, Follow), what each row prints as, the default order of the
 * Post and Comment tables, and the counting of follow edges.
 *
 * Users belong to the identity service and appear only as opaque ids.
 * Every row carries its auto-assigned primary key `id`; timestamps are
 * abstract naturals, larger meaning later.
 */
module Schema {
  import opened Seqs

  type UserId = nat

  datatype Option<T> = None | Some(value: T)

  datatype Group = Group(id: nat, title: string, slug: string, description: string)

  /** `group` is nullable: it becomes None when the group is deleted. */
  datatype Post = Post(id: nat, text: string, pubDate: nat, author: UserId, group: Option<nat>)

  datatype Comment = Comment(id: nat, post: nat, author: UserId, text: string, pubDate: nat)

  /** A follow edge: `user` reads the posts of `author`. */
  datatype Follow = Follow(id: nat, user: UserId, author: UserId)

  /** The integrity errors a write can raise. */
  datatype Error =
    | DuplicateSlug    // unique slug of Group
    | SelfFollow       // check constraint "author_author" of Follow
    | DuplicateFollow  // unique constraint "user_author" of Follow
    | UnknownUser      // a foreign key to a user that does not exist
    | UnknownGroup     // a foreign key to a group that does not exist
    | UnknownPost      // a foreign key to a post that does not exist

  datatype Result<T> = Ok(value: T) | Err(error: Error)

  // Keys of the tables' primary keys and unique constraints.
  function GroupKey(g: Group): nat { g.id }
  function SlugKey(g: Group): string { g.slug }
  function PostKey(p: Post): nat { p.id }
  function CommentKey(c: Comment): nat { c.id }
  function FollowKey(f: Follow): nat { f.id }
  function PairKey(f: Follow): (UserId, UserId) { (f.user, f.author) }

  /** How many characters of its text a post prints as. */
  const PostStrLength := 15

  function Min(a: int, b: int): int { if a <= b then a else b }

  /** `str(post)`: the text cut to its first 15 characters. */
  function PostStr(p: Post): (r: string)
    ensures |r| == Min(PostStrLength, |p.text|)
    ensures r == p.text[..|r|]
  {
    if |p.text| <= PostStrLength then p.text else p.text[..PostStrLength]
  }

  /** `str(group)`. */
  function GroupStr(g: Group): string { g.title }

  /** `str(comment)`. */
  function CommentStr(c: Comment): string { c.text }

  /**
   * What the model tests expect of the three names: a post prints as
   * `text[:15]`, which is all of a text of at most 15 characters and
   * otherwise exactly its first 15; a group as its title; a comment as
   * its text.
   */
  lemma ObjectNames(p: Post, g: Group, c: Comment)
    ensures |p.text| <= 15 ==> PostStr(p) == p.text
    ensures |p.text| > 15 ==> PostStr(p) == p.text[..15] && |PostStr(p)| == 15
    ensures GroupStr(g) == g.title
    ensures CommentStr(c) == c.text
  {
  }

  function NewestKey(p: Post): int { -(p.pubDate as int) }
  function OldestKey(c: Comment): int { c.pubDate }

  /** The default order of posts: by publication date, newest first. */
  function NewestFirst(ps: seq<Post>): (r: seq<Post>)
    ensures multiset(r) == multiset(ps)
    ensures forall i, j :: 0 <= i < j < |r| ==> r[i].pubDate >= r[j].pubDate
  {
    var r := SortByKey(ps, NewestKey);
    assert forall i, j :: 0 <= i < j < |r| ==> NewestKey(r[i]) <= NewestKey(r[j]);
    r
  }

  /** The default order of comments: by publication date, oldest first. */
  function OldestFirst(cs: seq<Comment>): (r: seq<Comment>)
    ensures multiset(r) == multiset(cs)
    ensures forall i, j :: 0 <= i < j < |r| ==> r[i].pubDate <= r[j].pubDate
  {
    var r := SortByKey(cs, OldestKey);
    assert forall i, j :: 0 <= i < j < |r| ==> OldestKey(r[i]) <= OldestKey(r[j]);
    r
  }

  /** Is there an edge from `user` to `author` among `fs`? */
  predicate HasEdge(fs: seq<Follow>, user: UserId, author: UserId) {
    exists f :: f in fs && f.user == user && f.author == author
  }

  /** The number of edges from `user` to `author` among `fs`. */
  function EdgeCount(fs: seq<Follow>, user: UserId, author: UserId): nat {
    if fs == [] then 0
    else (if fs[0].user == user && fs[0].author == author then 1 else 0) + EdgeCount(fs[1..], user, author)
  }

  lemma {:induction false} EdgeCountPositive(fs: seq<Follow>, user: UserId, author: UserId)
    ensures EdgeCount(fs, user, author) > 0 <==> HasEdge(fs, user, author)
  {
    if fs != [] {
      EdgeCountPositive(fs[1..], user, author);
      assert fs == [fs[0]] + fs[1..];
    }
  }

  /** Under the unique constraint on (user, author) a pair has at most one edge. */
  lemma {:induction false} EdgeCountAtMostOne(fs: seq<Follow>, user: UserId, author: UserId)
    requires UniqueBy(fs, PairKey)
    ensures EdgeCount(fs, user, author) <= 1
  {
    if fs != [] {
      var tail := fs[1..];
      UniqueTail(fs, PairKey);
      EdgeCountAtMostOne(tail, user, author);
      if fs[0].user == user && fs[0].author == author {
        forall k | 0 <= k < |tail| ensures PairKey(tail[k]) != PairKey(fs[0]) {
          assert tail[k] == fs[k + 1];
        }
        EdgeCountPositive(tail, user, author);
      }
    }
  }

  lemma {:induction false} EdgeCountAppend(fs: seq<Follow>, f: Follow, user: UserId, author: UserId)
    ensures EdgeCount(fs + [f], user, author)
         == EdgeCount(fs, user, author) + (if f.user == user && f.author == author then 1 else 0)
  {
    if fs != [] {
      assert (fs + [f])[1..] == fs[1..] + [f];
      EdgeCountAppend(fs[1..], f, user, author);
    }
  }
}
