/**
 * The database behind the posts application: the set of known users and
 * the Group, Post, Comment and Follow tables, with the integrity rules the
 * schema declares. Inserts check the unique, check and foreign-key
 * constraints and either add exactly one row or change nothing; deletes
 * apply the declared referential actions (CASCADE for authors, posts and
 * follow edges, SET_NULL for a post's group).
 */
module Store {
  import opened Seqs
  import opened Schema

  predicate HasGroup(gs: seq<Group>, id: nat) {
    exists g :: g in gs && g.id == id
  }

  predicate SlugTaken(gs: seq<Group>, slug: string) {
    exists g :: g in gs && g.slug == slug
  }

  predicate HasPost(ps: seq<Post>, id: nat) {
    exists p :: p in ps && p.id == id
  }

  /** The ids of the posts that `u` wrote. */
  function PostIdsBy(ps: seq<Post>, u: UserId): set<nat> {
    set p | p in ps && p.author == u :: p.id
  }

  /** A post after its group `gid` was deleted: the group reference is nulled. */
  function Detach(p: Post, gid: nat): Post {
    if p.group == Some(gid) then p.(group := None) else p
  }

  /**
   * SET_NULL over the post table: every post stays in place, a reference to
   * `gid` becomes null, and nothing else about a post changes.
   */
  function DetachAll(ps: seq<Post>, gid: nat): (r: seq<Post>)
    ensures |r| == |ps|
    ensures forall i :: 0 <= i < |ps| ==>
              r[i].group == (if ps[i].group == Some(gid) then None else ps[i].group)
    ensures forall i :: 0 <= i < |ps| ==> r[i] == ps[i].(group := r[i].group)
  {
    seq(|ps|, i requires 0 <= i < |ps| => Detach(ps[i], gid))
  }

  /**
   * Removing posts that no comment of `cs` is on leaves every comment of
   * `cs` on a remaining post.
   */
  lemma CascadeKeepsCommentPosts(ps: seq<Post>, cs: seq<Comment>, keepPost: Post -> bool)
    requires forall c :: c in cs ==> HasPost(ps, c.post)
    requires forall c, p :: c in cs && p in ps && p.id == c.post ==> keepPost(p)
    ensures forall c :: c in cs ==> HasPost(Filter(ps, keepPost), c.post)
  {
  }

  /** Each detached post comes from a post of `ps`, and each post of `ps` survives detached. */
  lemma DetachAllRows(ps: seq<Post>, gid: nat)
    ensures forall p :: p in DetachAll(ps, gid) ==> exists q :: q in ps && p == Detach(q, gid)
    ensures forall q :: q in ps ==> Detach(q, gid) in DetachAll(ps, gid)
  {
  }

  /** Nulling a group reference keeps post ids unique. */
  lemma DetachAllKeepsUnique(ps: seq<Post>, gid: nat)
    requires UniqueBy(ps, PostKey)
    ensures UniqueBy(DetachAll(ps, gid), PostKey)
  {
  }

  class Database {
    var users: set<UserId>
    var groups: seq<Group>
    var posts: seq<Post>
    var comments: seq<Comment>
    var follows: seq<Follow>
    // The next primary key each table hands out (auto-increment).
    var nextGroupId: nat
    var nextPostId: nat
    var nextCommentId: nat
    var nextFollowId: nat

    /** Primary keys, the unique slug and the unique (user, author) pair. */
    ghost predicate KeysUnique()
      reads this
    {
      && UniqueBy(groups, GroupKey) && UniqueBy(groups, SlugKey)
      && UniqueBy(posts, PostKey)
      && UniqueBy(comments, CommentKey)
      && UniqueBy(follows, FollowKey) && UniqueBy(follows, PairKey)
    }

    /** Every foreign key names an existing row; a post's group may be null. */
    ghost predicate ReferencesResolve()
      reads this
    {
      && (forall p :: p in posts ==> p.author in users)
      && (forall p :: p in posts && p.group.Some? ==> HasGroup(groups, p.group.value))
      && (forall c :: c in comments ==> c.author in users && HasPost(posts, c.post))
      && (forall f :: f in follows ==> f.user in users && f.author in users)
    }

    /** The check constraint: nobody follows themself. */
    ghost predicate NoSelfFollow()
      reads this
    {
      forall f :: f in follows ==> f.user != f.author
    }

    /** Every stored id was handed out before, so the next ones are fresh. */
    ghost predicate IdsIssued()
      reads this
    {
      && (forall g :: g in groups ==> g.id < nextGroupId)
      && (forall p :: p in posts ==> p.id < nextPostId)
      && (forall c :: c in comments ==> c.id < nextCommentId)
      && (forall f :: f in follows ==> f.id < nextFollowId)
    }

    ghost predicate Valid()
      reads this
    {
      KeysUnique() && ReferencesResolve() && NoSelfFollow() && IdsIssued()
    }

    /** Whether `user` follows `author`: at least one edge joins the pair. */
    predicate IsFollowing(user: UserId, author: UserId): (b: bool)
      reads this
      ensures b <==> EdgeCount(follows, user, author) > 0
    {
      EdgeCountPositive(follows, user, author);
      HasEdge(follows, user, author)
    }

    constructor ()
      ensures Valid()
      ensures users == {} && groups == [] && posts == [] && comments == [] && follows == []
    {
      users, groups, posts, comments, follows := {}, [], [], [], [];
      nextGroupId, nextPostId, nextCommentId, nextFollowId := 0, 0, 0, 0;
    }

    /** A user registered with the identity service. */
    method AddUser(u: UserId)
      requires Valid()
      modifies this
      ensures Valid()
      ensures users == old(users) + {u}
      ensures groups == old(groups) && posts == old(posts)
      ensures comments == old(comments) && follows == old(follows)
    {
      users := users + {u};
    }

    /** Inserts a group; a slug already in use violates its unique constraint. */
    method CreateGroup(title: string, slug: string, description: string) returns (r: Result<nat>)
      requires Valid()
      modifies this
      ensures Valid()
      ensures r.Err? <==> old(SlugTaken(groups, slug))
      ensures r.Err? ==> r.error == DuplicateSlug && unchanged(this)
      ensures r.Ok? ==> groups == old(groups) + [Group(r.value, title, slug, description)]
      ensures r.Ok? ==> !old(HasGroup(groups, r.value))
      ensures users == old(users) && posts == old(posts)
      ensures comments == old(comments) && follows == old(follows)
    {
      if SlugTaken(groups, slug) {
        return Err(DuplicateSlug);
      }
      var g := Group(nextGroupId, title, slug, description);
      AppendKeepsUnique(groups, g, GroupKey);
      AppendKeepsUnique(groups, g, SlugKey);
      groups := groups + [g];
      nextGroupId := nextGroupId + 1;
      r := Ok(g.id);
    }

    /**
     * Inserts a post published at `now`. The author must be a user and the
     * group, when one is given, an existing group.
     */
    method CreatePost(author: UserId, text: string, group: Option<nat>, now: nat) returns (r: Result<nat>)
      requires Valid()
      modifies this
      ensures Valid()
      ensures author !in old(users) ==> r == Err(UnknownUser)
      ensures author in old(users) && group.Some? && !old(HasGroup(groups, group.value)) ==> r == Err(UnknownGroup)
      ensures r.Ok? <==> author in old(users) && (group.Some? ==> old(HasGroup(groups, group.value)))
      ensures r.Err? ==> unchanged(this)
      ensures r.Ok? ==> posts == old(posts) + [Post(r.value, text, now, author, group)]
      ensures r.Ok? ==> !old(HasPost(posts, r.value))
      ensures users == old(users) && groups == old(groups)
      ensures comments == old(comments) && follows == old(follows)
    {
      if author !in users {
        return Err(UnknownUser);
      }
      if group.Some? && !HasGroup(groups, group.value) {
        return Err(UnknownGroup);
      }
      var p := Post(nextPostId, text, now, author, group);
      AppendKeepsUnique(posts, p, PostKey);
      posts := posts + [p];
      nextPostId := nextPostId + 1;
      r := Ok(p.id);
    }

    /** Inserts a comment on the post `postId`, written at `now`. */
    method CreateComment(postId: nat, author: UserId, text: string, now: nat) returns (r: Result<nat>)
      requires Valid()
      modifies this
      ensures Valid()
      ensures !old(HasPost(posts, postId)) ==> r == Err(UnknownPost)
      ensures old(HasPost(posts, postId)) && author !in old(users) ==> r == Err(UnknownUser)
      ensures r.Ok? <==> old(HasPost(posts, postId)) && author in old(users)
      ensures r.Err? ==> unchanged(this)
      ensures r.Ok? ==> comments == old(comments) + [Comment(r.value, postId, author, text, now)]
      ensures r.Ok? ==> forall c :: c in old(comments) ==> c.id != r.value
      ensures users == old(users) && groups == old(groups)
      ensures posts == old(posts) && follows == old(follows)
    {
      if !HasPost(posts, postId) {
        return Err(UnknownPost);
      }
      if author !in users {
        return Err(UnknownUser);
      }
      var c := Comment(nextCommentId, postId, author, text, now);
      AppendKeepsUnique(comments, c, CommentKey);
      comments := comments + [c];
      nextCommentId := nextCommentId + 1;
      r := Ok(c.id);
    }

    /**
     * Inserts the edge `user` -> `author`. The check constraint rejects a
     * self-follow, the unique constraint a second edge for the same pair,
     * and the foreign keys an unknown user; a rejected insert changes nothing.
     */
    method CreateFollow(user: UserId, author: UserId) returns (r: Result<nat>)
      requires Valid()
      modifies this
      ensures Valid()
      ensures user == author ==> r == Err(SelfFollow)
      ensures user != author && old(IsFollowing(user, author)) ==> r == Err(DuplicateFollow)
      ensures (user != author && !old(IsFollowing(user, author)) && (user !in old(users) || author !in old(users)))
                ==> r == Err(UnknownUser)
      ensures r.Ok? <==> user != author && !old(IsFollowing(user, author)) && user in old(users) && author in old(users)
      ensures r.Err? ==> unchanged(this)
      ensures r.Ok? ==> follows == old(follows) + [Follow(r.value, user, author)]
      ensures r.Ok? ==> EdgeCount(follows, user, author) == 1
      ensures EdgeCount(follows, user, author) <= 1
      ensures users == old(users) && groups == old(groups)
      ensures posts == old(posts) && comments == old(comments)
    {
      if user == author {
        EdgeCountAtMostOne(follows, user, author);
        return Err(SelfFollow);
      }
      if HasEdge(follows, user, author) {
        EdgeCountAtMostOne(follows, user, author);
        return Err(DuplicateFollow);
      }
      if user !in users || author !in users {
        EdgeCountAtMostOne(follows, user, author);
        return Err(UnknownUser);
      }
      var f := Follow(nextFollowId, user, author);
      AppendKeepsUnique(follows, f, FollowKey);
      AppendKeepsUnique(follows, f, PairKey);
      EdgeCountPositive(follows, user, author);
      EdgeCountAppend(follows, f, user, author);
      follows := follows + [f];
      nextFollowId := nextFollowId + 1;
      r := Ok(f.id);
    }

    /** Removes the edge `user` -> `author`; without one this changes nothing. */
    method DeleteFollow(user: UserId, author: UserId)
      requires Valid()
      modifies this
      ensures Valid()
      ensures forall f :: f in follows <==> f in old(follows) && !(f.user == user && f.author == author)
      ensures !IsFollowing(user, author)
      ensures EdgeCount(follows, user, author) == 0
      ensures !old(IsFollowing(user, author)) ==> follows == old(follows)
      ensures users == old(users) && groups == old(groups)
      ensures posts == old(posts) && comments == old(comments)
    {
      if !HasEdge(follows, user, author) {
        EdgeCountPositive(follows, user, author);
        return;
      }
      var keep := (f: Follow) => !(f.user == user && f.author == author);
      FilterKeepsUnique(follows, keep, FollowKey);
      FilterKeepsUnique(follows, keep, PairKey);
      follows := Filter(follows, keep);
      EdgeCountPositive(follows, user, author);
    }

    /**
     * Removes the user `u` with everything that refers to it: the posts
     * it wrote, the comments it wrote, the comments on its posts, and the
     * follow edges in which it is the follower or the author. Like the
     * database's delete collector, it removes the dependent rows first.
     */
    method DeleteUser(u: UserId)
      requires Valid()
      modifies this
      ensures Valid()
      ensures users == old(users) - {u}
      ensures forall p :: p in posts <==> p in old(posts) && p.author != u
      ensures forall c :: c in comments <==> c in old(comments) && c.author != u && c.post !in old(PostIdsBy(posts, u))
      ensures forall f :: f in follows <==> f in old(follows) && f.user != u && f.author != u
      ensures groups == old(groups)
    {
      RemoveFollowsOf(u);
      RemoveCommentsOf(u);
      RemovePostsBy(u);
      users := users - {u};
    }

    /** The follow edges in which `u` is the follower or the author are removed. */
    method RemoveFollowsOf(u: UserId)
      requires Valid()
      modifies this
      ensures Valid()
      ensures forall f :: f in follows <==> f in old(follows) && f.user != u && f.author != u
      ensures users == old(users) && groups == old(groups)
      ensures posts == old(posts) && comments == old(comments)
    {
      var keep := (f: Follow) => f.user != u && f.author != u;
      FilterKeepsUnique(follows, keep, FollowKey);
      FilterKeepsUnique(follows, keep, PairKey);
      follows := Filter(follows, keep);
    }

    /** The comments `u` wrote and the comments on the posts `u` wrote are removed. */
    method RemoveCommentsOf(u: UserId)
      requires Valid()
      modifies this
      ensures Valid()
      ensures forall c :: c in comments <==> c in old(comments) && c.author != u && c.post !in PostIdsBy(posts, u)
      ensures forall c :: c in comments ==> c.post !in PostIdsBy(posts, u)
      ensures users == old(users) && groups == old(groups)
      ensures posts == old(posts) && follows == old(follows)
    {
      var gone := PostIdsBy(posts, u);
      var keep := (c: Comment) => c.author != u && c.post !in gone;
      FilterKeepsUnique(comments, keep, CommentKey);
      comments := Filter(comments, keep);
    }

    /**
     * The posts `u` wrote are removed, once no comment is left on them;
     * afterwards no row refers to `u` except through `users`.
     */
    method RemovePostsBy(u: UserId)
      requires Valid()
      requires forall c :: c in comments ==> c.post !in PostIdsBy(posts, u)
      modifies this
      ensures Valid()
      ensures forall p :: p in posts <==> p in old(posts) && p.author != u
      ensures users == old(users) && groups == old(groups)
      ensures comments == old(comments) && follows == old(follows)
    {
      var keep := (p: Post) => p.author != u;
      FilterKeepsUnique(posts, keep, PostKey);
      CascadeKeepsCommentPosts(posts, comments, keep);
      posts := Filter(posts, keep);
    }

    /** Removes the post `pid` together with its comments. */
    method DeletePost(pid: nat)
      requires Valid()
      modifies this
      ensures Valid()
      ensures forall p :: p in posts <==> p in old(posts) && p.id != pid
      ensures forall c :: c in comments <==> c in old(comments) && c.post != pid
      ensures users == old(users) && groups == old(groups) && follows == old(follows)
    {
      var keepPost := (p: Post) => p.id != pid;
      var keepComment := (c: Comment) => c.post != pid;
      FilterKeepsUnique(posts, keepPost, PostKey);
      FilterKeepsUnique(comments, keepComment, CommentKey);
      CascadeKeepsCommentPosts(posts, Filter(comments, keepComment), keepPost);
      posts := Filter(posts, keepPost);
      comments := Filter(comments, keepComment);
    }

    /**
     * Removes the group `gid`. Its posts stay, with their group set to
     * null; every other field of every post is kept.
     */
    method DeleteGroup(gid: nat)
      requires Valid()
      modifies this
      ensures Valid()
      ensures forall g :: g in groups <==> g in old(groups) && g.id != gid
      ensures |posts| == |old(posts)|
      ensures forall i :: 0 <= i < |posts| ==>
                posts[i].group == (if old(posts[i].group) == Some(gid) then None else old(posts[i].group))
      ensures forall i :: 0 <= i < |posts| ==> posts[i] == old(posts[i]).(group := posts[i].group)
      ensures users == old(users) && comments == old(comments) && follows == old(follows)
    {
      var keepGroup := (g: Group) => g.id != gid;
      FilterKeepsUnique(groups, keepGroup, GroupKey);
      FilterKeepsUnique(groups, keepGroup, SlugKey);
      DetachAllKeepsUnique(posts, gid);
      DetachAllRows(posts, gid);
      var oldPosts := posts;
      var oldGroups := groups;
      groups := Filter(groups, keepGroup);
      posts := DetachAll(posts, gid);
      forall c | c in comments ensures HasPost(posts, c.post) {
        var p :| p in oldPosts && p.id == c.post;
        assert Detach(p, gid) in posts;
      }
      forall p | p in posts
        ensures p.author in users && p.id < nextPostId
        ensures p.group.Some? ==> HasGroup(groups, p.group.value)
      {
        var q :| q in oldPosts && p == Detach(q, gid);
        if p.group.Some? {
          var g :| g in oldGroups && g.id == q.group.value;
          assert g in groups;
        }
      }
    }

    /** The comments of the post `pid`, oldest first. */
    function CommentsOf(pid: nat): (r: seq<Comment>)
      reads this
      ensures forall c :: c in r <==> c in comments && c.post == pid
      ensures forall c :: multiset(r)[c] == if c.post == pid then multiset(comments)[c] else 0
      ensures |r| <= |comments|
      ensures forall i, j :: 0 <= i < j < |r| ==> r[i].pubDate <= r[j].pubDate
    {
      var onPost := (c: Comment) => c.post == pid;
      var mine := Filter(comments, onPost);
      FilterCounts(comments, onPost);
      var r := OldestFirst(mine);
      assert forall c :: c in r <==> c in mine by {
        forall c ensures c in r <==> c in mine {
          assert c in r <==> c in multiset(r);
          assert c in mine <==> c in multiset(mine);
        }
      }
      r
    }

    /** The feed of `viewer`: the posts of every author it follows, newest first. */
    function FeedOf(viewer: UserId): (r: seq<Post>)
      reads this
      ensures forall p :: p in r <==> p in posts && IsFollowing(viewer, p.author)
      ensures forall p :: multiset(r)[p] == if IsFollowing(viewer, p.author) then multiset(posts)[p] else 0
      ensures |r| <= |posts|
      ensures forall i, j :: 0 <= i < j < |r| ==> r[i].pubDate >= r[j].pubDate
    {
      var fs := follows;
      var byFollowed := (p: Post) => HasEdge(fs, viewer, p.author);
      var followed := Filter(posts, byFollowed);
      FilterCounts(posts, byFollowed);
      var r := NewestFirst(followed);
      assert forall p :: p in r <==> p in followed by {
        forall p ensures p in r <==> p in followed {
          assert p in r <==> p in multiset(r);
          assert p in followed <==> p in multiset(followed);
        }
      }
      r
    }

    /** A user who follows nobody has an empty feed. */
    lemma FeedOfNoFollows(viewer: UserId)
      requires forall f :: f in follows ==> f.user != viewer
      ensures FeedOf(viewer) == []
    {
    }
  }
}
