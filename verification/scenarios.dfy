/**
 * Client scenarios: the follow tests of the posts application replayed
 * against the store's contracts alone.
 */
module Scenarios {
  import opened Schema
  import opened Store

  /**
   * Users 1, 2 and 3; user 2 writes a post and user 1 follows user 2.
   * The follower's feed then holds that one post and user 3, who follows
   * nobody, sees an empty feed.
   */
  method FollowFeedScenario() returns (followerFeed: nat, otherFeed: nat)
    ensures followerFeed == 1 && otherFeed == 0
  {
    var db := FollowedAuthorWithPost();
    followerFeed := |db.FeedOf(1)|;
    db.FeedOfNoFollows(3);
    otherFeed := |db.FeedOf(3)|;
  }

  /** Users 1, 2 and 3, one post by user 2, and the edge 1 -> 2. */
  method FollowedAuthorWithPost() returns (db: Database)
    ensures db.Valid()
    ensures |db.FeedOf(1)| == 1
    ensures forall f :: f in db.follows ==> f.user == 1 && f.author == 2
  {
    db := AuthorWithPost();
    var p := db.posts[0];
    var edge := db.CreateFollow(1, 2);
    assert Follow(edge.value, 1, 2) in db.follows;
    assert p in db.FeedOf(1);
  }

  /** Users 1, 2 and 3 and one post, by user 2; nobody follows anybody. */
  method AuthorWithPost() returns (db: Database)
    ensures db.Valid()
    ensures db.users == {1, 2, 3} && db.follows == []
    ensures fresh(db)
    ensures |db.posts| == 1 && db.posts[0].author == 2
  {
    db := new Database();
    db.AddUser(1);
    db.AddUser(2);
    db.AddUser(3);
    var post := db.CreatePost(2, "post", None, 0);
  }

  /** User 1 follows user 2 and then unfollows: the edge exists, then it does not. */
  method UnfollowScenario() returns (before: bool, after: bool)
    ensures before && !after
  {
    var db := new Database();
    db.AddUser(1);
    db.AddUser(2);
    var edge := db.CreateFollow(1, 2);
    before := db.IsFollowing(1, 2);
    db.DeleteFollow(1, 2);
    after := db.IsFollowing(1, 2);
  }
}
