/** The driver community page: the same feed, posting as the driver with
    the post pinned, and deleting posts. */
module DriverCommunity {
  import opened Common
  import opened SharedState
  import opened Feed

  /** The author name every driver post carries. */
  const DriverAuthor: string := "Driver"

  /** The post `handlePost` adds: always pinned, always signed "Driver". */
  function DriverPost(text: string, bus: string, user: User, serverTime: Timestamp): (p: Post)
    ensures p.content == text && p.busNumber == bus && p.authorId == user.uid
    ensures p.authorName == DriverAuthor
    ensures p.role == Driver && p.isPinned && p.timestamp == Some(serverTime)
  {
    Post(0, text, bus, user.uid, DriverAuthor, Driver, true, Some(serverTime))
  }

  /** A driver's post is auto-pinned, so it is shown ahead of every
      unpinned post in the ordered feed. */
  lemma DriverPostsLead(feed: seq<Post>, now: real, i: nat, j: nat, text: string, bus: string,
                        user: User, serverTime: Timestamp, id: nat)
    requires FeedOrdered(feed, now)
    requires i < |feed| && j < |feed|
    requires feed[i] == DriverPost(text, bus, user, serverTime).(id := id)
    requires !feed[j].isPinned
    ensures i < j
  {
  }

  predicate NotId(p: Post, id: nat) {
    p.id != id
  }

  predicate HasId(p: Post, id: nat) {
    p.id == id
  }

  /** The `posts` collection after `deleteDoc(posts/<id>)`. */
  function WithoutPost(posts: seq<Post>, id: nat): (r: seq<Post>)
    ensures forall p :: p in r <==> p in posts && p.id != id
  {
    Filter(posts, p => NotId(p, id))
  }

  lemma {:induction false} CountComplement(posts: seq<Post>, id: nat)
    ensures Count(posts, p => NotId(p, id)) + Count(posts, p => HasId(p, id)) == |posts|
  {
    if posts != [] {
      CountComplement(posts[1..], id);
    }
  }

  lemma {:induction false} OneWithId(posts: seq<Post>, id: nat)
    requires DistinctBy(posts, PostId)
    requires exists p :: p in posts && p.id == id
    ensures Count(posts, p => HasId(p, id)) == 1
  {
    if posts[0].id == id {
      assert forall p :: p in posts[1..] ==> p.id != id by {
        forall p | p in posts[1..] ensures p.id != id {
          var k :| 0 <= k < |posts[1..]| && posts[1..][k] == p;
          assert posts[k + 1] == p;
        }
      }
    } else {
      var p :| p in posts && p.id == id;
      assert p in posts[1..] by {
        var k :| 0 <= k < |posts| && posts[k] == p;
        assert k != 0;
        assert posts[1..][k - 1] == p;
      }
      OneWithId(posts[1..], id);
    }
  }

  /** Deleting a stored post removes exactly that post: the feed shrinks by
      one and every other post stays. */
  lemma DeleteRemovesExactlyOne(posts: seq<Post>, id: nat)
    requires DistinctBy(posts, PostId)
    requires exists p :: p in posts && p.id == id
    ensures |WithoutPost(posts, id)| == |posts| - 1
    ensures forall p :: p in posts && p.id != id ==> p in WithoutPost(posts, id)
  {
    FilterLength(posts, p => NotId(p, id));
    CountComplement(posts, id);
    OneWithId(posts, id);
  }

  /** Deleting an id no post carries changes nothing. */
  lemma {:induction false} DeleteMissingIsNoop(posts: seq<Post>, id: nat)
    requires forall p :: p in posts ==> p.id != id
    ensures WithoutPost(posts, id) == posts
  {
    if posts != [] {
      assert forall p :: p in posts[1..] ==> p in posts;
      DeleteMissingIsNoop(posts[1..], id);
      assert posts == [posts[0]] + posts[1..];
    }
  }

  class Page {
    var user: Option<User>
    var bus: Option<string>
    var posts: seq<Post>
    var newPost: string
    var loading: bool

    /** The page as first rendered for the `bus` query parameter. */
    constructor (queryBus: Option<string>)
      ensures user == None && bus == queryBus
      ensures posts == [] && newPost == "" && loading
    {
      user, bus, posts, newPost, loading := None, queryBus, [], "", true;
    }

    method SignedIn(u: User)
      modifies this`user
      ensures user == Some(u)
    {
      user := Some(u);
    }

    method Edit(text: string)
      modifies this`newPost
      ensures newPost == text
    {
      newPost := text;
    }

    /** The posts listener, as on the student page. */
    method OnSnapshot(store: Store, now: real)
      modifies this`posts, this`loading
      ensures !Truthy(bus) ==> posts == old(posts) && loading == old(loading)
      ensures Truthy(bus) ==>
                && FeedOrdered(posts, now)
                && multiset(posts) == multiset(BusPosts(store.posts, bus.value))
                && !loading
    {
      if Truthy(bus) {
        posts := LoadFeed(store.posts, bus.value, now);
        loading := false;
      }
    }

    /** The listener's error callback. */
    method OnSnapshotError()
      modifies this`loading
      ensures !loading
    {
      loading := false;
    }

    /** `handlePost`: the same guard as the student page; the post is the
        driver's, pinned. */
    method Submit(store: Store, serverTime: Timestamp, storeOk: bool)
      requires store.Valid()
      modifies this`newPost, store`posts, store`nextId
      ensures store.Valid()
      ensures !Accepted(old(newPost), user, bus) || !storeOk ==>
                store.posts == old(store.posts) && store.nextId == old(store.nextId) && newPost == old(newPost)
      ensures Accepted(old(newPost), user, bus) && storeOk ==>
                && store.posts == old(store.posts) +
                     [DriverPost(old(newPost), bus.value, user.value, serverTime).(id := old(store.nextId))]
                && store.nextId == old(store.nextId) + 1
                && newPost == ""
    {
      if !Accepted(newPost, user, bus) || !storeOk {
        return;
      }
      var _ := store.AddPost(DriverPost(newPost, bus.value, user.value, serverTime));
      newPost := "";
    }

    /** `handleDelete`: after the confirmation, the post with that id is
        deleted, whichever bus or author it belongs to; a declined
        confirmation or a failed delete changes nothing. */
    method Delete(store: Store, postId: nat, confirmed: bool, storeOk: bool)
      requires store.Valid()
      modifies store`posts
      ensures store.Valid()
      ensures confirmed && storeOk ==> store.posts == WithoutPost(old(store.posts), postId)
      ensures confirmed && storeOk && (exists p :: p in old(store.posts) && p.id == postId) ==>
                |store.posts| == |old(store.posts)| - 1
      ensures !(confirmed && storeOk) ==> store.posts == old(store.posts)
    {
      if confirmed && storeOk {
        FilterDistinct(store.posts, p => NotId(p, postId), PostId);
        if exists p :: p in store.posts && p.id == postId {
          DeleteRemovesExactlyOne(store.posts, postId);
        }
        store.posts := WithoutPost(store.posts, postId);
      }
    }
  }
}
