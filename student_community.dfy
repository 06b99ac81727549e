/** The student community page: the bus's post feed, and posting as a
    student. */
module StudentCommunity {
  import opened Common
  import opened SharedState
  import opened Feed

  /** Author name for a student without a display name. */
  const DefaultAuthor: string := "Student"

  /** The post `handlePost` adds; the store assigns its id and the server
      fills in `serverTime`. */
  function StudentPost(text: string, bus: string, user: User, serverTime: Timestamp): (p: Post)
    ensures p.content == text && p.busNumber == bus && p.authorId == user.uid
    ensures p.authorName == OrElse(user.displayName, DefaultAuthor)
    ensures p.role == Student && !p.isPinned && p.timestamp == Some(serverTime)
  {
    Post(0, text, bus, user.uid, OrElse(user.displayName, DefaultAuthor), Student, false, Some(serverTime))
  }

  /** A student's post never outranks a pinned post: in the feed it comes
      after every pinned post, whatever its time. */
  lemma StudentPostsFollowPinned(feed: seq<Post>, now: real, i: nat, j: nat, text: string, bus: string,
                                 user: User, serverTime: Timestamp, id: nat)
    requires FeedOrdered(feed, now)
    requires i < |feed| && j < |feed|
    requires feed[i] == StudentPost(text, bus, user, serverTime).(id := id)
    requires feed[j].isPinned
    ensures j < i
  {
  }

  class Page {
    var user: Option<User>
    var bus: Option<string>
    var posts: seq<Post>
    var newPost: string
    var loading: bool

    /** The page as first rendered for the `bus` query parameter. */
    constructor (queryBus: Option<string>)
      ensures user == None && bus == queryBus
      ensures posts == [] && newPost == "" && loading
    {
      user, bus, posts, newPost, loading := None, queryBus, [], "", true;
    }

    method SignedIn(u: User)
      modifies this`user
      ensures user == Some(u)
    {
      user := Some(u);
    }

    method Edit(text: string)
      modifies this`newPost
      ensures newPost == text
    {
      newPost := text;
    }

    /** The posts listener: without a bus nothing is subscribed; otherwise
        the feed becomes the bus's posts, pinned first and newest first. */
    method OnSnapshot(store: Store, now: real)
      modifies this`posts, this`loading
      ensures !Truthy(bus) ==> posts == old(posts) && loading == old(loading)
      ensures Truthy(bus) ==>
                && FeedOrdered(posts, now)
                && multiset(posts) == multiset(BusPosts(store.posts, bus.value))
                && !loading
    {
      if Truthy(bus) {
        posts := LoadFeed(store.posts, bus.value, now);
        loading := false;
      }
    }

    /** The listener's error callback. */
    method OnSnapshotError()
      modifies this`loading
      ensures !loading
    {
      loading := false;
    }

    /** `handlePost`: a blank text, a missing user or a missing bus does
        nothing; otherwise one student post is added and, once the write
        succeeds, the input is cleared. */
    method Submit(store: Store, serverTime: Timestamp, storeOk: bool)
      requires store.Valid()
      modifies this`newPost, store`posts, store`nextId
      ensures store.Valid()
      ensures !Accepted(old(newPost), user, bus) || !storeOk ==>
                store.posts == old(store.posts) && store.nextId == old(store.nextId) && newPost == old(newPost)
      ensures Accepted(old(newPost), user, bus) && storeOk ==>
                && store.posts == old(store.posts) +
                     [StudentPost(old(newPost), bus.value, user.value, serverTime).(id := old(store.nextId))]
                && store.nextId == old(store.nextId) + 1
                && newPost == ""
    {
      if !Accepted(newPost, user, bus) || !storeOk {
        return;
      }
      var _ := store.AddPost(StudentPost(newPost, bus.value, user.value, serverTime));
      newPost := "";
    }
  }
}
