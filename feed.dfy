/** What the two community pages share: the per-bus post query, the
    pinned-then-newest comparator with its in-place sort, the blank-post
    test and the post-time display. */
module Feed {
  import opened Common
  import opened SharedState

  const JustNow: string := "Just now"

  // ---------------------------------------------------------------------
  // Ordering

  /** The comparator's time for a post: its timestamp, or `now` while the
      server has not assigned one. */
  function PostMillis(p: Post, now: real): (t: real)
    ensures p.timestamp.None? ==> t == now
    ensures p.timestamp.Some? ==> t == ToMillis(p.timestamp.value)
  {
    if p.timestamp.Some? then ToMillis(p.timestamp.value) else now
  }

  /** `a` may stand before `b`: the comparator does not return a positive
      number for the pair. */
  predicate Before(a: Post, b: Post, now: real) {
    if a.isPinned != b.isPinned then a.isPinned else PostMillis(a, now) >= PostMillis(b, now)
  }

  /** The feed order: pinned posts first, newest first within each group. */
  predicate FeedOrdered(s: seq<Post>, now: real) {
    forall i, j :: 0 <= i < j < |s| ==> Before(s[i], s[j], now)
  }

  /** The comparator is a total preorder, so sorting by it is well defined. */
  lemma BeforeIsTotalPreorder(a: Post, b: Post, c: Post, now: real)
    ensures Before(a, b, now) || Before(b, a, now)
    ensures Before(a, b, now) && Before(b, c, now) ==> Before(a, c, now)
  {
  }

  /** What an ordered feed promises the reader: every pinned post precedes
      every unpinned one, and times never increase within a group. */
  lemma OrderedFeedShape(s: seq<Post>, now: real)
    requires FeedOrdered(s, now)
    ensures forall i, j :: 0 <= i < j < |s| && s[j].isPinned ==> s[i].isPinned
    ensures forall i, j :: 0 <= i < j < |s| && s[i].isPinned == s[j].isPinned ==>
              PostMillis(s[i], now) >= PostMillis(s[j], now)
  {
  }

  /** `data.sort(comparator)` on the snapshot's array, in place. */
  method SortFeed(a: array<Post>, now: real)
    modifies a
    ensures FeedOrdered(a[..], now)
    ensures multiset(a[..]) == old(multiset(a[..]))
  {
    if a.Length == 0 {
      return;
    }
    var i := 1;
    while i < a.Length
      invariant 1 <= i <= a.Length
      invariant FeedOrdered(a[..i], now)
      invariant multiset(a[..]) == old(multiset(a[..]))
    {
      var j := i;
      while j > 0 && !Before(a[j - 1], a[j], now)
        invariant 0 <= j <= i < a.Length
        invariant forall k, l :: 0 <= k < l <= i && k != j && l != j ==> Before(a[k], a[l], now)
        invariant forall l :: j < l <= i ==> Before(a[j], a[l], now)
        invariant multiset(a[..]) == old(multiset(a[..]))
      {
        a[j - 1], a[j] := a[j], a[j - 1];
        j := j - 1;
      }
      i := i + 1;
    }
  }

  // ---------------------------------------------------------------------
  // The query and the snapshot

  predicate OnBus(p: Post, bus: string) {
    p.busNumber == bus
  }

  /** The query `where('busNumber', '==', bus)`. */
  function BusPosts(posts: seq<Post>, bus: string): (r: seq<Post>)
    ensures forall p :: p in r <==> p in posts && p.busNumber == bus
  {
    Filter(posts, p => OnBus(p, bus))
  }

  /** A snapshot as a page shows it: the bus's posts, copied into a fresh
      array and sorted there. */
  method LoadFeed(posts: seq<Post>, bus: string, now: real) returns (feed: seq<Post>)
    ensures FeedOrdered(feed, now)
    ensures multiset(feed) == multiset(BusPosts(posts, bus))
    ensures forall p :: p in feed <==> p in posts && p.busNumber == bus
  {
    var data := BusPosts(posts, bus);
    var a := new Post[|data|](i requires 0 <= i < |data| => data[i]);
    assert a[..] == data;
    SortFeed(a, now);
    feed := a[..];
    assert forall p :: p in feed <==> p in multiset(data);
  }

  // ---------------------------------------------------------------------
  // Posting

  /** The characters `String.prototype.trim` removes. */
  predicate IsJsSpace(c: char) {
    || c == ' ' || c == '\t' || c == '\n' || c == '\r' || c == '\U{000B}' || c == '\U{000C}'
    || c == '\U{00A0}' || c == '\U{1680}' || ('\U{2000}' <= c <= '\U{200A}')
    || c == '\U{2028}' || c == '\U{2029}' || c == '\U{202F}' || c == '\U{205F}'
    || c == '\U{3000}' || c == '\U{FEFF}'
  }

  function TrimStart(s: string): (r: string)
    ensures |r| <= |s| && r == s[|s| - |r|..]
    ensures r != [] ==> !IsJsSpace(r[0])
    ensures forall i :: 0 <= i < |s| - |r| ==> IsJsSpace(s[i])
  {
    if s != [] && IsJsSpace(s[0]) then TrimStart(s[1..]) else s
  }

  function TrimEnd(s: string): (r: string)
    ensures |r| <= |s| && r == s[..|r|]
    ensures r != [] ==> !IsJsSpace(r[|r| - 1])
    ensures forall i :: |r| <= i < |s| ==> IsJsSpace(s[i])
  {
    if s != [] && IsJsSpace(s[|s| - 1]) then TrimEnd(s[..|s| - 1]) else s
  }

  /** `s.trim()`: `s` without its leading and trailing white space. */
  function Trim(s: string): (r: string)
    ensures r != [] ==> !IsJsSpace(r[0]) && !IsJsSpace(r[|r| - 1])
    ensures exists i, j :: 0 <= i <= j <= |s| && r == s[i..j] &&
              (forall k :: 0 <= k < i ==> IsJsSpace(s[k])) && (forall k :: j <= k < |s| ==> IsJsSpace(s[k]))
  {
    var e := TrimEnd(s);
    var r := TrimStart(e);
    var i, j := |e| - |r|, |e|;
    assert r == s[i..j];
    assert forall k :: 0 <= k < i ==> s[k] == e[k];
    r
  }

  /** A post is blank exactly when every character is white space. */
  lemma BlankIffAllSpace(s: string)
    ensures Trim(s) == "" <==> forall i :: 0 <= i < |s| ==> IsJsSpace(s[i])
  {
  }

  /** `handlePost`'s guard: non-blank text, a user and a bus. */
  predicate Accepted(text: string, user: Option<User>, bus: Option<string>) {
    Trim(text) != "" && user.Some? && Truthy(bus)
  }

  /** The post-time display: `Just now` until the server time is known. */
  function FormatPostTime(ts: Option<Timestamp>, locale: Timestamp -> string): (r: string)
    ensures ts.None? ==> r == JustNow
    ensures ts.Some? ==> r == locale(ts.value)
  {
    if ts.None? then JustNow else locale(ts.value)
  }
}
