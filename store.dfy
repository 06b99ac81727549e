/** The state both apps share through the document store: the `tracking`
    collection (one document per bus code, written by field-level merges),
    the `boardings` log and the `posts` feed. */
module SharedState {
  import opened Common

  /** The fields a tracking document can hold. */
  datatype Field = Lat | Lng | Speed | BusNumber | PassengerCount | LastUpdated

  /** A stored field value: every JavaScript number is a `Num`. */
  datatype Value = Num(n: real) | Str(s: string) | Time(t: Timestamp)

  /** A tracking document: each field is either present or absent. */
  type Doc = map<Field, Value>

  /** `setDoc(ref, patch, { merge: true })`: the fields named in the patch
      take the patch's values, every other field keeps its value. */
  function Merge(doc: Doc, patch: Doc): (r: Doc)
    ensures r.Keys == doc.Keys + patch.Keys
    ensures forall f :: f in patch ==> r[f] == patch[f]
    ensures forall f :: f in doc && f !in patch ==> r[f] == doc[f]
  {
    doc + patch
  }

  /** A tracking document as a merge sees it: a missing document is empty. */
  function DocOf(tracking: map<string, Doc>, bus: string): (d: Doc)
    ensures bus !in tracking ==> d == map[]
    ensures bus in tracking ==> d == tracking[bus]
  {
    if bus in tracking then tracking[bus] else map[]
  }

  /** A number field read with JavaScript's `doc.field`: only numbers count. */
  function NumField(doc: Doc, f: Field): (r: Option<real>)
    ensures r.Some? <==> f in doc && doc[f].Num?
    ensures r.Some? ==> doc[f] == Num(r.value)
  {
    if f in doc && doc[f].Num? then Some(doc[f].n) else None
  }

  /** The document after a sequence of merges, applied oldest first. */
  function ApplyWrites(doc: Doc, writes: seq<Doc>): Doc
  {
    if writes == [] then doc
    else Merge(ApplyWrites(doc, writes[..|writes| - 1]), writes[|writes| - 1])
  }

  /** The value that the most recent write naming `f` gave it, if any. */
  function LastWriteOf(writes: seq<Doc>, f: Field): Option<Value>
  {
    if writes == [] then None
    else if f in writes[|writes| - 1] then Some(writes[|writes| - 1][f])
    else LastWriteOf(writes[..|writes| - 1], f)
  }

  /** No cross-field clobbering: whatever the interleaving of writers, each
      field holds the value of the last write that named it, or its value
      from before the writes when none did. */
  lemma {:induction false} LastWriterWinsPerField(doc: Doc, writes: seq<Doc>, f: Field)
    ensures LastWriteOf(writes, f).Some? ==>
              f in ApplyWrites(doc, writes) && ApplyWrites(doc, writes)[f] == LastWriteOf(writes, f).value
    ensures LastWriteOf(writes, f).None? ==>
              (f in ApplyWrites(doc, writes) <==> f in doc) &&
              (f in doc ==> ApplyWrites(doc, writes)[f] == doc[f])
  {
    if writes != [] {
      LastWriterWinsPerField(doc, writes[..|writes| - 1], f);
    }
  }

  /** The status field of a boarding event. */
  datatype Status = Boarded | DroppedOff

  /** One document of the `boardings` collection. */
  datatype Boarding = Boarding(
    id: nat,
    busNumber: string,
    studentId: string,
    studentName: Option<string>,
    status: Status,
    scannedAt: int,
    droppedOffAt: Option<int>)

  /** The driver's roster query: events for this bus whose status is Boarded. */
  predicate Aboard(b: Boarding, bus: string) {
    b.busNumber == bus && b.status == Boarded
  }

  /** How many boarding events put a passenger on `bus`. */
  function BoardedCount(boardings: seq<Boarding>, bus: string): nat {
    Count(boardings, b => Aboard(b, bus))
  }

  /** The document id of a boarding event. */
  function BoardingId(b: Boarding): nat { b.id }

  /** Who wrote a community post. */
  datatype Role = Student | Driver

  /** One document of the `posts` collection; `timestamp` is absent while
      the server has not yet assigned it. */
  datatype Post = Post(
    id: nat,
    content: string,
    busNumber: string,
    authorId: string,
    authorName: string,
    role: Role,
    isPinned: bool,
    timestamp: Option<Timestamp>)

  /** The document id of a post. */
  function PostId(p: Post): nat { p.id }

  /** The document store: collections held in memory, with store-assigned
      document ids drawn from `nextId`. */
  class Store {
    var tracking: map<string, Doc>
    var boardings: seq<Boarding>
    var posts: seq<Post>
    var nextId: nat

    /** Every stored document id was handed out before `nextId`, and no
        two documents of a collection share an id. */
    ghost predicate Valid()
      reads this
    {
      && (forall b :: b in boardings ==> b.id < nextId)
      && (forall p :: p in posts ==> p.id < nextId)
      && DistinctBy(boardings, BoardingId)
      && DistinctBy(posts, PostId)
    }

    constructor ()
      ensures Valid()
      ensures tracking == map[] && boardings == [] && posts == [] && nextId == 0
    {
      tracking, boardings, posts, nextId := map[], [], [], 0;
    }

    /** A merge write to `tracking/<bus>`; creates the document if needed. */
    method MergeTracking(bus: string, patch: Doc)
      modifies this`tracking
      ensures tracking == old(tracking)[bus := Merge(DocOf(old(tracking), bus), patch)]
    {
      tracking := tracking[bus := Merge(DocOf(tracking, bus), patch)];
    }

    /** `addDoc` on `boardings`: the event is stored under a fresh id. */
    method AddBoarding(b: Boarding) returns (id: nat)
      requires Valid()
      modifies this`boardings, this`nextId
      ensures Valid()
      ensures id == old(nextId) && nextId == id + 1
      ensures forall x :: x in old(boardings) ==> x.id != id
      ensures boardings == old(boardings) + [b.(id := id)]
    {
      id := nextId;
      boardings := boardings + [b.(id := id)];
      nextId := nextId + 1;
      assert forall i :: 0 <= i < |boardings| - 1 ==> boardings[i] in old(boardings);
    }

    /** `addDoc` on `posts`: the post is stored under a fresh id. */
    method AddPost(p: Post) returns (id: nat)
      requires Valid()
      modifies this`posts, this`nextId
      ensures Valid()
      ensures id == old(nextId) && nextId == id + 1
      ensures forall x :: x in old(posts) ==> x.id != id
      ensures posts == old(posts) + [p.(id := id)]
    {
      id := nextId;
      posts := posts + [p.(id := id)];
      nextId := nextId + 1;
      assert forall i :: 0 <= i < |posts| - 1 ==> posts[i] in old(posts);
    }
  }
}
