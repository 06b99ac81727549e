/** The attendance page: the student's own boarding history, newest scan
    first, with a time and a label chosen by status. */
module Attendance {
  import opened Common
  import opened SharedState

  const SafeArrival: string := "Safe Arrival"
  const OnBoard: string := "On Board"

  /** Newest scan first. */
  predicate NewestFirst(s: seq<Boarding>) {
    forall i, j :: 0 <= i < j < |s| ==> s[i].scannedAt >= s[j].scannedAt
  }

  /** Puts `b` into a list already ordered newest first. */
  function Insert(b: Boarding, s: seq<Boarding>): (r: seq<Boarding>)
    requires NewestFirst(s)
    ensures NewestFirst(r)
    ensures forall x :: x in r <==> x == b || x in s
    ensures multiset(r) == multiset(s) + multiset{b}
  {
    if s == [] || b.scannedAt >= s[0].scannedAt then [b] + s
    else
      var rest := Insert(b, s[1..]);
      assert s == [s[0]] + s[1..];
      assert forall x :: x in rest ==> x.scannedAt <= s[0].scannedAt;
      [s[0]] + rest
  }

  /** The query's `orderBy('scannedAt', 'desc')`. */
  function SortNewestFirst(s: seq<Boarding>): (r: seq<Boarding>)
    ensures NewestFirst(r)
    ensures multiset(r) == multiset(s)
  {
    if s == [] then []
    else
      assert s == [s[0]] + s[1..];
      Insert(s[0], SortNewestFirst(s[1..]))
  }

  predicate OwnedBy(b: Boarding, uid: string) {
    b.studentId == uid
  }

  /** The history snapshot: this student's events, newest scan first. */
  function History(bs: seq<Boarding>, uid: string): (r: seq<Boarding>)
    ensures NewestFirst(r)
    ensures multiset(r) == multiset(Filter(bs, b => OwnedBy(b, uid)))
    ensures forall b :: b in r <==> b in bs && b.studentId == uid
  {
    var mine := Filter(bs, b => OwnedBy(b, uid));
    var r := SortNewestFirst(mine);
    assert forall b :: b in r <==> b in multiset(mine);
    r
  }

  /** The time shown on a card: the drop-off time once dropped off, the
      scan time otherwise. */
  function ShownTime(b: Boarding): (t: Option<int>)
    ensures b.status == DroppedOff ==> t == b.droppedOffAt
    ensures b.status != DroppedOff ==> t == Some(b.scannedAt)
  {
    if b.status == DroppedOff then b.droppedOffAt else Some(b.scannedAt)
  }

  /** The card's label. */
  function Label(b: Boarding): (l: string)
    ensures l == SafeArrival <==> b.status == DroppedOff
    ensures l == OnBoard <==> b.status != DroppedOff
  {
    if b.status == DroppedOff then SafeArrival else OnBoard
  }

  /** `formatDate` and `formatTime`: a missing or zero timestamp shows as
      the empty string; any other goes through the locale formatter. */
  function FormatStamp(ts: Option<int>, locale: int -> string): (r: string)
    ensures ts == None || ts == Some(0) ==> r == ""
    ensures ts.Some? && ts.value != 0 ==> r == locale(ts.value)
  {
    if ts.None? || ts.value == 0 then "" else locale(ts.value)
  }
}
