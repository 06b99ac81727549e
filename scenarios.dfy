/** Properties that span both apps: what a student sees after the driver's
    writes, and what the boarding log looks like after a scan and a
    drop-off. */
module Scenarios {
  import opened Common
  import opened SharedState
  import DriverDashboard
  import StudentDashboard
  import ScanPage
  import Attendance
  import MapView

  /** After the driver's roster sync, the student's seat count is the
      capacity less the bus's Boarded events, and a later location write
      does not disturb it. */
  lemma SeatsFollowRoster(doc: Doc, bs: seq<Boarding>, bus: string, t: Timestamp,
                          lat: real, lng: real, speed: int, t2: Timestamp)
    ensures var synced := Merge(doc, DriverDashboard.RosterPatch(BoardedCount(bs, bus), t));
            && StudentDashboard.SeatsLeft(Some(synced)) == (50 - BoardedCount(bs, bus)) as real
            && StudentDashboard.SeatsLeft(Some(Merge(synced, DriverDashboard.LocationPatch(lat, lng, speed, bus, t2))))
                 == (50 - BoardedCount(bs, bus)) as real
  {
  }

  /** After clear-roster every seat is shown free. */
  lemma ClearedBusShowsAllSeats(doc: Doc, t: Timestamp)
    ensures StudentDashboard.SeatsLeft(Some(Merge(doc, DriverDashboard.RosterPatch(0, t)))) == 50.0
  {
  }

  /** A heartbeat keeps the bus online for two minutes, whatever else the
      document holds, and the bus turns offline once they have passed. */
  lemma HeartbeatKeepsBusOnline(doc: Doc, t: Timestamp, now: int)
    requires t.seconds != 0
    ensures var d := Merge(doc, DriverDashboard.HeartbeatPatch(t));
            StudentDashboard.IsOffline(Some(d), now) <==> now > t.seconds * 1000 + 120000
  {
  }

  /** Before the first GPS fix, the bus's document may exist without
      coordinates: the roster sync runs when the page loads and the trip
      start writes only `lastUpdated`. The dashboard then passes that
      document, not the placeholder, and the map centres on the campus with
      no bus position. */
  lemma NoBusPositionBeforeFirstFix(doc: Doc, n: nat, t: Timestamp)
    requires Lat !in doc
    ensures var roster := Merge(doc, DriverDashboard.RosterPatch(n, t));
            var beat := Merge(doc, DriverDashboard.HeartbeatPatch(t));
            && !MapView.HasValidLocation(Some(MapView.MapInput(Some(roster))))
            && MapView.Position(Some(MapView.MapInput(Some(roster)))) == MapView.DefaultCenter
            && !MapView.HasValidLocation(Some(MapView.MapInput(Some(beat))))
            && MapView.Position(Some(MapView.MapInput(Some(beat)))) == MapView.DefaultCenter
  {
  }

  lemma {:induction false} FirstOpenAfterAppend(bs: seq<Boarding>, e: Boarding, uid: string, bus: string)
    requires StudentDashboard.FirstOpen(bs, uid, bus).None?
    requires StudentDashboard.IsOpen(e, uid, bus)
    ensures StudentDashboard.FirstOpen(bs + [e], uid, bus) == Some(|bs|)
  {
    if bs != [] {
      assert (bs + [e])[1..] == bs[1..] + [e];
      FirstOpenAfterAppend(bs[1..], e, uid, bus);
    }
  }

  /** With no earlier open event, a drop-off closes the newly appended one. */
  lemma {:induction false} DropClosesAppended(bs: seq<Boarding>, e: Boarding, uid: string, bus: string, now: int)
    requires StudentDashboard.FirstOpen(bs, uid, bus).None?
    requires StudentDashboard.IsOpen(e, uid, bus)
    ensures StudentDashboard.DropFirstOpen(bs + [e], uid, bus, now) == bs + [StudentDashboard.Dropped(e, now)]
  {
    FirstOpenAfterAppend(bs, e, uid, bus);
    var s := bs + [e];
    assert s[|bs| := StudentDashboard.Dropped(e, now)] == bs + [StudentDashboard.Dropped(e, now)];
  }

  /** A drop-off that finds an open event lowers the bus's roster by one. */
  lemma {:induction false} DropLowersRoster(s: seq<Boarding>, k: nat, uid: string, bus: string, now: int)
    requires k < |s| && StudentDashboard.IsOpen(s[k], uid, bus)
    ensures BoardedCount(StudentDashboard.DropFirstOpen(s, uid, bus, now), bus) + 1 == BoardedCount(s, bus)
  {
    assert s[k] in s;
    assert StudentDashboard.OpenCount(s, uid, bus) > 0;
    StudentDashboard.DropOffClosesOne(s, uid, bus, now);
  }

  /** A student with no open event scans onto a bus and later presses
      Dropped Off: the new event is the one closed, the bus's roster is back
      where it was, and the attendance card shows Safe Arrival at the
      drop-off time. */
  lemma BoardThenDropOff(bs: seq<Boarding>, bus: string, user: User, t1: int, t2: int, id: nat)
    requires StudentDashboard.FirstOpen(bs, user.uid, bus).None?
    ensures var e := ScanPage.BoardingEvent(bus, user, t1).(id := id);
            var after := StudentDashboard.DropFirstOpen(bs + [e], user.uid, bus, t2);
            && after == bs + [StudentDashboard.Dropped(e, t2)]
            && BoardedCount(after, bus) == BoardedCount(bs, bus)
            && Attendance.Label(after[|bs|]) == Attendance.SafeArrival
            && Attendance.ShownTime(after[|bs|]) == Some(t2)
  {
    var e := ScanPage.BoardingEvent(bus, user, t1).(id := id);
    DropClosesAppended(bs, e, user.uid, bus, t2);
    ScanPage.EachScanAddsOne(bs, bus, user, t1, id);
    DropLowersRoster(bs + [e], |bs|, user.uid, bus, t2);
  }

  /** Scanning twice and dropping off once leaves the student aboard,
      whatever order the store keeps its events in (`log` is any ordering of
      the earlier events and the two new ones): one of the two new events
      is closed, the other stays Boarded, and the bus counts the student
      once more than before. */
  lemma DoubleScanLeavesStudentAboard(bs: seq<Boarding>, log: seq<Boarding>, bus: string, user: User,
                                      t1: int, t2: int, t3: int, id1: nat, id2: nat)
    requires StudentDashboard.FirstOpen(bs, user.uid, bus).None?
    requires multiset(log) == multiset(bs + [ScanPage.BoardingEvent(bus, user, t1).(id := id1),
                                             ScanPage.BoardingEvent(bus, user, t2).(id := id2)])
    ensures var e1 := ScanPage.BoardingEvent(bus, user, t1).(id := id1);
            var e2 := ScanPage.BoardingEvent(bus, user, t2).(id := id2);
            var k := StudentDashboard.FirstOpen(log, user.uid, bus);
            var after := StudentDashboard.DropFirstOpen(log, user.uid, bus, t3);
            && k.Some? && (log[k.value] == e1 || log[k.value] == e2)
            && StudentDashboard.OpenCount(after, user.uid, bus) == 1
            && BoardedCount(after, bus) == BoardedCount(bs, bus) + 1
  {
    var e1 := ScanPage.BoardingEvent(bus, user, t1).(id := id1);
    var e2 := ScanPage.BoardingEvent(bus, user, t2).(id := id2);
    var s := bs + [e1, e2];
    assert s == bs + [e1] + [e2];
    ScanPage.EachScanAddsOne(bs, bus, user, t1, id1);
    ScanPage.EachScanAddsOne(bs + [e1], bus, user, t2, id2);
    CountPermutation(log, s, b => Aboard(b, bus));
    OpenCountAfterScans(bs, e1, e2, user.uid, bus);
    CountPermutation(log, s, b => StudentDashboard.IsOpen(b, user.uid, bus));
    OpenIsFound(log, user.uid, bus);
    ClosedIsNew(log, bs, e1, e2, user.uid, bus);
    StudentDashboard.DropOffClosesOne(log, user.uid, bus, t3);
  }

  lemma NoOpenCountsZero(bs: seq<Boarding>, uid: string, bus: string)
    requires StudentDashboard.FirstOpen(bs, uid, bus).None?
    ensures StudentDashboard.OpenCount(bs, uid, bus) == 0
  {
    forall x | x in bs ensures !StudentDashboard.IsOpen(x, uid, bus) {
      var j :| 0 <= j < |bs| && bs[j] == x;
    }
  }

  lemma OpenCountAfterScans(bs: seq<Boarding>, e1: Boarding, e2: Boarding, uid: string, bus: string)
    requires StudentDashboard.FirstOpen(bs, uid, bus).None?
    requires StudentDashboard.IsOpen(e1, uid, bus) && StudentDashboard.IsOpen(e2, uid, bus)
    ensures StudentDashboard.OpenCount(bs + [e1, e2], uid, bus) == 2
  {
    NoOpenCountsZero(bs, uid, bus);
    CountAppend(bs, [e1, e2], b => StudentDashboard.IsOpen(b, uid, bus));
    assert [e1, e2][1..] == [e2];
  }

  lemma OpenIsFound(log: seq<Boarding>, uid: string, bus: string)
    requires StudentDashboard.OpenCount(log, uid, bus) > 0
    ensures StudentDashboard.FirstOpen(log, uid, bus).Some?
  {
  }

  lemma ClosedIsNew(log: seq<Boarding>, bs: seq<Boarding>, e1: Boarding, e2: Boarding, uid: string, bus: string)
    requires multiset(log) == multiset(bs + [e1, e2])
    requires StudentDashboard.FirstOpen(bs, uid, bus).None?
    requires StudentDashboard.FirstOpen(log, uid, bus).Some?
    ensures var k := StudentDashboard.FirstOpen(log, uid, bus).value; log[k] == e1 || log[k] == e2
  {
    var k := StudentDashboard.FirstOpen(log, uid, bus).value;
    assert log[k] in multiset(log);
    assert log[k] in bs + [e1, e2];
  }
}
