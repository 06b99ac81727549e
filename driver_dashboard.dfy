/** The driver dashboard: trip start and stop, the location publisher, the
    heartbeat, the roster sync, clear-roster, the trip timer and its `mm:ss`
    display, and the bus-code editor. */
module DriverDashboard {
  import opened Common
  import opened SharedState

  /** The bus a fresh dashboard publishes for. */
  const DefaultBus: string := "3A"

  /** Name shown for a boarding event without a student name. */

  // ---------------------------------------------------------------------
  // Speed and the four tracking writes

  /** Speed in km/h from the GPS speed in m/s: rounded, and 0 when the GPS
      gives no speed (null) or 0. */
  function SpeedKmh(gpsSpeed: Option<real>): (r: int)
    ensures gpsSpeed == None || gpsSpeed == Some(0.0) ==> r == 0
    ensures gpsSpeed.Some? ==> (r as real) - 0.5 <= gpsSpeed.value * 3.6 < (r as real) + 0.5
    ensures gpsSpeed.Some? && gpsSpeed.value >= 0.0 ==> r >= 0
  {
    if gpsSpeed.Some? && gpsSpeed.value != 0.0 then JsRound(gpsSpeed.value * 3.6) else 0
  }

  /** The location write: position, speed, bus code and a fresh timestamp. */
  function LocationPatch(lat: real, lng: real, speedKmh: int, bus: string, now: Timestamp): (d: Doc)
    ensures d.Keys == {Lat, Lng, Speed, BusNumber, LastUpdated}
    ensures PassengerCount !in d
    ensures d[LastUpdated] == Time(now) && d[Speed] == Num(speedKmh as real)
    ensures d[Lat] == Num(lat) && d[Lng] == Num(lng) && d[BusNumber] == Str(bus)
  {
    map[Lat := Num(lat), Lng := Num(lng), Speed := Num(speedKmh as real),
        BusNumber := Str(bus), LastUpdated := Time(now)]
  }

  /** The heartbeat write (also issued when a trip starts): the timestamp only. */
  function HeartbeatPatch(now: Timestamp): (d: Doc)
    ensures d.Keys == {LastUpdated} && d[LastUpdated] == Time(now)
  {
    map[LastUpdated := Time(now)]
  }

  /** The roster write: the head count and a fresh timestamp; clear-roster
      issues it with a count of 0. */
  function RosterPatch(count: nat, now: Timestamp): (d: Doc)
    ensures d.Keys == {PassengerCount, LastUpdated}
    ensures d[PassengerCount] == Num(count as real) && d[LastUpdated] == Time(now)
  {
    map[PassengerCount := Num(count as real), LastUpdated := Time(now)]
  }

  /** A location write leaves the roster's field alone, and a heartbeat
      changes nothing but the timestamp. */
  lemma WritersDoNotClobber(doc: Doc, lat: real, lng: real, speedKmh: int, bus: string, now: Timestamp)
    ensures var d := Merge(doc, LocationPatch(lat, lng, speedKmh, bus, now));
            (PassengerCount in d <==> PassengerCount in doc) &&
            (PassengerCount in doc ==> d[PassengerCount] == doc[PassengerCount])
    ensures var d := Merge(doc, HeartbeatPatch(now));
            d[LastUpdated] == Time(now) && forall f :: f != LastUpdated ==> (f in d <==> f in doc)
    ensures var d := Merge(doc, HeartbeatPatch(now));
            forall f :: f in doc && f != LastUpdated ==> d[f] == doc[f]
  {
  }

  // ---------------------------------------------------------------------
  // Roster

  /** An entry of the driver's passenger list. */
  datatype Passenger = Passenger(id: nat, name: string)

  /** The events clear-roster keeps: those of other buses. */
  predicate OtherBus(b: Boarding, bus: string) {
    b.busNumber != bus
  }

  /** The passenger list built from the roster query's snapshot. */
  function RosterOf(boardings: seq<Boarding>, bus: string): (r: seq<Passenger>)
    ensures |r| == BoardedCount(boardings, bus)
    ensures forall i :: 0 <= i < |r| ==>
              exists b :: b in boardings && Aboard(b, bus) && r[i] == Passenger(b.id, OrElse(b.studentName, DefaultName))
    ensures forall b :: b in boardings && Aboard(b, bus) ==> Passenger(b.id, OrElse(b.studentName, DefaultName)) in r
  {
    var aboard := Filter(boardings, b => Aboard(b, bus));
    FilterLength(boardings, b => Aboard(b, bus));
    assert forall i :: 0 <= i < |aboard| ==> aboard[i] in aboard;
    var r := seq(|aboard|, i requires 0 <= i < |aboard| =>
      Passenger(aboard[i].id, OrElse(aboard[i].studentName, DefaultName)));
    assert forall b :: b in boardings && Aboard(b, bus) ==> Passenger(b.id, OrElse(b.studentName, DefaultName)) in r by {
      forall b | b in boardings && Aboard(b, bus)
        ensures Passenger(b.id, OrElse(b.studentName, DefaultName)) in r
      {
        var k :| 0 <= k < |aboard| && aboard[k] == b;
        assert r[k] == Passenger(b.id, OrElse(b.studentName, DefaultName));
      }
    }
    r
  }

  // ---------------------------------------------------------------------
  // The trip timer display

  predicate IsDigit(c: char) { '0' <= c <= '9' }

  predicate AllDigits(s: string) { forall i :: 0 <= i < |s| ==> IsDigit(s[i]) }

  function DigitChar(d: nat): (c: char)
    requires d < 10
    ensures IsDigit(c) && c as int - '0' as int == d
  {
    ('0' as int + d) as char
  }

  /** The number a string of decimal digits denotes. */
  function ValueOf(s: string): nat
    requires AllDigits(s)
  {
    if s == [] then 0
    else ValueOf(s[..|s| - 1]) * 10 + (s[|s| - 1] as int - '0' as int)
  }

  /** `String(n)` for a non-negative integer: its decimal digits. */
  function Decimal(n: nat): (r: string)
    ensures |r| >= 1 && AllDigits(r)
    ensures n < 10 <==> |r| == 1
    ensures n < 100 ==> |r| <= 2
    ensures n >= 10 ==> r[0] != '0'
  {
    if n < 10 then [DigitChar(n)] else Decimal(n / 10) + [DigitChar(n % 10)]
  }

  lemma {:induction false} DecimalValue(n: nat)
    ensures ValueOf(Decimal(n)) == n
  {
    if n >= 10 {
      DecimalValue(n / 10);
      var r := Decimal(n);
      assert r[..|r| - 1] == Decimal(n / 10);
    }
  }

  lemma {:induction false} LeadingZero(s: string)
    requires AllDigits(s)
    ensures AllDigits("0" + s) && ValueOf("0" + s) == ValueOf(s)
  {
    if s != [] {
      var t := "0" + s;
      assert t[..|t| - 1] == "0" + s[..|s| - 1];
      LeadingZero(s[..|s| - 1]);
    }
  }

  /** `${n < 10 ? '0' : ''}${n}` */
  function Pad2(n: nat): (r: string)
    ensures |r| >= 2 && AllDigits(r) && ValueOf(r) == n
    ensures n < 100 ==> |r| == 2
    ensures n < 10 <==> r[0] == '0'
  {
    DecimalValue(n);
    if n < 10 then LeadingZero(Decimal(n)); "0" + Decimal(n) else Decimal(n)
  }

  /** The elapsed-trip display: minutes, a colon, then exactly two digits of
      seconds from 00 to 59; reading the two parts back gives `secs`. */
  function FormatTime(secs: nat): (r: string)
    ensures |r| >= 5 && r[|r| - 3] == ':'
    ensures AllDigits(r[..|r| - 3]) && AllDigits(r[|r| - 2..])
    ensures ValueOf(r[|r| - 2..]) < 60
    ensures ValueOf(r[..|r| - 3]) * 60 + ValueOf(r[|r| - 2..]) == secs
    ensures |r[..|r| - 3]| >= 2 && (r[0] == '0' <==> secs < 600)
    ensures secs < 6000 ==> |r| == 5
  {
    var m, s := Pad2(secs / 60), Pad2(secs % 60);
    var r := m + ":" + s;
    assert r[..|r| - 3] == m && r[|r| - 2..] == s;
    r
  }

  // ---------------------------------------------------------------------
  // The bus-code editor

  function UpperChar(c: char): (u: char)
    ensures 'a' <= c <= 'z' ==> 'A' <= u <= 'Z' && u as int == c as int - 32
    ensures !('a' <= c <= 'z') ==> u == c
  {
    if 'a' <= c <= 'z' then (c as int - 32) as char else c
  }

  /** `toUpperCase()` on the typed bus code (ASCII letters). */
  function Upper(s: string): (r: string)
    ensures |r| == |s|
    ensures forall i :: 0 <= i < |s| ==> r[i] == UpperChar(s[i])
  {
    if s == [] then [] else [UpperChar(s[0])] + Upper(s[1..])
  }

  /** Re-typing an already upper-cased code leaves it unchanged, and an
      upper-cased code has no lower-case letter. */
  lemma {:induction false} UpperIdempotent(s: string)
    ensures Upper(Upper(s)) == Upper(s)
    ensures forall i :: 0 <= i < |s| ==> !('a' <= Upper(s)[i] <= 'z')
  {
    if s != [] {
      UpperIdempotent(s[1..]);
      assert Upper(s)[1..] == Upper(s[1..]);
    }
  }

  // ---------------------------------------------------------------------
  // The dashboard's state and its event handlers

  class Dashboard {
    var user: Option<User>
    var isActive: bool
    var speed: int
    var elapsedTime: nat
    var busNumber: string
    var passengers: seq<Passenger>
    /** Whether a geolocation watch is registered (`watchId.current`). */
    var watching: bool

    constructor ()
      ensures user == None && !isActive && speed == 0 && elapsedTime == 0
      ensures busNumber == DefaultBus && passengers == [] && !watching
    {
      user, isActive, speed, elapsedTime := None, false, 0, 0;
      busNumber, passengers, watching := DefaultBus, [], false;
    }

    /** The auth listener reports a signed-in driver. */
    method SignedIn(u: User)
      modifies this`user
      ensures user == Some(u)
    {
      user := Some(u);
    }

    /** The bus-code input: the typed text, upper-cased. */
    method EditBusNumber(text: string)
      modifies this`busNumber
      ensures busNumber == Upper(text)
    {
      busNumber := Upper(text);
    }

    /** The trip button, followed by the GPS and timer effects it triggers.
        Only starting a trip writes to the store (a heartbeat-shaped write);
        stopping resets the local speed and timer and drops the watch. */
    method ToggleTrip(store: Store, now: Timestamp, geolocationSupported: bool)
      modifies this`isActive, this`watching, this`speed, this`elapsedTime, store`tracking
      ensures isActive == !old(isActive)
      ensures isActive && busNumber != "" ==>
                store.tracking == old(store.tracking)[busNumber := Merge(DocOf(old(store.tracking), busNumber), HeartbeatPatch(now))]
      ensures !isActive || busNumber == "" ==> store.tracking == old(store.tracking)
      ensures isActive ==> watching == geolocationSupported && speed == old(speed) && elapsedTime == old(elapsedTime)
      ensures !isActive ==> !watching && speed == 0 && elapsedTime == 0
    {
      var newState := !isActive;
      isActive := newState;
      if newState && busNumber != "" {
        store.MergeTracking(busNumber, HeartbeatPatch(now));
      }
      // GPS effect
      if isActive {
        watching := geolocationSupported;
      } else {
        watching := false;
        speed := 0;
      }
      // timer effect
      if !isActive {
        elapsedTime := 0;
      }
    }

    /** A position fix, delivered to the handler created by the effect run
        that issued the request; `bus` is the bus code that run captured. The
        fix is handled whether or not a watch is still registered: the
        one-shot `getCurrentPosition` request issued when a trip starts can
        resolve after the trip has stopped or the code has been edited, and
        its fix is still written, to the document of the captured code. */
    method LocationUpdate(store: Store, bus: string, lat: real, lng: real, gpsSpeed: Option<real>, now: Timestamp)
      modifies this`speed, store`tracking
      ensures speed == SpeedKmh(gpsSpeed)
      ensures bus != "" ==>
                store.tracking == old(store.tracking)[bus :=
                  Merge(DocOf(old(store.tracking), bus), LocationPatch(lat, lng, speed, bus, now))]
      ensures bus == "" ==> store.tracking == old(store.tracking)
    {
      speed := SpeedKmh(gpsSpeed);
      if bus != "" {
        store.MergeTracking(bus, LocationPatch(lat, lng, speed, bus, now));
      }
    }

    /** The 15-second heartbeat interval; it exists only while a trip is
        active for a bus code and a signed-in driver. */
    method Heartbeat(store: Store, now: Timestamp)
      modifies store`tracking
      ensures isActive && busNumber != "" && user.Some? ==>
                store.tracking == old(store.tracking)[busNumber := Merge(DocOf(old(store.tracking), busNumber), HeartbeatPatch(now))]
      ensures !(isActive && busNumber != "" && user.Some?) ==> store.tracking == old(store.tracking)
    {
      if isActive && busNumber != "" && user.Some? {
        store.MergeTracking(busNumber, HeartbeatPatch(now));
      }
    }

    /** The one-second trip timer. */
    method TimerTick()
      modifies this`elapsedTime
      ensures isActive ==> elapsedTime == old(elapsedTime) + 1
      ensures !isActive ==> elapsedTime == old(elapsedTime)
    {
      if isActive {
        elapsedTime := elapsedTime + 1;
      }
    }

    /** A snapshot of the roster query: the list is rebuilt and its length
        merged into the tracking document. */
    method SyncRoster(store: Store, now: Timestamp)
      modifies this`passengers, store`tracking
      ensures busNumber != "" && user.Some? ==>
                passengers == RosterOf(store.boardings, busNumber) &&
                store.tracking == old(store.tracking)[busNumber :=
                  Merge(DocOf(old(store.tracking), busNumber), RosterPatch(BoardedCount(store.boardings, busNumber), now))]
      ensures !(busNumber != "" && user.Some?) ==>
                passengers == old(passengers) && store.tracking == old(store.tracking)
    {
      if busNumber != "" && user.Some? {
        passengers := RosterOf(store.boardings, busNumber);
        store.MergeTracking(busNumber, RosterPatch(|passengers|, now));
      }
    }

    /** Clear-roster: unless confirmed nothing happens; otherwise every
        boarding event of this bus, whatever its status, is deleted one by
        one, and then the head count is reset to 0. */
    method ClearPassengers(store: Store, confirmed: bool, now: Timestamp)
      requires store.Valid()
      modifies store`boardings, store`tracking
      ensures store.Valid()
      ensures !confirmed ==> store.boardings == old(store.boardings) && store.tracking == old(store.tracking)
      ensures confirmed ==> store.boardings == KeptAfterClear(old(store.boardings), busNumber)
      ensures confirmed && busNumber != "" ==>
                store.tracking == old(store.tracking)[busNumber := Merge(DocOf(old(store.tracking), busNumber), RosterPatch(0, now))]
      ensures confirmed && busNumber == "" ==> store.tracking == old(store.tracking)
    {
      if !confirmed {
        return;
      }
      ghost var before := store.boardings;
      DeleteBusEvents(store, busNumber);
      var bus := busNumber;
      FilterDistinct(before, b => OtherBus(b, bus), BoardingId);
      if busNumber != "" {
        store.MergeTracking(busNumber, RosterPatch(0, now));
      }
    }
  }

  /** Clear-roster's deletion pass: the query for the bus (any status) is
      taken once, and its events are deleted from the log one at a time. */
  method DeleteBusEvents(store: Store, bus: string)
    modifies store`boardings
    ensures store.boardings == KeptAfterClear(old(store.boardings), bus)
  {
    var before := store.boardings;
    var i, kept := 0, 0;
    while i < |before|
      invariant 0 <= i <= |before|
      invariant kept == |KeptAfterClear(before[..i], bus)|
      invariant store.boardings == KeptAfterClear(before[..i], bus) + before[i..]
    {
      ClearStep(before, i, bus);
      RemoveHead(KeptAfterClear(before[..i], bus), before[i..]);
      assert before[i..][0] == before[i] && before[i..][1..] == before[i + 1..];
      if before[i].busNumber == bus {
        store.boardings := store.boardings[..kept] + store.boardings[kept + 1..];
      } else {
        kept := kept + 1;
      }
      i := i + 1;
    }
    assert before[..i] == before;
  }

  /** The boarding log after clear-roster: the events of other buses. */
  function KeptAfterClear(boardings: seq<Boarding>, bus: string): (r: seq<Boarding>)
    ensures forall b :: b in r <==> b in boardings && b.busNumber != bus
  {
    Filter(boardings, b => OtherBus(b, bus))
  }

  /** Deleting the element just past a prefix, or stepping over it. */
  lemma RemoveHead<T>(f: seq<T>, t: seq<T>)
    requires |t| > 0
    ensures (f + t)[..|f|] + (f + t)[|f| + 1..] == f + t[1..]
    ensures f + t == (f + [t[0]]) + t[1..]
  {
    assert (f + t)[..|f|] == f;
    assert (f + t)[|f| + 1..] == t[1..];
  }

  lemma ClearStep(before: seq<Boarding>, i: nat, bus: string)
    requires i < |before|
    ensures KeptAfterClear(before[..i + 1], bus) ==
              KeptAfterClear(before[..i], bus) + (if before[i].busNumber != bus then [before[i]] else [])
  {
    assert before[..i + 1] == before[..i] + [before[i]];
    FilterAppend(before[..i], [before[i]], b => OtherBus(b, bus));
  }

  /** After clear-roster nobody is aboard the bus, whatever the log held. */
  lemma ClearedRosterIsEmpty(boardings: seq<Boarding>, bus: string)
    ensures BoardedCount(KeptAfterClear(boardings, bus), bus) == 0
  {
    var rest := KeptAfterClear(boardings, bus);
    assert forall x :: x in rest ==> !Aboard(x, bus);
  }
}
