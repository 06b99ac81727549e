/** The student dashboard: the liveness classifier, the seat count, the
    route metrics estimator and the drop-off transition. */
module StudentDashboard {
  import opened Common
  import opened SharedState

  const TotalSeats: int := 50

  /** A tracking document older than this many milliseconds is offline. */
  const OfflineAfterMs: int := 120000

  /** The campus the route is measured to once the student has boarded. */
  const Campus: LatLng := LatLng(12.957952, 80.160793)

  // ---------------------------------------------------------------------
  // Liveness

  /** A JavaScript-falsy stored value. */
  predicate Falsy(v: Value) {
    v == Num(0.0) || v == Str("")
  }

  /** The millisecond time the liveness check reads from `lastUpdated`: whole
      seconds times 1000 when `seconds` is non-zero, else `toMillis()`; a
      value with neither (not a timestamp) reads as the current time. */
  function LastUpdateMs(v: Value, now: int): (r: real)
    ensures v.Time? && v.t.seconds != 0 ==> r == (v.t.seconds * 1000) as real
    ensures v.Time? && v.t.seconds == 0 ==> r == ToMillis(v.t)
    ensures !v.Time? ==> r == now as real
  {
    match v
    case Time(t) => if t.seconds != 0 then (t.seconds * 1000) as real else ToMillis(t)
    case _ => now as real
  }

  /** `checkStatus`: offline when there is no document or no `lastUpdated`,
      or when more than two minutes have passed since it. */
  predicate IsOffline(busLocation: Option<Doc>, now: int) {
    || busLocation.None?
    || LastUpdated !in busLocation.value
    || Falsy(busLocation.value[LastUpdated])
    || (now as real) - LastUpdateMs(busLocation.value[LastUpdated], now) > OfflineAfterMs as real
  }

  /** For a document stamped at `t` (whole seconds, as the store assigns
      them), the classifier is offline exactly when more than 120000 ms
      separate `now` from the stamp: a gap of exactly 120000 is online. */
  lemma OfflineIffStale(d: Doc, t: Timestamp, now: int)
    requires LastUpdated in d && d[LastUpdated] == Time(t) && t.seconds != 0
    ensures IsOffline(Some(d), now) <==> now - t.seconds * 1000 > OfflineAfterMs
    ensures now - t.seconds * 1000 == OfflineAfterMs ==> !IsOffline(Some(d), now)
  {
  }

  /** As time moves forward the classifier turns offline at most once and
      never back, while the document does not change. */
  lemma OfflineIsMonotone(busLocation: Option<Doc>, now1: int, now2: int)
    requires now1 <= now2
    requires IsOffline(busLocation, now1)
    ensures IsOffline(busLocation, now2)
  {
  }

  // ---------------------------------------------------------------------
  // Seats

  /** `50 - (passengerCount || 0)`, with no clamp. */
  function SeatsLeft(busLocation: Option<Doc>): (r: real)
    ensures busLocation.None? ==> r == TotalSeats as real
    ensures busLocation.Some? && NumField(busLocation.value, PassengerCount).Some? ==>
              r == TotalSeats as real - NumField(busLocation.value, PassengerCount).value
    ensures busLocation.Some? && NumField(busLocation.value, PassengerCount).None? ==> r == TotalSeats as real
  {
    var count := if busLocation.Some? then NumField(busLocation.value, PassengerCount) else None;
    TotalSeats as real - (if count.Some? then count.value else 0.0)
  }

  // ---------------------------------------------------------------------
  // Route metrics

  /** The fields of the first route of a summary reply. */
  datatype RouteSummary = RouteSummary(distanceMeters: real, durationSeconds: real)

  /** The displayed metrics: not yet computed (null), the `'--'` sentinel
      for "no route", or a distance in tenths of a km and an ETA in minutes. */
  datatype RouteStats = NotComputed | NoRoute | Estimate(distanceTenthsKm: int, etaMinutes: int)

  /** The point the route is measured to: the campus once boarded, else the
      student's own position; a zero coordinate counts as missing. */
  function RouteTarget(isBoarded: bool, userLocation: Option<LatLng>): (r: Option<LatLng>)
    ensures isBoarded ==> r == Some(Campus)
    ensures !isBoarded && r.Some? ==> r == userLocation
    ensures !isBoarded ==> (r.None? <==> userLocation.None? || userLocation.value.lat == 0.0 || userLocation.value.lng == 0.0)
  {
    var target := if isBoarded then Some(Campus) else userLocation;
    if target.None? || target.value.lat == 0.0 || target.value.lng == 0.0 then None else target
  }

  /** `(meters / 1000).toFixed(1)`, kept as tenths of a km. */
  function DistanceTenths(meters: real): (r: int)
    ensures (r as real) * 100.0 - 50.0 <= meters < (r as real) * 100.0 + 50.0
  {
    JsRound(meters / 100.0)
  }

  /** `Math.round(seconds / 60)`. */
  function EtaMinutes(seconds: real): (r: int)
    ensures (r as real) * 60.0 - 30.0 <= seconds < (r as real) * 60.0 + 30.0
  {
    JsRound(seconds / 60.0)
  }

  /** The metrics after one routing reply: the first route converted on
      success, the sentinel when there is no route, the previous metrics
      when the call failed. */
  function NextStats(prev: RouteStats, reply: Reply<RouteSummary>): (r: RouteStats)
    ensures reply.Failed? ==> r == prev
    ensures reply.Replied? && reply.routes == [] ==> r == NoRoute
    ensures reply.Replied? && reply.routes != [] ==>
              && r.Estimate?
              && (r.distanceTenthsKm as real) * 100.0 - 50.0 <= reply.routes[0].distanceMeters
              && reply.routes[0].distanceMeters < (r.distanceTenthsKm as real) * 100.0 + 50.0
              && (r.etaMinutes as real) * 60.0 - 30.0 <= reply.routes[0].durationSeconds
              && reply.routes[0].durationSeconds < (r.etaMinutes as real) * 60.0 + 30.0
  {
    match reply
    case Failed => prev
    case Replied(routes) =>
      if |routes| > 0 then
        Estimate(DistanceTenths(routes[0].distanceMeters), EtaMinutes(routes[0].durationSeconds))
      else NoRoute
  }

  /** A failed call after a successful one leaves the earlier figures on
      screen: the metrics only change on a reply. */
  lemma {:induction false} ErrorsRetainLastReply(prev: RouteStats, replies: seq<Reply<RouteSummary>>)
    requires forall i :: 0 <= i < |replies| ==> replies[i].Failed?
    ensures StatsAfter(prev, replies) == prev
  {
    if replies != [] {
      ErrorsRetainLastReply(prev, replies[..|replies| - 1]);
    }
  }

  /** The metrics after a run of replies, oldest first. */
  function StatsAfter(prev: RouteStats, replies: seq<Reply<RouteSummary>>): RouteStats {
    if replies == [] then prev
    else NextStats(StatsAfter(prev, replies[..|replies| - 1]), replies[|replies| - 1])
  }

  /** The metrics reflect the latest reply that was not an error. */
  lemma {:induction false} StatsReflectLatestReply(prev: RouteStats, replies: seq<Reply<RouteSummary>>, k: nat)
    requires k < |replies| && replies[k].Replied?
    requires forall i :: k < i < |replies| ==> replies[i].Failed?
    ensures StatsAfter(prev, replies) == NextStats(prev, replies[k])
  {
    if k < |replies| - 1 {
      StatsReflectLatestReply(prev, replies[..|replies| - 1], k);
    } else {
      assert NextStats(StatsAfter(prev, replies[..k]), replies[k]) == NextStats(prev, replies[k]);
    }
  }

  // ---------------------------------------------------------------------
  // Drop-off

  /** An open boarding of this student on this bus. */
  predicate IsOpen(b: Boarding, uid: string, bus: string) {
    b.studentId == uid && b.busNumber == bus && b.status == Boarded
  }

  /** The event a drop-off closes: the first open one in the store's order. */
  function FirstOpen(bs: seq<Boarding>, uid: string, bus: string): (k: Option<nat>)
    ensures k.Some? ==> k.value < |bs| && IsOpen(bs[k.value], uid, bus)
    ensures k.Some? ==> forall j :: 0 <= j < k.value ==> !IsOpen(bs[j], uid, bus)
    ensures k.None? ==> forall j :: 0 <= j < |bs| ==> !IsOpen(bs[j], uid, bus)
  {
    if bs == [] then None
    else if IsOpen(bs[0], uid, bus) then Some(0)
    else match FirstOpen(bs[1..], uid, bus)
      case None => None
      case Some(k) => Some(k + 1)
  }

  /** The update a drop-off makes to one event. */
  function Dropped(b: Boarding, now: int): Boarding {
    b.(status := DroppedOff, droppedOffAt := Some(now))
  }

  /** `handleDropOff`'s store effect: the first open event of the student on
      the bus becomes Dropped Off at `now`; nothing else changes. */
  function DropFirstOpen(bs: seq<Boarding>, uid: string, bus: string, now: int): (r: seq<Boarding>)
    ensures FirstOpen(bs, uid, bus).None? ==> r == bs
    ensures FirstOpen(bs, uid, bus).Some? ==>
              var k := FirstOpen(bs, uid, bus).value; r == bs[k := Dropped(bs[k], now)]
  {
    if bs == [] then []
    else if IsOpen(bs[0], uid, bus) then [Dropped(bs[0], now)] + bs[1..]
    else [bs[0]] + DropFirstOpen(bs[1..], uid, bus, now)
  }

  /** Every Dropped Off event after a drop-off was Dropped Off before or was
      this student's open Boarded event on this bus: no event reaches
      Dropped Off without passing through Boarded, and none goes back. */
  lemma DropOffOnlyClosesOpenEvents(bs: seq<Boarding>, uid: string, bus: string, now: int)
    ensures |DropFirstOpen(bs, uid, bus, now)| == |bs|
    ensures forall i :: 0 <= i < |bs| ==>
              var r := DropFirstOpen(bs, uid, bus, now);
              r[i].id == bs[i].id && (bs[i].status == DroppedOff ==> r[i] == bs[i]) &&
              (r[i] != bs[i] ==> IsOpen(bs[i], uid, bus) && r[i].status == DroppedOff && r[i].droppedOffAt == Some(now))
  {
  }

  /** How many events of the student on the bus are still open. */
  function OpenCount(bs: seq<Boarding>, uid: string, bus: string): nat {
    Count(bs, b => IsOpen(b, uid, bus))
  }

  lemma {:induction false} CountUpdate<T(!new)>(s: seq<T>, k: nat, x: T, p: T -> bool)
    requires k < |s|
    ensures Count(s[k := x], p) + (if p(s[k]) then 1 else 0) == Count(s, p) + (if p(x) then 1 else 0)
  {
    if k > 0 {
      assert s[k := x][1..] == s[1..][k - 1 := x];
      CountUpdate(s[1..], k - 1, x, p);
    }
  }

  /** A drop-off closes exactly one open event when there is one, so the
      roster of the bus shrinks by one; otherwise nothing changes. */
  lemma DropOffClosesOne(bs: seq<Boarding>, uid: string, bus: string, now: int)
    ensures var r := DropFirstOpen(bs, uid, bus, now);
            OpenCount(r, uid, bus) == if OpenCount(bs, uid, bus) > 0 then OpenCount(bs, uid, bus) - 1 else 0
    ensures var r := DropFirstOpen(bs, uid, bus, now);
            BoardedCount(r, bus) + (if OpenCount(bs, uid, bus) > 0 then 1 else 0)
              == BoardedCount(bs, bus)
  {
    var k := FirstOpen(bs, uid, bus);
    if k.Some? {
      CountUpdate(bs, k.value, Dropped(bs[k.value], now), b => IsOpen(b, uid, bus));
      CountUpdate(bs, k.value, Dropped(bs[k.value], now), b => Aboard(b, bus));
    } else {
      assert forall x :: x in bs ==> !IsOpen(x, uid, bus);
    }
  }

  // ---------------------------------------------------------------------
  // The dashboard's state and its event handlers

  class Dashboard {
    var user: Option<User>
    var isBoarded: bool
    var trackingBus: Option<string>
    var busLocation: Option<Doc>
    var userLocation: Option<LatLng>
    var isDriverOffline: bool
    var routeStats: RouteStats

    /** The page opened with `?boarded=...&bus=...`. */
    constructor (boarded: bool, queryBus: Option<string>)
      ensures user == None && isBoarded == boarded
      ensures trackingBus == if Truthy(queryBus) then queryBus else None
      ensures busLocation == None && userLocation == None
      ensures !isDriverOffline && routeStats == NotComputed
    {
      user, isBoarded := None, boarded;
      trackingBus := if Truthy(queryBus) then queryBus else None;
      busLocation, userLocation := None, None;
      isDriverOffline, routeStats := false, NotComputed;
    }

    method SignedIn(u: User)
      modifies this`user
      ensures user == Some(u)
    {
      user := Some(u);
    }

    /** The search form: a non-empty code starts tracking that bus. */
    method Search(text: string)
      modifies this`trackingBus
      ensures text != "" ==> trackingBus == Some(text)
      ensures text == "" ==> trackingBus == old(trackingBus)
    {
      if text != "" {
        trackingBus := Some(text);
      }
    }

    /** A snapshot of `tracking/<trackingBus>`; a missing document reads as none. */
    method TrackingSnapshot(store: Store)
      modifies this`busLocation
      ensures Truthy(trackingBus) ==>
                busLocation == if trackingBus.value in store.tracking then Some(store.tracking[trackingBus.value]) else None
      ensures !Truthy(trackingBus) ==> busLocation == old(busLocation)
    {
      if Truthy(trackingBus) {
        var bus := trackingBus.value;
        busLocation := if bus in store.tracking then Some(store.tracking[bus]) else None;
      }
    }

    /** A fix from the student's own geolocation watch. */
    method UserMoved(at: LatLng)
      modifies this`userLocation
      ensures userLocation == Some(at)
    {
      userLocation := Some(at);
    }

    /** The liveness check, run on every change and on each 10-second poll
        while a bus is tracked; it only sets the local flag. */
    method CheckStatus(now: int)
      modifies this`isDriverOffline
      ensures Truthy(trackingBus) ==> isDriverOffline == IsOffline(busLocation, now)
      ensures !Truthy(trackingBus) ==> isDriverOffline == old(isDriverOffline)
    {
      if Truthy(trackingBus) {
        isDriverOffline := IsOffline(busLocation, now);
      }
    }

    /** One run of the route-metrics callback (on change, then every 10 s),
        with the routing service's reply as input. */
    method RouteTick(reply: Reply<RouteSummary>)
      modifies this`routeStats
      ensures busLocation.None? ==> routeStats == NotComputed
      ensures busLocation.Some? && RouteTarget(isBoarded, userLocation).None? ==> routeStats == old(routeStats)
      ensures busLocation.Some? && RouteTarget(isBoarded, userLocation).Some? ==>
                routeStats == NextStats(old(routeStats), reply)
    {
      if busLocation.None? {
        routeStats := NotComputed;
      } else if RouteTarget(isBoarded, userLocation).Some? {
        routeStats := NextStats(routeStats, reply);
      }
    }

    /** `handleDropOff`: without a user or a tracked bus nothing happens and
        there is no navigation; otherwise the first open event is closed
        (when the store calls succeed) and the page always moves on to the
        attendance history. */
    method DropOff(store: Store, now: int, storeOk: bool) returns (nav: Option<string>)
      requires store.Valid()
      modifies store`boardings
      ensures store.Valid()
      ensures !(user.Some? && Truthy(trackingBus)) ==> nav == None && store.boardings == old(store.boardings)
      ensures user.Some? && Truthy(trackingBus) ==> nav == Some("/attendance")
      ensures user.Some? && Truthy(trackingBus) && storeOk ==>
                store.boardings == DropFirstOpen(old(store.boardings), user.value.uid, trackingBus.value, now)
      ensures !storeOk ==> store.boardings == old(store.boardings)
    {
      if user.None? || !Truthy(trackingBus) {
        return None;
      }
      if storeOk {
        var bs := store.boardings;
        store.boardings := DropFirstOpen(bs, user.value.uid, trackingBus.value, now);
        DropOffOnlyClosesOpenEvents(bs, user.value.uid, trackingBus.value, now);
        assert forall i :: 0 <= i < |bs| ==> store.boardings[i].id == bs[i].id;
        assert forall b :: b in store.boardings ==> b.id < store.nextId;
      }
      nav := Some("/attendance");
    }
  }
}
