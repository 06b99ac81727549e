# TRANS-IT bus tracking: a Dafny model of the shared-state core

TRANS-IT is a pair of web apps for a campus bus service. The **driver app** publishes its bus's position and speed, sends a heartbeat, keeps a head count of boarded students, and can clear that roster or post pinned announcements. The **student app** lets a student do the following:

- follow a bus and see whether it is live;
- see the seats left, and the distance and ETA from the routing service;
- board by scanning the bus's QR code, then mark a drop-off;
- read their attendance history;
- chat in the bus's community feed.

A maintenance script deletes boarding photos older than seven days.

The two apps share only the `@transit/ui` presentation package and no state-handling code. Their state meets only in three collections of the document store:

- `tracking`: one document per bus code, written by field-level merges;
- `boardings`: one event per scan, Boarded and later Dropped Off;
- `posts`: the per-bus community feed.

This project models that shared state and every operation the two apps and the script perform on it. It proves what each operation does to the state, and the properties that join them.

Modules, one per source file, plus two shared modules:

| module | file | models |
|---|---|---|
| `Common` | `common.dfy` | optional values, store timestamps (`toMillis`), JavaScript `Math.round`, truthiness, `Filter`/`Count` over sequences |
| `SharedState` | `store.dfy` | tracking documents as field maps, the merge write, boarding events, posts, and the `Store` class holding the three collections with store-assigned ids |
| `DriverDashboard` | `driver_dashboard.dfy` | the location, heartbeat and roster writes, the passenger list, the trip timer and its `mm:ss` display, the bus-code editor, and clear-roster as a loop of single deletes |
| `StudentDashboard` | `student_dashboard.dfy` | the liveness classifier, seats left, the route-metrics state machine, the drop-off transition, and the dashboard's state |
| `ScanPage` | `scan.dfy` | decoding a bus code from the camera or a file, then confirming the boarding |
| `Attendance` | `attendance.dfy` | the student's history query (own events, newest scan first), the card's time and label |
| `Feed` | `feed.dfy` | what both community pages share: the per-bus query, the pinned-then-newest comparator, an in-place insertion sort on an array, the blank-post test (`trim`), the post time |
| `StudentCommunity` | `student_community.dfy` | the student's community page and the post it writes |
| `DriverCommunity` | `driver_community.dfy` | the driver's community page, its always-pinned post, and post deletion |
| `MapView` | `map_view.dfy` | the map's centre and markers, the route line fetched between bus and destination, GeoJSON `[lng, lat]` to `[lat, lng]` conversion |
| `PhotoCleanup` | `cleanup.dfy` | the retention sweep over the photo folder of the storage bucket |
| `Scenarios` | `scenarios.dfy` | properties that span both apps |

Outside inputs become parameters, so the model stays deterministic:

- `Date.now()` and the server timestamp become `now` arguments;
- `confirm()` becomes a `confirmed` flag;
- store failures become a `storeOk` flag;
- the geolocation fix and the QR decoder's outcome are plain values;
- each routing-service call is a `Reply`: `Failed`, or `Replied` with its routes.

Three behaviours of the code shape the model:

- **Which event a drop-off closes.** The drop-off query in `apps/student/pages/dashboard.js:150-156` has no ordering and takes `limit(1)`. It returns the first match in the store's document-id order, and document ids are random, so which open event is closed is not the most recent one in general. `StudentDashboard.FirstOpen` takes the first open event in the log and stands in for that id order (see "## Left out"). `Scenarios.DoubleScanLeavesStudentAboard` holds for every ordering of the log: after two scans and one drop-off, one of the two new events is closed, the other stays open, and the student stays on the roster.
- **Stale route responses.** The code (`apps/student/pages/dashboard.js:110-138`) has no guard against an earlier route reply resolving late: every reply that resolves is applied. `StudentDashboard.StatsAfter` therefore takes replies in the order they resolve, and `StudentDashboard.StatsReflectLatestReply` proves that the metrics reflect the last reply to resolve successfully.
- **Client-side timeout.** The code sets no timeout on routing calls.

## Model

| member | source | states |
|---|---|---|
| SharedState.Merge | apps/driver/pages/dashboard.js:86-92 | a `setDoc(..., {merge: true})` gives every field named in the patch the patch's value and keeps every other field |
| SharedState.NumField | apps/student/components/Map.js:27-29 | a field reads as a number exactly when it is present and holds a number |
| SharedState.LastWriterWinsPerField | apps/driver/pages/dashboard.js:85-93 | whatever the interleaving of the driver's merge writes, each field holds the value from the last write that named it, or its earlier value if none did |
| SharedState.Store.MergeTracking | apps/driver/pages/dashboard.js:141-143 | a merge into `tracking/<bus>` creates the document if it is missing and changes no other bus's document |
| SharedState.Store.AddBoarding | apps/student/pages/scan.js:63-69 | `addDoc` appends the event under a fresh id that no stored event has, so the ids in the collection stay pairwise distinct |
| SharedState.Store.AddPost | apps/student/pages/community.js:72-80 | `addDoc` appends the post under a fresh id that no stored post has, so the ids in the collection stay pairwise distinct |
| DriverDashboard.SpeedKmh | apps/driver/pages/dashboard.js:80-82 | the km/h speed is the GPS m/s speed × 3.6 rounded to the nearest integer, and 0 when the GPS gives no speed or 0 |
| DriverDashboard.LocationPatch | apps/driver/pages/dashboard.js:86-92 | the location write sets exactly lat, lng, speed, bus code and a fresh `lastUpdated`, and never the head count |
| DriverDashboard.HeartbeatPatch | apps/driver/pages/dashboard.js:141-143 | the heartbeat write sets only `lastUpdated` |
| DriverDashboard.RosterPatch | apps/driver/pages/dashboard.js:45-48 | the roster write sets exactly the head count and a fresh `lastUpdated` |
| DriverDashboard.WritersDoNotClobber | apps/driver/pages/dashboard.js:85-93 | a location write leaves the head count as it was, and a heartbeat changes no field except `lastUpdated` |
| DriverDashboard.RosterOf | apps/driver/pages/dashboard.js:30-41 | the passenger list has one entry per Boarded event of the bus: each entry is such an event with its name defaulting to "Student", and every such event has its entry |
| DriverDashboard.Decimal | apps/driver/pages/dashboard.js:153 | `String(n)` of a non-negative integer is a non-empty run of digits, one digit long exactly when n < 10, and with no leading zero from 10 on |
| DriverDashboard.DecimalValue | apps/driver/pages/dashboard.js:153 | the digits of `String(n)` read back as n |
| DriverDashboard.Pad2 | apps/driver/pages/dashboard.js:153 | zero-padding gives at least two digits that still read as n, exactly two below 100, and starts with '0' exactly when n < 10 |
| DriverDashboard.FormatTime | apps/driver/pages/dashboard.js:150-154 | the timer text is minutes, a colon and two digits of seconds from 00 to 59, minutes × 60 + seconds reads back as the elapsed time, the minutes have at least two digits, starting with '0' exactly below ten minutes, and below 100 minutes the text is exactly five characters (`mm:ss`) |
| DriverDashboard.Upper | apps/driver/pages/dashboard.js:265 | upper-casing keeps the length and maps each ASCII lower-case letter to its capital, leaving every other character alone |
| DriverDashboard.UpperIdempotent | apps/driver/pages/dashboard.js:265 | upper-casing twice is the same as once, and the result has no lower-case letter |
| DriverDashboard.Dashboard.constructor | apps/driver/pages/dashboard.js:9-23 | a fresh dashboard is inactive, shows speed 0 and timer 0, has no passengers, and publishes for bus "3A" |
| DriverDashboard.Dashboard.SignedIn | apps/driver/pages/dashboard.js:59-65 | the auth listener records the signed-in driver |
| DriverDashboard.Dashboard.EditBusNumber | apps/driver/pages/dashboard.js:265 | the bus code becomes the typed text, upper-cased |
| DriverDashboard.Dashboard.ToggleTrip | apps/driver/pages/dashboard.js:156-164 | the trip flag flips; only starting a trip writes to the store, and that write touches only `lastUpdated`; starting registers the GPS watch when geolocation exists; stopping drops the watch and resets speed and timer locally, without any store write |
| DriverDashboard.Dashboard.LocationUpdate | apps/driver/pages/dashboard.js:77-94 | each fix sets the shown speed and merges the location write into the document of the bus code captured when the request was issued, even if the code has since been edited or the trip stopped; nothing is written without a bus code |
| DriverDashboard.Dashboard.Heartbeat | apps/driver/pages/dashboard.js:135-147 | a heartbeat writes `lastUpdated` only while a trip is active for a bus code and a signed-in driver, and otherwise writes nothing |
| DriverDashboard.Dashboard.TimerTick | apps/driver/pages/dashboard.js:124-132 | the timer counts one second per tick while a trip is active, and stands still otherwise |
| DriverDashboard.Dashboard.SyncRoster | apps/driver/pages/dashboard.js:25-52 | with a bus code and a user, a roster snapshot rebuilds the passenger list and merges its length (the bus's Boarded count) as the head count; otherwise nothing happens |
| DriverDashboard.Dashboard.ClearPassengers | apps/driver/pages/dashboard.js:166-187 | when not confirmed nothing changes; when confirmed, every event of the bus is deleted (whatever its status), the events of other buses remain in order, and the head count is merged as 0 |
| DriverDashboard.DeleteBusEvents | apps/driver/pages/dashboard.js:170-173 | deleting the queried events one at a time leaves exactly the log filtered to other buses |
| DriverDashboard.KeptAfterClear | apps/driver/pages/dashboard.js:170 | an event survives clear-roster exactly when it belongs to another bus |
| DriverDashboard.ClearedRosterIsEmpty | apps/driver/pages/dashboard.js:166-179 | after clear-roster no event counts as Boarded on that bus, which matches the head count of 0 it writes |
| StudentDashboard.LastUpdateMs | apps/student/pages/dashboard.js:43-45 | a timestamp with non-zero seconds reads as seconds × 1000; one with zero seconds reads through `toMillis`; a value that is not a timestamp reads as the current time |
| StudentDashboard.OfflineIffStale | apps/student/pages/dashboard.js:36-50 | for a document stamped at whole seconds, the bus is offline exactly when more than 120000 ms have passed; a gap of exactly 120000 ms still counts as online |
| StudentDashboard.OfflineIsMonotone | apps/student/pages/dashboard.js:47-49 | while the document does not change, a bus once offline stays offline as time moves on |
| StudentDashboard.SeatsLeft | apps/student/pages/dashboard.js:23-25 | seats left is 50 minus the numeric head count, or 50 when there is no document or no count; nothing clamps it at 0 |
| StudentDashboard.RouteTarget | apps/student/pages/dashboard.js:105-108 | a boarded student is routed to the campus; otherwise to their own position, and there is no target when that position is missing or has a zero coordinate |
| StudentDashboard.DistanceTenths | apps/student/pages/dashboard.js:123 | the distance in tenths of a km is the route's metres rounded to the nearest 100 m |
| StudentDashboard.EtaMinutes | apps/student/pages/dashboard.js:124 | the ETA is the route's seconds rounded to the nearest minute |
| StudentDashboard.NextStats | apps/student/pages/dashboard.js:120-133 | a reply with routes gives the first route's rounded figures; a reply with no route gives the "--" sentinel; a failed call keeps the previous figures |
| StudentDashboard.ErrorsRetainLastReply | apps/student/pages/dashboard.js:130-133 | any run of failed calls leaves the metrics as they were |
| StudentDashboard.StatsReflectLatestReply | apps/student/pages/dashboard.js:110-138 | after any run of replies, the metrics are those of the last reply that was not an error |
| StudentDashboard.FirstOpen | apps/student/pages/dashboard.js:150-159 | the event a drop-off finds is an open Boarded event of this student on this bus, no earlier event qualifies, and there is none exactly when no event is open |
| StudentDashboard.DropFirstOpen | apps/student/pages/dashboard.js:157-164 | the drop-off marks that one event Dropped Off at the given time and changes nothing else; with no open event the log is unchanged |
| StudentDashboard.DropOffOnlyClosesOpenEvents | apps/student/pages/dashboard.js:158-163 | ids are kept, a Dropped Off event never changes, and the only changed event was open and is now Dropped Off at that time |
| StudentDashboard.DropOffClosesOne | apps/student/pages/dashboard.js:150-164 | when there is an open event, the student's open count and the bus's Boarded count both fall by exactly one; otherwise neither changes |
| StudentDashboard.Dashboard.constructor | apps/student/pages/dashboard.js:17-31 | the page starts boarded exactly when the query says `boarded=true`, and tracks the query's bus when that is non-empty |
| StudentDashboard.Dashboard.SignedIn | apps/student/pages/dashboard.js:61-64 | the auth listener records the student |
| StudentDashboard.Dashboard.Search | apps/student/pages/dashboard.js:172 | searching for a non-empty code tracks that bus; an empty code changes nothing |
| StudentDashboard.Dashboard.TrackingSnapshot | apps/student/pages/dashboard.js:77-82 | the shown location is the tracked bus's document, or none when that document does not exist |
| StudentDashboard.Dashboard.UserMoved | apps/student/pages/dashboard.js:87-88 | the student's position is the latest geolocation fix |
| StudentDashboard.Dashboard.CheckStatus | apps/student/pages/dashboard.js:33-55 | while a bus is tracked, the offline flag is the liveness classification at `now`; the check changes nothing but that flag |
| StudentDashboard.Dashboard.RouteTick | apps/student/pages/dashboard.js:98-141 | with no bus location the metrics reset to not-computed; with no target they stay; otherwise they advance by the reply |
| StudentDashboard.Dashboard.DropOff | apps/student/pages/dashboard.js:146-170 | without a user or a tracked bus nothing happens; otherwise the first open event is closed when the store succeeds, and the page moves on to `/attendance` even when it fails |
| ScanPage.BoardingEvent | apps/student/pages/scan.js:63-69 | a confirmed scan records a Boarded event for the scanned bus and this student, named by their display name or "Student", stamped at `now`, with no drop-off time |
| ScanPage.BoardedPage | apps/student/pages/scan.js:70 | after boarding, the page navigates to the dashboard with `boarded=true` and the scanned bus code |
| ScanPage.EachScanAddsOne | apps/student/pages/scan.js:62-69 | scans are not de-duplicated: every confirmed scan adds one to the bus's Boarded count, even for a student already aboard |
| ScanPage.Scan.constructor | apps/student/pages/scan.js:11-14 | the page starts with no code, camera off, not processing and no error |
| ScanPage.Scan.UseCamera | apps/student/pages/scan.js:126 | the camera button turns camera mode on |
| ScanPage.Scan.CameraDecoded | apps/student/pages/scan.js:33-36 | a decode arrives only while the scanner is running; it records the code and turns camera mode off, which stops the scanner |
| ScanPage.Scan.FileSelected | apps/student/pages/scan.js:44-54 | no file changes nothing; a decoded image records the code; an unreadable image shows the fixed error and keeps the previous code |
| ScanPage.Scan.Confirm | apps/student/pages/scan.js:56-75 | without a code or a user nothing happens; otherwise exactly one Boarded event is appended under the next id, which advances by one, and the page navigates; on a store failure nothing is written and no id is used, the error is shown and the button is re-enabled |
| Attendance.SortNewestFirst | apps/student/pages/attendance.js:35 | `orderBy('scannedAt', 'desc')` puts the newest scan first and is a permutation of its input |
| Attendance.History | apps/student/pages/attendance.js:29-43 | the history holds exactly this student's events, newest scan first, each as often as it is stored |
| Attendance.ShownTime | apps/student/pages/attendance.js:102 | a Dropped Off card shows the drop-off time; any other card shows the scan time |
| Attendance.Label | apps/student/pages/attendance.js:105 | the label is "Safe Arrival" exactly for Dropped Off events and "On Board" otherwise |
| Attendance.FormatStamp | apps/student/pages/attendance.js:50-62 | a missing or zero time shows as the empty string; any other goes through the locale formatter |
| Feed.PostMillis | apps/student/pages/community.js:50-51 | a post's sort time is its server time in milliseconds, or the current time while the server time is pending |
| Feed.BeforeIsTotalPreorder | apps/student/pages/community.js:46-53 | the comparator is total and transitive, so the sorted feed is well defined |
| Feed.OrderedFeedShape | apps/student/pages/community.js:45-53 | in a sorted feed every pinned post precedes every unpinned one, and within each group times never increase |
| Feed.SortFeed | apps/student/pages/community.js:46-53 | sorting in place leaves the array ordered pinned-first then newest-first, and a permutation of what it held |
| Feed.BusPosts | apps/student/pages/community.js:34-37 | the query returns exactly the posts of the bus |
| Feed.LoadFeed | apps/student/pages/community.js:39-56 | the shown feed is exactly the bus's posts, each as often as it is stored, in feed order |
| Feed.TrimStart | apps/student/pages/community.js:68 | `trim` removes a leading run of white space and nothing more |
| Feed.TrimEnd | apps/student/pages/community.js:68 | `trim` removes a trailing run of white space and nothing more |
| Feed.Trim | apps/student/pages/community.js:68 | the trimmed text is a slice of the input with only white space before and after it, and when non-empty starts and ends with a non-space character |
| Feed.BlankIffAllSpace | apps/student/pages/community.js:68 | a post is rejected as blank exactly when every character is white space |
| Feed.FormatPostTime | apps/student/pages/community.js:89-93 | a post without a server time shows "Just now"; otherwise the locale's rendering of it |
| StudentCommunity.StudentPost | apps/student/pages/community.js:72-80 | a student post carries the text, bus and author id, the display name or "Student", role student, is not pinned, and is stamped with the server time |
| StudentCommunity.StudentPostsFollowPinned | apps/student/pages/community.js:45-53 | in the sorted feed a student's post comes after every pinned post, whatever its time |
| StudentCommunity.Page.constructor | apps/student/pages/community.js:9-14 | the page starts loading, with no posts and an empty input, for the query's bus |
| StudentCommunity.Page.SignedIn | apps/student/pages/community.js:21-22 | the auth listener records the student |
| StudentCommunity.Page.Edit | apps/student/pages/community.js:165 | the input holds the typed text |
| StudentCommunity.Page.OnSnapshot | apps/student/pages/community.js:29-56 | without a bus nothing is subscribed; otherwise the shown posts are exactly the bus's posts in feed order and loading ends |
| StudentCommunity.Page.OnSnapshotError | apps/student/pages/community.js:57-60 | a listener error ends loading |
| StudentCommunity.Page.Submit | apps/student/pages/community.js:66-87 | blank text, no user or no bus writes nothing; otherwise exactly one student post is appended under the next id, which advances by one, and the input is cleared; a failed write changes nothing, the id counter included |
| DriverCommunity.DriverPost | apps/driver/pages/community.js:69-77 | a driver post is signed "Driver", has role driver, is always pinned, and is stamped with the server time |
| DriverCommunity.DriverPostsLead | apps/driver/pages/community.js:44-50 | in the sorted feed a driver's post comes before every unpinned post |
| DriverCommunity.WithoutPost | apps/driver/pages/community.js:89 | `deleteDoc(posts/<id>)` removes every post with that id and keeps every other |
| DriverCommunity.DeleteRemovesExactlyOne | apps/driver/pages/community.js:85-94 | deleting a stored post, ids being distinct, shrinks the collection by exactly one and keeps every other post |
| DriverCommunity.DeleteMissingIsNoop | apps/driver/pages/community.js:89 | deleting an id that no post has changes nothing |
| DriverCommunity.Page.constructor | apps/driver/pages/community.js:9-13 | the page starts loading, with no posts and an empty input, for the query's bus |
| DriverCommunity.Page.SignedIn | apps/driver/pages/community.js:20-22 | the auth listener records the driver |
| DriverCommunity.Page.Edit | apps/driver/pages/community.js:187 | the input holds the typed text |
| DriverCommunity.Page.OnSnapshot | apps/driver/pages/community.js:28-53 | without a bus nothing is subscribed; otherwise the shown posts are exactly the bus's posts in feed order and loading ends |
| DriverCommunity.Page.OnSnapshotError | apps/driver/pages/community.js:54-57 | a listener error ends loading |
| DriverCommunity.Page.Submit | apps/driver/pages/community.js:63-83 | the same guard as the student page; otherwise exactly one pinned driver post is appended under the next id, which advances by one, and the input is cleared; a rejected or failed write changes nothing, the id counter included |
| DriverCommunity.Page.Delete | apps/driver/pages/community.js:85-94 | after confirmation the post with that id is deleted, whatever its bus or author, and when it was stored the collection shrinks by exactly one; a declined confirmation or a failed delete changes nothing |
| MapView.MapInput | apps/student/pages/dashboard.js:237 | the dashboard passes the tracking document to the map, or a fixed placeholder position at 12.97, 77.59 when there is none |
| MapView.DashboardMapHasPosition | apps/student/pages/dashboard.js:237 | with no tracking document the placeholder counts as a valid location; an existing document is passed on as it is and gives a location exactly when it holds numeric coordinates |
| MapView.Position | apps/student/components/Map.js:31 | the map centres on the bus when both coordinates are numbers, else on the campus |
| MapView.UserPos | apps/student/components/Map.js:33 | the user marker is drawn exactly when both user coordinates are present and non-zero |
| MapView.PopupSpeed | apps/student/components/Map.js:93 | the popup shows the stored speed rounded, or 0 without one |
| MapView.ToLatLng | apps/student/components/Map.js:54 | each GeoJSON `[lng, lat]` point becomes `[lat, lng]`, point for point |
| MapView.ToGeoJson | apps/student/components/Map.js:53-54 | each map point converts back to GeoJSON order |
| MapView.SwapRoundTrip | apps/student/components/Map.js:53-54 | converting a route's geometry and back gives it unchanged, so the drawn path is the route point for point |
| MapView.SwapRoundTripBack | apps/student/components/Map.js:53-54 | converting a map path to GeoJSON and back gives it unchanged |
| MapView.Map.constructor | apps/student/components/Map.js:35 | the map starts without a route line |
| MapView.Map.RouteEffect | apps/student/components/Map.js:38-66 | without a valid bus location or a destination the route is cleared; a failed request draws the straight bus-to-destination line; a reply with routes draws the first route's geometry; a reply with no route keeps the previous line; a route line is shown exactly when bus and destination are valid and the reply failed, had a route, or a line was already there |
| PhotoCleanup.ExpiredIffOlderThanWeek | scripts/cleanup.js:27-30 | the fractional-days test is exactly "older than 604800000 ms" |
| PhotoCleanup.Survivors | scripts/cleanup.js:22-35 | after a sweep an object remains exactly when it is outside the folder, is the folder object itself, or is not expired, and it keeps its creation time |
| PhotoCleanup.Bucket.Delete | scripts/cleanup.js:32 | deleting an object removes just that name |
| PhotoCleanup.Cleanup | scripts/cleanup.js:14-38 | visiting the listing once leaves the bucket as its survivors, and the reported count is the number of expired listed objects |
| PhotoCleanup.SweepIsIdempotent | scripts/cleanup.js:22-35 | a second sweep at the same instant deletes nothing more |
| PhotoCleanup.SweepKeeps | scripts/cleanup.js:23-30 | the folder object, objects outside the folder and photos within the retention period are never deleted |
| PhotoCleanup.CountIsRemovedObjects | scripts/cleanup.js:33-37 | the reported count equals the number of objects the sweep removed |
| Scenarios.SeatsFollowRoster | apps/student/pages/dashboard.js:23-25 | after the driver's roster sync a student sees 50 minus the bus's Boarded count, and a later location write does not change it |
| Scenarios.ClearedBusShowsAllSeats | apps/driver/pages/dashboard.js:176-179 | after clear-roster a student sees all 50 seats free |
| Scenarios.NoBusPositionBeforeFirstFix | apps/student/pages/dashboard.js:237 | a tracking document written before the first GPS fix (by a roster sync or a trip start) has no coordinates, so the map gets no valid bus location and centres on the campus |
| Scenarios.HeartbeatKeepsBusOnline | apps/student/pages/dashboard.js:43-49 | after a heartbeat stamped at second s, the bus reads offline exactly when now > s × 1000 + 120000, whatever else the document holds |
| Scenarios.BoardThenDropOff | apps/student/pages/dashboard.js:146-164 | a student with no open event who boards and then drops off closes their new event, the roster returns to its earlier count, and the attendance card shows Safe Arrival at the drop-off time |
| Scenarios.DoubleScanLeavesStudentAboard | apps/student/pages/dashboard.js:150-164 | whatever order the store keeps the events in, after two scans and one drop-off one of the two new events is closed, the student still has exactly one open event, and the roster counts the student once more than before |

## Left out

- Authentication, sign-in, sign-out, the admin user pages and all presentation (styles, animations, icons, scrolling): these are not part of the shared-state core.
- Store delivery and React scheduling: subscriptions are modelled as the snapshot they deliver, and effects as the method they run. Listener registration and teardown, and the cancellation of intervals and geolocation watches, are represented only by the `watching` flag of the driver dashboard.
- The one-second debounce of the map's route request, and its cancellation when the inputs change first: `MapView.Map.RouteEffect` models a request that completes.
- Floating point is modelled as exact reals: `toFixed(1)` becomes tenths of a kilometre, and `NaN` creation times in the cleanup script become a missing time. Locale date and time formatting is a function parameter.
- DriverDashboard.Upper: only ASCII letters are upper-cased; `toUpperCase` also maps non-ASCII letters.
- DriverDashboard.Dashboard.ClearPassengers: the deletes run in parallel and may fail part-way, leaving some events behind. The model deletes all of them or, when not confirmed, none.
- DriverDashboard.Dashboard.ToggleTrip: with an empty bus code, the source's write to `tracking/''` throws before reaching the store. The model treats that as no write.
- PhotoCleanup.Cleanup: a failing `getMetadata` or `delete` aborts the source's loop part-way. The model sweeps the whole listing, which it takes as a parameter (the bucket's objects under the folder, each once).
- Pending server timestamps: the store's local echo holds `null` until the server fills in the time. The model stamps writes directly with the given server time; only posts keep an optional timestamp, which the comparator and the time display handle.
- Document-id order: the model appends new events and posts at the end of the log, and `limit(1)` picks the first match in log order. Real auto-generated ids are random, so the store's order is not the creation order; `Scenarios.DoubleScanLeavesStudentAboard` is stated for every ordering of the log for that reason.
- Feed.SortFeed: the comparator reads `Date.now()` on every call. The model uses one `now` for the whole sort, so the comparator is a consistent preorder.
- The stale-response guard and the client-side timeout for routing calls: neither is in the code, so neither is modelled.
- Uploading the boarding photo to storage: the scan page imports the storage API but never calls it. Photos enter the bucket only as the cleanup script's input.
