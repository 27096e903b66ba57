# Ticketless parking: a Dafny model of the actors and the edge gate logic

This project models the core of the ticketless parking system in Dafny and
proves properties of the model. The model has two halves.

The cloud side is five actors:
- the **lot supervisor**, a registry of lots keyed by id;
- the **lot actor**, which mirrors the occupancy its edge server reports;
- the **payment actor**, which keeps one session per licence plate and computes the fee;
- the **booking actor**, which relays each booking or cancellation to the lot's `booking.<id>` subject;
- the **routing actor**, which answers nearby-lot searches.

The edge side has three parts:
- the occupancy **tracker**, a counter clamped to the lot's capacity;
- the **checkpoint** logic, which maps a camera id to a checkpoint and decides what happens when a plate is read at the gate;
- the test client's **NATS URL** parser.

Each actor's mutable fields become an immutable Dafny value. Each message
handler becomes a pure function from the old state, the message and the
current time to the new state and the reply. Requests to other services
become values in an ordered list of actions. Results that come from
outside, such as a cloud request's success or the payment check's answer,
become parameters.

Modules, one per component:
- `ParkingLot` (`parking_lot.dfy`)
- `LotManager` (`lot_manager.dfy`)
- `Payment` (`payment.dfy`)
- `Booking` (`booking.dfy`)
- `Routing` (`routing.dfy`)
- `Tracker` (`tracker.dfy`)
- `Checkpoint` (`checkpoint.dfy`)
- `NatsUrl` (`nats_url.dfy`)

Two helper modules support them. `Optional` is an option type. `Text`
holds the parts of Python's `str` and `int()` that the edge code relies on:
- `isspace` and `strip`;
- ASCII `lower`;
- `split(sep, 1)`;
- base-10 `int()` with a sign, surrounding whitespace and digit underscores.

## Where the code and the design disagree

In each of these cases the model follows the code.

- **Deregistration.** The repository defines `DeregisterParkMessage` and its reply `ParkDeregisteredMessage`. The edge test client's step 9 expects a deregistered lot to be gone from the registry (`test_cloud_client.py`, lines 78-90). The supervisor has no handler for the message, however, so it falls through to `unhandled`. The lot stays registered and keeps answering status queries. See `LotManager.DeregisterKeepsLot`.
- **Registration reply.** The supervisor builds `ParkRegisteredMessage` with three arguments, including the child actor. The message class takes only the id and the capacity. The model's reply carries the id and the capacity.
- **The lot actor and its messages.**
  - The lot actor reads an edge-server id that the occupancy message class does not have.
  - The routing actor reads latitude, longitude and free spaces, which the status message does not carry.
  - The routing actor also sends typed `GetRegistered` and `GetStatus` commands, which the untyped supervisor does not define.
  - The model therefore gives the routing actor an abstract `NearbyLot` record whose distance is a field.
- **Status query id.** The supervisor reads `getParkId()` from `GetParkingLotStatusMessage`, but that class has no id field and no such method. The model gives the status query the lot's id.
- **Entry occupancy at the edge.** `handle_checkpoint` calls `tracker.has_booking` before raising the occupancy, but the tracker defines no such method. The AttributeError is caught, so with the cloud enabled an entry never raises the occupancy. See `Checkpoint.OnEntry`.
- **Client methods that do not exist.** The edge code calls four methods that `CloudParkingClient` (`cloud_parking_client.py`) does not define:
  - `payment_car_enter`, at `server_localTest.py` line 142;
  - `payment_check`, at line 173;
  - `payment_exit`, at line 201;
  - `deregister_parking_lot`, at `parkinglot_tracker.py` line 50.
  Each call raises AttributeError. The model treats the replies of these calls as inputs:
  - `paid` stands for the payment check's answer in `Checkpoint.OnExit`;
  - `callSucceeds` stands for the success of the deregistration request in `Tracker.Deregister`.
  With the client the repository ships, both inputs are always false:
  - the check's exception is caught at line 177, so `paid` stays false and every cloud-enabled exit is denied (`Checkpoint.DeniedExitChangesNothing`);
  - the deregistration's exception leaves the tracker registered.
  The paid branch of `Checkpoint.OnExit` and the cloud half of `Checkpoint.VisitEffect` describe a client with these methods. With such a client a visit lowers the tracked occupancy by one, not below 0.
- **Tracker construction.** The edge server's start-up builds the tracker with `lat` and `lng` arguments that its constructor does not accept. The start-up code is not modelled, so the model takes the cloud link as a parameter (`Cloud`).

## Model

| member | source | states |
|---|---|---|
| ParkingLot.Create | src/ticketless_parking_system/cloud/src/main/java/com/ticketless/parking/actors/ParkingLotActor.java:40-47 | a new lot has the given id and capacity, no cars, and the creation time as its timestamp |
| ParkingLot.HandleOccupancyUpdate | src/ticketless_parking_system/cloud/src/main/java/com/ticketless/parking/actors/ParkingLotActor.java:82-96 | an update stores exactly the reported occupancy and timestamp, even above capacity; id and capacity are kept |
| ParkingLot.HandleGetStatus | src/ticketless_parking_system/cloud/src/main/java/com/ticketless/parking/actors/ParkingLotActor.java:102-112 | the status carries the lot's id, occupancy and capacity, and is full exactly when occupancy is at least the capacity |
| ParkingLot.Step | src/ticketless_parking_system/cloud/src/main/java/com/ticketless/parking/actors/ParkingLotActor.java:69-76 | only updates change the state, only status queries get a reply, and id and capacity never change |
| ParkingLot.CapacityFixed | src/ticketless_parking_system/cloud/src/main/java/com/ticketless/parking/actors/ParkingLotActor.java:28-29 | after any message sequence the id and capacity are the initial ones |
| ParkingLot.LastWriteWins | src/ticketless_parking_system/cloud/src/main/java/com/ticketless/parking/actors/ParkingLotActor.java:82-84 | after any message sequence the occupancy is that of the last update, or the old one if there was none |
| ParkingLot.QueriesDoNotMutate | src/ticketless_parking_system/cloud/src/main/java/com/ticketless/parking/actors/ParkingLotActor.java:102-112 | any number of status queries leaves the lot unchanged |
| ParkingLot.FullDetection | src/ticketless_parking_system/cloud/src/main/java/com/ticketless/parking/actors/ParkingLotActor.java:82-109 | with capacity 10, occupancy 10 reads full and 9 does not; 11 is stored as given and reads full |
| LotManager.NotFound | src/ticketless_parking_system/cloud/src/main/java/com/ticketless/parking/actors/ParkingLotManagerActor.java:118-121 | the reply for an unknown id names that id with zero occupancy, zero capacity and not full |
| LotManager.HandleRegisterPark | src/ticketless_parking_system/cloud/src/main/java/com/ticketless/parking/actors/ParkingLotManagerActor.java:60-83 | a known id changes nothing and is answered with the stored capacity; a new id whose child name `park-<id>` Akka accepts gets an empty lot with the sent capacity and leaves all other lots alone; a new id Akka rejects makes `actorOf` throw, and the restarted supervisor has an empty registry and sends no reply; the registry invariant is kept |
| LotManager.ChildNameValid | src/ticketless_parking_system/cloud/src/main/java/com/ticketless/parking/actors/ParkingLotManagerActor.java:70-73 | the child actor `park-<id>` can be created exactly when the id consists of Akka name characters and `%` escapes |
| LotManager.InvalidNameLosesAll | src/ticketless_parking_system/cloud/src/main/java/com/ticketless/parking/actors/ParkingLotManagerActor.java:31-33 | after a registration Akka rejects, the list is empty and every formerly registered lot gets the not-found sentinel |
| LotManager.SpaceRejected | src/ticketless_parking_system/cloud/src/main/java/com/ticketless/parking/actors/ParkingLotManagerActor.java:70-73 | an id with a space (`lot 1`) is not a valid child name |
| LotManager.TestLotAccepted | src/ticketless_parking_system/cloud/src/main/java/com/ticketless/parking/actors/ParkingLotManagerActor.java:70-73 | the edge test client's id `test-lot-01` is a valid child name |
| LotManager.HandleGetRegisteredParks | src/ticketless_parking_system/cloud/src/main/java/com/ticketless/parking/actors/ParkingLotManagerActor.java:89-93 | the list holds exactly the registered ids, each with its lot's capacity |
| LotManager.HandleOccupancyUpdate | src/ticketless_parking_system/cloud/src/main/java/com/ticketless/parking/actors/ParkingLotManagerActor.java:99-107 | an update reaches only the lot with that id and sets its occupancy and timestamp; for an unknown id it is dropped |
| LotManager.HandleGetStatus | src/ticketless_parking_system/cloud/src/main/java/com/ticketless/parking/actors/ParkingLotManagerActor.java:112-122 | a known id is answered by its lot (its occupancy, its capacity, full iff occupancy reaches capacity); an unknown id gets the sentinel |
| LotManager.Step | src/ticketless_parking_system/cloud/src/main/java/com/ticketless/parking/actors/ParkingLotManagerActor.java:46-54 | every message keeps the invariant; a registration Akka rejects empties the registry and gets no reply; every other message never removes an id or changes a stored capacity; queries, deregistration and unrecognised messages change nothing; exactly updates, deregistration, unrecognised messages and rejected registrations get no reply |
| LotManager.Run | src/ticketless_parking_system/cloud/src/main/java/com/ticketless/parking/actors/ParkingLotManagerActor.java:46-54 | the registry invariant holds after any message sequence |
| LotManager.RegisterIdempotent | src/ticketless_parking_system/cloud/src/main/java/com/ticketless/parking/actors/ParkingLotManagerActor.java:63-67 | a second registration of an id, with any capacity, changes nothing and gets the same reply as the first (no reply for an id Akka rejects) |
| LotManager.RegistryOnlyGrows | src/ticketless_parking_system/cloud/src/main/java/com/ticketless/parking/actors/ParkingLotManagerActor.java:46-129 | over any message sequence whose registrations use valid child names, no id is lost and no stored capacity changes |
| LotManager.SnapshotStaysAccurate | src/ticketless_parking_system/cloud/src/main/java/com/ticketless/parking/actors/ParkingLotManagerActor.java:89-93 | every id in a registry listing is still registered with the same capacity after any later messages whose registrations use valid child names |
| LotManager.DeregisterKeepsLot | src/ticketless_parking_system/cloud/src/main/java/com/ticketless/parking/actors/ParkingLotManagerActor.java:46-53 | after a deregistration message the lot is still registered and its status is still answered by the lot, not by the sentinel |
| LotManager.LastReportShown | src/ticketless_parking_system/cloud/src/main/java/com/ticketless/parking/actors/ParkingLotManagerActor.java:99-107 | registering a lot (with a valid child name) of capacity 50 and reporting 10, 35, 5 gives a status of 5 of 50, not full |
| LotManager.UnknownGetsSentinel | src/ticketless_parking_system/cloud/src/main/java/com/ticketless/parking/actors/ParkingLotManagerActor.java:112-121 | a status query for an unregistered id gets (id, 0, 0, false) and changes nothing |
| Payment.PriceCents | src/ticketless_parking_system/cloud/src/main/java/com/ticketless/parking/actors/PaymentActor.java:108-114 | the fee is never negative, is a whole number of 100-cent half hours, and is 0 when no time has passed |
| Payment.PriceCoversElapsed | src/ticketless_parking_system/cloud/src/main/java/com/ticketless/parking/actors/PaymentActor.java:108-114 | for an elapsed time d > 0 the fee is 100 cents times the least number of half hours covering d |
| Payment.PriceMonotone | src/ticketless_parking_system/cloud/src/main/java/com/ticketless/parking/actors/PaymentActor.java:108-114 | a later payment time never gives a lower fee |
| Payment.FeeExamples | src/ticketless_parking_system/cloud/src/main/java/com/ticketless/parking/actors/PaymentActor.java:108-114 | 45 minutes cost 200 cents; zero time costs nothing |
| Payment.NoSession | src/ticketless_parking_system/cloud/src/main/java/com/ticketless/parking/actors/PaymentActor.java:125-127 | the status for a plate without a session: not paid, entry 0, fee 0, the current time |
| Payment.OnCarEntered | src/ticketless_parking_system/cloud/src/main/java/com/ticketless/parking/actors/PaymentActor.java:116-120 | entry opens a fresh unpaid session for the plate, replacing any earlier one, and leaves other plates alone |
| Payment.OnPay | src/ticketless_parking_system/cloud/src/main/java/com/ticketless/parking/actors/PaymentActor.java:122-134 | paying marks a known session paid, keeps its entry time and reports the fee as of now; an unknown plate gets the no-session status and nothing changes |
| Payment.OnCheckOnLeave | src/ticketless_parking_system/cloud/src/main/java/com/ticketless/parking/actors/PaymentActor.java:136-146 | the check reports the stored paid flag, the entry time and the fee as of now, or the no-session status |
| Payment.OnDeleteOnExit | src/ticketless_parking_system/cloud/src/main/java/com/ticketless/parking/actors/PaymentActor.java:148-153 | exit removes exactly the plate's session, whether or not it had one |
| Payment.Step | src/ticketless_parking_system/cloud/src/main/java/com/ticketless/parking/actors/PaymentActor.java:99-106 | checks change nothing, deletion is acknowledged, only entry gets no reply, and no command touches another plate's session |
| Payment.DeleteThenCheck | src/ticketless_parking_system/cloud/src/main/java/com/ticketless/parking/actors/PaymentActor.java:136-153 | after exit, a check answers as for a plate that never entered |
| Payment.CheckAgreesWithPay | src/ticketless_parking_system/cloud/src/main/java/com/ticketless/parking/actors/PaymentActor.java:122-146 | a check quotes the fee a payment at the same time charges, and after payment the check reports paid |
| Payment.PayTwice | src/ticketless_parking_system/cloud/src/main/java/com/ticketless/parking/actors/PaymentActor.java:122-134 | paying again leaves the sessions as after the first payment and quotes a fee no lower than before |
| Payment.PaidClearedOnlyByReentry | src/ticketless_parking_system/cloud/src/main/java/com/ticketless/parking/actors/PaymentActor.java:116-134 | a paid session only becomes unpaid through a new entry of the same plate |
| Booking.Subject | src/ticketless_parking_system/cloud/src/main/java/com/ticketless/parking/actors/BookingActor.java:61 | the subject is the prefix `booking.` followed by the lot id |
| Booking.OnBook | src/ticketless_parking_system/cloud/src/main/java/com/ticketless/parking/actors/BookingActor.java:56-65 | a booking publishes action `book` with the plate on the lot's subject and is confirmed as `queued` |
| Booking.OnCancel | src/ticketless_parking_system/cloud/src/main/java/com/ticketless/parking/actors/BookingActor.java:67-76 | a cancellation publishes action `cancel` with the plate on the lot's subject and is confirmed as `canceled` |
| Booking.Handle | src/ticketless_parking_system/cloud/src/main/java/com/ticketless/parking/actors/BookingActor.java:49-54 | each command yields one event on a booking subject naming its lot, with its plate and action, and a confirmation for its lot and plate |
| Booking.Run | src/ticketless_parking_system/cloud/src/main/java/com/ticketless/parking/actors/BookingActor.java:49-54 | one output per command |
| Booking.SubjectInjective | src/ticketless_parking_system/cloud/src/main/java/com/ticketless/parking/actors/BookingActor.java:61 | different lots publish on different subjects |
| Booking.Stateless | src/ticketless_parking_system/cloud/src/main/java/com/ticketless/parking/actors/BookingActor.java:43-77 | the outputs of a batch do not depend on the commands handled before it |
| Booking.RunPointwise | src/ticketless_parking_system/cloud/src/main/java/com/ticketless/parking/actors/BookingActor.java:49-54 | the i-th output of a run is the output of the i-th command alone |
| Routing.StatusRequests | src/ticketless_parking_system/cloud/src/main/java/com/ticketless/parking/actors/RoutingActor.java:87-109 | one status request per registered id: every id exactly once, in some order |
| Routing.Join | src/ticketless_parking_system/cloud/src/main/java/com/ticketless/parking/actors/RoutingActor.java:111-115 | the join succeeds exactly when every request succeeded, and then lists the replies in request order |
| Routing.JoinDistinct | src/ticketless_parking_system/cloud/src/main/java/com/ticketless/parking/actors/RoutingActor.java:87-115 | replies to requests for distinct ids join to lots with distinct ids |
| Routing.OnlyAvailable | src/ticketless_parking_system/cloud/src/main/java/com/ticketless/parking/actors/RoutingActor.java:117-119 | the filter keeps only joined lots with a free space |
| Routing.OnlyAvailableCounts | src/ticketless_parking_system/cloud/src/main/java/com/ticketless/parking/actors/RoutingActor.java:117-119 | the filter keeps every copy of a lot with a free space and drops every copy of a full one |
| Routing.SortByDistance | src/ticketless_parking_system/cloud/src/main/java/com/ticketless/parking/actors/RoutingActor.java:121-122 | the sort is a permutation of its input and ascending in distance |
| Routing.SortStable | src/ticketless_parking_system/cloud/src/main/java/com/ticketless/parking/actors/RoutingActor.java:121-122 | lots at equal distance keep their relative order |
| Routing.Aggregate | src/ticketless_parking_system/cloud/src/main/java/com/ticketless/parking/actors/RoutingActor.java:111-142 | the reply is empty on failure or a negative limit; otherwise it has min(limit, candidates) lots, ascending in distance, drawn from the joined lots, respecting the filter, and no candidate left out is nearer than one returned |
| Routing.NothingFilteredWithoutOnlyAvailable | src/ticketless_parking_system/cloud/src/main/java/com/ticketless/parking/actors/RoutingActor.java:114-124 | without the filter and with a limit covering all lots, the reply is a permutation of all joined lots |
| Routing.AnyFailureEmpties | src/ticketless_parking_system/cloud/src/main/java/com/ticketless/parking/actors/RoutingActor.java:111-142 | one failed status request empties the whole reply |
| Routing.AggregateDistinct | src/ticketless_parking_system/cloud/src/main/java/com/ticketless/parking/actors/RoutingActor.java:87-124 | if the joined lots have distinct ids, no lot appears twice in the reply |
| Routing.NearestTwo | src/ticketless_parking_system/cloud/src/main/java/com/ticketless/parking/actors/RoutingActor.java:121-124 | lots at 100 m, 50 m and 200 m with limit 2 give the 50 m lot, then the 100 m lot |
| Routing.SortThree | src/ticketless_parking_system/cloud/src/main/java/com/ticketless/parking/actors/RoutingActor.java:121-122 | sorting lots at 100 m, 50 m and 200 m puts them in the order 50 m, 100 m, 200 m |
| Routing.FullLotFiltered | src/ticketless_parking_system/cloud/src/main/java/com/ticketless/parking/actors/RoutingActor.java:117-119 | a full lot is dropped with the filter and kept without it |
| Tracker.Create | src/ticketless_parking_system/edge/parkinglot_tracker.py:13-31 | a new tracker has no cars and is not registered; it is within bounds iff the capacity is not negative |
| Tracker.Register | src/ticketless_parking_system/edge/parkinglot_tracker.py:33-40 | the cloud is called only when not registered; the flag is set only when the call returns; nothing else changes |
| Tracker.Deregister | src/ticketless_parking_system/edge/parkinglot_tracker.py:42-52 | the cloud is called only when registered; the flag is cleared only when the call returns; nothing else changes |
| Tracker.Clamp | src/ticketless_parking_system/edge/parkinglot_tracker.py:61-69 | for a non-negative capacity the stored value is the value in [0, capacity] nearest to the report, the report itself when in range; a negative report always becomes 0 |
| Tracker.UpdateOccupancy | src/ticketless_parking_system/edge/parkinglot_tracker.py:54-80 | the corrected value is stored, only the occupancy changes, and the stored value (not the raw one) is sent to the cloud |
| Tracker.Increment | src/ticketless_parking_system/edge/parkinglot_tracker.py:82-84 | within bounds, one more car below capacity and no change at capacity; the new count is sent |
| Tracker.Decrement | src/ticketless_parking_system/edge/parkinglot_tracker.py:86-88 | within bounds, one fewer car above 0 and no change at 0; the new count is sent |
| Tracker.AvailableSpaces | src/ticketless_parking_system/edge/parkinglot_tracker.py:90-92 | free spaces are never negative: capacity minus occupancy when that is not negative, else 0 |
| Tracker.IsFull | src/ticketless_parking_system/edge/parkinglot_tracker.py:90-96 | the tracker is full exactly when no space is available; for a valid tracker, exactly when the occupancy equals the capacity |
| Tracker.Apply | src/ticketless_parking_system/edge/parkinglot_tracker.py:33-88 | no operation changes the lot id or the capacity |
| Tracker.RunStaysInBounds | src/ticketless_parking_system/edge/parkinglot_tracker.py:54-88 | from a state within bounds, any sequence of operations keeps the occupancy in [0, capacity], and every value sent to the cloud is in that range |
| Tracker.Saturation | src/ticketless_parking_system/edge/parkinglot_tracker.py:82-88 | at capacity an increment changes nothing and sends the capacity; at 0 a decrement changes nothing and sends 0 |
| Tracker.IncrementThenDecrement | src/ticketless_parking_system/edge/parkinglot_tracker.py:82-88 | below capacity, an increment followed by a decrement restores the tracker |
| Tracker.RegisterOnce | src/ticketless_parking_system/edge/parkinglot_tracker.py:33-52 | after a successful registration a further one makes no call and changes nothing, and likewise for deregistration |
| Checkpoint.ParseCheckpoint | src/ticketless_parking_system/edge/server_localTest.py:55-66 | an id without `_` gives type `unknown` and the id itself (or `unknown` when empty) as barrier; otherwise the barrier is the whole id and the type has no surrounding whitespace |
| Checkpoint.ParseJoined | src/ticketless_parking_system/edge/server_localTest.py:62-66 | the type is the lower-cased, stripped text before the first `_`; later underscores do not matter |
| Checkpoint.ParsePlainType | src/ticketless_parking_system/edge/server_localTest.py:62-66 | a lower-case, unpadded word before the first `_` is the type as written |
| Checkpoint.ParseEntryId | src/ticketless_parking_system/edge/server_localTest.py:56-60 | `entry_0` is the entry checkpoint with barrier `entry_0` |
| Checkpoint.ParseExitId | src/ticketless_parking_system/edge/server_localTest.py:56-60 | `exit_0` is the exit checkpoint with barrier `exit_0` |
| Checkpoint.ParsePadded | src/ticketless_parking_system/edge/server_localTest.py:65 | a padded, mixed-case type such as ` Exit _2` reads as `exit` |
| Checkpoint.FallbackIsUnknown | src/ticketless_parking_system/edge/server_localTest.py:62-64 | the fallback camera ids `entry` and `exit` have unknown type, and an empty id gives an unknown barrier too |
| Checkpoint.OnEntry | src/ticketless_parking_system/edge/server_localTest.py:129-159 | an entry always ends by opening this barrier and leaves the plate with a session; a plate already inside only opens the barrier; no other plate and no tracker state changes |
| Checkpoint.OnExit | src/ticketless_parking_system/edge/server_localTest.py:161-208 | a denied exit changes nothing and opens nothing; an allowed exit ends the plate's session only and ends by opening this barrier; with the cloud the payment check comes first; the tracker stays within bounds |
| Checkpoint.HandleCheckpoint | src/ticketless_parking_system/edge/server_localTest.py:115-211 | a blank plate or an unknown checkpoint type does nothing; only the stripped plate's session can change; the tracker stays within bounds; only this checkpoint's barrier is opened |
| Checkpoint.ExitBarrierDecision | src/ticketless_parking_system/edge/server_localTest.py:161-208 | at an exit the barrier opens exactly when the payment check passed (with the cloud) or, without the cloud, when exits without cloud are allowed |
| Checkpoint.EntryBarrierOpens | src/ticketless_parking_system/edge/server_localTest.py:129-159 | at an entry with a readable plate the barrier always opens |
| Checkpoint.DeniedExitChangesNothing | src/ticketless_parking_system/edge/server_localTest.py:163-182 | an unpaid exit with the cloud, or any exit without cloud when such exits are not allowed, leaves sessions and tracker unchanged |
| Checkpoint.PlateNormalised | src/ticketless_parking_system/edge/server_localTest.py:124 | padding around the plate text makes no difference |
| Checkpoint.RepeatedEntry | src/ticketless_parking_system/edge/server_localTest.py:129-134 | entering again while inside only opens the barrier |
| Checkpoint.VisitEffect | src/ticketless_parking_system/edge/server_localTest.py:129-208 | an entry and a permitted exit of a new plate restore the sessions; with the cloud the tracked occupancy ends one lower, not below 0 |
| NatsUrl.HostPort | src/ticketless_parking_system/edge/test_cloud_client.py:270-273 | without `:` there is no result; for `host:rest` with no `:` in the host, the result is the host and the integer value of the rest, or no result when the rest is no integer |
| NatsUrl.Address | src/ticketless_parking_system/edge/test_cloud_client.py:266-269 | the address is a suffix of the URL; without `@` after the scheme it is everything after the scheme |
| NatsUrl.ParseHostPort | src/ticketless_parking_system/edge/test_cloud_client.py:261-273 | a URL without the `nats://` scheme gives no result; a result has a host without `:` |
| NatsUrl.ParseWithoutUserInfo | src/ticketless_parking_system/edge/test_cloud_client.py:263-271 | a URL without user information is parsed from its whole address |
| NatsUrl.ParseDiscardsUserInfo | src/ticketless_parking_system/edge/test_cloud_client.py:268-269 | everything up to and including the first `@` is discarded |
| NatsUrl.RoundTrip | src/ticketless_parking_system/edge/test_cloud_client.py:261-271 | printing a host without `:` or `@` and a port number into a NATS URL and parsing it gives both back |
| NatsUrl.RoundTripWithUser | src/ticketless_parking_system/edge/test_cloud_client.py:261-271 | the same with user information in front |
| NatsUrl.DefaultBroker | src/ticketless_parking_system/edge/test_cloud_client.py:276 | the default broker URL parses to host `nats`, port 4222 |
| Text.Strip | src/ticketless_parking_system/edge/server_localTest.py:124 | the stripped text is the middle of the input, with only whitespace cut off before and after it; it has no whitespace at either end, is empty exactly for blank text, and text without outer whitespace is unchanged |
| Text.IsSpace | src/ticketless_parking_system/edge/server_localTest.py:124 | Python's whitespace characters; none of them is a digit, a sign, `_`, `:`, `@` or a letter that lower-casing changes |
| Text.Lower | src/ticketless_parking_system/edge/server_localTest.py:65 | lower-casing keeps the length and maps each letter A-Z to a-z, other characters to themselves |
| Text.SplitOnce | src/ticketless_parking_system/edge/server_localTest.py:62 | a split exists exactly when the separator occurs, and the parts rejoin to the input with the separator absent from the first part |
| Text.SplitOnceJoin | src/ticketless_parking_system/edge/server_localTest.py:62 | splitting a joined string whose first part lacks the separator gives both parts back |
| Text.ParseInt | src/ticketless_parking_system/edge/test_cloud_client.py:271 | blank text never parses as an integer |
| Text.ParseDecimal | src/ticketless_parking_system/edge/test_cloud_client.py:271 | the decimal digits of n parse back to n |
| Text.ParseNegativeDecimal | src/ticketless_parking_system/edge/test_cloud_client.py:271 | a minus sign followed by the decimal digits of n parses to -n |

## Left out

- Great-circle distance: the haversine formula is floating-point trigonometry. Each lot carries its distance as a field, and the latitudes and longitudes are not modelled.
- Akka mechanics: asks, timeouts, `forward` and `pipeToSelf` are not modelled. The routing actor sees only the joined outcome, every reply or a failure. The supervisor's forwarding of a status query is modelled as the lot's own reply.
- The supervisor's restart: the model follows Akka's default supervision of a top-level actor (`ParkingSystemApp.java`, lines 54-57), which restarts the supervisor after an exception, stops its children and rebuilds its fields. The name rule is Akka's `ActorPath.isValidPathElement`. Akka's own code is not part of this model. The HTTP server's answer to the unanswered registration, a timeout, is not modelled either.
- The wall clock: the payment actor's and the lot's "now" is a parameter.
- The ordering of a Java hash map's key set: `StatusRequests` promises every id once, in any order.
- NaN distances: distances are reals, so the comparator's handling of NaN is not modelled.
- JSON encoding and the NATS publish call of the booking actor: the event is a record.
- Logging, the HTTP server, the application bootstrap, the message classes' own code, the IoT devices, the dashboard and the load scripts.
- The edge server's camera handling: image decoding, plate detection, OCR, the barrier request and its reply, the subscriptions and the booking subscription handler. The camera id header and its fallback to the subject name are covered only through `Checkpoint.FallbackIsUnknown`.
- The tracker's booking methods, which do not exist in the tracker: see the disagreement above.
- The SQLite session store: it is a set of plates with an active session. Through the gate logic a plate never has two active sessions, because an entry with an active session creates none.
- The cloud client's HTTP requests: each is an action. Their replies are not modelled, except the payment check's `paid` flag, where a failed check counts as unpaid.
- Text.Lower: lower-cases ASCII letters only, while Python's `lower` also lower-cases non-ASCII letters.
- Text.ParseInt: accepts ASCII digits only, while Python's `int` also accepts other Unicode decimal digits.
- Payment.PriceCents: computed in integers, with no Java `double` rounding and no truncation of the fee to a 32-bit `int`. For integer millisecond durations below 2^53 the floating-point formula gives the same result.
- Integer widths: Java `int` and `long` fields are unbounded integers, so an overflowing occupancy, capacity or timestamp is not modelled.
- Registration: the edge server's registration request is `Tracker.Register`. The supervisor's matching handler is `LotManager.HandleRegisterPark`, but the HTTP hop between the two is not modelled.
- NatsUrl.ParseHostPort: the contract gives the `nats://` precondition and the host shape. The full value is stated by the round-trip and user-information lemmas, not by an equation on arbitrary input.
