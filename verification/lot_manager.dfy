/** The supervisor of all lot actors: a registry keyed by lot id that holds
    each lot's actor (here: the lot's state) and its capacity. Every message
    handler is a pure step from the old registry to the new one and a reply. */
module LotManager {
  import opened Optional
  import Lot = ParkingLot

  /** `parkActors` stands for the map from id to child actor, whose state
      is the lot; `parkCapacities` is the map from id to capacity. */
  datatype Registry = Registry(
    parkActors: map<string, Lot.LotState>,
    parkCapacities: map<string, int>)

  /** The registry's invariant: both maps have the same ids, each lot knows
      its own id, and each lot's capacity is the one recorded for it. */
  predicate Valid(r: Registry) {
    && r.parkActors.Keys == r.parkCapacities.Keys
    && forall id :: id in r.parkActors ==>
         r.parkActors[id].parkId == id && r.parkActors[id].maxCapacity == r.parkCapacities[id]
  }

  /** The registry when the supervisor starts. */
  const Empty: Registry := Registry(map[], map[])

  /** What the supervisor can receive. Deregistration has no handler and so
      is treated like any other unrecognised message. */
  datatype Message =
    | RegisterPark(parkId: string, maxCapacity: int)
    | GetRegisteredParks
    | OccupancyUpdate(parkId: string, currentOccupancy: int, timestamp: int)
    | GetStatus(parkId: string)
    | DeregisterPark(parkId: string)
    | Unrecognized

  /** What the sender gets back; status queries for a known lot are answered
      by that lot, the rest by the supervisor. */
  datatype Reply =
    | ParkRegistered(parkId: string, maxCapacity: int)
    | RegisteredParksList(parks: map<string, int>)
    | StatusReply(status: Lot.Status)
    | NoReply

  /** The characters Akka accepts in an actor name as they stand: ASCII
      letters and digits and the symbols -_.*$+:@&=,!~'; */
  predicate IsNameChar(c: char) {
    || ('a' <= c <= 'z') || ('A' <= c <= 'Z') || ('0' <= c <= '9')
    || c == '-' || c == '_' || c == '.' || c == '*' || c == '$' || c == '+' || c == ':'
    || c == '@' || c == '&' || c == '=' || c == ',' || c == '!' || c == '~' || c == '\'' || c == ';'
  }

  predicate IsHexChar(c: char) {
    ('a' <= c <= 'f') || ('A' <= c <= 'F') || ('0' <= c <= '9')
  }

  /** Every character is a name character or starts a `%` escape followed
      by two hex digits. */
  predicate NameElements(s: string)
    decreases |s|
  {
    || s == []
    || (IsNameChar(s[0]) && NameElements(s[1..]))
    || (|s| >= 3 && s[0] == '%' && IsHexChar(s[1]) && IsHexChar(s[2]) && NameElements(s[3..]))
  }

  /** Akka's rule for an actor name (`ActorPath.isValidPathElement`): not
      empty, not starting with `$`, and made of name elements. `actorOf`
      throws `InvalidActorNameException` for any other name. */
  predicate ValidActorName(name: string) {
    |name| > 0 && name[0] != '$' && NameElements(name)
  }

  /** The name the supervisor gives a lot's child actor. */
  const ChildPrefix: string := "park-"

  function ChildName(parkId: string): string {
    ChildPrefix + parkId
  }

  /** A prefix of plain name characters neither helps nor hurts: the name is
      valid exactly when the rest is made of name elements. */
  lemma {:induction false} PlainPrefix(p: string, s: string)
    requires forall i :: 0 <= i < |p| ==> IsNameChar(p[i])
    ensures NameElements(p + s) <==> NameElements(s)
    decreases |p|
  {
    if p == [] {
      assert p + s == s;
    } else {
      var ps := p + s;
      assert ps[0] == p[0] && IsNameChar(p[0]) && p[0] != '%';
      assert ps[1..] == p[1..] + s;
      PlainPrefix(p[1..], s);
    }
  }

  /** The child actor for `parkId` can be created exactly when the id itself
      is made of name elements: "park-" is a valid start. */
  lemma ChildNameValid(parkId: string)
    ensures ValidActorName(ChildName(parkId)) <==> NameElements(parkId)
  {
    assert ChildPrefix == ['p', 'a', 'r', 'k', '-'];
    PlainPrefix(ChildPrefix, parkId);
  }

  /** Registering this new id would make `actorOf` throw. */
  predicate Restarts(r: Registry, m: Message) {
    m.RegisterPark? && m.parkId !in r.parkActors && !ValidActorName(ChildName(m.parkId))
  }

  /** The status sent for an id that is not registered. */
  function NotFound(parkId: string): (st: Lot.Status)
    ensures st.parkId == parkId && st.currentOccupancy == 0 && st.maxCapacity == 0 && !st.isFull
  {
    Lot.Status(parkId, 0, 0, false)
  }

  /** Registration inserts a fresh lot only when the id is absent; a known
      id leaves the registry alone and the reply carries the capacity stored
      at first registration, whatever capacity was sent this time. A new id
      whose child name Akka rejects makes `actorOf` throw before anything is
      stored: the supervisor is restarted by its default supervision, which
      stops every lot actor and starts again from the empty registry, and
      the sender gets no reply. */
  function HandleRegisterPark(r: Registry, parkId: string, maxCapacity: int, now: int): (res: (Registry, Reply))
    requires Valid(r)
    ensures Valid(res.0)
    ensures parkId in r.parkActors ==> res.0 == r
    ensures parkId in r.parkActors || ValidActorName(ChildName(parkId)) ==>
      parkId in res.0.parkActors && res.1 == ParkRegistered(parkId, res.0.parkCapacities[parkId])
    ensures parkId !in r.parkActors && !ValidActorName(ChildName(parkId)) ==> res == (Empty, NoReply)
    ensures parkId !in r.parkActors && ValidActorName(ChildName(parkId)) ==>
      && res.0.parkCapacities == r.parkCapacities[parkId := maxCapacity]
      && res.0.parkActors.Keys == r.parkActors.Keys + {parkId}
      && res.0.parkActors[parkId].currentOccupancy == 0
      && (forall id :: id in r.parkActors ==> res.0.parkActors[id] == r.parkActors[id])
  {
    if parkId in r.parkActors then
      (r, ParkRegistered(parkId, r.parkCapacities[parkId]))
    else if !ValidActorName(ChildName(parkId)) then
      (Empty, NoReply)
    else
      var lot := Lot.Create(parkId, maxCapacity, now);
      (Registry(r.parkActors[parkId := lot], r.parkCapacities[parkId := maxCapacity]),
       ParkRegistered(parkId, maxCapacity))
  }

  /** The list reply is a copy of the capacity map: exactly the registered
      ids, each with the capacity of its lot. */
  function HandleGetRegisteredParks(r: Registry): (reply: Reply)
    requires Valid(r)
    ensures reply.RegisteredParksList?
    ensures reply.parks.Keys == r.parkActors.Keys
    ensures forall id :: id in reply.parks ==> reply.parks[id] == r.parkActors[id].maxCapacity
  {
    RegisteredParksList(r.parkCapacities)
  }

  /** An occupancy report goes to the lot with that id and changes nothing
      else; for an unknown id it is dropped. */
  function HandleOccupancyUpdate(r: Registry, parkId: string, occupancy: int, timestamp: int): (r': Registry)
    requires Valid(r)
    ensures Valid(r')
    ensures parkId !in r.parkActors ==> r' == r
    ensures r'.parkCapacities == r.parkCapacities && r'.parkActors.Keys == r.parkActors.Keys
    ensures parkId in r.parkActors ==>
      && r'.parkActors[parkId].currentOccupancy == occupancy
      && r'.parkActors[parkId].lastUpdateTimestamp == timestamp
    ensures forall id :: id in r.parkActors && id != parkId ==> r'.parkActors[id] == r.parkActors[id]
  {
    if parkId in r.parkActors then
      var lot := Lot.HandleOccupancyUpdate(r.parkActors[parkId], occupancy, timestamp);
      r.(parkActors := r.parkActors[parkId := lot])
    else
      r
  }

  /** A status query for a known id is answered by that lot; for an unknown
      id the supervisor answers with the zero sentinel. */
  function HandleGetStatus(r: Registry, parkId: string): (st: Lot.Status)
    requires Valid(r)
    ensures parkId !in r.parkActors ==> st == NotFound(parkId)
    ensures parkId in r.parkActors ==>
      && st.parkId == parkId
      && st.currentOccupancy == r.parkActors[parkId].currentOccupancy
      && st.maxCapacity == r.parkCapacities[parkId]
      && (st.isFull <==> st.currentOccupancy >= st.maxCapacity)
  {
    if parkId in r.parkActors then Lot.HandleGetStatus(r.parkActors[parkId])
    else NotFound(parkId)
  }

  /** One message at time `now` (used only as a new lot's first timestamp).
      Apart from a restart, no message removes a lot or changes a capacity. */
  function Step(r: Registry, m: Message, now: int): (res: (Registry, Reply))
    requires Valid(r)
    ensures Valid(res.0)
    ensures Restarts(r, m) ==> res == (Empty, NoReply)
    ensures !Restarts(r, m) ==> r.parkActors.Keys <= res.0.parkActors.Keys
    ensures !Restarts(r, m) ==>
      forall id :: id in r.parkCapacities ==> res.0.parkCapacities[id] == r.parkCapacities[id]
    ensures (m.GetRegisteredParks? || m.GetStatus? || m.DeregisterPark? || m.Unrecognized?) ==> res.0 == r
    ensures (m.DeregisterPark? || m.Unrecognized? || m.OccupancyUpdate? || Restarts(r, m)) <==> res.1 == NoReply
  {
    match m
    case RegisterPark(parkId, maxCapacity) => HandleRegisterPark(r, parkId, maxCapacity, now)
    case GetRegisteredParks => (r, HandleGetRegisteredParks(r))
    case OccupancyUpdate(parkId, occupancy, timestamp) =>
      (HandleOccupancyUpdate(r, parkId, occupancy, timestamp), NoReply)
    case GetStatus(parkId) => (r, StatusReply(HandleGetStatus(r, parkId)))
    case DeregisterPark(_) => (r, NoReply)
    case Unrecognized => (r, NoReply)
  }

  /** A message together with the time it is processed. */
  datatype Event = Event(message: Message, now: int)

  /** The registry after processing `evs` in order. */
  function Run(r: Registry, evs: seq<Event>): (r': Registry)
    requires Valid(r)
    ensures Valid(r')
    decreases |evs|
  {
    if evs == [] then r else Run(Step(r, evs[0].message, evs[0].now).0, evs[1..])
  }

  /** Registering an id twice gives the same outcome both times: the second
      registration changes nothing and repeats the first reply (for an id
      Akka rejects, both leave the empty registry and no reply). */
  lemma RegisterIdempotent(r: Registry, parkId: string, c1: int, c2: int, t1: int, t2: int)
    requires Valid(r)
    ensures var (r1, reply1) := Step(r, RegisterPark(parkId, c1), t1);
            Step(r1, RegisterPark(parkId, c2), t2) == (r1, reply1)
  {
  }

  /** Every registration in `evs` names a lot whose child actor can be
      created. */
  predicate NamesValid(evs: seq<Event>) {
    forall i :: 0 <= i < |evs| && evs[i].message.RegisterPark? ==>
      ValidActorName(ChildName(evs[i].message.parkId))
  }

  /** As long as every registration uses a valid name, the registry never
      forgets an id, and a registered id keeps the capacity it was first
      registered with, whatever follows. */
  lemma {:induction false} RegistryOnlyGrows(r: Registry, evs: seq<Event>)
    requires Valid(r) && NamesValid(evs)
    ensures r.parkActors.Keys <= Run(r, evs).parkActors.Keys
    ensures forall id :: id in r.parkCapacities ==> Run(r, evs).parkCapacities[id] == r.parkCapacities[id]
    decreases |evs|
  {
    if evs != [] {
      assert !Restarts(r, evs[0].message) by {
        if evs[0].message.RegisterPark? {
          assert ValidActorName(ChildName(evs[0].message.parkId));
        }
      }
      var r1 := Step(r, evs[0].message, evs[0].now).0;
      assert NamesValid(evs[1..]) by {
        forall i | 0 <= i < |evs[1..]| && evs[1..][i].message.RegisterPark?
          ensures ValidActorName(ChildName(evs[1..][i].message.parkId))
        {
          assert evs[1..][i] == evs[i + 1];
        }
      }
      RegistryOnlyGrows(r1, evs[1..]);
    }
  }

  /** A registry snapshot stays accurate for every id it lists: later
      messages with valid names may add lots, but never drop or change a
      listed one. */
  lemma SnapshotStaysAccurate(r: Registry, evs: seq<Event>)
    requires Valid(r) && NamesValid(evs)
    ensures var snapshot := HandleGetRegisteredParks(r).parks;
            var later := Run(r, evs);
            forall id :: id in snapshot ==> id in later.parkCapacities && later.parkCapacities[id] == snapshot[id]
  {
    RegistryOnlyGrows(r, evs);
  }

  /** Deregistration is unhandled: the lot stays registered and a later
      status query is still answered by the lot, not with the sentinel. */
  lemma DeregisterKeepsLot(r: Registry, parkId: string, now: int)
    requires Valid(r) && parkId in r.parkActors
    ensures var r' := Step(r, DeregisterPark(parkId), now).0;
            && parkId in r'.parkActors
            && HandleGetStatus(r', parkId) == Lot.HandleGetStatus(r.parkActors[parkId])
            && HandleGetStatus(r', parkId) != NotFound(parkId)
  {
  }

  /** Three reports 10, 35, 5 to a lot of capacity 50: the status then shows 5. */
  lemma LastReportShown(parkId: string)
    requires ValidActorName(ChildName(parkId))
    ensures var evs := [
              Event(RegisterPark(parkId, 50), 0),
              Event(OccupancyUpdate(parkId, 10, 1), 1),
              Event(OccupancyUpdate(parkId, 35, 2), 2),
              Event(OccupancyUpdate(parkId, 5, 3), 3)];
            HandleGetStatus(Run(Empty, evs), parkId) == Lot.Status(parkId, 5, 50, false)
  {
    var evs := [
      Event(RegisterPark(parkId, 50), 0),
      Event(OccupancyUpdate(parkId, 10, 1), 1),
      Event(OccupancyUpdate(parkId, 35, 2), 2),
      Event(OccupancyUpdate(parkId, 5, 3), 3)];
    var r1 := Step(Empty, evs[0].message, 0).0;
    var r2 := Step(r1, evs[1].message, 1).0;
    var r3 := Step(r2, evs[2].message, 2).0;
    var r4 := Step(r3, evs[3].message, 3).0;
    assert evs[1..][1..][1..][1..] == [];
    assert Run(Empty, evs) == Run(r1, evs[1..]) == Run(r2, evs[1..][1..])
        == Run(r3, evs[1..][1..][1..]) == Run(r4, []);
    assert r4.parkActors[parkId] == Lot.LotState(parkId, 50, 5, 3);
  }

  /** An id that was never registered gets the sentinel, whatever else is
      registered. */
  lemma UnknownGetsSentinel(r: Registry, parkId: string, now: int)
    requires Valid(r) && parkId !in r.parkActors
    ensures Step(r, GetStatus(parkId), now) == (r, StatusReply(Lot.Status(parkId, 0, 0, false)))
  {
  }

  /** A registration whose child name Akka rejects loses every lot: the
      registry is empty afterwards, so a later list is empty and a later
      status query for a lot that was registered gets the sentinel. */
  lemma InvalidNameLosesAll(r: Registry, known: string, parkId: string, capacity: int, now: int)
    requires Valid(r) && known in r.parkActors && parkId !in r.parkActors
    requires !NameElements(parkId)
    ensures var (r', reply) := Step(r, RegisterPark(parkId, capacity), now);
            && reply == NoReply
            && HandleGetRegisteredParks(r') == RegisteredParksList(map[])
            && HandleGetStatus(r', known) == NotFound(known)
  {
    ChildNameValid(parkId);
  }

  /** A space is not allowed in an actor name. */
  lemma SpaceRejected()
    ensures !ValidActorName(ChildName("lot 1"))
  {
    ChildNameValid("lot 1");
    assert "lot 1" == "lot" + " 1";
    assert "lot" == ['l', 'o', 't'];
    PlainPrefix("lot", " 1");
    assert " 1"[0] == ' ';
  }

  /** A name of plain name characters only is made of name elements. */
  lemma AllNameChars(p: string)
    requires forall i :: 0 <= i < |p| ==> IsNameChar(p[i])
    ensures NameElements(p)
  {
    assert p + [] == p;
    PlainPrefix(p, []);
  }

  /** The id the edge test client registers is a valid name. */
  lemma TestLotAccepted()
    ensures ValidActorName(ChildName("test-lot-01"))
  {
    var id := "test-lot-01";
    assert forall i :: 0 <= i < |id| ==> IsNameChar(id[i]) by {
      assert id == ['t', 'e', 's', 't', '-', 'l', 'o', 't', '-', '0', '1'];
    }
    AllNameChars(id);
    ChildNameValid(id);
  }
}
