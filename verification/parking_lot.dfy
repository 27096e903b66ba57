/** One parking lot's actor: a mirror of the occupancy its edge server last
    reported. The actor's mutable fields become a `LotState` value and each
    message handler a pure function from the old state to the new one. */
module ParkingLot {
  import opened Optional

  /** The actor's fields; the edge-server id it also records is not part
      of the state here. */
  datatype LotState = LotState(
    parkId: string,
    maxCapacity: int,
    currentOccupancy: int,
    lastUpdateTimestamp: int)

  /** The messages a lot actor receives. Anything else is unhandled. */
  datatype LotMessage =
    | OccupancyUpdate(currentOccupancy: int, timestamp: int)
    | GetStatus
    | Unrecognized

  /** The status reply: id, occupancy, capacity and the full flag. */
  datatype Status = Status(parkId: string, currentOccupancy: int, maxCapacity: int, isFull: bool)

  /** The constructor: a new lot holds no cars, and its timestamp is the
      creation time `now`. */
  function Create(parkId: string, maxCapacity: int, now: int): (s: LotState)
    ensures s.parkId == parkId && s.maxCapacity == maxCapacity
    ensures s.currentOccupancy == 0
    ensures s.lastUpdateTimestamp == now
  {
    LotState(parkId, maxCapacity, 0, now)
  }

  /** An occupancy report overwrites occupancy and timestamp with exactly
      the reported values, even above capacity; id and capacity stay. */
  function HandleOccupancyUpdate(s: LotState, occupancy: int, timestamp: int): (s': LotState)
    ensures s'.currentOccupancy == occupancy && s'.lastUpdateTimestamp == timestamp
    ensures s'.parkId == s.parkId && s'.maxCapacity == s.maxCapacity
  {
    s.(currentOccupancy := occupancy, lastUpdateTimestamp := timestamp)
  }

  /** The status reply carries the lot's own id, occupancy and capacity, and
      reports full exactly when occupancy has reached capacity. */
  function HandleGetStatus(s: LotState): (st: Status)
    ensures st.parkId == s.parkId
    ensures st.currentOccupancy == s.currentOccupancy && st.maxCapacity == s.maxCapacity
    ensures st.isFull <==> s.currentOccupancy >= s.maxCapacity
  {
    Status(s.parkId, s.currentOccupancy, s.maxCapacity, s.currentOccupancy >= s.maxCapacity)
  }

  /** One message: the new state and the reply, if the message has one. */
  function Step(s: LotState, m: LotMessage): (res: (LotState, Option<Status>))
    ensures res.0.parkId == s.parkId && res.0.maxCapacity == s.maxCapacity
    ensures !m.OccupancyUpdate? ==> res.0 == s
    ensures res.1.Some? <==> m.GetStatus?
    ensures m.OccupancyUpdate? ==> res.0.currentOccupancy == m.currentOccupancy
  {
    match m
    case OccupancyUpdate(occupancy, timestamp) => (HandleOccupancyUpdate(s, occupancy, timestamp), None)
    case GetStatus => (s, Some(HandleGetStatus(s)))
    case Unrecognized => (s, None)
  }

  /** The state after processing `ms` in order. */
  function Run(s: LotState, ms: seq<LotMessage>): LotState
    decreases |ms|
  {
    if ms == [] then s else Run(Step(s, ms[0]).0, ms[1..])
  }

  /** The occupancy of the last update in `ms`, or `current` if there is none. */
  function LastReported(ms: seq<LotMessage>, current: int): int
    decreases |ms|
  {
    if ms == [] then current
    else if ms[|ms| - 1].OccupancyUpdate? then ms[|ms| - 1].currentOccupancy
    else LastReported(ms[..|ms| - 1], current)
  }

  /** Processing one more message after a run is a run of the longer sequence. */
  lemma {:induction false} RunSnoc(s: LotState, ms: seq<LotMessage>, m: LotMessage)
    ensures Run(s, ms + [m]) == Step(Run(s, ms), m).0
    decreases |ms|
  {
    if ms != [] {
      assert (ms + [m])[1..] == ms[1..] + [m];
      RunSnoc(Step(s, ms[0]).0, ms[1..], m);
    }
  }

  /** Id and capacity never change, whatever the lot receives. */
  lemma {:induction false} CapacityFixed(s: LotState, ms: seq<LotMessage>)
    ensures Run(s, ms).maxCapacity == s.maxCapacity
    ensures Run(s, ms).parkId == s.parkId
    decreases |ms|
  {
    if ms != [] {
      CapacityFixed(Step(s, ms[0]).0, ms[1..]);
    }
  }

  /** Last write wins: after any sequence of messages the occupancy is the
      value of the last update, or the old one when there was no update. */
  lemma {:induction false} LastWriteWins(s: LotState, ms: seq<LotMessage>)
    ensures Run(s, ms).currentOccupancy == LastReported(ms, s.currentOccupancy)
    decreases |ms|
  {
    if ms != [] {
      var init := ms[..|ms| - 1];
      assert ms == init + [ms[|ms| - 1]];
      RunSnoc(s, init, ms[|ms| - 1]);
      LastWriteWins(s, init);
    }
  }

  /** Status queries never change the lot. */
  lemma {:induction false} QueriesDoNotMutate(s: LotState, n: nat)
    ensures Run(s, seq(n, _ => GetStatus)) == s
    decreases n
  {
    if n > 0 {
      assert seq(n, _ => GetStatus)[1..] == seq(n - 1, _ => GetStatus);
      QueriesDoNotMutate(s, n - 1);
    }
  }

  /** Full detection at, below and above capacity 10: an over-capacity
      report is stored as given and reads as full. */
  lemma FullDetection()
    ensures HandleGetStatus(HandleOccupancyUpdate(Create("L", 10, 0), 10, 1)).isFull
    ensures !HandleGetStatus(HandleOccupancyUpdate(Create("L", 10, 0), 9, 1)).isFull
    ensures HandleGetStatus(HandleOccupancyUpdate(Create("L", 10, 0), 11, 1)) == Status("L", 11, 10, true)
  {
  }
}
