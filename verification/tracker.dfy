/** The edge server's occupancy tracker: a counter kept within
    [0, max capacity] that reports every update to the cloud, plus the
    registered flag. Each cloud request the tracker makes is returned as a
    `CloudCall` value; whether the request succeeded is an input where the
    tracker's state depends on it. */
module Tracker {

  datatype Tracker = Tracker(
    parkId: string,
    maxCapacity: int,
    currentOccupancy: int,
    registered: bool)

  /** The cloud requests the tracker issues. */
  datatype CloudCall =
    | RegisterLot(parkId: string, maxCapacity: int)
    | DeregisterLot(parkId: string)
    | SendOccupancy(parkId: string, occupancy: int)

  /** The tracker's invariant: the occupancy lies within the capacity. */
  predicate Valid(t: Tracker) {
    0 <= t.currentOccupancy <= t.maxCapacity
  }

  /** A new tracker: no cars, not registered. It is valid exactly when the
      capacity is not negative. */
  function Create(parkId: string, maxCapacity: int): (t: Tracker)
    ensures t.parkId == parkId && t.maxCapacity == maxCapacity
    ensures t.currentOccupancy == 0 && !t.registered
    ensures Valid(t) <==> maxCapacity >= 0
  {
    Tracker(parkId, maxCapacity, 0, false)
  }

  /** Registration calls the cloud only when not yet registered; the flag is
      set only once the call has returned (`callSucceeds`), so a failed call
      leaves the tracker unregistered. */
  function Register(t: Tracker, callSucceeds: bool): (res: (Tracker, seq<CloudCall>))
    ensures t.registered ==> res == (t, [])
    ensures !t.registered ==> res.1 == [RegisterLot(t.parkId, t.maxCapacity)]
    ensures !t.registered ==> res.0.registered == callSucceeds
    ensures res.0.(registered := t.registered) == t
  {
    if !t.registered then (t.(registered := callSucceeds), [RegisterLot(t.parkId, t.maxCapacity)])
    else (t, [])
  }

  /** Deregistration calls the cloud only when registered and clears the
      flag once the call has returned. */
  function Deregister(t: Tracker, callSucceeds: bool): (res: (Tracker, seq<CloudCall>))
    ensures !t.registered ==> res == (t, [])
    ensures t.registered ==> res.1 == [DeregisterLot(t.parkId)]
    ensures t.registered ==> res.0.registered == !callSucceeds
    ensures res.0.(registered := t.registered) == t
  {
    if t.registered then (t.(registered := !callSucceeds), [DeregisterLot(t.parkId)])
    else (t, [])
  }

  /** The correction applied to a reported occupancy: negative values become
      0, values above the capacity become the capacity. The negative test
      comes first, which matters only for a negative capacity. For a
      non-negative capacity the result is the value of [0, capacity] nearest
      to `v`. */
  function Clamp(v: int, maxCapacity: int): (r: int)
    ensures maxCapacity >= 0 ==> 0 <= r <= maxCapacity
    ensures 0 <= v <= maxCapacity ==> r == v
    ensures maxCapacity >= 0 ==> forall w :: 0 <= w <= maxCapacity ==> Dist(r, v) <= Dist(w, v)
    ensures v < 0 ==> r == 0
  {
    if v < 0 then 0
    else if v > maxCapacity then maxCapacity
    else v
  }

  function Dist(a: int, b: int): nat {
    if a <= b then b - a else a - b
  }

  /** An occupancy report: the corrected value is stored and that stored
      value, not the raw one, is sent to the cloud. The state changes before
      the request, so a failing request does not undo it. */
  function UpdateOccupancy(t: Tracker, v: int): (res: (Tracker, CloudCall))
    ensures res.0.currentOccupancy == Clamp(v, t.maxCapacity)
    ensures res.0.(currentOccupancy := t.currentOccupancy) == t
    ensures res.1 == SendOccupancy(t.parkId, res.0.currentOccupancy)
    ensures t.maxCapacity >= 0 ==> Valid(res.0)
  {
    var stored := Clamp(v, t.maxCapacity);
    var t' := if stored != t.currentOccupancy then t.(currentOccupancy := stored) else t;
    (t', SendOccupancy(t.parkId, t'.currentOccupancy))
  }

  /** A car entered: one more, saturating at the capacity. */
  function Increment(t: Tracker): (res: (Tracker, CloudCall))
    ensures Valid(t) ==> Valid(res.0)
    ensures Valid(t) && t.currentOccupancy < t.maxCapacity ==> res.0.currentOccupancy == t.currentOccupancy + 1
    ensures Valid(t) && t.currentOccupancy == t.maxCapacity ==> res.0 == t
    ensures res.1 == SendOccupancy(t.parkId, res.0.currentOccupancy)
  {
    UpdateOccupancy(t, t.currentOccupancy + 1)
  }

  /** A car left: one fewer, saturating at 0. */
  function Decrement(t: Tracker): (res: (Tracker, CloudCall))
    ensures Valid(t) ==> Valid(res.0)
    ensures Valid(t) && t.currentOccupancy > 0 ==> res.0.currentOccupancy == t.currentOccupancy - 1
    ensures t.currentOccupancy == 0 ==> res.0 == t
    ensures res.1 == SendOccupancy(t.parkId, res.0.currentOccupancy)
  {
    UpdateOccupancy(t, t.currentOccupancy - 1)
  }

  /** Free spaces, never negative: the capacity left over, or 0 when the lot
      holds as many cars as it has spaces or more. */
  function AvailableSpaces(t: Tracker): (n: nat)
    ensures t.currentOccupancy <= t.maxCapacity ==> n + t.currentOccupancy == t.maxCapacity
    ensures t.currentOccupancy >= t.maxCapacity ==> n == 0
  {
    if t.maxCapacity - t.currentOccupancy > 0 then t.maxCapacity - t.currentOccupancy else 0
  }

  /** Full exactly when no space is left; for a valid tracker, exactly when
      the occupancy has reached the capacity. */
  function IsFull(t: Tracker): (b: bool)
    ensures b <==> AvailableSpaces(t) == 0
    ensures Valid(t) ==> (b <==> t.currentOccupancy == t.maxCapacity)
  {
    t.currentOccupancy >= t.maxCapacity
  }

  /** One call of the tracker's interface: `CarIn` and `CarOut` are the
      increment and decrement, `Report` an occupancy update, `Enroll` and
      `Withdraw` registration and deregistration with the outcome of the
      cloud request. */
  datatype Op =
    | CarIn
    | CarOut
    | Report(occupancy: int)
    | Enroll(registerSucceeds: bool)
    | Withdraw(deregisterSucceeds: bool)

  function Apply(t: Tracker, op: Op): (res: (Tracker, seq<CloudCall>))
    ensures res.0.parkId == t.parkId && res.0.maxCapacity == t.maxCapacity
  {
    match op
    case CarIn => var (t', c) := Increment(t); (t', [c])
    case CarOut => var (t', c) := Decrement(t); (t', [c])
    case Report(v) => var (t', c) := UpdateOccupancy(t, v); (t', [c])
    case Enroll(ok) => Register(t, ok)
    case Withdraw(ok) => Deregister(t, ok)
  }

  /** The tracker after `ops`, with every cloud call made on the way. */
  function Run(t: Tracker, ops: seq<Op>): (res: (Tracker, seq<CloudCall>))
    decreases |ops|
  {
    if ops == [] then (t, [])
    else
      var (t1, calls1) := Apply(t, ops[0]);
      var (t2, calls2) := Run(t1, ops[1..]);
      (t2, calls1 + calls2)
  }

  /** Every occupancy sent for lot `parkId` lies in [0, maxCapacity]. */
  predicate SentWithin(calls: seq<CloudCall>, parkId: string, maxCapacity: int) {
    forall i :: 0 <= i < |calls| && calls[i].SendOccupancy? ==>
      calls[i].parkId == parkId && 0 <= calls[i].occupancy <= maxCapacity
  }

  /** Starting within bounds, the occupancy stays within [0, capacity] after
      any sequence of operations, and every value sent to the cloud lies
      within those bounds too. */
  lemma {:induction false} RunStaysInBounds(t: Tracker, ops: seq<Op>)
    requires Valid(t)
    ensures Valid(Run(t, ops).0)
    ensures Run(t, ops).0.maxCapacity == t.maxCapacity && Run(t, ops).0.parkId == t.parkId
    ensures SentWithin(Run(t, ops).1, t.parkId, t.maxCapacity)
    decreases |ops|
  {
    if ops != [] {
      var (t1, calls1) := Apply(t, ops[0]);
      assert Valid(t1);
      assert SentWithin(calls1, t.parkId, t.maxCapacity);
      RunStaysInBounds(t1, ops[1..]);
      var calls2 := Run(t1, ops[1..]).1;
      var all := calls1 + calls2;
      forall i | 0 <= i < |all| && all[i].SendOccupancy?
        ensures all[i].parkId == t.parkId && 0 <= all[i].occupancy <= t.maxCapacity
      {
        if i >= |calls1| {
          assert all[i] == calls2[i - |calls1|];
        }
      }
    }
  }

  /** Saturation at both ends: at capacity an entry keeps the count and
      reports the capacity; at 0 an exit keeps the count and reports 0. */
  lemma Saturation(t: Tracker)
    requires Valid(t)
    ensures t.currentOccupancy == t.maxCapacity ==>
      Increment(t) == (t, SendOccupancy(t.parkId, t.maxCapacity))
    ensures t.currentOccupancy == 0 ==> Decrement(t) == (t, SendOccupancy(t.parkId, 0))
  {
  }

  /** Below capacity, an entry followed by an exit restores the tracker. */
  lemma IncrementThenDecrement(t: Tracker)
    requires Valid(t) && t.currentOccupancy < t.maxCapacity
    ensures Decrement(Increment(t).0).0 == t
  {
  }

  /** A successful registration makes any further registration a no-op
      that calls nothing; the same holds for deregistration. */
  lemma RegisterOnce(t: Tracker, ok: bool)
    ensures Register(Register(t, true).0, ok) == (Register(t, true).0, [])
    ensures Deregister(Deregister(t, true).0, ok) == (Deregister(t, true).0, [])
  {
  }
}
