/** The payment actor: one parking session per licence plate, and the fee
    for a session computed from its entry time and the current time `now`,
    which the actor reads from the clock and the model takes as input. */
module Payment {

  /** Tariff: 200 cents per hour, billed in started half hours. */
  const MillisPerHour: int := 3_600_000
  const PricePerHourCents: int := 200
  const MillisPerHalfHour: int := MillisPerHour / 2

  /** A session: when the car entered and whether it has paid. */
  datatype Record = Record(entryTimestamp: int, paid: bool)

  type Sessions = map<string, Record>

  datatype Command =
    | CarEntered(licensePlate: string, entryTimestamp: int)
    | Pay(licensePlate: string)
    | CheckOnLeave(licensePlate: string)
    | DeleteOnExit(licensePlate: string)

  datatype PaymentStatus = PaymentStatus(
    licensePlate: string,
    paid: bool,
    entryTimestamp: int,
    currentTimestamp: int,
    priceCents: int)

  datatype Reply = StatusReply(status: PaymentStatus) | Ack | NoReply

  /** Rounding up of a non-negative quotient. */
  function CeilDiv(a: nat, b: nat): (q: nat)
    requires b > 0
    ensures (q - 1) * b < a <= q * b || (a == 0 && q == 0)
  {
    (a + b - 1) / b
  }

  /** The fee in cents: the elapsed time, never below zero, in hours,
      rounded up to the next half hour, times the hourly rate. */
  function PriceCents(entryTimestamp: int, now: int): (price: int)
    ensures price >= 0 && price % 100 == 0
    ensures now <= entryTimestamp ==> price == 0
  {
    var durationMillis: nat := if now - entryTimestamp > 0 then now - entryTimestamp else 0;
    var billableHalfHours := CeilDiv(2 * durationMillis, MillisPerHour);
    billableHalfHours * PricePerHourCents / 2
  }

  /** The fee is 100 cents for every started half hour: for an elapsed time
      d > 0 it is the least multiple of 100 whose half hours cover d. */
  lemma PriceCoversElapsed(entryTimestamp: int, now: int)
    requires now > entryTimestamp
    ensures var halfHours := PriceCents(entryTimestamp, now) / 100;
            && halfHours >= 1
            && (halfHours - 1) * MillisPerHalfHour < now - entryTimestamp <= halfHours * MillisPerHalfHour
  {
    var d := now - entryTimestamp;
    var q := CeilDiv(2 * d, MillisPerHour);
    assert (q - 1) * MillisPerHour < 2 * d <= q * MillisPerHour;
    assert q * PricePerHourCents / 2 == q * 100;
    assert PriceCents(entryTimestamp, now) == q * 100;
    assert (q * 100) / 100 == q;
  }

  /** Waiting longer never makes parking cheaper. */
  lemma PriceMonotone(entryTimestamp: int, now1: int, now2: int)
    requires now1 <= now2
    ensures PriceCents(entryTimestamp, now1) <= PriceCents(entryTimestamp, now2)
  {
    if now1 > entryTimestamp {
      PriceCoversElapsed(entryTimestamp, now1);
      PriceCoversElapsed(entryTimestamp, now2);
    }
  }

  /** Paying 45 minutes after entry costs two half hours, 200 cents; paying
      at the entry instant costs nothing. */
  lemma FeeExamples(t0: int)
    ensures PriceCents(t0, t0 + 45 * 60_000) == 200
    ensures PriceCents(t0, t0) == 0
  {
  }

  /** A status for a plate without a session. */
  function NoSession(licensePlate: string, now: int): (st: PaymentStatus)
    ensures !st.paid && st.entryTimestamp == 0 && st.priceCents == 0
    ensures st.licensePlate == licensePlate && st.currentTimestamp == now
  {
    PaymentStatus(licensePlate, false, 0, now, 0)
  }

  /** Entry opens a fresh unpaid session, discarding any earlier session
      of the same plate; other plates are untouched. */
  function OnCarEntered(s: Sessions, licensePlate: string, entryTimestamp: int): (s': Sessions)
    ensures s'.Keys == s.Keys + {licensePlate}
    ensures s'[licensePlate] == Record(entryTimestamp, false)
    ensures forall p :: p in s && p != licensePlate ==> s'[p] == s[p]
  {
    s[licensePlate := Record(entryTimestamp, false)]
  }

  /** Paying marks a known session paid, keeping its entry time, and reports
      the fee as of `now`; an unknown plate gets the no-session status. */
  function OnPay(s: Sessions, licensePlate: string, now: int): (res: (Sessions, PaymentStatus))
    ensures licensePlate !in s ==> res == (s, NoSession(licensePlate, now))
    ensures licensePlate in s ==>
      && res.0 == s[licensePlate := Record(s[licensePlate].entryTimestamp, true)]
      && res.1.paid
      && res.1.entryTimestamp == s[licensePlate].entryTimestamp
      && res.1.priceCents == PriceCents(s[licensePlate].entryTimestamp, now)
    ensures res.0.Keys == s.Keys && res.1.licensePlate == licensePlate && res.1.currentTimestamp == now
  {
    if licensePlate !in s then (s, NoSession(licensePlate, now))
    else
      var rec := s[licensePlate];
      var price := PriceCents(rec.entryTimestamp, now);
      (s[licensePlate := rec.(paid := true)], PaymentStatus(licensePlate, true, rec.entryTimestamp, now, price))
  }

  /** The read-only check: the stored paid flag and the fee as of `now`, or
      the no-session status. */
  function OnCheckOnLeave(s: Sessions, licensePlate: string, now: int): (st: PaymentStatus)
    ensures licensePlate !in s ==> st == NoSession(licensePlate, now)
    ensures licensePlate in s ==>
      && st.paid == s[licensePlate].paid
      && st.entryTimestamp == s[licensePlate].entryTimestamp
      && st.priceCents == PriceCents(s[licensePlate].entryTimestamp, now)
    ensures st.licensePlate == licensePlate && st.currentTimestamp == now
  {
    if licensePlate !in s then NoSession(licensePlate, now)
    else
      var rec := s[licensePlate];
      PaymentStatus(licensePlate, rec.paid, rec.entryTimestamp, now, PriceCents(rec.entryTimestamp, now))
  }

  /** Exit removes the plate's session whether or not there was one. */
  function OnDeleteOnExit(s: Sessions, licensePlate: string): (s': Sessions)
    ensures s'.Keys == s.Keys - {licensePlate}
    ensures forall p :: p in s' ==> s'[p] == s[p]
  {
    s - {licensePlate}
  }

  /** One command at time `now`. */
  function Step(s: Sessions, c: Command, now: int): (res: (Sessions, Reply))
    ensures c.CheckOnLeave? ==> res.0 == s
    ensures c.DeleteOnExit? ==> res.1 == Ack
    ensures c.CarEntered? <==> res.1 == NoReply
    ensures forall p :: p in s && p != c.licensePlate ==> p in res.0 && res.0[p] == s[p]
  {
    match c
    case CarEntered(plate, entry) => (OnCarEntered(s, plate, entry), NoReply)
    case Pay(plate) =>
      var (s', st) := OnPay(s, plate, now);
      (s', StatusReply(st))
    case CheckOnLeave(plate) => (s, StatusReply(OnCheckOnLeave(s, plate, now)))
    case DeleteOnExit(plate) => (OnDeleteOnExit(s, plate), Ack)
  }

  /** After exit, a check behaves as for a plate that never entered. */
  lemma DeleteThenCheck(s: Sessions, licensePlate: string, now: int)
    ensures OnCheckOnLeave(OnDeleteOnExit(s, licensePlate), licensePlate, now) == NoSession(licensePlate, now)
  {
  }

  /** A check reports the same fee a payment at the same moment would
      charge, and after a payment it reports the session as paid. */
  lemma CheckAgreesWithPay(s: Sessions, licensePlate: string, now: int, later: int)
    requires licensePlate in s
    ensures OnCheckOnLeave(s, licensePlate, now).priceCents == OnPay(s, licensePlate, now).1.priceCents
    ensures OnCheckOnLeave(OnPay(s, licensePlate, now).0, licensePlate, later).paid
  {
  }

  /** Paying twice leaves the same sessions as paying once; the fee is
      recomputed from the current time, so the second is never lower. */
  lemma PayTwice(s: Sessions, licensePlate: string, now1: int, now2: int)
    requires now1 <= now2
    ensures var (s1, st1) := OnPay(s, licensePlate, now1);
            var (s2, st2) := OnPay(s1, licensePlate, now2);
            s2 == s1 && st1.priceCents <= st2.priceCents
  {
    PriceMonotone(if licensePlate in s then s[licensePlate].entryTimestamp else 0, now1, now2);
  }

  /** Within a session the paid flag only goes from false to true: the
      only command that clears it is a new entry of the same plate. */
  lemma PaidClearedOnlyByReentry(s: Sessions, c: Command, now: int, licensePlate: string)
    requires licensePlate in s && s[licensePlate].paid
    ensures var s' := Step(s, c, now).0;
            licensePlate in s' && !s'[licensePlate].paid ==> c == CarEntered(licensePlate, c.entryTimestamp)
  {
  }
}
