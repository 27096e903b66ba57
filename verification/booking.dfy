/** The booking actor: a stateless relay that turns each booking or
    cancellation into one event on the lot's publish subject and one
    confirmation to the caller. The JSON encoding of the event and the
    publish call itself are outside the model; the event is a record. */
module Booking {

  const SubjectPrefix: string := "booking."

  datatype Command =
    | Book(parkId: string, licensePlate: string)
    | Cancel(parkId: string, licensePlate: string)

  /** The published event: its subject and the payload's two fields. */
  datatype Event = Event(subject: string, action: string, licensePlate: string)

  datatype Confirmation = Confirmation(parkId: string, licensePlate: string, status: string)

  /** What one command produces: exactly one event and one confirmation. */
  datatype Output = Output(event: Event, confirmation: Confirmation)

  /** The subject a lot's edge server listens on. */
  function Subject(parkId: string): (subject: string)
    ensures |subject| == |SubjectPrefix| + |parkId|
    ensures subject[..|SubjectPrefix|] == SubjectPrefix && subject[|SubjectPrefix|..] == parkId
  {
    SubjectPrefix + parkId
  }

  /** The subjects lot edge servers subscribe to for bookings. */
  predicate IsBookingSubject(subject: string) {
    |SubjectPrefix| <= |subject| && subject[..|SubjectPrefix|] == SubjectPrefix
  }

  /** The lot a booking subject belongs to. */
  function SubjectLot(subject: string): (parkId: string)
    requires IsBookingSubject(subject)
  {
    subject[|SubjectPrefix|..]
  }

  /** The event published for a command names the command's lot in its
      subject, its action ("book" or "cancel") and the plate. */
  function OnBook(parkId: string, licensePlate: string): (out: Output)
    ensures IsBookingSubject(out.event.subject) && SubjectLot(out.event.subject) == parkId
    ensures out.event.action == "book" && out.event.licensePlate == licensePlate
    ensures out.confirmation == Confirmation(parkId, licensePlate, "queued")
  {
    Output(Event(Subject(parkId), "book", licensePlate), Confirmation(parkId, licensePlate, "queued"))
  }

  function OnCancel(parkId: string, licensePlate: string): (out: Output)
    ensures IsBookingSubject(out.event.subject) && SubjectLot(out.event.subject) == parkId
    ensures out.event.action == "cancel" && out.event.licensePlate == licensePlate
    ensures out.confirmation == Confirmation(parkId, licensePlate, "canceled")
  {
    Output(Event(Subject(parkId), "cancel", licensePlate), Confirmation(parkId, licensePlate, "canceled"))
  }

  function Handle(c: Command): (out: Output)
    ensures IsBookingSubject(out.event.subject) && SubjectLot(out.event.subject) == c.parkId
    ensures out.event.licensePlate == c.licensePlate && out.confirmation.licensePlate == c.licensePlate
    ensures out.confirmation.parkId == c.parkId
    ensures out.event.action == (if c.Book? then "book" else "cancel")
  {
    match c
    case Book(parkId, plate) => OnBook(parkId, plate)
    case Cancel(parkId, plate) => OnCancel(parkId, plate)
  }

  /** The outputs for a sequence of commands, in order. */
  function Run(cs: seq<Command>): (outs: seq<Output>)
    ensures |outs| == |cs|
    decreases |cs|
  {
    if cs == [] then [] else [Handle(cs[0])] + Run(cs[1..])
  }

  /** Subjects are told apart by lot: the subject determines the lot. */
  lemma SubjectInjective(a: string, b: string)
    requires Subject(a) == Subject(b)
    ensures a == b
  {
    assert a == Subject(a)[|SubjectPrefix|..];
  }

  /** Statelessness: each command's output depends on that command alone,
      so the output for a later batch does not depend on what came before. */
  lemma {:induction false} Stateless(before: seq<Command>, after: seq<Command>)
    ensures Run(before + after) == Run(before) + Run(after)
    decreases |before|
  {
    if before != [] {
      assert (before + after)[0] == before[0];
      assert (before + after)[1..] == before[1..] + after;
      Stateless(before[1..], after);
    } else {
      assert before + after == after;
    }
  }

  /** Every command in a run yields one output, its own. */
  lemma {:induction false} RunPointwise(cs: seq<Command>, i: nat)
    requires i < |cs|
    ensures Run(cs)[i] == Handle(cs[i])
    decreases i
  {
    if i > 0 {
      RunPointwise(cs[1..], i - 1);
    }
  }
}
