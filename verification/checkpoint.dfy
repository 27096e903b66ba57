/** The edge server's gate logic: which checkpoint a camera belongs to, and
    what happens when a plate is read there. The session database becomes
    the set of plates with an active session, the cloud becomes the tracker
    it is reached through (or its absence) and the cloud's answer to the
    payment check, and each request the edge makes (barrier, payment,
    occupancy) becomes an `Action` in the order it is made. */
module Checkpoint {
  import opened Text
  import T = Tracker

  const UnknownType: string := "unknown"

  /** A camera id `"<type>_<n>"` names the checkpoint type and, whole, the
      barrier. Without an underscore the type is unknown; an absent id
      behaves as the empty one, and then the barrier is "unknown" too. */
  function ParseCheckpoint(cameraId: string): (r: (string, string))
    ensures '_' !in cameraId ==> r == (UnknownType, if cameraId == [] then UnknownType else cameraId)
    ensures '_' in cameraId ==> r.1 == cameraId
    ensures '_' in cameraId ==> r.0 == [] || (!IsSpace(r.0[0]) && !IsSpace(r.0[|r.0| - 1]))
  {
    match SplitOnce(cameraId, '_')
    case None => (UnknownType, if cameraId == [] then UnknownType else cameraId)
    case Some((prefix, _)) => (Strip(Lower(prefix)), cameraId)
  }

  /** The type is the lower-cased, stripped text before the first
      underscore; later underscores belong to the rest. */
  lemma ParseJoined(prefix: string, rest: string)
    requires '_' !in prefix
    ensures ParseCheckpoint(prefix + "_" + rest) == (Strip(Lower(prefix)), prefix + "_" + rest)
  {
    SplitOnceJoin(prefix, '_', rest);
  }

  /** A lower-case type word without padding is the type itself. */
  lemma ParsePlainType(word: string, rest: string)
    requires '_' !in word && Lower(word) == word
    requires |word| > 0 && !IsSpace(word[0]) && !IsSpace(word[|word| - 1])
    ensures ParseCheckpoint(word + "_" + rest) == (word, word + "_" + rest)
  {
    ParseJoined(word, rest);
  }

  /** Lower-casing leaves text without capital letters unchanged. */
  lemma LowerUnchanged(s: string)
    requires forall i :: 0 <= i < |s| ==> !('A' <= s[i] <= 'Z')
    ensures Lower(s) == s
  {
  }

  /** The entry camera of the deployment, `entry_0`, is the entry checkpoint. */
  lemma ParseEntryId()
    ensures ParseCheckpoint("entry_0") == ("entry", "entry_0")
  {
    var w := "entry";
    assert w == ['e', 'n', 't', 'r', 'y'];
    LowerUnchanged(w);
    ParsePlainType(w, "0");
    assert w + "_" + "0" == "entry_0";
  }

  /** The exit camera of the deployment, `exit_0`, is the exit checkpoint. */
  lemma ParseExitId()
    ensures ParseCheckpoint("exit_0") == ("exit", "exit_0")
  {
    var w := "exit";
    assert w == ['e', 'x', 'i', 't'];
    LowerUnchanged(w);
    ParsePlainType(w, "0");
    assert w + "_" + "0" == "exit_0";
  }

  /** A padded, mixed-case type is normalised: `" Exit _2"` is an exit. */
  lemma ParsePadded()
    ensures ParseCheckpoint(" Exit _2") == ("exit", " Exit _2")
  {
    assert " Exit " == [' ', 'E', 'x', 'i', 't', ' '];
    ParseJoined(" Exit ", "2");
    assert " Exit " + "_" + "2" == " Exit _2";
    LowerPadded();
    StripPadded();
  }

  lemma LowerPadded()
    ensures Lower(" Exit ") == " exit "
  {
  }

  lemma StripPadded()
    ensures Strip(" exit ") == "exit"
  {
    StripLeftPadded();
    StripRightPadded();
  }

  lemma StripLeftPadded()
    ensures StripLeft(" exit ") == "exit "
  {
    assert " exit " == [' '] + "exit ";
    assert StripLeft("exit ") == "exit " by {
      assert "exit "[0] == 'e';
    }
  }

  lemma StripRightPadded()
    ensures StripRight("exit ") == "exit"
  {
    assert "exit " == "exit" + [' '];
    assert StripRight("exit") == "exit" by {
      assert "exit"[3] == 't';
    }
  }

  /** A message without a camera id header falls back to its subject's
      last word, which has no underscore: the checkpoint type is unknown,
      and an absent id gives an unknown barrier too. */
  lemma FallbackIsUnknown()
    ensures ParseCheckpoint("entry") == (UnknownType, "entry")
    ensures ParseCheckpoint("exit") == (UnknownType, "exit")
    ensures ParseCheckpoint("") == (UnknownType, UnknownType)
  {
    assert '_' !in "entry" by {
      assert "entry" == ['e', 'n', 't', 'r', 'y'];
    }
    assert '_' !in "exit" by {
      assert "exit" == ['e', 'x', 'i', 't'];
    }
  }

  /** The edge server's cloud link: absent, or present through the tracker
      of this lot. */
  datatype Cloud = CloudDisabled | CloudEnabled(tracker: T.Tracker)

  /** The edge's state: plates with an active session, and the cloud link. */
  datatype Edge = Edge(sessions: set<string>, cloud: Cloud)

  /** The requests the gate logic makes, in order. */
  datatype Action =
    | OpenBarrier(barrierId: string)
    | PaymentEnter(licensePlate: string)
    | PaymentCheck(licensePlate: string)
    | TrackerCall(call: T.CloudCall)
    | PaymentExit(licensePlate: string)

  datatype Outcome = Outcome(edge: Edge, actions: seq<Action>)

  /** Every barrier request is for the checkpoint's own barrier. */
  predicate OpensOnly(actions: seq<Action>, barrierId: string) {
    forall i :: 0 <= i < |actions| && actions[i].OpenBarrier? ==> actions[i].barrierId == barrierId
  }

  /** The exit policy: with the cloud the payment check decides, without it
      the `ALLOW_EXIT_WITHOUT_CLOUD` setting does. */
  predicate ExitAllowed(cloud: Cloud, paid: bool, allowExitWithoutCloud: bool) {
    if cloud.CloudEnabled? then paid else allowExitWithoutCloud
  }

  /** The tracker, if any, stays valid. */
  predicate CloudValid(c: Cloud) {
    c.CloudEnabled? ==> T.Valid(c.tracker)
  }

  /** Entry of a plate that was read and is not blank. With the cloud, the
      payment service is told of the entry; the occupancy is then meant to be
      raised, but the booking lookup the code makes first is not a method of
      the tracker, so the call fails, the failure is caught and the
      occupancy stays as it was. */
  function OnEntry(e: Edge, barrierId: string, plate: string): (o: Outcome)
    ensures plate in o.edge.sessions
    ensures o.edge.sessions - {plate} == e.sessions - {plate}
    ensures o.edge.cloud == e.cloud
    ensures |o.actions| > 0 && o.actions[|o.actions| - 1] == OpenBarrier(barrierId)
    ensures plate in e.sessions ==> o == Outcome(e, [OpenBarrier(barrierId)])
    ensures OpensOnly(o.actions, barrierId)
  {
    if plate in e.sessions then Outcome(e, [OpenBarrier(barrierId)])
    else
      var e' := e.(sessions := e.sessions + {plate});
      match e.cloud
      case CloudDisabled => Outcome(e', [OpenBarrier(barrierId)])
      case CloudEnabled(_) => Outcome(e', [PaymentEnter(plate), OpenBarrier(barrierId)])
  }

  /** Exit of a plate that was read and is not blank. A denied exit changes
      nothing. An allowed exit opens the barrier; when the plate has a
      session it is closed first and, with the cloud, the occupancy is
      lowered and the payment record removed. */
  function OnExit(e: Edge, barrierId: string, plate: string, paid: bool, allowExitWithoutCloud: bool): (o: Outcome)
    ensures !ExitAllowed(e.cloud, paid, allowExitWithoutCloud) ==> o.edge == e && OpenBarrier(barrierId) !in o.actions
    ensures ExitAllowed(e.cloud, paid, allowExitWithoutCloud) ==>
      && plate !in o.edge.sessions
      && o.edge.sessions == e.sessions - {plate}
      && |o.actions| > 0 && o.actions[|o.actions| - 1] == OpenBarrier(barrierId)
    ensures OpensOnly(o.actions, barrierId)
    ensures e.cloud.CloudEnabled? ==> |o.actions| > 0 && o.actions[0] == PaymentCheck(plate)
    ensures o.edge.cloud.CloudEnabled? <==> e.cloud.CloudEnabled?
    ensures CloudValid(e.cloud) ==> CloudValid(o.edge.cloud)
  {
    match e.cloud
    case CloudDisabled =>
      if !allowExitWithoutCloud then Outcome(e, [])
      else if plate !in e.sessions then Outcome(e, [OpenBarrier(barrierId)])
      else Outcome(e.(sessions := e.sessions - {plate}), [OpenBarrier(barrierId)])
    case CloudEnabled(t) =>
      if !paid then Outcome(e, [PaymentCheck(plate)])
      else if plate !in e.sessions then Outcome(e, [PaymentCheck(plate), OpenBarrier(barrierId)])
      else
        var (t', call) := T.Decrement(t);
        Outcome(Edge(e.sessions - {plate}, CloudEnabled(t')),
                [PaymentCheck(plate), TrackerCall(call), PaymentExit(plate), OpenBarrier(barrierId)])
  }

  /** A plate read at a checkpoint. The plate is stripped first and a blank
      one is ignored; an unknown checkpoint type does nothing. `paid` is the
      cloud's answer to the payment check, false when the check fails. */
  function HandleCheckpoint(e: Edge, checkpointType: string, barrierId: string, plateText: string,
                            paid: bool, allowExitWithoutCloud: bool): (o: Outcome)
    ensures IsBlank(plateText) ==> o == Outcome(e, [])
    ensures checkpointType != "entry" && checkpointType != "exit" ==> o == Outcome(e, [])
    ensures o.edge.sessions - {Strip(plateText)} == e.sessions - {Strip(plateText)}
    ensures o.edge.cloud.CloudEnabled? <==> e.cloud.CloudEnabled?
    ensures CloudValid(e.cloud) ==> CloudValid(o.edge.cloud)
    ensures OpensOnly(o.actions, barrierId)
  {
    var plate := Strip(plateText);
    if plate == [] then Outcome(e, [])
    else if checkpointType == "entry" then OnEntry(e, barrierId, plate)
    else if checkpointType == "exit" then OnExit(e, barrierId, plate, paid, allowExitWithoutCloud)
    else Outcome(e, [])
  }

  /** The barrier opens at an exit exactly when the exit policy allows it. */
  lemma ExitBarrierDecision(e: Edge, barrierId: string, plateText: string, paid: bool, allowExitWithoutCloud: bool)
    requires !IsBlank(plateText)
    ensures OpenBarrier(barrierId) in HandleCheckpoint(e, "exit", barrierId, plateText, paid, allowExitWithoutCloud).actions
            <==> ExitAllowed(e.cloud, paid, allowExitWithoutCloud)
  {
    assert "exit" != "entry" by {
      assert |"exit"| != |"entry"|;
    }
    var o := OnExit(e, barrierId, Strip(plateText), paid, allowExitWithoutCloud);
    assert HandleCheckpoint(e, "exit", barrierId, plateText, paid, allowExitWithoutCloud) == o;
    if ExitAllowed(e.cloud, paid, allowExitWithoutCloud) {
      assert o.actions[|o.actions| - 1] == OpenBarrier(barrierId);
    }
  }

  /** At an entry the barrier always opens. */
  lemma EntryBarrierOpens(e: Edge, barrierId: string, plateText: string, paid: bool, allowExitWithoutCloud: bool)
    requires !IsBlank(plateText)
    ensures OpenBarrier(barrierId) in HandleCheckpoint(e, "entry", barrierId, plateText, paid, allowExitWithoutCloud).actions
  {
    var o := OnEntry(e, barrierId, Strip(plateText));
    assert HandleCheckpoint(e, "entry", barrierId, plateText, paid, allowExitWithoutCloud) == o;
    assert o.actions[|o.actions| - 1] == OpenBarrier(barrierId);
  }

  /** A denied exit leaves the sessions and the tracker untouched. */
  lemma DeniedExitChangesNothing(e: Edge, barrierId: string, plateText: string, paid: bool, allowExitWithoutCloud: bool)
    requires !ExitAllowed(e.cloud, paid, allowExitWithoutCloud)
    ensures HandleCheckpoint(e, "exit", barrierId, plateText, paid, allowExitWithoutCloud).edge == e
  {
  }

  /** Only the stripped plate matters: padding around it changes nothing. */
  lemma PlateNormalised(e: Edge, checkpointType: string, barrierId: string, plateText: string,
                        paid: bool, allowExitWithoutCloud: bool)
    ensures HandleCheckpoint(e, checkpointType, barrierId, plateText, paid, allowExitWithoutCloud)
         == HandleCheckpoint(e, checkpointType, barrierId, Strip(plateText), paid, allowExitWithoutCloud)
  {
    var p := Strip(plateText);
    assert Strip(p) == p;
  }

  /** A second entry of a plate that is inside only opens the barrier. */
  lemma RepeatedEntry(e: Edge, barrierId: string, plateText: string, paid: bool, allowExitWithoutCloud: bool)
    requires !IsBlank(plateText)
    ensures var o1 := HandleCheckpoint(e, "entry", barrierId, plateText, paid, allowExitWithoutCloud);
            HandleCheckpoint(o1.edge, "entry", barrierId, plateText, paid, allowExitWithoutCloud)
            == Outcome(o1.edge, [OpenBarrier(barrierId)])
  {
  }

  /** Entry followed by a permitted exit restores the sessions. With the
      cloud the entry leaves the occupancy alone but the exit lowers it, so
      each such visit drives the tracked occupancy one lower, down to 0. */
  lemma VisitEffect(e: Edge, barrierId: string, plateText: string, allowExitWithoutCloud: bool)
    requires !IsBlank(plateText) && Strip(plateText) !in e.sessions && CloudValid(e.cloud)
    requires ExitAllowed(e.cloud, true, allowExitWithoutCloud)
    ensures var o1 := HandleCheckpoint(e, "entry", barrierId, plateText, true, allowExitWithoutCloud);
            var o2 := HandleCheckpoint(o1.edge, "exit", barrierId, plateText, true, allowExitWithoutCloud);
            && o2.edge.sessions == e.sessions
            && (e.cloud.CloudEnabled? ==>
                  o2.edge.cloud.tracker.currentOccupancy ==
                    if e.cloud.tracker.currentOccupancy > 0 then e.cloud.tracker.currentOccupancy - 1 else 0)
  {
    var p := Strip(plateText);
    var o1 := HandleCheckpoint(e, "entry", barrierId, plateText, true, allowExitWithoutCloud);
    assert o1.edge.sessions == e.sessions + {p};
    assert o1.edge.sessions - {p} == e.sessions;
  }
}
