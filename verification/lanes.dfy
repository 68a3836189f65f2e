/** The two lane handlers: the camera lane (`api_parking_camera`), which
    identifies a vehicle by its plate alone, and the card lane
    (`api_rfid_handler`), which identifies it by an RFID card uid and uses
    the plate as a cross-check. Each request runs the capture loop, applies
    the business rules to the parking log and answers with a gate decision. */
module Lanes {
  import opened Basics
  import opened Plate
  import opened Fee
  import opened Recognition
  import opened Capture
  import opened Registry
  import opened Sessions

  /** Why a request was refused. */
  datatype Reason =
    | Unregistered    // camera entry of a plate without a monthly ticket
    | CardBusy        // card entry while the card has an open session
    | NoEntryRecord   // camera exit with no open session for the plate
    | CardNotInside   // card exit with no open session for the card
    | PlateMismatch   // card exit whose plate differs from the entry plate

  /** The gate decision, i.e. the "action" field of the answer. */
  datatype Decision =
    | AllowEntry
    | DenyEntry(why: Reason)
    | AllowExit
    | PaymentDue(fee: int)
    | DenyExit(why: Reason)
    | CamFail(lane: string)  // no image at all: "deny_" + the requested action
    | InvalidUid             // the card lane got an empty or blank uid
    | BadAction              // neither "entry" nor "exit"

  /** The "action" string of the answer; the two error answers without one
      give `None`. */
  function ActionName(d: Decision): Option<string> {
    match d
    case AllowEntry => Some("allow_entry")
    case DenyEntry(_) => Some("deny_entry")
    case AllowExit => Some("allow_exit")
    case PaymentDue(_) => Some("payment_due")
    case DenyExit(_) => Some("deny_exit")
    case CamFail(lane) => Some("deny_" + lane)
    case InvalidUid => None
    case BadAction => None
  }

  /** Decisions that refuse the request without recording anything. A camera
      entry refused as `Unregistered` is not one of them: it records a
      DENIED row. */
  predicate LeavesNoTrace(d: Decision) {
    || d == DenyEntry(CardBusy)
    || d.DenyExit?
    || d.CamFail?
    || d == InvalidUid
    || d == BadAction
  }

  /** What one request sees of the outside world: the camera results of its
      capture rounds, whether the recognition models loaded, what the image
      stages yield for each round's image, the request time (`now_str`) and
      the later clock reading `calculate_fee` takes for itself. */
  datatype Environment = Environment(cam: Camera, modelsReady: bool, vision: nat -> Vision, now: int, feeNow: int)

  /** The capture loop a lane runs, with `process_plate_ai` as recogniser. */
  function LaneCapture(env: Environment): (shot: Shot)
    ensures IsCanonical(shot.plate)
    ensures shot.rounds <= MaxShots
  {
    SmartCaptureLoop(MaxShots, env.cam, Recognise(env.modelsReady, env.vision))
  }

  /** The log after the request, the decision, and how many capture rounds
      the request used. */
  datatype Step = Step(log: Log, decision: Decision, rounds: nat)

  /** Fee for closing `row` when the clock reads `feeNow`: `calculate_fee`
      of the row's entry time, without an exit time. */
  function FeeAt(row: Row, feeNow: int): (fee: int)
    ensures fee >= 0
    ensures fee == 0 <==> feeNow - row.entry <= GraceSeconds
    ensures fee != 0 ==> fee > 1500
    ensures fee != 0 ==> -1 <= 3 * fee - 5 * (feeNow - row.entry) <= 1
  {
    CalculateFee(Some(row.entry), None, feeNow).0
  }

  // ---------------------------------------------------------------------
  // Camera lane
  // ---------------------------------------------------------------------

  /** Camera entry with a captured image: record the visit, as IN when the
      plate holds a monthly ticket and as DENIED otherwise. There is no check
      for an open session of the same plate. */
  function CameraEntry(log: Log, reg: Registry, plate: string, image: string, now: int): (r: Step)
    ensures |r.log| == |log| + 1 && r.log[..|log|] == log
    ensures var row := r.log[|log|];
      && row.id == |log| + 1 && row.plate == plate && row.uid.None? && row.entry == now
      && row.image == Some(image) && row.exit.None? && row.fee.None?
      && (row.status == In <==> IsPlateRegistered(reg, plate))
      && (row.status == Denied <==> !IsPlateRegistered(reg, plate))
    ensures r.decision == AllowEntry <==> IsPlateRegistered(reg, plate)
    ensures r.decision != AllowEntry ==> r.decision == DenyEntry(Unregistered)
  {
    var isReg := IsPlateRegistered(reg, plate);
    Step(Insert(log, plate, None, now, Some(image), if isReg then In else Denied),
         if isReg then AllowEntry else DenyEntry(Unregistered), 0)
  }

  /** Camera exit with a captured image: close the most recent open session
      of the plate; monthly tickets leave free, others pay `calculate_fee`.
      Without an open session the exit is refused and nothing changes. */
  function CameraExit(log: Log, reg: Registry, plate: string, now: int, feeNow: int): (r: Step)
    ensures LatestOpen(log, ByPlate(plate)).None? ==>
      r.log == log && r.decision == DenyExit(NoEntryRecord)
    ensures var found := LatestOpen(log, ByPlate(plate));
      found.Some? ==>
        var i := found.value;
        var fee := if IsPlateRegistered(reg, plate) then 0 else FeeAt(log[i], feeNow);
        && Closes(log, r.log, i, now, fee)
        && (r.decision == AllowExit <==> fee == 0)
        && (fee != 0 ==> r.decision == PaymentDue(fee))
  {
    match LatestOpen(log, ByPlate(plate))
    case None => Step(log, DenyExit(NoEntryRecord), 0)
    case Some(i) =>
      var fee := if IsPlateRegistered(reg, plate) then 0 else FeeAt(log[i], feeNow);
      Step(Close(log, i, now, fee), if fee == 0 then AllowExit else PaymentDue(fee), 0)
  }

  /** The camera lane once the capture loop has returned `plate` and
      `image`: without any image answer "deny_<action>" and change nothing;
      otherwise dispatch to entry or exit; any other action changes
      nothing. */
  function CameraDecide(log: Log, reg: Registry, action: string, plate: string, image: Option<string>, now: int, feeNow: int): (r: Step)
    ensures image.None? ==> r.log == log && r.decision == CamFail(action)
    ensures image.Some? && action == "entry" ==> r == CameraEntry(log, reg, plate, image.value, now)
    ensures image.Some? && action == "exit" ==> r == CameraExit(log, reg, plate, now, feeNow)
    ensures image.Some? && action != "entry" && action != "exit" ==> r.log == log && r.decision == BadAction
    ensures |log| <= |r.log|
    ensures LeavesNoTrace(r.decision) <==> r.log == log
    ensures WellFormed(log) ==> WellFormed(r.log) && Evolves(log, r.log)
    ensures PlatesCanonical(log) && IsCanonical(plate) ==> PlatesCanonical(r.log)
  {
    if image.None? then Step(log, CamFail(action), 0)
    else if action == "entry" then
      CameraEntryEffect(log, reg, plate, image.value, now);
      CameraEntry(log, reg, plate, image.value, now)
    else if action == "exit" then
      CameraExitEffect(log, reg, plate, now, feeNow);
      CameraExit(log, reg, plate, now, feeNow)
    else Step(log, BadAction, 0)
  }

  /** `api_parking_camera(action)`: the capture loop, then the decision on
      its result. */
  function ParkingCamera(log: Log, reg: Registry, action: string, env: Environment): (r: Step)
    ensures var shot := LaneCapture(env);
      && r.rounds == shot.rounds
      && r.log == CameraDecide(log, reg, action, shot.plate, shot.image, env.now, env.feeNow).log
      && r.decision == CameraDecide(log, reg, action, shot.plate, shot.image, env.now, env.feeNow).decision
    ensures |log| <= |r.log|
    ensures LeavesNoTrace(r.decision) <==> r.log == log
    ensures WellFormed(log) ==> WellFormed(r.log) && Evolves(log, r.log)
    ensures PlatesCanonical(log) ==> PlatesCanonical(r.log)
  {
    var shot := LaneCapture(env);
    CameraDecide(log, reg, action, shot.plate, shot.image, env.now, env.feeNow).(rounds := shot.rounds)
  }

  /** The "action" a camera request answers with, whatever the capture
      loop produced (`ParkingCamera` answers with this decision): an entry
      is let in or turned away, an exit is let out, asked to pay or turned
      away; a failed capture answers "deny_<action>", which falls in the
      same sets. */
  lemma CameraAnswers(log: Log, reg: Registry, action: string, plate: string, image: Option<string>, now: int, feeNow: int)
    ensures var d := CameraDecide(log, reg, action, plate, image, now, feeNow).decision;
      && (action == "entry" ==> ActionName(d) in {Some("allow_entry"), Some("deny_entry")})
      && (action == "exit" ==> ActionName(d) in {Some("allow_exit"), Some("payment_due"), Some("deny_exit")})
  {
    if image.None? {
      assert "deny_" + "entry" == "deny_entry";
      assert "deny_" + "exit" == "deny_exit";
    }
  }

  /** What a camera entry does to a well-formed log: it always records a
      row, so the log always changes. */
  lemma CameraEntryEffect(log: Log, reg: Registry, plate: string, image: string, now: int)
    ensures var r := CameraEntry(log, reg, plate, image, now);
      && !LeavesNoTrace(r.decision) && r.log != log
      && (WellFormed(log) ==> WellFormed(r.log) && Evolves(log, r.log))
  {
    var r := CameraEntry(log, reg, plate, image, now);
    assert |r.log| != |log|;
    if WellFormed(log) {
      InsertWellFormed(log, plate, None, now, Some(image), r.log[|log|].status);
    }
  }

  /** What a camera exit does to a well-formed log, and that it changes the
      log exactly when it lets the vehicle out or asks for payment. */
  lemma CameraExitEffect(log: Log, reg: Registry, plate: string, now: int, feeNow: int)
    ensures var r := CameraExit(log, reg, plate, now, feeNow);
      && (LeavesNoTrace(r.decision) <==> r.log == log)
      && (WellFormed(log) ==> WellFormed(r.log) && Evolves(log, r.log))
  {
    var r := CameraExit(log, reg, plate, now, feeNow);
    var found := LatestOpen(log, ByPlate(plate));
    if found.Some? {
      var i := found.value;
      assert r.log[i] != log[i];
      var fee := if IsPlateRegistered(reg, plate) then 0 else FeeAt(log[i], feeNow);
      if WellFormed(log) {
        CloseWellFormed(log, i, now, fee);
      }
    }
  }

  // ---------------------------------------------------------------------
  // Card lane
  // ---------------------------------------------------------------------

  /** The anti-fraud rule: the exit is blocked only when both the stored
      entry plate and the freshly read plate are real reads and differ. */
  predicate Mismatch(entryPlate: string, exitPlate: string) {
    entryPlate != Unknown && exitPlate != Unknown && entryPlate != exitPlate
  }

  /** Card entry: refuse ("Card busy") while the card has an open session,
      otherwise record an open session with the card and whatever plate was
      read, possibly `Unknown`, and the image, possibly none. Registration
      is not consulted. */
  function RfidEntry(log: Log, uid: string, plate: string, image: Option<string>, now: int): (r: Step)
    ensures (exists j :: 0 <= j < |log| && OpenFor(log[j], ByUid(uid))) ==>
      r.log == log && r.decision == DenyEntry(CardBusy)
    ensures (forall j :: 0 <= j < |log| ==> !OpenFor(log[j], ByUid(uid))) ==>
      && r.decision == AllowEntry
      && |r.log| == |log| + 1 && r.log[..|log|] == log
      && r.log[|log|] == Row(|log| + 1, plate, Some(uid), now, None, None, image, In)
    ensures WellFormed(log) ==> WellFormed(r.log) && Evolves(log, r.log)
  {
    if LatestOpen(log, ByUid(uid)).Some? then Step(log, DenyEntry(CardBusy), 0)
    else
      var after := Insert(log, plate, Some(uid), now, image, In);
      assert WellFormed(log) ==> WellFormed(after) && Evolves(log, after) by {
        if WellFormed(log) {
          InsertWellFormed(log, plate, Some(uid), now, image, In);
        }
      }
      Step(after, AllowEntry, 0)
  }

  /** Card exit: refuse when the card has no open session, refuse and keep
      the session open on a plate mismatch, and otherwise close the card's
      most recent open session with `calculate_fee`; there is no waiver for
      monthly tickets on this lane. */
  function RfidExit(log: Log, uid: string, plate: string, now: int, feeNow: int): (r: Step)
    ensures LatestOpen(log, ByUid(uid)).None? ==>
      r.log == log && r.decision == DenyExit(CardNotInside)
    ensures var found := LatestOpen(log, ByUid(uid));
      found.Some? ==>
        var i := found.value;
        if Mismatch(log[i].plate, plate) then
          r.log == log && r.decision == DenyExit(PlateMismatch)
        else
          var fee := FeeAt(log[i], feeNow);
          && Closes(log, r.log, i, now, fee)
          && (r.decision == PaymentDue(fee) <==> fee > 0)
          && (r.decision == AllowExit <==> fee == 0)
  {
    match LatestOpen(log, ByUid(uid))
    case None => Step(log, DenyExit(CardNotInside), 0)
    case Some(i) =>
      if Mismatch(log[i].plate, plate) then Step(log, DenyExit(PlateMismatch), 0)
      else
        var fee := FeeAt(log[i], feeNow);
        Step(Close(log, i, now, fee), if fee > 0 then PaymentDue(fee) else AllowExit, 0)
  }

  /** The card lane once the uid is known to be non-blank and the capture
      loop has produced `plate` and `image`: dispatch on the action. */
  function RfidDecide(log: Log, action: string, uid: string, plate: string, image: Option<string>,
                      now: int, feeNow: int): (r: Step)
    ensures action == "entry" ==> r == RfidEntry(log, uid, plate, image, now)
    ensures action == "exit" ==> r == RfidExit(log, uid, plate, now, feeNow)
    ensures action != "entry" && action != "exit" ==> r == Step(log, BadAction, 0)
    ensures |log| <= |r.log|
    ensures LeavesNoTrace(r.decision) <==> r.log == log
    ensures WellFormed(log) ==> WellFormed(r.log) && Evolves(log, r.log)
    ensures PlatesCanonical(log) && IsCanonical(plate) ==> PlatesCanonical(r.log)
  {
    if action == "entry" then
      var s := RfidEntry(log, uid, plate, image, now);
      assert s.decision == AllowEntry ==> s.log != log by { assert s.decision == AllowEntry ==> |s.log| != |log|; }
      s
    else if action == "exit" then
      RfidExitEffect(log, uid, plate, now, feeNow);
      RfidExit(log, uid, plate, now, feeNow)
    else Step(log, BadAction, 0)
  }

  /** `api_rfid_handler(action)` with the request's "uid" text (empty when
      missing). A uid that is empty after `strip()` is refused before any
      capture; otherwise the capture loop runs (whatever the action) and the
      request is dispatched on the stripped uid. */
  function RfidHandler(log: Log, action: string, uidText: string, env: Environment): (r: Step)
    ensures IsBlank(uidText) ==> r == Step(log, InvalidUid, 0)
    ensures !IsBlank(uidText) ==>
      var uid := Strip(uidText);
      var shot := LaneCapture(env);
      && r.rounds == shot.rounds
      && (action == "entry" ==> r.log == RfidEntry(log, uid, shot.plate, shot.image, env.now).log)
      && (action == "exit" ==> r.log == RfidExit(log, uid, shot.plate, env.now, env.feeNow).log)
      && (action != "entry" && action != "exit" ==> r.log == log && r.decision == BadAction)
      && r.decision == RfidDecide(log, action, uid, shot.plate, shot.image, env.now, env.feeNow).decision
    ensures |log| <= |r.log|
    ensures LeavesNoTrace(r.decision) <==> r.log == log
    ensures WellFormed(log) ==> WellFormed(r.log) && Evolves(log, r.log)
    ensures PlatesCanonical(log) ==> PlatesCanonical(r.log)
  {
    var uid := Strip(uidText);
    if uid == [] then Step(log, InvalidUid, 0)
    else
      var shot := LaneCapture(env);
      RfidDecide(log, action, uid, shot.plate, shot.image, env.now, env.feeNow).(rounds := shot.rounds)
  }

  /** The "action" a card request with a non-blank uid answers with,
      whatever the capture loop produced (`RfidHandler` answers with this
      decision): an entry is let in or refused as card busy, an exit is let
      out, asked to pay or refused. */
  lemma CardAnswers(log: Log, action: string, uid: string, plate: string, image: Option<string>, now: int, feeNow: int)
    ensures var d := RfidDecide(log, action, uid, plate, image, now, feeNow).decision;
      && (action == "entry" ==> ActionName(d) in {Some("allow_entry"), Some("deny_entry")})
      && (action == "exit" ==> ActionName(d) in {Some("allow_exit"), Some("payment_due"), Some("deny_exit")})
  {
  }

  /** What a card exit does to a well-formed log, and that it changes the
      log exactly when it lets the vehicle out or asks for payment. */
  lemma RfidExitEffect(log: Log, uid: string, plate: string, now: int, feeNow: int)
    ensures var r := RfidExit(log, uid, plate, now, feeNow);
      && (LeavesNoTrace(r.decision) <==> r.log == log)
      && (WellFormed(log) ==> WellFormed(r.log) && Evolves(log, r.log))
  {
    var found := LatestOpen(log, ByUid(uid));
    if found.Some? && !Mismatch(log[found.value].plate, plate) {
      var i := found.value;
      var r := RfidExit(log, uid, plate, now, feeNow);
      assert r.log[i] != log[i];
      if WellFormed(log) {
        CloseWellFormed(log, i, now, FeeAt(log[i], feeNow));
      }
    }
  }
}
