/** Concrete and general consequences of the lane rules, including the
    places where the handlers do less than one might expect. */
module Scenarios {
  import opened Basics
  import opened Plate
  import opened Fee
  import opened Capture
  import opened Registry
  import opened Sessions
  import opened Lanes

  /** An open card session: card "C1", plate "30A12345", entered at 0. */
  const CardSession := Row(1, "30A12345", Some("C1"), 0, None, None, Some("in.jpg"), In)

  /** Card exit whose fresh plate read "30A99999" differs from the entry
      plate: refused, the session stays open and no fee is recorded. */
  lemma MismatchBlocksExit()
    ensures RfidExit([CardSession], "C1", "30A99999", 600, 600) == Step([CardSession], DenyExit(PlateMismatch), 0)
  {
  }

  /** The mismatch rule needs two real reads: a session entered with an
      unreadable plate lets the card out whatever plate is read now. */
  lemma UnknownEntryPlateDoesNotBlock(exitPlate: string)
    ensures var row := CardSession.(plate := Unknown);
      var r := RfidExit([row], "C1", exitPlate, 600, 600);
      r.decision == AllowExit && r.log == [row.(exit := Some(600), fee := Some(0), status := Out)]
  {
  }

  /** Likewise an unreadable exit plate never blocks the exit. */
  lemma UnknownExitPlateDoesNotBlock(log: Log, uid: string, now: int, feeNow: int)
    requires LatestOpen(log, ByUid(uid)).Some?
    ensures !RfidExit(log, uid, Unknown, now, feeNow).decision.DenyExit?
  {
  }

  /** Tapping the same card twice: whatever the first tap did, the second is
      refused as "Card busy" and records nothing, so the card ends with
      exactly one open session. */
  lemma SecondTapIsBusy(log: Log, uid: string, plate1: string, plate2: string,
                        image1: Option<string>, image2: Option<string>, now1: int, now2: int)
    ensures var first := RfidEntry(log, uid, plate1, image1, now1);
      var second := RfidEntry(first.log, uid, plate2, image2, now2);
      second.decision == DenyEntry(CardBusy) && second.log == first.log
  {
    var first := RfidEntry(log, uid, plate1, image1, now1);
    if first.decision == AllowEntry {
      assert OpenFor(first.log[|log|], ByUid(uid));
    } else {
      var j := LatestOpen(log, ByUid(uid)).value;
      assert OpenFor(first.log[j], ByUid(uid));
    }
  }

  /** The camera lane has no duplicate-entry check: a registered plate
      entering twice gets two open sessions. */
  lemma CameraEntryAllowsDuplicateOpenPlate(log: Log, reg: Registry, plate: string, image: string, now1: int, now2: int)
    requires IsPlateRegistered(reg, plate)
    ensures var first := CameraEntry(log, reg, plate, image, now1);
      var second := CameraEntry(first.log, reg, plate, image, now2);
      && second.decision == AllowEntry
      && OpenFor(second.log[|log|], ByPlate(plate))
      && OpenFor(second.log[|log| + 1], ByPlate(plate))
  {
    var first := CameraEntry(log, reg, plate, image, now1);
    var second := CameraEntry(first.log, reg, plate, image, now2);
    assert second.log[|log|] == first.log[|log|];
  }

  /** A monthly ticket leaves free through the camera lane however long it
      stayed, but the card lane charges the same session the ordinary fee:
      one hour costs 6000. */
  lemma CardLaneHasNoMonthlyWaiver()
    ensures CameraExit([CardSession], {"30A12345"}, "30A12345", 3600, 3600).decision == AllowExit
    ensures RfidExit([CardSession], "C1", "30A12345", 3600, 3600).decision == PaymentDue(6000)
  {
    assert IsPlateRegistered({"30A12345"}, "30A12345");
  }

  /** A registered plate always leaves the camera lane with fee 0. */
  lemma RegisteredLeavesFree(log: Log, reg: Registry, plate: string, now: int, feeNow: int)
    requires IsPlateRegistered(reg, plate)
    requires LatestOpen(log, ByPlate(plate)).Some?
    ensures CameraExit(log, reg, plate, now, feeNow).decision == AllowExit
    ensures CameraExit(log, reg, plate, now, feeNow).log[LatestOpen(log, ByPlate(plate)).value].fee == Some(0)
  {
  }

  /** An unregistered plate that stayed 20 minutes pays 2000; one that
      stayed exactly 15 minutes leaves free. */
  lemma GuestFeeExamples()
    ensures CameraExit([CardSession], {}, "30A12345", 1200, 1200).decision == PaymentDue(2000)
    ensures CameraExit([CardSession], {}, "30A12345", 900, 900).decision == AllowExit
  {
  }

  /** A camera exit that cannot read the plate looks for open sessions with
      the plate "UNKNOWN", and so closes a card session whose entry plate was
      unreadable. */
  lemma CameraExitClosesUnreadCardSession()
    ensures var row := CardSession.(plate := Unknown);
      var r := CameraExit([row], {}, Unknown, 600, 600);
      r.decision == AllowExit && r.log[0].status == Out
  {
  }

  /** "UNKNOWN" is itself a well-formed plate, so an administrator can
      register it; from then on every camera entry whose plate could not be
      read is let in as a monthly ticket. */
  lemma UnreadablePlateCanBeRegistered(log: Log, image: string, now: int)
    ensures AddRegistered({}, "unknown") == AddReply({Unknown}, Added)
    ensures CameraEntry(log, {Unknown}, Unknown, image, now).decision == AllowEntry
  {
    RegisterUnknown();
    assert IsPlateRegistered({Unknown}, Unknown);
  }

  lemma RegisterUnknown()
    ensures AddRegistered({}, "unknown") == AddReply({Unknown}, Added)
  {
    NormalizeUnknown();
    AddIntoEmpty("unknown", Unknown);
  }

  lemma AddIntoEmpty(input: string, plate: string)
    requires NormalizePlate(input) == Some(plate)
    ensures AddRegistered({}, input) == AddReply({plate}, Added)
  {
    assert {} + {plate} == {plate};
  }

  lemma NormalizeUnknown()
    ensures NormalizePlate("unknown") == Some(Unknown)
  {
    UpperUnknown();
    UnknownIsCanonical();
    NormalizeCanonical(Unknown);
    NormalizeIgnoresCase("unknown");
  }

  lemma UpperUnknown()
    ensures Upper("unknown") == Unknown
  {
  }
}
