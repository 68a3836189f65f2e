/** The snap-and-recognise loop (`smart_capture_loop`). Each round asks the
    camera for one image and, only when that succeeded, asks the recogniser
    for a plate; the first readable plate ends the loop. The camera and the
    recogniser are oracles indexed by round number. */
module Capture {
  import opened Basics
  import opened Plate
  import opened Recognition

  /** The plate reported when no round could read one. */
  const Unknown := "UNKNOWN"

  /** The number of rounds the lanes ask for (the default `max_retries`). */
  const MaxShots := 3

  /** Round i's `capture_and_save`: the saved image path, or `None` when all
      of its HTTP attempts failed. */
  type Camera = nat -> Option<string>

  /** Round i's `process_plate_ai` on that round's image. */
  type Recognizer = nat -> Outcome

  /** The loop's `if plate:` test: the outcome carries a plate and, as
      Python truthiness has it, that plate is not the empty string. */
  predicate Reads(o: Outcome) {
    o.Success? && o.plate != []
  }

  /** Every plate the recogniser reports is in canonical form. */
  ghost predicate ReadsCanonical(rec: Recognizer) {
    forall i: nat :: rec(i).Success? ==> IsCanonical(rec(i).plate)
  }

  /** The recogniser of the lanes: round i's outcome is `process_plate_ai`
      on round i's image, where `ready` says whether the models loaded and
      `vision(i)` is what the image stages yield for that image. It reports
      only canonical plates, so its `Success` is exactly a truthy plate. */
  function Recognise(ready: bool, vision: nat -> Vision): (rec: Recognizer)
    ensures ReadsCanonical(rec)
    ensures forall i: nat :: Reads(rec(i)) <==> rec(i).Success?
  {
    var rec: Recognizer := (i: nat) => ProcessPlateAi(ready, vision(i));
    assert forall i: nat :: rec(i).Success? ==> IsCanonical(rec(i).plate) by {
      forall i: nat | rec(i).Success?
        ensures IsCanonical(rec(i).plate)
      {
        var o := ProcessPlateAi(ready, vision(i));
        assert rec(i) == o;
        assert o.Success? ==> IsCanonical(o.plate);
      }
    }
    rec
  }

  /** The fallback plate is itself in canonical form. */
  lemma UnknownIsCanonical()
    ensures IsCanonical(Unknown)
  {
  }

  /** Round i read a plate: its capture succeeded and recognition returned a
      truthy plate. */
  predicate Hit(cam: Camera, rec: Recognizer, i: nat) {
    cam(i).Some? && Reads(rec(i))
  }

  /** None of the rounds before `k` read a plate. */
  predicate NoHitBefore(cam: Camera, rec: Recognizer, k: int) {
    forall j: nat :: j < k ==> !Hit(cam, rec, j)
  }

  /** The path of the last successful capture among rounds 0 .. n-1. */
  function LastCapture(cam: Camera, n: nat): (r: Option<string>)
    ensures r.None? <==> forall j: nat :: j < n ==> cam(j).None?
  {
    if n == 0 then None
    else if cam(n - 1).Some? then cam(n - 1)
    else LastCapture(cam, n - 1)
  }

  /** A found path comes from some round `j` after which every capture
      failed. */
  lemma {:induction false} LastCaptureIsLast(cam: Camera, n: nat) returns (j: nat)
    requires LastCapture(cam, n).Some?
    ensures j < n && cam(j) == LastCapture(cam, n)
    ensures forall k: nat :: j < k < n ==> cam(k).None?
  {
    if cam(n - 1).Some? {
      j := n - 1;
    } else {
      j := LastCaptureIsLast(cam, n - 1);
    }
  }

  /** What the loop hands back: the plate (or `Unknown`), the evidence image
      path, how many rounds it captured, and the rounds it ran recognition
      on, in order. */
  datatype Shot = Shot(plate: string, image: Option<string>, rounds: nat, recognised: seq<nat>)

  /** `r` ends on a read: its last round, `r.rounds - 1`, read a plate, and
      `r` reports that round's plate and image. */
  predicate EndedOnRead(cam: Camera, rec: Recognizer, r: Shot) {
    && r.rounds >= 1 && Hit(cam, rec, r.rounds - 1)
    && r.plate == rec(r.rounds - 1).plate && r.image == cam(r.rounds - 1)
  }

  /** The rounds among 0 .. n-1 whose capture succeeded, in order. */
  function CapturedRounds(cam: Camera, n: nat): (r: seq<nat>)
    ensures forall k :: 0 <= k < |r| ==> r[k] < n && cam(r[k]).Some?
    ensures forall k, l :: 0 <= k < l < |r| ==> r[k] < r[l]
  {
    if n == 0 then []
    else CapturedRounds(cam, n - 1) + (if cam(n - 1).Some? then [n - 1] else [])
  }

  /** Every successful capture among rounds 0 .. n-1 is listed. */
  lemma {:induction false} CapturedRoundsComplete(cam: Camera, n: nat, j: nat)
    requires j < n && cam(j).Some?
    ensures j in CapturedRounds(cam, n)
  {
    if j < n - 1 {
      CapturedRoundsComplete(cam, n - 1, j);
    }
  }

  /** Rounds `i` .. `n-1` of the loop, entered with no plate read so far and
      `last` the most recent successful capture. */
  function Rounds(i: nat, n: nat, last: Option<string>, cam: Camera, rec: Recognizer): (r: Shot)
    requires i <= n
    ensures i <= r.rounds <= n
    ensures r.recognised == CapturedRounds(cam, r.rounds)
    ensures r.plate == Unknown || EndedOnRead(cam, rec, r)
    decreases n - i
  {
    if i == n then Shot(Unknown, last, i, CapturedRounds(cam, i))
    else match cam(i)
      case None => Rounds(i + 1, n, last, cam, rec)
      case Some(path) =>
        if Reads(rec(i)) then Shot(rec(i).plate, Some(path), i + 1, CapturedRounds(cam, i + 1))
        else Rounds(i + 1, n, Some(path), cam, rec)
  }

  /** If some round from `i` on reads a plate, the loop stops at the first
      such round and reports its plate and image. */
  lemma {:induction false} RoundsStopAtFirstHit(i: nat, n: nat, last: Option<string>, cam: Camera, rec: Recognizer, j: nat)
    requires i <= j < n && Hit(cam, rec, j)
    requires NoHitBefore(cam, rec, i)
    ensures var r := Rounds(i, n, last, cam, rec);
      EndedOnRead(cam, rec, r) && NoHitBefore(cam, rec, r.rounds - 1)
    decreases n - i
  {
    if !Hit(cam, rec, i) {
      var next := if cam(i).Some? then cam(i) else last;
      assert Rounds(i, n, last, cam, rec) == Rounds(i + 1, n, next, cam, rec);
      RoundsStopAtFirstHit(i + 1, n, next, cam, rec, j);
    }
  }

  /** If no round reads a plate, the loop runs every round and reports
      `Unknown` with the last successful capture. */
  lemma {:induction false} RoundsExhausted(i: nat, n: nat, last: Option<string>, cam: Camera, rec: Recognizer)
    requires i <= n
    requires last == LastCapture(cam, i)
    requires NoHitBefore(cam, rec, n)
    ensures var r := Rounds(i, n, last, cam, rec);
      r.plate == Unknown && r.rounds == n && r.image == LastCapture(cam, n)
    decreases n - i
  {
    if i < n {
      assert !Hit(cam, rec, i);
      var next := if cam(i).Some? then cam(i) else last;
      assert next == LastCapture(cam, i + 1);
      assert Rounds(i, n, last, cam, rec) == Rounds(i + 1, n, next, cam, rec);
      RoundsExhausted(i + 1, n, next, cam, rec);
    }
  }

  /** The whole loop from round 0 on: what `SmartCaptureLoop` promises,
      stated about `Rounds` directly. */
  lemma RoundsFromStart(n: nat, cam: Camera, rec: Recognizer)
    ensures var r := Rounds(0, n, None, cam, rec);
      && (forall j: nat :: j < r.rounds && cam(j).Some? ==> j in r.recognised)
      && (forall j: nat :: j < n && Hit(cam, rec, j) ==>
            EndedOnRead(cam, rec, r) && NoHitBefore(cam, rec, r.rounds - 1))
      && (NoHitBefore(cam, rec, n) ==> r.plate == Unknown && r.rounds == n && r.image == LastCapture(cam, n))
      && (ReadsCanonical(rec) ==> IsCanonical(r.plate))
  {
    var r := Rounds(0, n, None, cam, rec);
    forall j: nat | j < r.rounds && cam(j).Some?
      ensures j in r.recognised
    {
      CapturedRoundsComplete(cam, r.rounds, j);
    }
    forall j: nat | j < n && Hit(cam, rec, j)
      ensures EndedOnRead(cam, rec, r) && NoHitBefore(cam, rec, r.rounds - 1)
    {
      RoundsStopAtFirstHit(0, n, None, cam, rec, j);
    }
    if NoHitBefore(cam, rec, n) {
      RoundsExhausted(0, n, None, cam, rec);
    }
    if ReadsCanonical(rec) {
      if r.plate == Unknown {
        UnknownIsCanonical();
      } else {
        assert rec(r.rounds - 1).Success?;
      }
    }
  }

  /** `smart_capture_loop(cam_ip, label, max_retries)`. At most
      `max_retries` rounds are captured; recognition runs exactly on the
      captured rounds whose capture succeeded; the loop stops at the first
      round whose plate is truthy and reports that plate with that round's
      image; otherwise it reports `Unknown` with the last successful
      capture's path, or `None` when every capture failed. */
  function SmartCaptureLoop(maxRetries: int, cam: Camera, rec: Recognizer): (r: Shot)
    ensures r.rounds <= if maxRetries < 0 then 0 else maxRetries
    ensures forall k :: 0 <= k < |r.recognised| ==> r.recognised[k] < r.rounds && cam(r.recognised[k]).Some?
    ensures forall j: nat :: j < r.rounds && cam(j).Some? ==> j in r.recognised
    ensures forall j: nat :: j < maxRetries && Hit(cam, rec, j) ==>
      EndedOnRead(cam, rec, r) && NoHitBefore(cam, rec, r.rounds - 1)
    ensures NoHitBefore(cam, rec, maxRetries) ==>
      && r.plate == Unknown && r.rounds == (if maxRetries < 0 then 0 else maxRetries)
      && r.image == LastCapture(cam, r.rounds)
    ensures r.plate == Unknown || EndedOnRead(cam, rec, r)
    ensures ReadsCanonical(rec) ==> IsCanonical(r.plate)
  {
    if maxRetries <= 0 then
      UnknownIsCanonical();
      Shot(Unknown, None, 0, [])
    else
      RoundsFromStart(maxRetries, cam, rec);
      Rounds(0, maxRetries, None, cam, rec)
  }

  /** Two recognisers that give the same verdict on round `j`: both read
      no plate, or both read the same one. Which failure status a round
      reports does not matter. */
  predicate SameRead(rec1: Recognizer, rec2: Recognizer, j: nat) {
    && Reads(rec1(j)) == Reads(rec2(j))
    && (Reads(rec1(j)) ==> rec1(j).plate == rec2(j).plate)
  }

  /** The loop consults the recogniser only on rounds whose capture
      succeeded, and only for whether, and what, it read. */
  lemma {:induction false} RoundsIgnoreUncaptured(i: nat, n: nat, last: Option<string>, cam: Camera,
                                                 rec1: Recognizer, rec2: Recognizer)
    requires i <= n
    requires forall j: nat :: i <= j < n && cam(j).Some? ==> SameRead(rec1, rec2, j)
    ensures Rounds(i, n, last, cam, rec1) == Rounds(i, n, last, cam, rec2)
    decreases n - i
  {
    if i < n && !Hit(cam, rec1, i) {
      var next := if cam(i).Some? then cam(i) else last;
      RoundsIgnoreUncaptured(i + 1, n, next, cam, rec1, rec2);
    }
  }

  /** `smart_capture_loop` depends on recognition only through the verdicts
      of the rounds it captured: recognisers that agree there give the same
      plate, image, round count and recognised rounds. */
  lemma LoopIgnoresUncaptured(maxRetries: int, cam: Camera, rec1: Recognizer, rec2: Recognizer)
    requires forall j: nat :: j < maxRetries && cam(j).Some? ==> SameRead(rec1, rec2, j)
    ensures SmartCaptureLoop(maxRetries, cam, rec1) == SmartCaptureLoop(maxRetries, cam, rec2)
  {
    if maxRetries > 0 {
      RoundsIgnoreUncaptured(0, maxRetries, None, cam, rec1, rec2);
    }
  }

  /** When the models failed to load, every recognition is `AiNotReady`; the
      loop still captures all its rounds and returns `Unknown` with the last
      captured image. */
  lemma NotReadyUsesAllRounds(maxRetries: nat, cam: Camera, rec: Recognizer)
    requires forall j: nat :: rec(j) == AiNotReady
    ensures SmartCaptureLoop(maxRetries, cam, rec).plate == Unknown
    ensures SmartCaptureLoop(maxRetries, cam, rec).rounds == maxRetries
    ensures SmartCaptureLoop(maxRetries, cam, rec).image == LastCapture(cam, maxRetries)
  {
  }

  /** The early-exit example: the first image shows no plate, the second
      reads "51B11111"; the loop returns that plate with the second image
      and never captures a third time. */
  lemma EarlyExitExample()
    ensures SmartCaptureLoop(MaxShots, ExampleCamera, ExampleRecognizer)
      == Shot("51B11111", Some("shot2.jpg"), 2, [0, 1])
  {
    var r1 := Rounds(1, MaxShots, Some("shot1.jpg"), ExampleCamera, ExampleRecognizer);
    assert r1 == Shot("51B11111", Some("shot2.jpg"), 2, CapturedRounds(ExampleCamera, 2));
    assert CapturedRounds(ExampleCamera, 1) == [0];
    assert CapturedRounds(ExampleCamera, 2) == [0, 1];
  }

  function ExampleCamera(i: nat): Option<string> {
    if i == 0 then Some("shot1.jpg") else if i == 1 then Some("shot2.jpg") else Some("shot3.jpg")
  }

  function ExampleRecognizer(i: nat): Outcome {
    if i == 0 then NoDetection else Success("51B11111")
  }
}
