/** The decision chain of `process_plate_ai`. The image pipeline itself
    (reading the frame, detection, crop, upscale, blur, OCR) is an oracle: a
    `Vision` value says what each stage produced for one image, and this
    module decides the outcome from it. */
module Recognition {
  import opened Basics
  import opened Plate

  /** The (plate, status) pair the function returns: only `Success` carries
      a plate, every other status comes with `None`. */
  datatype Outcome =
    | Success(plate: string)
    | AiNotReady
    | ReadError
    | NoDetection
    | OcrFail
    | OcrEmpty
    | InvalidFormat

  /** What the external stages yield for one image: whether the file could
      be read as a frame, how many boxes the detector found, and the OCR text
      tokens of the best box (`None` when the OCR call raised). */
  datatype Vision = Vision(frameRead: bool, boxes: nat, ocr: Option<seq<string>>)

  /** `"".join(tokens)`. */
  function Join(tokens: seq<string>): (r: string)
    ensures tokens == [] ==> r == []
    ensures |tokens| == 1 ==> r == tokens[0]
  {
    if tokens == [] then [] else tokens[0] + Join(tokens[1..])
  }

  lemma {:induction false} JoinConcat(a: seq<string>, b: seq<string>)
    ensures Join(a + b) == Join(a) + Join(b)
    decreases |a|
  {
    if a == [] {
      assert a + b == b;
    } else {
      assert (a + b)[1..] == a[1..] + b;
      JoinConcat(a[1..], b);
    }
  }

  /** `process_plate_ai` with the models' readiness and the vision oracle as
      inputs. */
  function ProcessPlateAi(modelsReady: bool, v: Vision): (r: Outcome)
    ensures !modelsReady ==> r == AiNotReady
    ensures r.Success? <==>
      && modelsReady && v.frameRead && v.boxes > 0 && v.ocr.Some? && v.ocr.value != []
      && NormalizePlate(Join(v.ocr.value)).Some?
    ensures r.Success? ==> IsCanonical(r.plate) && NormalizePlate(Join(v.ocr.value)) == Some(r.plate)
    ensures r == OcrEmpty <==> modelsReady && v.frameRead && v.boxes > 0 && v.ocr == Some([])
    ensures r == InvalidFormat <==>
      && modelsReady && v.frameRead && v.boxes > 0 && v.ocr.Some? && v.ocr.value != []
      && !IsCanonical(KeepPlateChars(Upper(Join(v.ocr.value))))
  {
    if !modelsReady then AiNotReady
    else if !v.frameRead then ReadError
    else if v.boxes == 0 then NoDetection
    else match v.ocr
      case None => OcrFail
      case Some(tokens) =>
        if tokens == [] then OcrEmpty
        else match NormalizePlate(Join(tokens))
          case Some(plate) => Success(plate)
          case None => InvalidFormat
  }

  /** The outcome depends on the OCR tokens only through their joined text:
      however the reader splits the plate into tokens, the result is the same
      as long as it produced at least one token. */
  lemma OutcomeDependsOnJoinedText(ready: bool, frameRead: bool, boxes: nat, a: seq<string>, b: seq<string>)
    requires a != [] && b != [] && Join(a) == Join(b)
    ensures ProcessPlateAi(ready, Vision(frameRead, boxes, Some(a))) == ProcessPlateAi(ready, Vision(frameRead, boxes, Some(b)))
  {
  }

  /** A reader that returns only an empty token is not `OcrEmpty`: the list
      is non-empty, so the empty text goes to normalisation and fails. */
  lemma EmptyTokenIsInvalidFormat(boxes: nat)
    requires boxes > 0
    ensures ProcessPlateAi(true, Vision(true, boxes, Some([""]))) == InvalidFormat
  {
  }

  /** The worked example of the source: tokens ["76A", "222.22"] read as
      "76A22222". */
  lemma TokensExample(boxes: nat)
    requires boxes > 0
    ensures ProcessPlateAi(true, Vision(true, boxes, Some(["76A", "222.22"]))) == Success("76A22222")
  {
    assert Join(["76A", "222.22"]) == "76A" + Join(["222.22"]);
    assert Join(["76A", "222.22"]) == "76A222.22";
    NormalizeUpperExample();
  }

  lemma NormalizeUpperExample()
    ensures NormalizePlate("76A222.22") == Some("76A22222")
  {
    assert "76A222.22" == "76A222" + "." + "22";
    assert "76A22222" == "76A222" + "22";
    NormalizeIgnoresSeparator("76A222", '.', "22");
    NormalizeIgnoresCase("76a22222");
    UpperExample();
    ReadCleaned();
  }
}
