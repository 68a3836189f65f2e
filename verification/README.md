# ParkingSmart access-control core, modelled in Dafny

ParkingSmart is a Flask server that runs the gates of a car park. Cameras
at the entry and exit lanes photograph vehicles, and a YOLO detector plus
EasyOCR read the licence plates. RFID readers report card taps. The server
keeps a `parking_log` of visits and a table of monthly-ticket
(registered) plates. It computes fees and queues manual gate commands,
which the gate controller collects by polling.

This project models the server's decision logic as pure functions over
immutable values:

- `Plate`: `normalize_plate`.
- `Fee`: `calculate_fee`, with timestamps as whole seconds.
- `Recognition`: the decision chain of `process_plate_ai` after the image
  stages. Those stages are an oracle (`Vision`).
- `Capture`: `smart_capture_loop`, the up-to-three-shot capture and
  recognise loop. Each round's camera result comes from an oracle indexed
  by round. The lanes recognise each image with `process_plate_ai` on that
  round's `Vision` oracle value.
- `Commands`: the `command_queue` mailbox with `api_manual_control` and
  `api_get_command`.
- `Registry`: `is_plate_registered`, `api_add_registered` and
  `api_del_registered` over the set of registered plates.
- `Sessions`: the `parking_log` rows, the "latest open session for a key"
  query, insert, close, and the log invariants.
- `Lanes`: the decisions of `api_parking_camera` (camera lane) and
  `api_rfid_handler` (card lane).
- `System`: all of these as one state (log, registered plates, mailbox)
  that HTTP requests change one at a time.
- `Scenarios`: concrete and general consequences of the lane rules.
- `Basics`: `Option` and Python's `str.strip()`.

Time is a parameter. `now` is the request's `now_str`. `feeNow` is the
separate `datetime.now()` that `calculate_fee` reads when it gets no exit
time. The capture loop's camera results, whether the models loaded, and
each image's `Vision` value are parameters too.

Some behaviours of the code are easy to miss. Each is proved about the
model:

- Camera entry inserts a row without checking for an open session of the
  same plate (ParkingSmart/app.py:447-450;
  `Scenarios.CameraEntryAllowsDuplicateOpenPlate`). At most one open
  session is kept per card only, by the card-busy check
  (ParkingSmart/app.py:531-533; `System.RunPreservesInvariant`).
- Only the camera exit waives the fee for a registered plate
  (ParkingSmart/app.py:476-482). The card exit always charges
  `calculate_fee` (ParkingSmart/app.py:587;
  `Scenarios.CardLaneHasNoMonthlyWaiver`).
- Whether the models loaded is checked inside each recognition
  (ParkingSmart/app.py:224-226), not before the loop, so the loop still
  captures every round (`Capture.NotReadyUsesAllRounds`).
- The card lane runs the capture loop (ParkingSmart/app.py:517) before it
  looks up the card's session (ParkingSmart/app.py:531, 553), for every
  action with a non-blank uid (`Lanes.RfidHandler`).
- A plate stored in the log is always canonical: either a normalised read
  or the fallback `UNKNOWN`, which is itself canonical
  (`Capture.SmartCaptureLoop`, `System.RunPreservesInvariant`).

## Model

| member | source | states |
|---|---|---|
| `Basics.IsSpace` | ParkingSmart/app.py:511 | The whitespace set of Python's `str.isspace()`, which `strip()` removes: tab to carriage return, the four separators 0x1C-0x1F, space, and the Unicode spaces 0x85, 0xA0, 0x1680, 0x2000-0x200A, 0x2028, 0x2029, 0x202F, 0x205F and 0x3000. |
| `Basics.Strip` | ParkingSmart/app.py:511-512 | The stripped uid is empty exactly when the text is all whitespace. Otherwise it neither starts nor ends with whitespace. |
| `Basics.StripRemovesOnlySpaces` | ParkingSmart/app.py:511-512 | Stripping removes only a whitespace prefix and a whitespace suffix and keeps the text between them unchanged. |
| `Basics.StripUnchanged` | ParkingSmart/app.py:511-512 | Text that neither starts nor ends with whitespace is returned as it is. |
| `Basics.StripIdempotent` | ParkingSmart/app.py:511-512 | Stripping twice gives the same result as stripping once. |
| `Plate.Upper` | ParkingSmart/app.py:114 | Same length as the input, each character upper-cased on its own, ASCII a-z to A-Z and every other character kept. `Plate.UpperIdempotent` and `Plate.NormalizeIgnoresCase` build on it. |
| `Plate.KeepPlateChars` | ParkingSmart/app.py:116-117 | Only A-Z/0-9 characters survive, and a string made only of such characters is unchanged. |
| `Plate.KeepPlateCharsCounts` | ParkingSmart/app.py:116-117 | Each A-Z/0-9 character occurs in the result exactly as often as in the input. |
| `Plate.KeepPlateCharsConcat` | ParkingSmart/app.py:116-117 | Stripping non-plate characters distributes over concatenation. |
| `Plate.NormalizePlate` | ParkingSmart/app.py:109-123 | Empty text gives None. A result is always a canonical plate (6-12 characters from A-Z/0-9). There is a result exactly when the upper-cased, stripped text is canonical, and then it is that text. |
| `Plate.NormalizeCanonical` | ParkingSmart/app.py:109-123 | A canonical plate normalises to itself. |
| `Plate.NormalizeIdempotent` | ParkingSmart/app.py:109-123 | Normalising a successful result again gives the same result. |
| `Plate.NormalizeIgnoresCase` | ParkingSmart/app.py:113-114 | Upper-casing the input first changes nothing. |
| `Plate.NormalizeIgnoresSeparator` | ParkingSmart/app.py:116-117 | Inserting any character that is not A-Z/0-9 after upper-casing (dash, dot, space) never changes the result. |
| `Plate.NormalizeExample` | ParkingSmart/app.py:109-123 | "76a-222.22" normalises to "76A22222". |
| `Fee.Charge` | ParkingSmart/app.py:138-144 | The fee is never negative. It is 0 exactly for stays of at most 900 s. A non-zero fee exceeds 1500 and is the integer nearest to minutes x 100 (its distance from 5s/3 is at most 1/3). |
| `Fee.CalculateFee` | ParkingSmart/app.py:125-145 | A missing entry gives (0, None). A supplied exit time is returned unchanged, otherwise the clock reading is returned. The fee is free within the 15-minute grace period and otherwise the rounded per-minute charge. |
| `Fee.ChargeMonotone` | ParkingSmart/app.py:138-144 | A longer stay never costs less. |
| `Fee.ChargeStep` | ParkingSmart/app.py:138-144 | After the grace period, one more second adds 0 to 2 units. |
| `Fee.ChargeExamples` | ParkingSmart/app.py:140-144 | 10 min and exactly 15 min are free. 20 min costs 2000. 901 s costs 1502. |
| `Recognition.Join` | ParkingSmart/app.py:277 | No tokens join to the empty text, and a single token joins to itself. `Recognition.JoinConcat` gives the general case. |
| `Recognition.JoinConcat` | ParkingSmart/app.py:276-277 | Joining tokens distributes over concatenating token lists. |
| `Recognition.ProcessPlateAi` | ParkingSmart/app.py:220-287 | Models not loaded gives AI_NOT_READY first. The result is SUCCESS exactly when every stage produced output and the joined tokens normalise, and the plate is then that normalised, canonical text. OCR_EMPTY happens exactly for an empty token list. INVALID_FORMAT happens exactly when a non-empty token list does not normalise. |
| `Recognition.OutcomeDependsOnJoinedText` | ParkingSmart/app.py:272-287 | Two non-empty token lists with the same joined text give the same outcome. |
| `Recognition.EmptyTokenIsInvalidFormat` | ParkingSmart/app.py:272-287 | A token list holding only "" is INVALID_FORMAT, not OCR_EMPTY. |
| `Recognition.TokensExample` | ParkingSmart/app.py:276-284 | Tokens ["76A", "222.22"] give SUCCESS with "76A22222". |
| `Capture.LastCapture` | ParkingSmart/app.py:151-169 | None exactly when every capture failed. |
| `Capture.LastCaptureIsLast` | ParkingSmart/app.py:160-169 | A found path comes from a round whose capture succeeded, and every later capture failed. |
| `Capture.CapturedRoundsComplete` | ParkingSmart/app.py:160-166 | Every round whose capture succeeded is listed among the recognised rounds. |
| `Capture.Rounds` | ParkingSmart/app.py:156-181 | The loop from round i on stops within the remaining rounds. The recognised rounds are exactly the captured ones up to where it stopped. The plate is UNKNOWN or the truthy plate of the last round run, whose capture succeeded. |
| `Capture.RoundsStopAtFirstHit` | ParkingSmart/app.py:156-174 | If some remaining round reads a plate, the loop stops at the first such round and returns its plate and image. |
| `Capture.RoundsExhausted` | ParkingSmart/app.py:156-181 | If no round reads a plate, every round runs and the result is UNKNOWN with the last successful capture. |
| `Capture.RoundsFromStart` | ParkingSmart/app.py:156-181 | From round 0, every captured round is recognised, a readable round ends the loop at the first one, no readable round gives UNKNOWN after all rounds, and the plate is canonical when the recogniser reports canonical plates. |
| `Capture.SmartCaptureLoop` | ParkingSmart/app.py:146-181 | At most max_retries rounds run. The recognised rounds listed are exactly the rounds run whose capture succeeded; `Capture.LoopIgnoresUncaptured` shows those are the only rounds whose recognition matters. The first round whose plate is truthy ends the loop with that plate and image. Otherwise the result is UNKNOWN with the last successful capture, or None. The plate is always UNKNOWN or a plate the recogniser returned, so it is canonical whenever the recogniser reports canonical plates. |
| `Capture.Recognise` | ParkingSmart/app.py:166 | The lanes' recogniser, `process_plate_ai` on each round's image, reports only canonical plates, so its SUCCESS is exactly a truthy plate. |
| `Capture.UnknownIsCanonical` | ParkingSmart/app.py:180 | The fallback UNKNOWN is itself a canonical plate. |
| `Lanes.LaneCapture` | ParkingSmart/app.py:434 | A lane's capture runs at most three rounds and always yields a canonical plate. |
| `Capture.RoundsIgnoreUncaptured` | ParkingSmart/app.py:156-174 | From any round on, the loop consults recognition only on rounds whose capture succeeded, and only for whether and what it read. Two recognisers that agree there give the same result. |
| `Capture.LoopIgnoresUncaptured` | ParkingSmart/app.py:156-181 | The whole loop's plate, image, round count and recognised rounds are the same for any two recognisers that agree on the captured rounds' reads. The status of a round that read nothing, and any round whose capture failed, make no difference. |
| `Capture.NotReadyUsesAllRounds` | ParkingSmart/app.py:146-181 | With the models not loaded, all rounds are captured and the result is UNKNOWN with the last image. |
| `Capture.EarlyExitExample` | ParkingSmart/app.py:156-174 | Rounds [no detection, "51B11111"] give "51B11111" with the second image after two rounds. A third capture never happens. |
| `Commands.ManualControl` | ParkingSmart/app.py:400-414 | open_entry and open_exit append OPEN_ENTRY and OPEN_EXIT and are accepted. Any other action is rejected with the queue unchanged. |
| `Commands.GetCommand` | ParkingSmart/app.py:419-427 | An empty queue answers "none" and stays empty. Otherwise the oldest command is removed and delivered. |
| `Commands.PollDrainsInOrder` | ParkingSmart/app.py:395-427 | Polling \|q\|+m times delivers every queued command once, in FIFO order, then "none" m times, and leaves the queue empty. |
| `Commands.EnqueueKeepsHead` | ParkingSmart/app.py:400-424 | Enqueuing never changes what the next poll of a non-empty queue returns. |
| `Commands.ControlThenPollExample` | ParkingSmart/app.py:395-427 | open_entry, open_exit, then three polls give OPEN_ENTRY, OPEN_EXIT, none. |
| `Registry.IsPlateRegistered` | ParkingSmart/app.py:182-188 | The empty plate is never registered. Otherwise the result is membership. |
| `Registry.AddRegistered` | ParkingSmart/app.py:353-366 | Invalid input is rejected, and so is a duplicate normalised plate, each with the set unchanged. Otherwise exactly the normalised plate is added. Adding keeps all stored plates canonical. |
| `Registry.DelRegistered` | ParkingSmart/app.py:368-373 | Exactly the given key is removed and every other plate stays. |
| `Registry.RegisteredIsCanonical` | ParkingSmart/app.py:182-188 | When all stored plates are canonical, a registered plate is canonical and the emptiness test reduces to membership. |
| `Registry.AddThenDelete` | ParkingSmart/app.py:353-373 | A successful add followed by deleting the normalised plate restores the set. |
| `Registry.AddTwice` | ParkingSmart/app.py:353-366 | Submitting the same valid text twice stores it once. The second request reports "Plate exists". |
| `Registry.DeleteDoesNotNormalise` | ParkingSmart/app.py:368-373 | Deleting "30a-123.45" leaves "30A12345" registered. |
| `Sessions.LatestOpen` | ParkingSmart/app.py:470 | None exactly when no IN row matches the key. Otherwise it is a matching IN row with no matching IN row after it. |
| `Sessions.LatestOpenHasHighestId` | ParkingSmart/app.py:554 | With sequential ids, the selected row has the highest id among matching IN rows, which is what ORDER BY id DESC LIMIT 1 selects. |
| `Sessions.Insert` | ParkingSmart/app.py:536-537 | Exactly one row is appended with the next id and no exit or fee, and the old rows are kept. |
| `Sessions.Close` | ParkingSmart/app.py:590-591 | Only the chosen IN row changes, to OUT with the exit time and fee. |
| `Sessions.CloseWellFormed` | ParkingSmart/app.py:485-486 | Closing with a non-negative fee keeps the log invariants and is an allowed change of the log. |
| `Sessions.InsertWellFormed` | ParkingSmart/app.py:531-537 | Inserting keeps the log invariants, provided a new IN row does not reuse the uid of an open session. |
| `Lanes.FeeAt` | ParkingSmart/app.py:482 | The closing fee is not negative. It is 0 exactly within the grace period. A non-zero fee exceeds 1500 and is the nearest integer to 100 per minute elapsed since the row's entry. |
| `Lanes.CameraEntry` | ParkingSmart/app.py:443-465 | Exactly one row is appended for the plate and image. It is IN and the answer is allow_entry exactly when the plate is registered. Otherwise the row is DENIED and the answer is deny_entry. |
| `Lanes.CameraExit` | ParkingSmart/app.py:468-504 | With no IN row for the plate, the answer is deny_exit and the log is unchanged. Otherwise only the latest IN row is closed, with fee 0 if the plate is registered and calculate_fee if not. The answer is allow_exit exactly when the fee is 0, and payment_due otherwise. |
| `Lanes.CameraExitEffect` | ParkingSmart/app.py:468-504 | A camera exit changes the log exactly when it does not refuse, and it keeps the invariants. |
| `Lanes.CameraEntryEffect` | ParkingSmart/app.py:443-450 | A camera entry always records a row, even when it refuses, and it keeps the invariants. |
| `Lanes.CameraDecide` | ParkingSmart/app.py:436-506 | No image gives deny_<action> with the log unchanged. An unknown action leaves the log unchanged. A request leaves the log unchanged exactly when its answer is a no-trace refusal, and the invariants are kept. With a canonical plate, all stored plates stay canonical. |
| `Lanes.ParkingCamera` | ParkingSmart/app.py:430-506 | The lane decides on the capture loop's result and uses as many rounds as the loop. The log changes exactly when the request is not refused without trace, and the invariants are kept, including that every stored plate is canonical. |
| `Lanes.CameraAnswers` | ParkingSmart/app.py:437-504 | Whatever the capture produced, a camera entry answers allow_entry or deny_entry, and a camera exit answers allow_exit, payment_due or deny_exit, also when the capture failed. |
| `Lanes.Mismatch` | ParkingSmart/app.py:561-564 | The anti-fraud test: the exit is blocked only when neither the entry plate nor the exit read is UNKNOWN and they differ. `Scenarios.MismatchBlocksExit` and the two UNKNOWN scenarios exercise it. |
| `Lanes.RfidEntry` | ParkingSmart/app.py:529-548 | If the card has an IN row, the answer is "Card busy" with the log unchanged. Otherwise exactly one IN row is appended with that uid and the read plate, and the answer is allow_entry. At most one IN row per card is preserved. |
| `Lanes.RfidExit` | ParkingSmart/app.py:551-607 | With no IN row for the card, the answer is deny_exit with the log unchanged. If both plates are real reads and differ, the answer is deny_exit with the log unchanged. Otherwise the card's latest IN row is closed with calculate_fee and no waiver, and the answer is payment_due exactly when the fee is positive. |
| `Lanes.RfidExitEffect` | ParkingSmart/app.py:551-607 | A card exit changes the log exactly when it lets the vehicle out or asks for payment, and it keeps the invariants. |
| `Lanes.RfidDecide` | ParkingSmart/app.py:529-609 | "entry" is the card entry, "exit" is the card exit, and any other action is refused with the log unchanged. The log is unchanged exactly when the answer is a refusal without trace, and the invariants are kept. With a canonical plate, all stored plates stay canonical. |
| `Lanes.RfidHandler` | ParkingSmart/app.py:509-609 | A blank uid is refused before any capture round, with the log unchanged. Otherwise the capture loop runs and the card entry or exit decides, on the stripped uid, both the new log and the answer. The log changes exactly when the request is not refused without trace, and the invariants are kept, including that every stored plate is canonical. |
| `Lanes.CardAnswers` | ParkingSmart/app.py:533-607 | Whatever the capture produced, a card entry with a non-blank uid answers allow_entry or deny_entry, and a card exit answers allow_exit, payment_due or deny_exit. |
| `System.Apply` | ParkingSmart/app.py:353-609 | Each request changes only its own part of the state, never shortens the log, and keeps the invariants. |
| `System.RunPreservesInvariant` | ParkingSmart/app.py:429-609 | Any sequence of requests keeps sequential ids, exit and fee exactly on OUT rows, non-negative fees, at most one IN row per card, canonical plates in every row, and only canonical registered plates. |
| `System.FinalRowsStayFinal` | ParkingSmart/app.py:485-591 | OUT and DENIED rows never change again, so a fee is set once. |
| `System.LogOnlyGrows` | ParkingSmart/app.py:447-591 | From any state, well formed or not, rows are never removed. |
| `Scenarios.MismatchBlocksExit` | ParkingSmart/app.py:561-583 | Entry plate 30A12345 with exit read 30A99999 gives deny_exit, and the session stays IN with no fee. |
| `Scenarios.UnknownEntryPlateDoesNotBlock` | ParkingSmart/app.py:561-607 | An UNKNOWN entry plate never triggers the mismatch rule, and the exit proceeds. |
| `Scenarios.UnknownExitPlateDoesNotBlock` | ParkingSmart/app.py:561-607 | An UNKNOWN exit read never gives deny_exit once the card has an open session. |
| `Scenarios.SecondTapIsBusy` | ParkingSmart/app.py:529-538 | A second entry tap of the same card is "Card busy" and records nothing. |
| `Scenarios.CameraEntryAllowsDuplicateOpenPlate` | ParkingSmart/app.py:443-450 | A registered plate entering twice by camera gets two IN rows. |
| `Scenarios.CardLaneHasNoMonthlyWaiver` | ParkingSmart/app.py:587 | The same registered session leaves the camera lane free but owes 6000 after one hour on the card lane. |
| `Scenarios.RegisteredLeavesFree` | ParkingSmart/app.py:476-486 | A registered plate always leaves the camera lane with allow_exit and fee 0. |
| `Scenarios.GuestFeeExamples` | ParkingSmart/app.py:476-502 | An unregistered stay of 20 min is payment_due 2000. Exactly 15 min is allow_exit. |
| `Scenarios.CameraExitClosesUnreadCardSession` | ParkingSmart/app.py:470-486 | A camera exit reading UNKNOWN closes an open card session whose entry plate was UNKNOWN. |
| `Scenarios.UnreadablePlateCanBeRegistered` | ParkingSmart/app.py:353-366 | "unknown" registers as UNKNOWN, after which every unreadable camera entry is allowed. |

## Left out

- Flask routing, JSON bodies, HTTP status codes, templates and `send_file`: web plumbing. The model keeps only the answer's action and fee, as `Lanes.Decision`.
- `capture_and_save`: its HTTP requests, two-second timeouts, three attempts, sleeps and file writes are replaced by the per-round camera oracle. The oracle's result is the round's final path or None.
- The YOLO/EasyOCR/OpenCV image stages: these are foreign libraries doing floating-point image work. Their results are the `Vision` oracle.
- `Recognition.ProcessPlateAi`: the image stages before the OCR call (ParkingSmart/app.py:234-262: detection, crop, resize, colour conversion, blur, file write) run outside any `try`. If one of them raises, for example on an empty crop, the exception leaves `process_plate_ai`, the capture loop and the lane handler, so the request fails with HTTP 500, the log is unchanged and the remaining rounds are skipped. The `Vision` oracle always yields a value, so this path is not modelled.
- SQLite (`get_db_connection`, `init_db`, SQL text, transactions): replaced by a sequence of rows and a set of plates. The owner, vehicle type and expiry columns of `registered_vehicles` play no part in any decision.
- `emit_realtime` and SocketIO: fire-and-forget notifications with no effect on decisions or state.
- Clocks and date strings: `now` and `feeNow` are integer-second parameters. `strptime` failures on malformed stored times cannot arise.
- Concurrency: the server has no locking. Only the one-request-at-a-time semantics is modelled, so two simultaneous card taps are not covered.
- `api_history`, `api_get_registered` and `api_update_data`: read-only reporting and a sensor pass-through.
- Camera choice: a non-"entry" action uses the exit camera. Each request has a single camera oracle, so this is not distinguished.
- `Plate.Upper`, `Plate.NormalizePlate`: upper-casing covers ASCII a-z only and keeps the length. Python's `str.upper()` also changes non-ASCII letters and can lengthen the text, for example sharp s to "SS". Python's `str.upper()` also turns some non-ASCII characters into ASCII letters, for example dotless i to I, long s to S, and ligatures such as "ﬁ" to "FI". Those inputs are not modelled.
- `Fee.CalculateFee`: the fee clock is whole seconds. The source's `datetime.now()` has a fractional second, so a stay between 900 and 901 seconds is charged about 1500 there but is free here, and any longer stay's fee can differ by up to 2 units (903 s costs 1505 here, while 903.99 s costs 1507 there). Floating-point division is replaced by the exact rational value, which rounds the same way.
- `Registry.AddRegistered`: the plate input is text. A missing field is treated as empty text, which the source also rejects as Invalid Plate. A falsy non-text value (null, 0, false, [], {}) is rejected as Invalid Plate, like empty text. Any other non-text value makes `.upper()` raise, which is not modelled.
- `Lanes.RfidHandler`: the uid input is text. A non-text JSON value, which makes `.strip()` raise, is not modelled.
