# Hand gesture to Arduino command link — Dafny model

`hand_detector.py` watches a camera, lets MediaPipe find one hand (21
landmarks in normalised coordinates, y growing downwards), classifies the
hand as a fist (code 1), the "peace" sign (code 2) or anything else (code 0),
and sends the code as one byte over a 9600-baud serial link to an Arduino —
but only when the code differs from the one of the previous frame. A frame
without a hand counts as code 0. This project models that core and proves
its properties:

- `gesture.dfy` (module `Gesture`): landmarks, the finger groups,
  `is_finger_up`, the mean fingertip-to-wrist distance (the loop of
  `detect_gesture`) and the first-match decision rule.
- `serial.dfy` (module `Serial`): the substring test, `find_arduino_port`,
  the open serial connection with its single-byte writes, and the start-up
  connection attempt.
- `dispatch.dfy` (module `Dispatch`): the globals `RozkazDrona` and
  `PoprzedniRozkaz` as the fields `current` and `previous` of a `Controller`
  class, with `send_to_arduino`, `detect_gesture`, the no-hand branch of the
  main loop and the loop itself as methods; beside it, a value-level
  specification (`After`, `Writes`) of what a run of frames does, with the
  edge-trigger lemmas.
- `wrappers.dfy`: the `Option` type.

`math.sqrt` is a parameter `sqrt: real -> real` of every function that
measures a distance; the lemmas that need its meaning assume only that it
returns the non-negative square root (`Gesture.IsSqrt`). Whether opening the
port and each write succeed is decided by the driver; both are
nondeterministic outcomes (`:| true`), and a failed write is reported in the
result of `SendToArduino` and never escapes. The port list is an input. Two
ghost logs record what happens on the link: `Controller.dispatched` (every
command handed to `send_to_arduino`) and `SerialPort.written` (every byte the
board received).

`detect_gesture` computes the up flag of the index, middle, ring and pinky
fingers only (hand_detector.py:185-188); it never computes the thumb's flag,
even though `THUMB_POINTS` is defined, and `Gesture.ThumbFlagNeverConsulted`
proves that landmarks 1-3 cannot change the code.

Details of the code that the model keeps: `find_arduino_port` returning an
empty device name counts as "not found" (`if arduino_port:`), and a command
outside 0..255 makes `bytes([command])` raise inside the `try`, so the bare
`except` swallows it like a failed write.

## Model

| member | source | states |
|---|---|---|
| `Gesture.FingerGroupsAreAnatomical` | hand_detector.py:107-114 | finger k (thumb = 0) owns landmarks 4k+1..4k+4 base to tip, all distinct from the wrist and below 21, and its tip is the k-th fingertip averaged in `detect_gesture` |
| `Gesture.IsFingerUp` | hand_detector.py:157-172 | `is_finger_up`: the y of landmark `points[3]` (tip) is strictly below the y of landmark `points[0]` (base); characterised per finger by `Gesture.FingerUpExactly` |
| `Gesture.FingerUpExactly` | hand_detector.py:157-172 | a finger is up exactly when its tip's y is strictly smaller than its base's y; equal heights mean not up |
| `Gesture.AverageIsMeanOfFiveTips` | hand_detector.py:190-209 | the average is the sum of the distances from landmarks 4, 8, 12, 16, 20 to landmark 0, divided by 5 |
| `Gesture.SumOfFive` | hand_detector.py:209 | Python's left-to-right `sum` of five values is their total |
| `Gesture.ComputeAverageTipDistance` | hand_detector.py:197-209 | the loop that appends one distance per fingertip and averages them yields the mean of the five tip-to-wrist distances |
| `Gesture.Decide` | hand_detector.py:214-223 | the decision rule only ever yields 0, 1 or 2 |
| `Gesture.DecideOutcomes` | hand_detector.py:214-223 | code 1 iff the mean is below 0.2; code 2 iff the mean is at least 0.2 and index and middle are up while ring and pinky are not; code 0 iff the mean is at least 0.2 and that finger pattern fails |
| `Gesture.Classify` | hand_detector.py:184-223 | the code `detect_gesture` assigns: the decision rule applied to the mean tip-to-wrist distance and the index, middle, ring and pinky flags; characterised by `Gesture.ClassifyOutcomes`, `Gesture.ThumbFlagNeverConsulted`, `Gesture.TipsNearWristIsFist` and `Gesture.SpreadPeaceIsPeace` |
| `Gesture.Label` | hand_detector.py:215-223 | the diagnostic label of each code: 'Pięść' for 1, 'Peace' for 2, 'Inna pozycja' otherwise; `Dispatch.Controller.DetectGesture` proves the returned label is the one of the code it sets |
| `Gesture.ClassifyOutcomes` | hand_detector.py:184-223 | a hand's code is in {0,1,2}; it is 1 iff its mean distance is below 0.2 whatever the fingers do, and 2 iff the mean is at least 0.2 and landmarks 8, 12 lie above 5, 9 while 16, 20 do not lie above 13, 17 |
| `Gesture.ThumbFlagNeverConsulted` | hand_detector.py:184-201 | two hands that differ only in landmarks 1, 2, 3 (the thumb's base and joints) get the same code |
| `Gesture.TipsNearWristIsFist` | hand_detector.py:203-217 | with a true square root, every fingertip within 0.1 of the wrist gives a mean of at most 0.1 and the code 1 |
| `Gesture.SpreadPeaceIsPeace` | hand_detector.py:184-220 | with a true square root, every fingertip at least 0.2 from the wrist, index and middle up and ring and pinky not up give the code 2 |
| `Serial.ContainsIsSubstring` | hand_detector.py:60 | the substring test holds exactly when the pattern occurs at some position of the description |
| `Serial.FirstArduinoPort` | hand_detector.py:57-62 | the first-match search over the port list as a recursive function; characterised by `Serial.FirstArduinoPortIsFirstMatch` |
| `Serial.FirstArduinoPortIsFirstMatch` | hand_detector.py:57-62 | the search returns nothing iff no description contains 'Arduino', 'CH340' or 'USB Serial'; otherwise it returns the device of a matching port with no matching port before it |
| `Serial.FindArduinoPort` | hand_detector.py:45-62 | the scan with early return yields exactly the first-match search result |
| `Serial.SerialPort.constructor` | hand_detector.py:75 | a fresh connection to the given device at 9600 baud with a 1 s timeout, nothing written yet |
| `Serial.SerialPort.Write` | hand_detector.py:133 | a write delivers all its bytes or, on failure, none |
| `Serial.ConnectArduino` | hand_detector.py:66-83 | a connection exists only if the search found a non-empty device, and then it is a fresh connection to that device at 9600 baud; no match or an empty name leaves no connection |
| `Dispatch.Step` | hand_detector.py:211-222 | one frame's state update: previous takes the old current, current takes the new code; `Dispatch.AfterRun` characterises runs of it |
| `Dispatch.Emitted` | hand_detector.py:225-227 | what one frame hands to `send_to_arduino`: the new code if it differs from the old current, nothing otherwise; `Dispatch.HeldCodeSentAtMostOnce` and `Dispatch.WritesAreTransitions` characterise runs of it |
| `Dispatch.AfterRun` | hand_detector.py:211-222 | after a run of frames the current code is the last frame's code and the previous code is the one before it (or the starting code) |
| `Dispatch.HeldCodeSentAtMostOnce` | hand_detector.py:225-227 | a run of one repeated code hands the transport that code once if it differs from the code held before, and nothing otherwise |
| `Dispatch.RepeatedCodeSentOnce` | hand_detector.py:225-227 | classifying the same code twice sends exactly what classifying it once sends |
| `Dispatch.WritesAreTransitions` | hand_detector.py:225-227 | each command handed to the transport differs from the one before it, and the first differs from the starting code |
| `Dispatch.PeerFollowsDispatcher` | hand_detector.py:211-227 | the last command handed over (or the starting code, if none) is always the dispatcher's current code, so a board that receives every command stays in step |
| `Dispatch.WritesComeFromCodes` | hand_detector.py:225-227 | at most one command per frame, each one a code classified in the run |
| `Dispatch.FrameCodes` | hand_detector.py:251-283 | one code per frame, each of them 0, 1 or 2 (the hand's classification, or 0 for a frame without a hand) |
| `Dispatch.FramesSendOnlyCommandCodes` | hand_detector.py:125-130 | only the codes 0, 1 and 2 are ever handed to `send_to_arduino` |
| `Dispatch.WireStep` | hand_detector.py:131-135 | after one frame the bytes the board received since the start remain a subsequence of the commands handed over |
| `Dispatch.WireCodes` | hand_detector.py:125-133 | bytes received that form a subsequence of command codes are all 0, 1 or 2 |
| `Dispatch.Controller.constructor` | hand_detector.py:100-105 | both command globals start at 0 and nothing has been sent |
| `Dispatch.Controller.SendToArduino` | hand_detector.py:116-135 | records the command; without a connection nothing is written; otherwise exactly the byte `command` is delivered or, on a failed write or a value outside a byte, nothing is, and no error escapes |
| `Dispatch.Controller.DetectGesture` | hand_detector.py:174-229 | previous becomes the old current, current becomes the hand's classification, the label matches the code, and the code is handed to the transport iff it differs from the old current |
| `Dispatch.Controller.NoHandFrame` | hand_detector.py:278-283 | current becomes 0 and previous the old current; the byte 0 is handed over iff the old current was non-zero |
| `Dispatch.Controller.Frame` | hand_detector.py:251-283 | one pass of the main loop: the state steps to the frame's code, the code is handed over iff it changed, and the board receives nothing new or exactly that code |
| `Dispatch.Controller.Run` | hand_detector.py:235-283 | over any sequence of frames the final state and every command handed to the transport are those of the specification `After` and `Writes`; the bytes the board receives extend what it had, form a subsequence of those commands, and are each 0, 1 or 2 |

## Left out

- Camera capture, flipping and colour conversion of the image, MediaPipe's hand detection, drawing the landmarks, `cv2.putText`, `cv2.imshow` and the quit key (hand_detector.py:85-98, 231-249, 254-259, 271-293): I/O, user interface and foreign libraries; frames arrive as an input sequence of "no hand" or one hand.
- `calculate_distance` (hand_detector.py:137-155): it converts to pixels and draws a line, and its result is only displayed.
- Floating-point arithmetic: coordinates are reals and `math.sqrt` is a parameter, so rounding near the 0.2 threshold is not modelled; the lemmas that use the root assume it is exact, which IEEE `math.sqrt` only approximates.
- Listing the OS serial ports (`serial.tools.list_ports.comports()`): the list is an input.
- Opening the port, `time.sleep(2)`, the printed messages and closing the port at exit (hand_detector.py:70-83, 295-297): driver and OS calls; only the outcome, a connection or none fixed for the whole run, is modelled. The reason an open fails is not modelled.
- Serial.SerialPort.Write: a write delivers all or none of its bytes; partial writes and timeouts of the real driver are not modelled.
- The loop over `results.multi_hand_landmarks` (hand_detector.py:253): the detector is configured for at most one hand (hand_detector.py:92), so each frame carries at most one observation.
- A failed write is not recorded separately: the model proves the received bytes are a subsequence of the commands handed over, not which of them were lost, so `Dispatch.PeerFollowsDispatcher` speaks of the commands handed over rather than of the board after a failure (the source does not resend either).
- The z coordinate of MediaPipe landmarks: the code never reads it.
