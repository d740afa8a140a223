# Webcam gesture control: verified model of the gesture core

This project models the per-frame gesture pipeline of a webcam controller for
the SolidWorks viewport:

1. Each hand the detector reports is reduced to three landmarks: thumb tip,
   thumb joint and index tip.
2. Each hand is classified as pinching or not, using a scale-free test on
   squared distances.
3. This frame's pinches are matched with the remembered ones by hand position.
   The result is a movement per hand.
4. The movements are turned into at most one view command: an orbit, a zoom
   or a pan.

A zoom lock holds a started zoom for ten frames. A debounce keeps the
remembered pinches through up to five frames without pinches. The model also
covers the older standalone pinch counter.

It is written in Dafny and proved with Dafny's verifier. Modules:

- `Geometry`: points and vector arithmetic, squared distances, and the
  characterisation of the Euclidean norm.
- `Extended`: the floating-point results that are not real numbers (±inf,
  NaN): numpy's division and IEEE comparison.
- `Landmarks`: `extract_key_landmarks`.
- `PinchClassifier`: `detect_pinches_vectorized`.
- `PinchTracker`: the movement loop and the debounce of `last_pinches`.
- `GestureArbiter`: the command of a frame and the zoom lock.
- `Session`: class `GestureSession`. Its fields are the four variables that
  the main loop carries from frame to frame. `ProcessFrame` runs one
  iteration of the loop and is proved equal to the value-level `FrameStep`,
  which the frame lemmas are about.
- `PinchCounter`: `detect_pinch` from `src/pinch_detector.py`. It is a loop
  proved against a recursive count.

Modelling choices:

- **Inputs.** The detector's output for a frame is the input `hands`: one
  sequence of landmark positions per hand.
- **Commands.** The calls `rotate_view`, `zoom_view` and `pan_view` are
  replaced by the `Command` value the frame returns. Every command other than
  `None` also stands for the `GraphicsRedraw2` call that follows it.
- **Numbers.** Coordinates are `real`.
- **Norm.** `np.linalg.norm` is a session parameter `norm`, characterised by
  `IsEuclideanNorm`: non-negative, with square equal to the sum of squared
  components.
- **Zoom division.** The zoom factor `curr_dist/last_dist` has no zero guard in
  the code. numpy then yields inf or NaN rather than raising, so the model's
  factor is an `Extended.Float` computed by `Divide`. The code does not skip
  the zoom in this case, and neither does the model.
  `Session.ZoomFactorFiniteIff` shows when the factor is non-finite:
  exactly when the two remembered pinch points coincide.
- **Hand identity.** Hand identity is the hand's position in the detector's
  output, as in the code.
- **Key order.** Pinch keys are inserted in ascending order. With at most two
  hands, "the first two pinch keys" are therefore hands 0 and 1.

## Model

| member | source | states |
|---|---|---|
| Landmarks.ExtractKeyLandmarks | src/main.py:37-47 | one row per hand, in order (no hands give no rows); row `h` is hand `h`'s landmarks 4, 3 and 8, in that order |
| PinchClassifier.DetectPinches | src/main.py:50-75 | hand `i` is a key iff `0 <= i < n_hands` and `dist_sq < thumb_len_sq * 1.5`; its value is that hand's index tip; the map equals the comprehension `PinchMap` |
| PinchClassifier.DegenerateThumbNeverPinches | src/main.py:60-68 | a hand whose thumb tip lies on its thumb joint never pinches, because the strict test has a zero bound |
| PinchClassifier.CoincidentTipsPinch | src/main.py:60-68 | touching index and thumb tips always pinch when the thumb segment has length |
| PinchClassifier.ScaleInvariant | src/main.py:60-68 | scaling all three points by any `c > 0` leaves the classification unchanged |
| Geometry.DistSqPositive | src/main.py:60-64 | a squared distance is non-negative, and positive between distinct points |
| Geometry.DistSqZeroIff | src/main.py:60-64 | a squared distance is zero exactly between equal points |
| Geometry.ScaleDistSq | src/main.py:60-64 | scaling both points by `c` multiplies their squared distance by `c ** 2` |
| Geometry.NormZeroIff | src/main.py:160-161 | a Euclidean norm of `q - p` is zero exactly when `p == q` |
| Extended.Divide | src/main.py:165 | numpy division: finite iff the divisor is non-zero, and then `factor * divisor == dividend`; a zero divisor gives +inf, -inf or NaN by the dividend's sign |
| PinchTracker.ComputeMovements | src/main.py:135-139 | the keys are exactly the hands in both `pinches` and `last_pinches`; each value is current minus previous position; the result equals `MovementMap` |
| PinchTracker.MovementMapUnique | src/main.py:135-139 | any map with those keys and values is the movement map |
| PinchTracker.TrackStep | src/main.py:193-200 | after any frame the clear counter is within `0..5` |
| PinchTracker.KeptWithinWindow | src/main.py:196-200 | pinch-free frames that keep the counter within 5 keep the memory and only advance the counter |
| PinchTracker.StaysCleared | src/main.py:196-200 | once the memory is empty, pinch-free frames keep it empty |
| PinchTracker.ClearedAfterWindow | src/main.py:196-200 | enough pinch-free frames to push the counter past 5 leave the memory empty |
| PinchTracker.DebounceWindow | src/main.py:193-200 | after a pinch frame, the memory survives up to 5 pinch-free frames and is empty after any longer run |
| PinchTracker.ContinuousAcrossDropout | src/main.py:193-200 | a pinch back within 5 pinch-free frames is measured against its position before the dropout |
| GestureArbiter.OrbitRecoversMovement | src/main.py:143-149 | a single movement gives a rotation that mirrors `dx` and keeps the sign of `dy`; the movement is recovered from the angles |
| GestureArbiter.PanProperties | src/main.py:178-186 | the pan does not depend on the order of the two hands; it recovers the average movement; two equal movements pan by that movement times `PAN_SENSITIVITY` |
| GestureArbiter.TwoHandGesture | src/main.py:151-186 | zoom iff the lock is held or the distance changed by more than 0.025; the zoom factor is `curr_dist/last_dist`; otherwise pan of the two movements with the lock unchanged; starting a lock sets the counter to 0; a locked frame increments it and releases at 10; the invariant `active ==> counter < 10`, `counter <= 10` is preserved |
| GestureArbiter.ReleaseOnHandLoss | src/main.py:189-191 | fewer than two pinches give `zoom_active = False, zoom_counter = 0`; otherwise the lock is unchanged; the lock invariant is preserved |
| GestureArbiter.TwoHandRun | src/main.py:151-186 | helper for the run lemmas: folds `TwoHandGesture` over consecutive two-hand frames; its contract states only that there is one command per frame |
| GestureArbiter.LockedFramesZoom | src/main.py:164-170 | while a lock has frames left, every two-hand frame zooms whatever the distances, and only the counter advances |
| GestureArbiter.ZoomLockWindow | src/main.py:164-177 | a zoom started by a spread change holds for exactly the next 10 two-hand frames and is then released |
| GestureArbiter.OrbitExample | src/main.py:143-147 | a pinch moved from (0.50, 0.50) to (0.52, 0.48) rotates by (-6, -6) degrees |
| GestureArbiter.ZoomStartExample | src/main.py:172-176 | a spread from 0.30 to 0.35 starts a zoom by 0.35/0.30 and engages the lock |
| GestureArbiter.PanExample | src/main.py:178-185 | a spread from 0.30 to 0.31 pans by the average movement, with no lock |
| Session.PairKeys | src/main.py:153-158 | with hand positions below 2, a map with two or more entries holds exactly hands 0 and 1, and a single entry is hand 0 or hand 1 |
| Session.FramePinchKeys | src/main.py:130-132 | a frame's pinch map is keyed by the positions of its pinching hands, each mapped to that hand's index tip |
| Session.FrameStepKeepsValid | src/main.py:98-200 | every frame keeps the invariant: clear counter within 5, zoom lock consistent, remembered hands below 2 |
| Session.NoMovementNoCommand | src/main.py:141-151 | no hand pinching now and before means no command |
| Session.SingleMovementOrbits | src/main.py:143-149 | a frame with the single movement `d` issues `Orbit(d)` |
| Session.TwoMovementsZoomOrPan | src/main.py:151-186 | with hands 0 and 1 pinching now and before: zoom iff locked or `abs(curr_dist - last_dist) > 0.025`, by `curr_dist/last_dist`; otherwise pan of their two movements |
| Session.ZoomFactorFiniteIff | src/main.py:160-175 | under a Euclidean norm, the zoom factor is finite exactly when the two remembered pinch points differ |
| Session.HandLossReleasesLock | src/main.py:189-191 | a frame with fewer than two pinches leaves the lock off with counter 0 |
| Session.FrameDebounce | src/main.py:115-200 | with or without hands, the memory after a frame is the debounce step on that frame's pinches |
| Session.NoHandsLikeNoPinches | src/main.py:115-127 | the early exit for a frame without hands has the same command and state effect as a frame whose hands do not pinch |
| Session.GestureSession.constructor | src/main.py:98-102 | the session starts with no remembered pinches, clear counter 0 and the lock off |
| Session.GestureSession.ProcessFrame | src/main.py:104-200 | the command and the new state are exactly `FrameStep` of the old state; the session invariant is kept |
| Session.GestureSession.Arbitrate | src/main.py:141-186 | the command and lock follow `Gesture`; `last_pinches` and its counter are untouched; the session invariant is kept |
| Session.GestureSession.Debounce | src/main.py:193-200 | the remembered pinches and counter follow `TrackStep`; the lock is untouched; given pinch keys below 2, the session invariant is kept |
| PinchCounter.CountPinches | src/pinch_detector.py:5-31 | the count is at most the number of hands |
| PinchCounter.DetectPinch | src/pinch_detector.py:5-33 | the loop returns `CountPinches(hands)`, which is between 0 and the number of hands |
| PinchCounter.CountConcat | src/pinch_detector.py:6-31 | the count of two runs of hands is the sum of their counts |
| PinchCounter.CountAppend | src/pinch_detector.py:6-31 | appending one hand raises the count by 1 if that hand passes the test, and by 0 otherwise |
| PinchCounter.CountIsNumberCounted | src/pinch_detector.py:6-31 | the count equals the size of the set of positions of the hands that pass the test |
| PinchCounter.DegenerateThumbIff | src/pinch_detector.py:14-16 | `thumb_length_squared == 0` exactly when the thumb tip is on its joint |
| PinchCounter.DegenerateThumbNotCounted | src/pinch_detector.py:24-30 | with `thumb_length_squared == 0` the normalised distance is infinite and the hand is never counted, since infinity is below no threshold |
| PinchCounter.CountedIffCleared | src/pinch_detector.py:24-30 | when `thumb_length_squared > 0`, counted iff `tip_squared_dist < thumb_length_squared * PINCH_THRESHOLD_SQUARED` |
| PinchCounter.CoincidentTipsCounted | src/pinch_detector.py:19-30 | touching index and thumb tips are counted when the thumb segment has length |
| PinchCounter.CountedImpliesPinch | src/pinch_detector.py:24-31 | every hand this counter counts also pinches for the main loop's classifier (threshold 1 against 1.5) |
| PinchCounter.ScaledComparisons | src/pinch_detector.py:14-21 | scaling a hand by `c > 0` keeps the sign of the thumb length and the comparison of the two squared distances |
| PinchCounter.ScaleKeepsCounted | src/pinch_detector.py:14-30 | scaling a hand by `c > 0` does not change whether it is counted |
| PinchCounter.ScaleKeepsCount | src/pinch_detector.py:6-31 | scaling every hand by `c > 0` leaves the count unchanged |

## Left out

- `src/sw_API.py` is not part of this model. This covers the COM connection
  and its retry loop, the view transforms, and the zoom range check, which
  only guards the foreign call. Its three operations appear only as the
  `Command` a frame returns.
- The camera, the preview window, `waitKey` and the landmark drawing are
  I/O and are not modelled.
- The MediaPipe detector is not modelled. Its per-frame result is the input
  `hands`.
- Floating point is not modelled. Coordinates are exact reals: float
  rounding of the landmark coordinates and of numpy's float64 arithmetic is
  not represented. Only the
  non-finite results the code relies on are modelled: `float('inf')` in
  `detect_pinch` and numpy's division by zero.
- `np.linalg.norm` is a parameter characterised by `IsEuclideanNorm`, not a
  computed square root. Dafny has no real square root.
- The `print` in `detect_pinch` is output only and is not modelled.
- In `src/main.py` the three view helpers are called with the wrong arity.
  `rotate_view(view, …)`, `zoom_view(view, …)` and `pan_view(view, …)` all
  omit the `model` argument of their definitions in `src/sw_API.py`. As
  written, each of these calls (src/main.py:148, 166, 176, 185) raises
  `TypeError`, so the loop ends at the first command other than `None`. The
  model carries on as if the intended call had succeeded: it returns the
  command and continues with the state updates.
- `GraphicsRedraw2` is not a separate step. It is implied by every command
  other than `None`.
- Session.GestureSession.ProcessFrame: requires at most `MAX_NUM_HANDS`
  (2) hands, as the detector is configured. With three or more hands the
  two-hand branch could read `last_pinches` for a hand that has no entry
  there, which would raise `KeyError`. That case is outside the configured
  system.
- Session.GestureSession.ProcessFrame, Landmarks.ExtractKeyLandmarks,
  PinchCounter.CountPinches and PinchCounter.DetectPinch: require hands with
  at least 9 landmarks (`AllHaveKeyLandmarks`). The detector always reports
  21. With fewer, the indexing at src/main.py:42-45 and
  src/pinch_detector.py:9-11 would raise `IndexError`.
- Hand identity across frames is the hand's position in the detector output,
  as in the code. This is not a stable tracking of hands.
