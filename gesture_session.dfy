/** The per-frame state machine of the main loop (src/main.py): a session
    remembers the last pinch positions, the debounce counter and the zoom
    lock, and turns each frame's detected hands into at most one view
    command. */
module Session {
  import opened Geometry
  import opened Extended
  import opened Landmarks
  import opened PinchClassifier
  import opened PinchTracker
  import opened GestureArbiter

  /** The detector is configured for at most this many hands. */
  const MAX_NUM_HANDS: nat := 2

  /** The state carried from one frame to the next. */
  datatype SessionState = SessionState(track: Track, lock: ZoomLock)

  /** What holds between frames: the debounce counter is within its window,
      the zoom lock is consistent, and the remembered pinches belong to hand
      positions the detector can report. */
  predicate StateValid(s: SessionState)
  {
    && s.track.clearCounter <= DEBOUNCE_FRAMES
    && LockValid(s.lock)
    && forall h :: h in s.track.last ==> 0 <= h < MAX_NUM_HANDS
  }

  /** The pinch map of a frame's hands (empty when there are none). */
  ghost function FramePinches(hands: seq<Hand>): map<int, Point>
    requires AllHaveKeyLandmarks(hands)
  {
    PinchMap(ExtractKeyLandmarks(hands))
  }

  /** A map indexed by at most two hand positions: its size tells which of
      hands 0 and 1 it holds. */
  lemma PairKeys(m: map<int, Point>)
    requires forall h :: h in m ==> 0 <= h < MAX_NUM_HANDS
    ensures |m| <= MAX_NUM_HANDS
    ensures |m| == 1 ==> 0 in m || 1 in m
    ensures |m| >= 2 <==> 0 in m && 1 in m
  {
    if 0 in m && 1 in m {
      forall h
        ensures h in m.Keys <==> h in {0, 1}
      {
      }
      assert m.Keys == {0, 1};
    } else if 0 in m {
      forall h
        ensures h in m.Keys <==> h in {0}
      {
      }
      assert m.Keys == {0};
    } else if 1 in m {
      forall h
        ensures h in m.Keys <==> h in {1}
      {
      }
      assert m.Keys == {1};
    } else {
      forall h
        ensures h in m.Keys <==> h in {}
      {
      }
      assert m.Keys == {};
    }
  }

  /** `next(iter(movements.values()))`: the movement of the first pinching
      hand, hands being inserted in ascending position. */
  function FirstMovement(moves: map<int, Point>): Point
    requires 0 in moves || 1 in moves
  {
    if 0 in moves then moves[0] else moves[1]
  }

  /** The two-hand measurements for hands 0 and 1: the Euclidean distance
      between their pinch points now and before, and their movements. */
  function PairFrameOf(norm: Point -> real, pinches: map<int, Point>, last: map<int, Point>,
                       moves: map<int, Point>): PairFrame
    requires 0 in pinches && 1 in pinches && 0 in last && 1 in last && 0 in moves && 1 in moves
  {
    PairFrame(norm(Sub(pinches[1], pinches[0])), norm(Sub(last[1], last[0])), moves[0], moves[1])
  }

  /** The command for a frame's movements and the zoom lock after it: none
      without movements, an orbit for a single one, and for two the two-hand
      gesture of hands 0 and 1 (the first two pinch keys). */
  function Gesture(norm: Point -> real, lock: ZoomLock, pinches: map<int, Point>, last: map<int, Point>,
                   moves: map<int, Point>): (Command, ZoomLock)
    requires forall h :: h in moves ==> h in pinches && h in last && 0 <= h < MAX_NUM_HANDS
  {
    PairKeys(moves);
    if |moves| == 0 then (None, lock)
    else if |moves| == 1 then (Orbit(FirstMovement(moves)), lock)
    else TwoHandGesture(lock, PairFrameOf(norm, pinches, last, moves))
  }

  /** One frame of the main loop: the command it issues and the state it
      leaves. With no hands only the debounce and the zoom release run; with
      hands, the command follows from the movements, then the zoom lock is
      released when fewer than two hands pinch and the debounce runs on the
      frame's pinches. */
  ghost function FrameStep(norm: Point -> real, s: SessionState, hands: seq<Hand>): (Command, SessionState)
    requires |hands| <= MAX_NUM_HANDS && AllHaveKeyLandmarks(hands)
  {
    if |hands| == 0 then
      (None, SessionState(TrackStep(s.track, map[]), ZoomLock(false, 0)))
    else
      var pinches := FramePinches(hands);
      var moves := MovementMap(pinches, s.track.last);
      var g := Gesture(norm, s.lock, pinches, s.track.last, moves);
      (g.0, SessionState(TrackStep(s.track, pinches), ReleaseOnHandLoss(g.1, |pinches|)))
  }

  /** The pinches of a frame are keyed by the positions of its hands. */
  lemma FramePinchKeys(hands: seq<Hand>)
    requires AllHaveKeyLandmarks(hands)
    ensures forall h :: h in FramePinches(hands) <==>
              0 <= h < |hands| && IsPinch(ExtractKeyLandmarks(hands)[h])
    ensures forall h :: h in FramePinches(hands) ==> FramePinches(hands)[h] == hands[h][IDX_INDEX_TIP]
  {
  }

  /** The between-frame invariant survives every frame. */
  lemma FrameStepKeepsValid(norm: Point -> real, s: SessionState, hands: seq<Hand>)
    requires StateValid(s)
    requires |hands| <= MAX_NUM_HANDS && AllHaveKeyLandmarks(hands)
    ensures StateValid(FrameStep(norm, s, hands).1)
  {
  }

  /** A frame in which no hand pinches both now and in the remembered frame
      issues no command. */
  lemma NoMovementNoCommand(norm: Point -> real, s: SessionState, hands: seq<Hand>)
    requires |hands| <= MAX_NUM_HANDS && AllHaveKeyLandmarks(hands)
    requires forall h :: h in FramePinches(hands) ==> h !in s.track.last
    ensures FrameStep(norm, s, hands).0 == None
  {
  }

  /** A single movement `d` orbits the view by `d`. */
  lemma SingleMovementOrbits(norm: Point -> real, s: SessionState, hands: seq<Hand>, h: int, d: Point)
    requires |hands| <= MAX_NUM_HANDS && AllHaveKeyLandmarks(hands)
    requires MovementMap(FramePinches(hands), s.track.last) == map[h := d]
    ensures FrameStep(norm, s, hands).0 == Orbit(d)
  {
    var moves := MovementMap(FramePinches(hands), s.track.last);
    assert h in moves;
    PairKeys(moves);
    assert |moves| == 1;
    assert FirstMovement(moves) == d;
  }

  /** Two hands pinching now and before zoom by the ratio of their
      distances when the lock is held or the distance changed by more than
      the threshold, and otherwise pan by the average of their movements. */
  lemma TwoMovementsZoomOrPan(norm: Point -> real, s: SessionState, hands: seq<Hand>)
    requires |hands| <= MAX_NUM_HANDS && AllHaveKeyLandmarks(hands)
    requires 0 in FramePinches(hands) && 1 in FramePinches(hands)
    requires 0 in s.track.last && 1 in s.track.last
    ensures var p := FramePinches(hands);
            var l := s.track.last;
            var currDist := norm(Sub(p[1], p[0]));
            var lastDist := norm(Sub(l[1], l[0]));
            var cmd := FrameStep(norm, s, hands).0;
            && (cmd.Zoom? <==> s.lock.active || Abs(currDist - lastDist) > ZOOM_THRESHOLD)
            && (cmd.Zoom? ==> cmd.factor == Divide(currDist, lastDist))
            && (!cmd.Zoom? ==> cmd == PanOf(Sub(p[0], l[0]), Sub(p[1], l[1])))
  {
    var pinches := FramePinches(hands);
    var moves := MovementMap(pinches, s.track.last);
    assert 0 in moves && 1 in moves;
    PairKeys(moves);
    var f := PairFrameOf(norm, pinches, s.track.last, moves);
    assert FrameStep(norm, s, hands).0 == TwoHandGesture(s.lock, f).0;
  }

  /** The unguarded zoom division goes wrong exactly when the two
      remembered pinch points coincide: the factor is then infinite or NaN. */
  lemma ZoomFactorFiniteIff(norm: Point -> real, s: SessionState, hands: seq<Hand>)
    requires IsEuclideanNorm(norm)
    requires |hands| <= MAX_NUM_HANDS && AllHaveKeyLandmarks(hands)
    requires 0 in FramePinches(hands) && 1 in FramePinches(hands)
    requires 0 in s.track.last && 1 in s.track.last
    ensures FrameStep(norm, s, hands).0.Zoom? ==>
              (FrameStep(norm, s, hands).0.factor.Finite? <==> s.track.last[0] != s.track.last[1])
  {
    TwoMovementsZoomOrPan(norm, s, hands);
    NormZeroIff(norm, s.track.last[0], s.track.last[1]);
  }

  /** Fewer than two pinching hands release the zoom lock. */
  lemma HandLossReleasesLock(norm: Point -> real, s: SessionState, hands: seq<Hand>)
    requires |hands| <= MAX_NUM_HANDS && AllHaveKeyLandmarks(hands)
    requires |FramePinches(hands)| < 2
    ensures FrameStep(norm, s, hands).1.lock == ZoomLock(false, 0)
  {
  }

  /** The remembered pinches follow the debounce on the frame's pinches,
      with or without hands. */
  lemma FrameDebounce(norm: Point -> real, s: SessionState, hands: seq<Hand>)
    requires |hands| <= MAX_NUM_HANDS && AllHaveKeyLandmarks(hands)
    ensures FrameStep(norm, s, hands).1.track == TrackStep(s.track, FramePinches(hands))
  {
  }

  /** The early exit for a frame without hands has the same effect as a
      frame whose hands do not pinch. */
  lemma NoHandsLikeNoPinches(norm: Point -> real, s: SessionState, hands: seq<Hand>)
    requires |hands| <= MAX_NUM_HANDS && AllHaveKeyLandmarks(hands)
    requires FramePinches(hands) == map[]
    ensures FrameStep(norm, s, hands) == FrameStep(norm, s, [])
  {
  }

  class GestureSession {
    /** `np.linalg.norm` on 2-vectors. */
    const norm: Point -> real
    var lastPinches: map<int, Point>
    var lastPinchesClearCounter: nat
    var zoomActive: bool
    var zoomCounter: nat

    function State(): SessionState
      reads this
    {
      SessionState(Track(lastPinches, lastPinchesClearCounter), ZoomLock(zoomActive, zoomCounter))
    }

    ghost predicate Valid()
      reads this
    {
      IsEuclideanNorm(norm) && StateValid(State())
    }

    /** The state before the first frame: nothing remembered, no lock. */
    constructor (norm: Point -> real)
      requires IsEuclideanNorm(norm)
      ensures Valid()
      ensures this.norm == norm
      ensures State() == SessionState(Track(map[], 0), ZoomLock(false, 0))
    {
      this.norm := norm;
      lastPinches := map[];
      lastPinchesClearCounter := 0;
      zoomActive := false;
      zoomCounter := 0;
    }

    /** Processes one frame's detected hands: returns the view command and
        advances the session state exactly as `FrameStep` describes, keeping
        the between-frame invariant. */
    method ProcessFrame(hands: seq<Hand>) returns (cmd: Command)
      requires Valid()
      requires |hands| <= MAX_NUM_HANDS && AllHaveKeyLandmarks(hands)
      modifies this
      ensures Valid()
      ensures (cmd, State()) == FrameStep(norm, old(State()), hands)
    {
      if |hands| == 0 {
        lastPinchesClearCounter := lastPinchesClearCounter + 1;
        if lastPinchesClearCounter > DEBOUNCE_FRAMES {
          lastPinches := map[];
          lastPinchesClearCounter := 0;
        }
        zoomActive := false;
        zoomCounter := 0;
        return None;
      }

      var keyPoints := ExtractKeyLandmarks(hands);
      var pinches := DetectPinches(keyPoints);
      var movements := ComputeMovements(pinches, lastPinches);
      cmd := Arbitrate(pinches, movements);

      if |pinches| < 2 {
        zoomActive := false;
        zoomCounter := 0;
      }
      Debounce(pinches);
    }

    /** Issues the command for the frame's movements and advances the zoom
        lock as `Gesture` describes, keeping the session invariant; the
        remembered pinches are untouched. */
    method Arbitrate(pinches: map<int, Point>, movements: map<int, Point>) returns (cmd: Command)
      requires Valid()
      requires forall h :: h in movements ==> h in pinches && h in lastPinches && 0 <= h < MAX_NUM_HANDS
      modifies this
      ensures Valid()
      ensures lastPinches == old(lastPinches) && lastPinchesClearCounter == old(lastPinchesClearCounter)
      ensures (cmd, ZoomLock(zoomActive, zoomCounter))
              == Gesture(norm, old(ZoomLock(zoomActive, zoomCounter)), pinches, lastPinches, movements)
    {
      PairKeys(movements);
      cmd := None;
      var nMov := |movements|;
      if nMov == 1 {
        var d := FirstMovement(movements);
        cmd := Orbit(d);
      } else if nMov >= 2 {
        var p1 := pinches[0];
        var p2 := pinches[1];
        var p1Last := lastPinches[0];
        var p2Last := lastPinches[1];
        var currDist := norm(Sub(p2, p1));
        var lastDist := norm(Sub(p2Last, p1Last));
        var deltaDist := Abs(currDist - lastDist);
        if zoomActive {
          cmd := Zoom(Divide(currDist, lastDist));
          zoomCounter := zoomCounter + 1;
          if zoomCounter >= ZOOM_LOCK_FRAMES {
            zoomActive := false;
          }
        } else if deltaDist > ZOOM_THRESHOLD {
          zoomActive := true;
          zoomCounter := 0;
          cmd := Zoom(Divide(currDist, lastDist));
        } else {
          cmd := PanOf(movements[0], movements[1]);
        }
      }
    }

    /** The debounce on the frame's pinches, as `TrackStep` describes,
        keeping the session invariant; the zoom lock is untouched. */
    method Debounce(pinches: map<int, Point>)
      requires Valid()
      requires forall h :: h in pinches ==> 0 <= h < MAX_NUM_HANDS
      modifies this
      ensures Valid()
      ensures Track(lastPinches, lastPinchesClearCounter)
              == TrackStep(old(Track(lastPinches, lastPinchesClearCounter)), pinches)
      ensures zoomActive == old(zoomActive) && zoomCounter == old(zoomCounter)
    {
      if pinches != map[] {
        lastPinches := pinches;
        lastPinchesClearCounter := 0;
      } else {
        lastPinchesClearCounter := lastPinchesClearCounter + 1;
        if lastPinchesClearCounter > DEBOUNCE_FRAMES {
          lastPinches := map[];
          lastPinchesClearCounter := 0;
        }
      }
    }
  }
}
