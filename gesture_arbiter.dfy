/** Gesture arbitration (src/main.py, main loop): which view command a
    frame's pinch movements produce, and the zoom lock that keeps a started
    zoom going for a fixed number of frames. At most one command per frame;
    every command other than `None` is followed by a redraw of the model. */
module GestureArbiter {
  import opened Geometry
  import opened Extended

  const ROTATION_SENSITIVITY: real := 300.0
  const PAN_SENSITIVITY: real := -0.5
  const ZOOM_THRESHOLD: real := 0.025
  /** Two-hand frames a started zoom is held for before the pinch distance
      is compared against the threshold again. */
  const ZOOM_LOCK_FRAMES: nat := 10

  /** The view command of one frame: the arguments of `rotate_view`,
      `zoom_view` or `pan_view`, or no call at all. */
  datatype Command = None | Rotate(xDeg: real, yDeg: real) | Zoom(factor: Float) | Pan(dx: real, dy: real)

  /** `zoom_active` and `zoom_counter`. */
  datatype ZoomLock = ZoomLock(active: bool, counter: nat)

  /** What holds between frames: a held lock still has frames to go, and the
      counter never runs past the lock length. */
  predicate LockValid(l: ZoomLock)
  {
    (l.active ==> l.counter < ZOOM_LOCK_FRAMES) && l.counter <= ZOOM_LOCK_FRAMES
  }

  /** Single-hand orbit of the one movement `(dx, dy)`. */
  function Orbit(d: Point): Command
  {
    Rotate(d.x * ROTATION_SENSITIVITY * -1.0, d.y * ROTATION_SENSITIVITY)
  }

  /** The orbit is mirrored horizontally and direct vertically, and it loses
      nothing: the movement is recovered from the rotation angles. */
  lemma OrbitRecoversMovement(d: Point)
    ensures Orbit(d).Rotate?
    ensures Point(-Orbit(d).xDeg / ROTATION_SENSITIVITY, Orbit(d).yDeg / ROTATION_SENSITIVITY) == d
    ensures Orbit(d).xDeg < 0.0 <==> d.x > 0.0
    ensures Orbit(d).yDeg < 0.0 <==> d.y < 0.0
  {
  }

  /** Two-hand pan by the average of the two movements. */
  function PanOf(m1: Point, m2: Point): Command
  {
    var avg := Average(m1, m2);
    Pan(avg.x * PAN_SENSITIVITY, avg.y * PAN_SENSITIVITY)
  }

  /** The pan does not depend on which hand is first, recovers the average
      movement, and two hands moving together pan by their common movement. */
  lemma PanProperties(m1: Point, m2: Point)
    ensures PanOf(m1, m2).Pan?
    ensures PanOf(m1, m2) == PanOf(m2, m1)
    ensures Point(PanOf(m1, m2).dx / PAN_SENSITIVITY, PanOf(m1, m2).dy / PAN_SENSITIVITY) == Average(m1, m2)
    ensures m1 == m2 ==> PanOf(m1, m2) == Pan(m1.x * PAN_SENSITIVITY, m1.y * PAN_SENSITIVITY)
  {
  }

  /** The measurements of a two-hand frame: distance between the two pinch
      points now and in the remembered frame, and the two hands' movements. */
  datatype PairFrame = PairFrame(currDist: real, lastDist: real, m1: Point, m2: Point)

  /** The pinch distance changed by more than the threshold. */
  predicate SpreadChanged(f: PairFrame)
  {
    Abs(f.currDist - f.lastDist) > ZOOM_THRESHOLD
  }

  /** One two-hand frame. A held lock zooms whatever the distances and
      counts the frame, releasing after the last one; otherwise a spread
      change above the threshold starts a lock and zooms, and anything less
      pans and leaves the lock alone. The zoom factor is the ratio of the
      distances, unguarded. */
  function TwoHandGesture(lock: ZoomLock, f: PairFrame): (r: (Command, ZoomLock))
    ensures r.0.Zoom? <==> lock.active || SpreadChanged(f)
    ensures r.0.Zoom? ==> r.0.factor == Divide(f.currDist, f.lastDist)
    ensures !r.0.Zoom? ==> r.0 == PanOf(f.m1, f.m2) && r.1 == lock
    ensures !lock.active && r.0.Zoom? ==> r.1 == ZoomLock(true, 0)
    ensures lock.active ==> r.1.counter == lock.counter + 1
    ensures lock.active ==> (r.1.active <==> lock.counter + 1 < ZOOM_LOCK_FRAMES)
    ensures LockValid(lock) ==> LockValid(r.1)
  {
    if lock.active then
      var counter := lock.counter + 1;
      (Zoom(Divide(f.currDist, f.lastDist)), ZoomLock(counter < ZOOM_LOCK_FRAMES, counter))
    else if SpreadChanged(f) then
      (Zoom(Divide(f.currDist, f.lastDist)), ZoomLock(true, 0))
    else
      (PanOf(f.m1, f.m2), lock)
  }

  /** Fewer than two pinching hands drop the zoom lock. */
  function ReleaseOnHandLoss(lock: ZoomLock, pinchCount: nat): (r: ZoomLock)
    ensures pinchCount < 2 ==> !r.active && r.counter == 0
    ensures pinchCount >= 2 ==> r == lock
    ensures LockValid(lock) ==> LockValid(r)
  {
    if pinchCount < 2 then ZoomLock(false, 0) else lock
  }

  /** Consecutive two-hand frames: the commands and the final lock. */
  function TwoHandRun(lock: ZoomLock, frames: seq<PairFrame>): (r: (seq<Command>, ZoomLock))
    ensures |r.0| == |frames|
    decreases |frames|
  {
    if |frames| == 0 then ([], lock)
    else
      var (cmd, next) := TwoHandGesture(lock, frames[0]);
      var (cmds, final) := TwoHandRun(next, frames[1..]);
      ([cmd] + cmds, final)
  }

  /** While a lock has frames left, every two-hand frame zooms, whatever the
      distances, and only the counter moves. */
  lemma {:induction false} LockedFramesZoom(counter: nat, frames: seq<PairFrame>)
    requires counter + |frames| <= ZOOM_LOCK_FRAMES
    requires |frames| > 0 ==> counter < ZOOM_LOCK_FRAMES
    ensures forall i :: 0 <= i < |frames| ==> TwoHandRun(ZoomLock(true, counter), frames).0[i].Zoom?
    ensures |frames| > 0 ==>
              TwoHandRun(ZoomLock(true, counter), frames).1
              == ZoomLock(counter + |frames| < ZOOM_LOCK_FRAMES, counter + |frames|)
    decreases |frames|
  {
    if |frames| > 0 {
      var next := TwoHandGesture(ZoomLock(true, counter), frames[0]).1;
      assert next == ZoomLock(counter + 1 < ZOOM_LOCK_FRAMES, counter + 1);
      if |frames| > 1 {
        LockedFramesZoom(counter + 1, frames[1..]);
      }
    }
  }

  /** A zoom started by a spread change holds for exactly the following
      `ZOOM_LOCK_FRAMES` two-hand frames, whatever they measure, and is
      released after them: the frame after is judged by the threshold again. */
  lemma ZoomLockWindow(lock: ZoomLock, start: PairFrame, frames: seq<PairFrame>)
    requires !lock.active && SpreadChanged(start)
    requires |frames| == ZOOM_LOCK_FRAMES
    ensures TwoHandGesture(lock, start) == (Zoom(Divide(start.currDist, start.lastDist)), ZoomLock(true, 0))
    ensures forall i :: 0 <= i < |frames| ==> TwoHandRun(ZoomLock(true, 0), frames).0[i].Zoom?
    ensures TwoHandRun(ZoomLock(true, 0), frames).1 == ZoomLock(false, ZOOM_LOCK_FRAMES)
  {
    LockedFramesZoom(0, frames);
  }

  /** One pinch moving from (0.50, 0.50) to (0.52, 0.48) turns the view by
      -6 degrees about both axes. */
  lemma OrbitExample()
    ensures Orbit(Sub(Point(0.52, 0.48), Point(0.50, 0.50))) == Rotate(-6.0, -6.0)
  {
  }

  /** Two pinches spreading from 0.30 to 0.35 apart start a zoom by their
      ratio and a lock on an unlocked session. */
  lemma ZoomStartExample(m1: Point, m2: Point)
    ensures TwoHandGesture(ZoomLock(false, 0), PairFrame(0.35, 0.30, m1, m2))
            == (Zoom(Finite(0.35 / 0.30)), ZoomLock(true, 0))
  {
  }

  /** Two pinches drifting from 0.30 to 0.31 apart pan by their average
      movement, and the lock stays off. */
  lemma PanExample(m1: Point, m2: Point)
    ensures TwoHandGesture(ZoomLock(false, 0), PairFrame(0.31, 0.30, m1, m2))
            == (PanOf(m1, m2), ZoomLock(false, 0))
  {
  }
}
