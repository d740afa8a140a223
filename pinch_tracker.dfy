/** Pinch tracking across frames (src/main.py, main loop): the movement of
    every hand pinching in this frame and in the remembered one, and the
    debounce that keeps the remembered pinches through short detection
    dropouts. Hand identity is the hand's index in the detector's output for
    that frame. */
module PinchTracker {
  import opened Geometry

  /** Consecutive pinch-free frames tolerated before the remembered pinches
      are dropped. */
  const DEBOUNCE_FRAMES: nat := 5

  /** Movement of each hand pinching now and remembered from before:
      current minus previous index-tip position. */
  ghost function MovementMap(pinches: map<int, Point>, last: map<int, Point>): map<int, Point>
  {
    map h | h in pinches && h in last :: Sub(pinches[h], last[h])
  }

  /** A set with no member is empty (used to pick a member of a non-empty set). */
  lemma NoMemberEmpty(s: set<int>)
    ensures (forall x :: x !in s) ==> s == {}
  {
    if forall x :: x !in s {
      forall x
        ensures x in s <==> x in {}
      {
      }
    }
  }

  /** The keys of the result are exactly the hands present in both maps, and
      each value is current minus previous position. */
  method ComputeMovements(pinches: map<int, Point>, last: map<int, Point>) returns (movements: map<int, Point>)
    ensures forall h :: h in movements <==> h in pinches && h in last
    ensures forall h :: h in movements ==> movements[h] == Sub(pinches[h], last[h])
    ensures movements == MovementMap(pinches, last)
  {
    movements := map[];
    var todo := pinches.Keys;
    while todo != {}
      invariant todo <= pinches.Keys
      invariant forall h :: h in movements <==> h in pinches && h !in todo && h in last
      invariant forall h :: h in movements ==> movements[h] == Sub(pinches[h], last[h])
      decreases todo
    {
      NoMemberEmpty(todo);
      var hid: int :| hid in todo;
      if hid in last {
        movements := movements[hid := Sub(pinches[hid], last[hid])];
      }
      todo := todo - {hid};
    }
    MovementMapUnique(pinches, last, movements);
  }

  /** A map with the keys and values `ComputeMovements` promises is the
      movement map. */
  lemma MovementMapUnique(pinches: map<int, Point>, last: map<int, Point>, movements: map<int, Point>)
    requires forall h :: h in movements <==> h in pinches && h in last
    requires forall h :: h in movements ==> movements[h] == Sub(pinches[h], last[h])
    ensures movements == MovementMap(pinches, last)
  {
    var spec := MovementMap(pinches, last);
    forall h
      ensures h in movements <==> h in spec
    {
    }
    assert movements.Keys == spec.Keys;
    forall h | h in movements
      ensures movements[h] == spec[h]
    {
    }
  }

  /** The tracker's memory: the last non-empty pinch map and the number of
      pinch-free frames seen since. */
  datatype Track = Track(last: map<int, Point>, clearCounter: nat)

  /** One frame of the debounce: a non-empty pinch map replaces the memory;
      an empty one counts a dropout and forgets the memory once the count
      exceeds the window. Whatever the counter was, it ends within the
      window. */
  function TrackStep(t: Track, pinches: map<int, Point>): (r: Track)
    ensures r.clearCounter <= DEBOUNCE_FRAMES
  {
    if pinches != map[] then Track(pinches, 0)
    else if t.clearCounter + 1 > DEBOUNCE_FRAMES then Track(map[], 0)
    else Track(t.last, t.clearCounter + 1)
  }

  /** `k` consecutive pinch-free frames. */
  function EmptyRun(t: Track, k: nat): Track
    decreases k
  {
    if k == 0 then t else EmptyRun(TrackStep(t, map[]), k - 1)
  }

  /** While the dropouts stay within the window the memory is kept and only
      the counter advances. */
  lemma {:induction false} KeptWithinWindow(t: Track, k: nat)
    requires t.clearCounter + k <= DEBOUNCE_FRAMES
    ensures EmptyRun(t, k) == Track(t.last, t.clearCounter + k)
    decreases k
  {
    if k > 0 {
      KeptWithinWindow(TrackStep(t, map[]), k - 1);
    }
  }

  /** Once the memory is empty, further pinch-free frames keep it empty. */
  lemma {:induction false} StaysCleared(t: Track, k: nat)
    requires t.last == map[]
    ensures EmptyRun(t, k).last == map[]
    decreases k
  {
    if k > 0 {
      StaysCleared(TrackStep(t, map[]), k - 1);
    }
  }

  /** More dropouts than the window leaves the memory empty. */
  lemma {:induction false} ClearedAfterWindow(t: Track, k: nat)
    requires t.clearCounter <= DEBOUNCE_FRAMES
    requires t.clearCounter + k > DEBOUNCE_FRAMES
    ensures EmptyRun(t, k).last == map[]
    decreases k
  {
    var next := TrackStep(t, map[]);
    if t.clearCounter == DEBOUNCE_FRAMES {
      StaysCleared(next, k - 1);
    } else {
      ClearedAfterWindow(next, k - 1);
    }
  }

  /** After a pinch frame (counter 0) the memory survives up to
      `DEBOUNCE_FRAMES` pinch-free frames and is gone after one more. */
  lemma DebounceWindow(last: map<int, Point>, k: nat)
    ensures k <= DEBOUNCE_FRAMES ==> EmptyRun(Track(last, 0), k).last == last
    ensures k > DEBOUNCE_FRAMES ==> EmptyRun(Track(last, 0), k).last == map[]
  {
    if k <= DEBOUNCE_FRAMES {
      KeptWithinWindow(Track(last, 0), k);
    } else {
      ClearedAfterWindow(Track(last, 0), k);
    }
  }

  /** A pinch that returns within the window is measured against its
      position before the dropout: the tracking is continuous. */
  lemma ContinuousAcrossDropout(last: map<int, Point>, k: nat, pinches: map<int, Point>)
    requires k <= DEBOUNCE_FRAMES
    ensures MovementMap(pinches, EmptyRun(Track(last, 0), k).last) == MovementMap(pinches, last)
  {
    DebounceWindow(last, k);
  }
}
