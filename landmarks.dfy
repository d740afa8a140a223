/** Landmark extraction (`extract_key_landmarks` in src/main.py): each
    detected hand, a sequence of landmark positions in the detector's
    21-point numbering, is projected down to the three points the gesture
    logic needs. */
module Landmarks {
  import opened Geometry

  const IDX_THUMB_TIP: nat := 4
  const IDX_THUMB_PIP: nat := 3
  const IDX_INDEX_TIP: nat := 8

  /** One detected hand: its landmark positions (x, y), in detector order. */
  type Hand = seq<Point>

  /** The hand carries every landmark the extraction indexes. */
  predicate HasKeyLandmarks(hand: Hand)
  {
    IDX_THUMB_TIP < |hand| && IDX_THUMB_PIP < |hand| && IDX_INDEX_TIP < |hand|
  }

  predicate AllHaveKeyLandmarks(hands: seq<Hand>)
  {
    forall h :: 0 <= h < |hands| ==> HasKeyLandmarks(hands[h])
  }

  /** One row of the `(n_hands, 3, 2)` array: positions 0, 1 and 2 hold the
      thumb tip, the thumb joint and the index tip. */
  datatype KeyPoints = KeyPoints(thumbTip: Point, thumbPip: Point, indexTip: Point)

  function Project(hand: Hand): KeyPoints
    requires HasKeyLandmarks(hand)
  {
    KeyPoints(hand[IDX_THUMB_TIP], hand[IDX_THUMB_PIP], hand[IDX_INDEX_TIP])
  }

  /** No hands give no rows; otherwise row `h` is `[hand[4], hand[3], hand[8]]`
      of hand `h`, one row per hand and in detector order. */
  function ExtractKeyLandmarks(hands: seq<Hand>): (keys: seq<KeyPoints>)
    requires AllHaveKeyLandmarks(hands)
    ensures |keys| == |hands|
    ensures forall h :: 0 <= h < |hands| ==>
              keys[h] == KeyPoints(hands[h][IDX_THUMB_TIP], hands[h][IDX_THUMB_PIP], hands[h][IDX_INDEX_TIP])
  {
    if |hands| == 0 then []
    else [Project(hands[0])] + ExtractKeyLandmarks(hands[1..])
  }
}
