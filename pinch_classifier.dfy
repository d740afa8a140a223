/** Pinch classification (`detect_pinches_vectorized` in src/main.py): a
    hand pinches when its thumb tip and index tip are closer than the thumb's
    last segment, both measured as squared distances so no square root is
    taken. */
module PinchClassifier {
  import opened Geometry
  import opened Landmarks

  /** Multiplier on the squared thumb-segment length. */
  const PINCH_THRESHOLD: real := 1.5

  /** `thumb_len_sq`: squared length of the thumb tip to thumb joint segment. */
  function ThumbLenSq(k: KeyPoints): real
  {
    DistSq(k.thumbTip, k.thumbPip)
  }

  /** `dist_sq`: squared distance from the index tip to the thumb tip. */
  function TipDistSq(k: KeyPoints): real
  {
    DistSq(k.indexTip, k.thumbTip)
  }

  /** `is_pinch` for one hand. */
  predicate IsPinch(k: KeyPoints)
  {
    TipDistSq(k) < ThumbLenSq(k) * PINCH_THRESHOLD
  }

  /** The pinch map of a frame: hand index to index-tip position, for the
      pinching hands only. */
  ghost function PinchMap(keys: seq<KeyPoints>): map<int, Point>
  {
    map i | 0 <= i < |keys| && IsPinch(keys[i]) :: keys[i].indexTip
  }

  /** The keys are exactly the indices of the pinching hands (so they lie in
      `0 .. n_hands - 1` and no hands give an empty map), and each value is
      that hand's index tip. */
  method DetectPinches(keys: seq<KeyPoints>) returns (pinches: map<int, Point>)
    ensures forall i :: i in pinches <==> 0 <= i < |keys| && IsPinch(keys[i])
    ensures forall i :: i in pinches ==> pinches[i] == keys[i].indexTip
    ensures pinches == PinchMap(keys)
  {
    if |keys| == 0 {
      return map[];
    }
    pinches := map[];
    for i := 0 to |keys|
      invariant forall j :: j in pinches <==> 0 <= j < i && IsPinch(keys[j])
      invariant forall j :: j in pinches ==> pinches[j] == keys[j].indexTip
    {
      if IsPinch(keys[i]) {
        pinches := pinches[i := keys[i].indexTip];
      }
    }
  }

  /** A collapsed thumb (tip on the joint) never pinches: the strict test
      against a zero bound fails. */
  lemma DegenerateThumbNeverPinches(k: KeyPoints)
    requires k.thumbTip == k.thumbPip
    ensures !IsPinch(k)
  {
    DistSqPositive(k.indexTip, k.thumbTip);
    assert ThumbLenSq(k) == 0.0;
  }

  /** Touching tips always pinch, provided the thumb segment has length. */
  lemma CoincidentTipsPinch(k: KeyPoints)
    requires k.indexTip == k.thumbTip && k.thumbTip != k.thumbPip
    ensures IsPinch(k)
  {
    DistSqPositive(k.thumbTip, k.thumbPip);
    assert TipDistSq(k) == 0.0;
  }

  function ScaleKeyPoints(k: KeyPoints, c: real): KeyPoints
  {
    KeyPoints(Scale(k.thumbTip, c), Scale(k.thumbPip, c), Scale(k.indexTip, c))
  }

  /** Scaling all three points by the same positive factor (the hand nearer
      to or farther from the camera) does not change the classification. */
  lemma ScaleInvariant(k: KeyPoints, c: real)
    requires c > 0.0
    ensures IsPinch(ScaleKeyPoints(k, c)) == IsPinch(k)
  {
    var s := ScaleKeyPoints(k, c);
    ScaleDistSq(k.indexTip, k.thumbTip, c);
    ScaleDistSq(k.thumbTip, k.thumbPip, c);
    SqPositive(c);
    MulPositiveKeepsLess(Sq(c), TipDistSq(k), ThumbLenSq(k) * PINCH_THRESHOLD,
                         TipDistSq(s), ThumbLenSq(s) * PINCH_THRESHOLD);
  }
}
