/** The standalone pinch counter (`detect_pinch` in src/pinch_detector.py):
    counts the hands whose thumb-to-index distance, normalised by the thumb
    segment length, is below the threshold. A collapsed thumb segment makes
    the normalised distance infinite rather than dividing by zero. */
module PinchCounter {
  import opened Geometry
  import opened Extended
  import opened Landmarks
  import PinchClassifier

  /** Threshold in thumb-segment lengths, and its square. */
  const PINCH_THRESHOLD: int := 1
  const PINCH_THRESHOLD_SQUARED: int := PINCH_THRESHOLD * PINCH_THRESHOLD

  /** `thumb_dx*thumb_dx + thumb_dy*thumb_dy`. */
  function ThumbLengthSquared(hand: Hand): real
    requires HasKeyLandmarks(hand)
  {
    DistSq(hand[IDX_THUMB_TIP], hand[IDX_THUMB_PIP])
  }

  /** `tip_dx*tip_dx + tip_dy*tip_dy`. */
  function TipSquaredDist(hand: Hand): real
    requires HasKeyLandmarks(hand)
  {
    DistSq(hand[IDX_INDEX_TIP], hand[IDX_THUMB_TIP])
  }

  /** The tip distance relative to the thumb length, or `float('inf')` for a
      thumb segment of no length. */
  function NormalizedSquaredDist(hand: Hand): Float
    requires HasKeyLandmarks(hand)
  {
    if ThumbLengthSquared(hand) > 0.0 then Finite(TipSquaredDist(hand) / ThumbLengthSquared(hand))
    else PosInf
  }

  /** The per-hand test that increments `num_pinches`. */
  predicate IsCounted(hand: Hand)
    requires HasKeyLandmarks(hand)
  {
    LessThan(NormalizedSquaredDist(hand), PINCH_THRESHOLD_SQUARED as real)
  }

  /** The number of counted hands; never more than there are hands. */
  function CountPinches(hands: seq<Hand>): (n: nat)
    requires AllHaveKeyLandmarks(hands)
    ensures n <= |hands|
  {
    if |hands| == 0 then 0
    else (if IsCounted(hands[0]) then 1 else 0) + CountPinches(hands[1..])
  }

  /** The count of two runs of hands is the sum of their counts. */
  lemma {:induction false} CountConcat(a: seq<Hand>, b: seq<Hand>)
    requires AllHaveKeyLandmarks(a) && AllHaveKeyLandmarks(b)
    ensures AllHaveKeyLandmarks(a + b)
    ensures CountPinches(a + b) == CountPinches(a) + CountPinches(b)
    decreases |a|
  {
    if |a| > 0 {
      assert (a + b)[1..] == a[1..] + b;
      assert (a + b)[0] == a[0];
      CountConcat(a[1..], b);
    } else {
      assert a + b == b;
    }
  }

  /** One more hand raises the count by one exactly when that hand passes
      the test, and by nothing otherwise. */
  lemma CountAppend(hands: seq<Hand>, hand: Hand)
    requires AllHaveKeyLandmarks(hands) && HasKeyLandmarks(hand)
    ensures AllHaveKeyLandmarks(hands + [hand])
    ensures CountPinches(hands + [hand]) == CountPinches(hands) + (if IsCounted(hand) then 1 else 0)
  {
    CountConcat(hands, [hand]);
    assert [hand][1..] == [];
  }

  /** Counts the pinching hands, one hand per loop iteration. */
  method DetectPinch(hands: seq<Hand>) returns (numPinches: nat)
    requires AllHaveKeyLandmarks(hands)
    ensures numPinches == CountPinches(hands)
    ensures numPinches <= |hands|
  {
    numPinches := 0;
    for i := 0 to |hands|
      invariant numPinches == CountPinches(hands[..i])
    {
      var hand := hands[i];
      var thumbLengthSquared := ThumbLengthSquared(hand);
      var tipSquaredDist := TipSquaredDist(hand);
      var normalizedSquaredDist: Float;
      if thumbLengthSquared > 0.0 {
        normalizedSquaredDist := Finite(tipSquaredDist / thumbLengthSquared);
      } else {
        normalizedSquaredDist := PosInf;
      }
      CountAppend(hands[..i], hand);
      assert hands[..i + 1] == hands[..i] + [hand];
      if LessThan(normalizedSquaredDist, PINCH_THRESHOLD_SQUARED as real) {
        numPinches := numPinches + 1;
      }
    }
    assert hands[..|hands|] == hands;
  }

  /** The thumb segment has no length exactly when its tip sits on its
      joint. */
  lemma DegenerateThumbIff(hand: Hand)
    requires HasKeyLandmarks(hand)
    ensures ThumbLengthSquared(hand) == 0.0 <==> hand[IDX_THUMB_TIP] == hand[IDX_THUMB_PIP]
  {
    DistSqZeroIff(hand[IDX_THUMB_TIP], hand[IDX_THUMB_PIP]);
  }

  /** A hand with a thumb segment of no length is never counted: its
      normalised distance is infinite, and infinity is below no threshold. */
  lemma DegenerateThumbNotCounted(hand: Hand)
    requires HasKeyLandmarks(hand)
    requires ThumbLengthSquared(hand) == 0.0
    ensures NormalizedSquaredDist(hand) == PosInf
    ensures !IsCounted(hand)
  {
  }

  /** With a thumb segment of positive length the division test is the
      comparison cleared of its denominator. */
  lemma CountedIffCleared(hand: Hand)
    requires HasKeyLandmarks(hand)
    requires ThumbLengthSquared(hand) > 0.0
    ensures IsCounted(hand) <==> TipSquaredDist(hand) < ThumbLengthSquared(hand) * (PINCH_THRESHOLD_SQUARED as real)
  {
    var len := ThumbLengthSquared(hand);
    var tip := TipSquaredDist(hand);
    MulPositiveKeepsLess(len, tip / len, 1.0, tip, len * 1.0);
  }

  /** A zero tip distance over a positive thumb length is counted. */
  lemma ZeroTipDistCounted(hand: Hand)
    requires HasKeyLandmarks(hand)
    requires TipSquaredDist(hand) == 0.0 && ThumbLengthSquared(hand) > 0.0
    ensures IsCounted(hand)
  {
    assert NormalizedSquaredDist(hand) == Finite(0.0 / ThumbLengthSquared(hand));
  }

  lemma TouchingTipsZeroDist(hand: Hand)
    requires HasKeyLandmarks(hand)
    requires hand[IDX_INDEX_TIP] == hand[IDX_THUMB_TIP]
    ensures TipSquaredDist(hand) == 0.0
  {
    DistSqZeroIff(hand[IDX_INDEX_TIP], hand[IDX_THUMB_TIP]);
  }

  lemma ThumbLengthPositive(hand: Hand)
    requires HasKeyLandmarks(hand)
    requires hand[IDX_THUMB_TIP] != hand[IDX_THUMB_PIP]
    ensures ThumbLengthSquared(hand) > 0.0
  {
    DistSqPositive(hand[IDX_THUMB_TIP], hand[IDX_THUMB_PIP]);
  }

  /** A hand whose index tip touches its thumb tip is counted, provided the
      thumb segment has length. */
  lemma CoincidentTipsCounted(hand: Hand)
    requires HasKeyLandmarks(hand)
    requires hand[IDX_INDEX_TIP] == hand[IDX_THUMB_TIP] && hand[IDX_THUMB_TIP] != hand[IDX_THUMB_PIP]
    ensures IsCounted(hand)
  {
    TouchingTipsZeroDist(hand);
    ThumbLengthPositive(hand);
    ZeroTipDistCounted(hand);
  }

  /** Every hand this counter counts is also a pinch for the classifier of
      the main loop, whose threshold is looser. */
  lemma CountedImpliesPinch(hand: Hand)
    requires HasKeyLandmarks(hand)
    ensures IsCounted(hand) ==> PinchClassifier.IsPinch(Project(hand))
  {
    if IsCounted(hand) {
      DistSqPositive(hand[IDX_THUMB_TIP], hand[IDX_THUMB_PIP]);
      CountedIffCleared(hand);
    }
  }

  /** The positions of the counted hands. */
  ghost function CountedPositions(hands: seq<Hand>): set<int>
    requires AllHaveKeyLandmarks(hands)
  {
    set i | 0 <= i < |hands| && IsCounted(hands[i])
  }

  /** The count is the number of hands that pass the test. */
  lemma {:induction false} CountIsNumberCounted(hands: seq<Hand>)
    requires AllHaveKeyLandmarks(hands)
    ensures CountPinches(hands) == |CountedPositions(hands)|
    decreases |hands|
  {
    if |hands| == 0 {
      forall i
        ensures i !in CountedPositions(hands)
      {
      }
      assert CountedPositions(hands) == {};
    } else {
      var n := |hands| - 1;
      var init := hands[..n];
      assert hands == init + [hands[n]];
      CountAppend(init, hands[n]);
      CountIsNumberCounted(init);
      var before := CountedPositions(init);
      var added := if IsCounted(hands[n]) then {n} else {};
      forall i
        ensures i in CountedPositions(hands) <==> i in before + added
      {
        if 0 <= i < n {
          assert hands[i] == init[i];
        }
      }
      assert CountedPositions(hands) == before + added;
      assert n !in before;
    }
  }

  /** Hand `hand` with every landmark scaled by `c`. */
  function ScaleHand(hand: Hand, c: real): (scaled: Hand)
    ensures |scaled| == |hand|
    ensures forall j :: 0 <= j < |hand| ==> scaled[j] == Scale(hand[j], c)
  {
    seq(|hand|, j requires 0 <= j < |hand| => Scale(hand[j], c))
  }

  function ScaleHands(hands: seq<Hand>, c: real): (scaled: seq<Hand>)
    ensures |scaled| == |hands|
    ensures forall i :: 0 <= i < |hands| ==> scaled[i] == ScaleHand(hands[i], c)
  {
    seq(|hands|, i requires 0 <= i < |hands| => ScaleHand(hands[i], c))
  }

  /** Scaling a hand by a positive `c` scales both of its squared distances
      by `c ** 2 > 0`, so neither the sign of the thumb length nor the
      comparison of the two distances changes. */
  lemma ScaledComparisons(hand: Hand, c: real)
    requires HasKeyLandmarks(hand) && c > 0.0
    ensures HasKeyLandmarks(ScaleHand(hand, c))
    ensures ThumbLengthSquared(ScaleHand(hand, c)) > 0.0 <==> ThumbLengthSquared(hand) > 0.0
    ensures TipSquaredDist(ScaleHand(hand, c)) < ThumbLengthSquared(ScaleHand(hand, c)) * 1.0
            <==> TipSquaredDist(hand) < ThumbLengthSquared(hand) * 1.0
  {
    var s := ScaleHand(hand, c);
    ScaleDistSq(hand[IDX_THUMB_TIP], hand[IDX_THUMB_PIP], c);
    ScaleDistSq(hand[IDX_INDEX_TIP], hand[IDX_THUMB_TIP], c);
    SqPositive(c);
    var len, lenS := ThumbLengthSquared(hand), ThumbLengthSquared(s);
    MulPositiveKeepsLess(Sq(c), 0.0, len, 0.0, lenS);
    MulPositiveKeepsLess(Sq(c), TipSquaredDist(hand), len * 1.0, TipSquaredDist(s), lenS * 1.0);
  }

  /** Scaling a hand by a positive factor does not change whether it is
      counted. */
  lemma ScaleKeepsCounted(hand: Hand, c: real)
    requires HasKeyLandmarks(hand) && c > 0.0
    ensures HasKeyLandmarks(ScaleHand(hand, c))
    ensures IsCounted(ScaleHand(hand, c)) == IsCounted(hand)
  {
    var s := ScaleHand(hand, c);
    ScaledComparisons(hand, c);
    if ThumbLengthSquared(hand) > 0.0 {
      CountedIffCleared(hand);
      CountedIffCleared(s);
    }
  }

  /** Scaling every hand by the same positive factor leaves the count
      unchanged. */
  lemma {:induction false} ScaleKeepsCount(hands: seq<Hand>, c: real)
    requires AllHaveKeyLandmarks(hands) && c > 0.0
    ensures AllHaveKeyLandmarks(ScaleHands(hands, c))
    ensures CountPinches(ScaleHands(hands, c)) == CountPinches(hands)
    decreases |hands|
  {
    var scaled := ScaleHands(hands, c);
    forall i | 0 <= i < |hands|
      ensures HasKeyLandmarks(scaled[i])
    {
      ScaleKeepsCounted(hands[i], c);
    }
    if |hands| > 0 {
      ScaleKeepsCounted(hands[0], c);
      assert scaled[1..] == ScaleHands(hands[1..], c);
      ScaleKeepsCount(hands[1..], c);
    }
  }
}
