/**
 * The hand-gesture classifier: from the 21 normalised landmarks of one detected
 * hand and its handedness to one of five gesture labels.
 *
 * Coordinates are exact reals. The finger-extension test compares two Euclidean
 * distances; it is written here without square roots (see `Exceeds`), and
 * `ExceedsMatchesDistances` shows that it agrees with the distance formulation
 * for whatever non-negative square roots the two squared distances have.
 */
module Gestures {

  /** The classifier's labels. UNKNOWN means "no hand" or "no rule matched". */
  datatype Gesture = Palm | Fist | Point | ThumbsUp | Unknown

  /** The game's vocabulary (GESTURES): every label except UNKNOWN. */
  predicate InVocabulary(g: Gesture) {
    g != Unknown
  }

  datatype Handedness = Left | Right

  /** One landmark in normalised image coordinates; y grows downward. */
  datatype Landmark = Landmark(x: real, y: real)

  datatype ClassifyError = TooFewLandmarks

  datatype Result<T> = Ok(value: T) | Err(error: ClassifyError)

  // Landmark indices used by the classifier.
  const Wrist: nat := 0
  const ThumbMcp: nat := 1
  const ThumbPip: nat := 2
  const ThumbTip: nat := 4
  const IndexPip: nat := 6
  const IndexTip: nat := 8
  const MiddlePip: nat := 10
  const MiddleTip: nat := 12
  const RingPip: nat := 14
  const RingTip: nat := 16
  const PinkyPip: nat := 18
  const PinkyTip: nat := 20
  /** The highest index read is 20, so 21 landmarks are needed. */
  const LandmarksRead: nat := 21

  const FingerThreshold: real := 0.04
  const ThumbThreshold: real := 0.02
  const UpwardRatio: real := 0.35
  const LateralTolerance: real := 0.03

  function Abs(r: real): real {
    if r < 0.0 then -r else r
  }

  /** The vector from `a` to `b`. */
  function Vector(a: Landmark, b: Landmark): Landmark {
    Landmark(b.x - a.x, b.y - a.y)
  }

  function SquaredDistance(a: Landmark, b: Landmark): real {
    var v := Vector(a, b);
    v.x * v.x + v.y * v.y
  }

  /**
   * For a positive threshold `t`, "sqrt(tip2) - sqrt(pip2) > t" without roots:
   * sqrt(tip2) > sqrt(pip2) + t  iff  tip2 - pip2 - t^2 > 2 t sqrt(pip2),
   * and a positive number exceeds 2 t sqrt(pip2) iff its square exceeds 4 t^2 pip2.
   */
  predicate Exceeds(tip2: real, pip2: real, t: real) {
    var d := tip2 - pip2 - t * t;
    d > 0.0 && d * d > 4.0 * t * t * pip2
  }

  /** A finger is extended when its tip is farther from the wrist than its PIP joint by more than `threshold`. */
  predicate FingerExtended(lm: seq<Landmark>, tip: nat, pip: nat, threshold: real)
    requires Wrist < |lm| && tip < |lm| && pip < |lm|
    ensures FingerExtended(lm, tip, pip, threshold) ==>
      SquaredDistance(lm[Wrist], lm[pip]) < SquaredDistance(lm[Wrist], lm[tip])
  {
    assert 0.0 <= threshold * threshold;
    Exceeds(SquaredDistance(lm[Wrist], lm[tip]), SquaredDistance(lm[Wrist], lm[pip]), threshold)
  }

  lemma SquaresOrdered(x: real, y: real)
    requires 0.0 <= x && 0.0 <= y
    ensures x < y <==> x * x < y * y
  {
    if x < y {
      assert 0.0 <= (y - x) * x;
      assert 0.0 < (y - x) * y;
      assert y * y - x * x == (y - x) * x + (y - x) * y;
    } else {
      assert 0.0 <= (x - y) * x;
      assert 0.0 <= (x - y) * y;
      assert x * x - y * y == (x - y) * x + (x - y) * y;
    }
  }

  /**
   * `Exceeds` is the distance test: for any non-negative `dTip`, `dPip` (the
   * wrist-to-tip and wrist-to-PIP distances) and positive threshold, the
   * root-free test on their squares holds exactly when dTip - dPip > t.
   */
  lemma ExceedsMatchesDistances(dTip: real, dPip: real, t: real)
    requires 0.0 <= dTip && 0.0 <= dPip && 0.0 < t
    ensures Exceeds(dTip * dTip, dPip * dPip, t) <==> dTip - dPip > t
  {
    var d := dTip * dTip - dPip * dPip - t * t;
    var e := 2.0 * t * dPip;
    assert 0.0 <= t * dPip;
    assert (dPip + t) * (dPip + t) == dPip * dPip + e + t * t;
    assert e * e == 4.0 * t * t * (dPip * dPip);
    SquaresOrdered(dPip + t, dTip);
    if d > 0.0 {
      SquaresOrdered(e, d);
    }
  }

  /** The same test on a hand: the verdict equals "distance difference exceeds threshold". */
  lemma FingerExtendedMeansDistanceGap(lm: seq<Landmark>, tip: nat, pip: nat, threshold: real,
                                       dTip: real, dPip: real)
    requires Wrist < |lm| && tip < |lm| && pip < |lm| && 0.0 < threshold
    requires 0.0 <= dTip && dTip * dTip == SquaredDistance(lm[Wrist], lm[tip])
    requires 0.0 <= dPip && dPip * dPip == SquaredDistance(lm[Wrist], lm[pip])
    ensures FingerExtended(lm, tip, pip, threshold) <==> dTip - dPip > threshold
  {
    ExceedsMatchesDistances(dTip, dPip, threshold);
  }

  /** The wrist-to-tip vector points up by more than the tolerance allows sideways. */
  predicate PointsUpward(wrist: Landmark, tip: Landmark)
    ensures PointsUpward(wrist, tip) ==> tip.y < wrist.y
    ensures tip.x == wrist.x && tip.y < wrist.y ==> PointsUpward(wrist, tip)
  {
    var v := Vector(wrist, tip);
    -v.y > UpwardRatio * Abs(v.x)
  }

  /** The MCP-to-tip vector does not cross the palm for this handedness. */
  predicate LateralOk(mcp: Landmark, tip: Landmark, hand: Handedness)
    ensures !LateralOk(mcp, tip, hand) ==> LateralTolerance < Abs(tip.x - mcp.x)
  {
    var v := Vector(mcp, tip);
    match hand
    case Right => v.x >= -LateralTolerance
    case Left => v.x <= LateralTolerance
  }

  /**
   * The lateral bounds of the two hands overlap: every thumb direction passes
   * for at least one hand, and a thumb within 0.03 sideways passes for both.
   */
  lemma LateralBoundsOverlap(mcp: Landmark, tip: Landmark)
    ensures LateralOk(mcp, tip, Right) || LateralOk(mcp, tip, Left)
    ensures Abs(tip.x - mcp.x) <= LateralTolerance ==> LateralOk(mcp, tip, Right) && LateralOk(mcp, tip, Left)
  {
  }

  /** thumb_extended_with_direction: extended, pointing upward and laterally coherent. */
  predicate ThumbUp(lm: seq<Landmark>, hand: Handedness)
    requires LandmarksRead <= |lm|
    ensures ThumbUp(lm, hand) ==> lm[ThumbTip].y < lm[Wrist].y
    ensures ThumbUp(lm, hand) ==>
      SquaredDistance(lm[Wrist], lm[ThumbPip]) < SquaredDistance(lm[Wrist], lm[ThumbTip])
  {
    && FingerExtended(lm, ThumbTip, ThumbPip, ThumbThreshold)
    && PointsUpward(lm[Wrist], lm[ThumbTip])
    && LateralOk(lm[ThumbMcp], lm[ThumbTip], hand)
  }

  /** The number of the four non-thumb fingers that are extended. */
  function CountExtended(index: bool, middle: bool, ring: bool, pinky: bool): (n: nat)
    ensures n <= 4
    ensures n == 0 <==> !index && !middle && !ring && !pinky
    ensures n == 4 <==> index && middle && ring && pinky
  {
    (if index then 1 else 0) + (if middle then 1 else 0) + (if ring then 1 else 0) + (if pinky then 1 else 0)
  }

  /**
   * The ordered decision policy of classify_gesture. Each label is characterised
   * by a condition that does not depend on the order of the rules.
   */
  function Decide(index: bool, middle: bool, ring: bool, pinky: bool, thumbUp: bool): (g: Gesture)
    ensures var n := CountExtended(index, middle, ring, pinky);
      && (g == Palm <==> n >= 3)
      && (g == Fist <==> n == 0 && !thumbUp)
      && (g == Point <==> index && !middle && !ring && !pinky)
      && (g == ThumbsUp <==> thumbUp && n <= 1 && !(index && !middle && !ring && !pinky))
      && (g == Unknown <==> n == 2 || (n == 1 && !index && !thumbUp))
  {
    var others := CountExtended(index, middle, ring, pinky);
    if others >= 3 then Palm
    else if others == 0 && !thumbUp then Fist
    else if index && !middle && !ring && !pinky then Point
    else if thumbUp && others <= 1 then ThumbsUp
    else Unknown
  }

  /**
   * classify_gesture on a landmark list. The source reads indices up to 20 and
   * does not check the length: fewer than 21 landmarks is an index error,
   * more than 21 are accepted and the extra ones ignored.
   */
  function ClassifyGesture(lm: seq<Landmark>, hand: Handedness): (r: Result<Gesture>)
    ensures r.Err? <==> |lm| < LandmarksRead
  {
    if |lm| < LandmarksRead then Err(TooFewLandmarks)
    else
      Ok(Decide(FingerExtended(lm, IndexTip, IndexPip, FingerThreshold),
                FingerExtended(lm, MiddleTip, MiddlePip, FingerThreshold),
                FingerExtended(lm, RingTip, RingPip, FingerThreshold),
                FingerExtended(lm, PinkyTip, PinkyPip, FingerThreshold),
                ThumbUp(lm, hand)))
  }

  /** PALM wins whenever three or more non-thumb fingers are extended, for either thumb state. */
  lemma PalmWhateverThumb(lm: seq<Landmark>, hand: Handedness)
    requires LandmarksRead <= |lm|
    requires CountExtended(FingerExtended(lm, IndexTip, IndexPip, FingerThreshold),
                           FingerExtended(lm, MiddleTip, MiddlePip, FingerThreshold),
                           FingerExtended(lm, RingTip, RingPip, FingerThreshold),
                           FingerExtended(lm, PinkyTip, PinkyPip, FingerThreshold)) >= 3
    ensures ClassifyGesture(lm, hand) == Ok(Palm)
    ensures ClassifyGesture(lm, if hand == Left then Right else Left) == Ok(Palm)
  {
  }

  /** The horizontal mirror image x -> 1 - x of a landmark list. */
  function Mirror(lm: seq<Landmark>): (m: seq<Landmark>)
    ensures |m| == |lm|
    ensures forall i :: 0 <= i < |lm| ==> m[i].x == 1.0 - lm[i].x && m[i].y == lm[i].y
  {
    seq(|lm|, i requires 0 <= i < |lm| => Landmark(1.0 - lm[i].x, lm[i].y))
  }

  function Opposite(hand: Handedness): (o: Handedness)
    ensures o != hand
  {
    match hand
    case Left => Right
    case Right => Left
  }

  /** Distances are unchanged by mirroring. */
  lemma MirrorKeepsDistance(a: Landmark, b: Landmark)
    ensures SquaredDistance(Landmark(1.0 - a.x, a.y), Landmark(1.0 - b.x, b.y)) == SquaredDistance(a, b)
  {
    var v := Vector(a, b);
    var w := Vector(Landmark(1.0 - a.x, a.y), Landmark(1.0 - b.x, b.y));
    assert w.x == -v.x && w.y == v.y;
    assert w.x * w.x == v.x * v.x;
  }

  lemma MirrorKeepsExtension(lm: seq<Landmark>, tip: nat, pip: nat, threshold: real)
    requires Wrist < |lm| && tip < |lm| && pip < |lm|
    ensures FingerExtended(Mirror(lm), tip, pip, threshold) == FingerExtended(lm, tip, pip, threshold)
  {
    MirrorKeepsDistance(lm[Wrist], lm[tip]);
    MirrorKeepsDistance(lm[Wrist], lm[pip]);
  }

  /**
   * Mirroring every x-coordinate and swapping Left and Right leaves the
   * thumb-up verdict unchanged.
   */
  lemma MirrorKeepsThumbUp(lm: seq<Landmark>, hand: Handedness)
    requires LandmarksRead <= |lm|
    ensures ThumbUp(Mirror(lm), Opposite(hand)) == ThumbUp(lm, hand)
  {
    var m := Mirror(lm);
    MirrorKeepsExtension(lm, ThumbTip, ThumbPip, ThumbThreshold);
    assert Vector(m[Wrist], m[ThumbTip]).x == -Vector(lm[Wrist], lm[ThumbTip]).x;
    assert Vector(m[ThumbMcp], m[ThumbTip]).x == -Vector(lm[ThumbMcp], lm[ThumbTip]).x;
  }

  /** The whole classifier is invariant under mirroring with handedness swapped. */
  lemma MirrorKeepsGesture(lm: seq<Landmark>, hand: Handedness)
    ensures ClassifyGesture(Mirror(lm), Opposite(hand)) == ClassifyGesture(lm, hand)
  {
    if LandmarksRead <= |lm| {
      MirrorKeepsThumbUp(lm, hand);
      MirrorKeepsExtension(lm, IndexTip, IndexPip, FingerThreshold);
      MirrorKeepsExtension(lm, MiddleTip, MiddlePip, FingerThreshold);
      MirrorKeepsExtension(lm, RingTip, RingPip, FingerThreshold);
      MirrorKeepsExtension(lm, PinkyTip, PinkyPip, FingerThreshold);
    }
  }

  /**
   * The thumb test on distances: for the wrist-to-tip and wrist-to-PIP
   * distances `dTip` and `dPip`, the thumb is up exactly when it is extended
   * by more than 0.02, its wrist-to-tip vector rises by more than 0.35 times
   * its sideways offset, and its MCP-to-tip offset passes the lateral bound
   * of its hand.
   */
  lemma ThumbUpOnDistances(lm: seq<Landmark>, hand: Handedness, dTip: real, dPip: real)
    requires LandmarksRead <= |lm|
    requires 0.0 <= dTip && dTip * dTip == SquaredDistance(lm[Wrist], lm[ThumbTip])
    requires 0.0 <= dPip && dPip * dPip == SquaredDistance(lm[Wrist], lm[ThumbPip])
    ensures ThumbUp(lm, hand) <==>
      && dTip - dPip > 0.02
      && lm[Wrist].y - lm[ThumbTip].y > 0.35 * Abs(lm[ThumbTip].x - lm[Wrist].x)
      && (if hand == Right then lm[ThumbTip].x - lm[ThumbMcp].x >= -0.03
          else lm[ThumbTip].x - lm[ThumbMcp].x <= 0.03)
  {
    FingerExtendedMeansDistanceGap(lm, ThumbTip, ThumbPip, ThumbThreshold, dTip, dPip);
  }
}
