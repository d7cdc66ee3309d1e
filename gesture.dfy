/**
 * Finger-state extraction and gesture classification.
 *
 * A hand observation is the 21 landmarks MediaPipe reports for one hand,
 * in normalised image coordinates (the y axis grows downwards). The
 * classifier turns it into a command code: 1 for a fist, 2 for the
 * "peace" sign, 0 for anything else.
 *
 * `math.sqrt` is floating point; here it is a parameter `sqrt`, and the
 * lemmas that need its meaning assume only that it returns the
 * non-negative square root (`IsSqrt`).
 */
module Gesture {

  /** One landmark; only x and y are consulted. */
  datatype Point = Point(x: real, y: real)

  /** The landmarks of one hand, indexed 0..20 as MediaPipe numbers them. */
  type Hand = seq<Point>

  const LandmarkCount: nat := 21

  /** MediaPipe always reports exactly 21 landmarks for a detected hand. */
  predicate WellFormed(hand: Hand) {
    |hand| == LandmarkCount
  }

  /** Landmark 0 is the wrist. */
  const Wrist: nat := 0

  /** Each finger's four landmarks, from its base to its tip. */
  const ThumbPoints: seq<nat> := [1, 2, 3, 4]
  const IndexPoints: seq<nat> := [5, 6, 7, 8]
  const MiddlePoints: seq<nat> := [9, 10, 11, 12]
  const RingPoints: seq<nat> := [13, 14, 15, 16]
  const PinkyPoints: seq<nat> := [17, 18, 19, 20]

  /** The fingertips whose distance to the wrist is averaged, thumb first. */
  const FingerTips: seq<nat> := [4, 8, 12, 16, 20]

  /** The command codes; no other value is ever classified. */
  const CodeNone: int := 0
  const CodeFist: int := 1
  const CodePeace: int := 2

  /** A mean tip-to-wrist distance below this (normalised units) is a fist. */
  const FistThreshold: real := 0.2

  datatype Finger = Thumb | Index | Middle | Ring | Pinky

  function Points(f: Finger): seq<nat> {
    match f
    case Thumb => ThumbPoints
    case Index => IndexPoints
    case Middle => MiddlePoints
    case Ring => RingPoints
    case Pinky => PinkyPoints
  }

  /** A finger's position in the anatomical order thumb, index, middle, ring, pinky. */
  function Ordinal(f: Finger): nat {
    match f
    case Thumb => 0
    case Index => 1
    case Middle => 2
    case Ring => 3
    case Pinky => 4
  }

  /**
   * The anatomical numbering, written independently of the constants:
   * finger k (0 = thumb) owns landmarks 4k+1 .. 4k+4, and its tip, 4k+4, is
   * the k-th entry of FingerTips.
   */
  lemma FingerGroupsAreAnatomical(f: Finger)
    ensures |Points(f)| == 4
    ensures forall j :: 0 <= j < 4 ==> Points(f)[j] == 4 * Ordinal(f) + 1 + j
    ensures Points(f)[3] == FingerTips[Ordinal(f)]
    ensures forall j :: 0 <= j < 4 ==> Points(f)[j] < LandmarkCount && Points(f)[j] != Wrist
  {
  }

  /** is_finger_up: the tip (group[3]) lies strictly above the base (group[0]). */
  predicate IsFingerUp(points: seq<nat>, hand: Hand)
    requires |points| == 4 && points[0] < |hand| && points[3] < |hand|
  {
    hand[points[3]].y < hand[points[0]].y
  }

  /**
   * For each finger, "up" holds exactly when the y of landmark 4k+4 is
   * smaller than the y of landmark 4k+1; equal heights are not "up".
   */
  lemma FingerUpExactly(f: Finger, hand: Hand)
    requires WellFormed(hand)
    ensures IsFingerUp(Points(f), hand) <==>
            hand[4 * Ordinal(f) + 4].y < hand[4 * Ordinal(f) + 1].y
    ensures hand[4 * Ordinal(f) + 4].y == hand[4 * Ordinal(f) + 1].y ==>
            !IsFingerUp(Points(f), hand)
  {
    FingerGroupsAreAnatomical(f);
  }

  function Square(d: real): (r: real)
    ensures 0.0 <= r
  {
    d * d
  }

  /** `math.sqrt` returns the non-negative square root of a non-negative argument. */
  ghost predicate IsSqrt(sqrt: real -> real) {
    forall v :: 0.0 <= v ==> 0.0 <= sqrt(v) && sqrt(v) * sqrt(v) == v
  }

  /** The Euclidean distance of two landmarks in normalised coordinates. */
  function Distance(p: Point, q: Point, sqrt: real -> real): real {
    sqrt(Square(p.x - q.x) + Square(p.y - q.y))
  }

  /** The five fingertip-to-wrist distances, in the order of FingerTips. */
  function TipDistances(hand: Hand, sqrt: real -> real): (ds: seq<real>)
    requires WellFormed(hand)
    ensures |ds| == |FingerTips|
    ensures IsSqrt(sqrt) ==> forall i :: 0 <= i < |ds| ==> 0.0 <= ds[i]
  {
    seq(|FingerTips|, i requires 0 <= i < |FingerTips| => Distance(hand[FingerTips[i]], hand[Wrist], sqrt))
  }

  /** Python's `sum`: adds the elements left to right, starting from 0. */
  function Sum(s: seq<real>): real {
    if s == [] then 0.0 else Sum(s[..|s| - 1]) + s[|s| - 1]
  }

  function Mean(s: seq<real>): real
    requires |s| > 0
  {
    Sum(s) / (|s| as real)
  }

  function AverageTipDistance(hand: Hand, sqrt: real -> real): real
    requires WellFormed(hand)
  {
    Mean(TipDistances(hand, sqrt))
  }

  lemma {:induction false} SumOfFive(a: real, b: real, c: real, d: real, e: real)
    ensures Sum([a, b, c, d, e]) == a + b + c + d + e
  {
    assert [a][..0] == [];
    assert Sum([a]) == a;
    assert [a, b][..1] == [a];
    assert Sum([a, b]) == a + b;
    assert [a, b, c][..2] == [a, b];
    assert Sum([a, b, c]) == a + b + c;
    assert [a, b, c, d][..3] == [a, b, c];
    assert Sum([a, b, c, d]) == a + b + c + d;
    assert [a, b, c, d, e][..4] == [a, b, c, d];
  }

  /**
   * The average is the mean of exactly five distances, from landmarks 4, 8,
   * 12, 16 and 20 to the wrist.
   */
  lemma AverageIsMeanOfFiveTips(hand: Hand, sqrt: real -> real)
    requires WellFormed(hand)
    ensures AverageTipDistance(hand, sqrt) ==
            (Distance(hand[4], hand[0], sqrt) + Distance(hand[8], hand[0], sqrt) +
             Distance(hand[12], hand[0], sqrt) + Distance(hand[16], hand[0], sqrt) +
             Distance(hand[20], hand[0], sqrt)) / 5.0
  {
    var ds := TipDistances(hand, sqrt);
    assert ds == [ds[0], ds[1], ds[2], ds[3], ds[4]];
    SumOfFive(ds[0], ds[1], ds[2], ds[3], ds[4]);
  }

  /**
   * The loop of detect_gesture that collects the distances and averages
   * them with `sum(distances) / len(distances)`.
   */
  method ComputeAverageTipDistance(hand: Hand, sqrt: real -> real) returns (avg: real)
    requires WellFormed(hand)
    ensures avg == AverageTipDistance(hand, sqrt)
  {
    var fingerTips := [hand[4], hand[8], hand[12], hand[16], hand[20]];
    var wrist := hand[Wrist];
    var distances: seq<real> := [];
    for i := 0 to |fingerTips|
      invariant |distances| == i
      invariant forall j :: 0 <= j < i ==> distances[j] == TipDistances(hand, sqrt)[j]
    {
      var tip := fingerTips[i];
      var dist := sqrt(Square(tip.x - wrist.x) + Square(tip.y - wrist.y));
      distances := distances + [dist];
    }
    assert distances == TipDistances(hand, sqrt);
    avg := Sum(distances) / (|distances| as real);
  }

  /**
   * The decision rule, first match wins: a fist when the mean distance is
   * under the threshold, else peace when exactly index and middle of the
   * four long fingers are up, else none.
   */
  function Decide(avg: real, indexUp: bool, middleUp: bool, ringUp: bool, pinkyUp: bool): (code: int)
    ensures code in {CodeNone, CodeFist, CodePeace}
  {
    if avg < FistThreshold then CodeFist
    else if indexUp && middleUp && !ringUp && !pinkyUp then CodePeace
    else CodeNone
  }

  /** The diagnostic label detect_gesture returns alongside each code. */
  function Label(code: int): string {
    if code == CodeFist then "Pięść"
    else if code == CodePeace then "Peace"
    else "Inna pozycja"
  }

  /** Each of the three outcomes of the rule, in both directions. */
  lemma DecideOutcomes(avg: real, indexUp: bool, middleUp: bool, ringUp: bool, pinkyUp: bool)
    ensures Decide(avg, indexUp, middleUp, ringUp, pinkyUp) == CodeFist <==> avg < FistThreshold
    ensures Decide(avg, indexUp, middleUp, ringUp, pinkyUp) == CodePeace <==>
            avg >= FistThreshold && indexUp && middleUp && !ringUp && !pinkyUp
    ensures Decide(avg, indexUp, middleUp, ringUp, pinkyUp) == CodeNone <==>
            avg >= FistThreshold && !(indexUp && middleUp && !ringUp && !pinkyUp)
  {
  }

  /** The code detect_gesture assigns to RozkazDrona for one hand. */
  function Classify(hand: Hand, sqrt: real -> real): int
    requires WellFormed(hand)
  {
    Decide(AverageTipDistance(hand, sqrt),
           IsFingerUp(IndexPoints, hand), IsFingerUp(MiddlePoints, hand),
           IsFingerUp(RingPoints, hand), IsFingerUp(PinkyPoints, hand))
  }

  /** A fist takes precedence whatever the fingers do; peace needs a mean of at least 0.2. */
  lemma ClassifyOutcomes(hand: Hand, sqrt: real -> real)
    requires WellFormed(hand)
    ensures Classify(hand, sqrt) in {CodeNone, CodeFist, CodePeace}
    ensures Classify(hand, sqrt) == CodeFist <==> AverageTipDistance(hand, sqrt) < FistThreshold
    ensures Classify(hand, sqrt) == CodePeace <==>
            AverageTipDistance(hand, sqrt) >= FistThreshold &&
            hand[8].y < hand[5].y && hand[12].y < hand[9].y &&
            !(hand[16].y < hand[13].y) && !(hand[20].y < hand[17].y)
  {
    DecideOutcomes(AverageTipDistance(hand, sqrt),
                   IsFingerUp(IndexPoints, hand), IsFingerUp(MiddlePoints, hand),
                   IsFingerUp(RingPoints, hand), IsFingerUp(PinkyPoints, hand));
  }

  /**
   * The thumb's "up" flag is never consulted: two hands that differ only in
   * the thumb's base and joints (landmarks 1, 2, 3) get the same code. The
   * thumb tip (4) still enters the mean distance.
   */
  lemma ThumbFlagNeverConsulted(h1: Hand, h2: Hand, sqrt: real -> real)
    requires WellFormed(h1) && WellFormed(h2)
    requires forall i :: 0 <= i < LandmarkCount && !(1 <= i <= 3) ==> h1[i] == h2[i]
    ensures Classify(h1, sqrt) == Classify(h2, sqrt)
  {
    assert h1[0] == h2[0] && h1[4] == h2[4] && h1[8] == h2[8];
    assert h1[12] == h2[12] && h1[16] == h2[16] && h1[20] == h2[20];
    assert TipDistances(h1, sqrt) == TipDistances(h2, sqrt);
    assert h1[5] == h2[5] && h1[9] == h2[9] && h1[13] == h2[13] && h1[17] == h2[17];
  }

  /** Squaring is strictly monotone on the non-negative reals. */
  lemma SquareStrictlyMonotone(x: real, y: real)
    requires 0.0 <= y
    ensures y < x ==> y * y < x * x
  {
    if y < x {
      var yy, xy, xx := y * y, x * y, x * x;
      assert yy <= xy by { assert (x - y) * y >= 0.0; }
      assert xy < xx by { assert (x - y) * x > 0.0; }
    }
  }

  /** A non-negative root of a value at most b*b is at most b. */
  lemma RootAtMost(s: real, v: real, b: real)
    requires 0.0 <= s && 0.0 <= b && s * s == v && v <= b * b
    ensures s <= b
  {
    SquareStrictlyMonotone(s, b);
  }

  /** A non-negative root of a value at least b*b is at least b. */
  lemma RootAtLeast(s: real, v: real, b: real)
    requires 0.0 <= s && 0.0 <= b && s * s == v && b * b <= v
    ensures b <= s
  {
    SquareStrictlyMonotone(b, s);
  }

  /** Squared distance of a fingertip (given by its position in FingerTips) to the wrist. */
  function TipSquaredDistance(hand: Hand, i: nat): real
    requires WellFormed(hand) && i < |FingerTips|
  {
    Square(hand[FingerTips[i]].x - hand[Wrist].x) + Square(hand[FingerTips[i]].y - hand[Wrist].y)
  }

  /** Under a true square root, a tip's distance is bounded as its squared distance is. */
  lemma TipDistanceBounds(hand: Hand, sqrt: real -> real, i: nat, b: real)
    requires WellFormed(hand) && IsSqrt(sqrt) && i < |FingerTips| && 0.0 <= b
    ensures TipSquaredDistance(hand, i) <= b * b ==> TipDistances(hand, sqrt)[i] <= b
    ensures b * b <= TipSquaredDistance(hand, i) ==> b <= TipDistances(hand, sqrt)[i]
  {
    var v := TipSquaredDistance(hand, i);
    var r := sqrt(v);
    assert TipDistances(hand, sqrt)[i] == r;
    assert 0.0 <= r && r * r == v;
    SquareStrictlyMonotone(r, b);
    SquareStrictlyMonotone(b, r);
  }

  /** The mean of five values lies within any bounds that hold of each of them. */
  lemma MeanOfFiveBounds(ds: seq<real>, lo: real, hi: real)
    requires |ds| == 5
    ensures (forall i :: 0 <= i < 5 ==> ds[i] <= hi) ==> Mean(ds) <= hi
    ensures (forall i :: 0 <= i < 5 ==> lo <= ds[i]) ==> lo <= Mean(ds)
  {
    assert ds == [ds[0], ds[1], ds[2], ds[3], ds[4]];
    SumOfFive(ds[0], ds[1], ds[2], ds[3], ds[4]);
  }

  /** Every fingertip within 0.1 of the wrist: a fist, whatever the fingers' flags. */
  lemma TipsNearWristIsFist(hand: Hand, sqrt: real -> real)
    requires WellFormed(hand) && IsSqrt(sqrt)
    requires forall i :: 0 <= i < |FingerTips| ==> TipSquaredDistance(hand, i) <= 0.01
    ensures AverageTipDistance(hand, sqrt) <= 0.1
    ensures Classify(hand, sqrt) == CodeFist
  {
    var ds := TipDistances(hand, sqrt);
    forall i | 0 <= i < 5
      ensures ds[i] <= 0.1
    {
      TipDistanceBounds(hand, sqrt, i, 0.1);
    }
    MeanOfFiveBounds(ds, 0.0, 0.1);
  }

  /**
   * Index and middle up, ring and pinky not up, every fingertip at least 0.2
   * from the wrist: the peace sign.
   */
  lemma SpreadPeaceIsPeace(hand: Hand, sqrt: real -> real)
    requires WellFormed(hand) && IsSqrt(sqrt)
    requires forall i :: 0 <= i < |FingerTips| ==> TipSquaredDistance(hand, i) >= 0.04
    requires hand[8].y < hand[5].y && hand[12].y < hand[9].y
    requires hand[16].y >= hand[13].y && hand[20].y >= hand[17].y
    ensures AverageTipDistance(hand, sqrt) >= FistThreshold
    ensures Classify(hand, sqrt) == CodePeace
  {
    var ds := TipDistances(hand, sqrt);
    forall i | 0 <= i < 5
      ensures 0.2 <= ds[i]
    {
      TipDistanceBounds(hand, sqrt, i, 0.2);
    }
    MeanOfFiveBounds(ds, 0.2, 0.0);
  }
}
