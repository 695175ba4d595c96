/** Choosing the four registration markers among the circles found in a frame
    (2016/04/P2-filterRegMarks.py and the same loop in
    2016/04/P3-optimiseSquare.py): every 4-combination is scored by the skew
    of its areas and the best one is kept, the later one on a tie. */
module MarkerSelection {
  import opened Wrappers
  import opened Stats
  import opened Combinations

  /** A circular blob as the selection and the ordering see it: its centre
      in pixels and its area. */
  datatype Circle = Circle(x: int, y: int, area: real)

  /** `[thisc.area() for thisc in thisCombo]` */
  function Areas(cs: seq<Circle>): (areas: seq<real>)
    ensures |areas| == |cs|
    ensures forall i :: 0 <= i < |cs| ==> areas[i] == cs[i].area
  {
    seq(|cs|, i requires 0 <= i < |cs| => cs[i].area)
  }

  /** The circles at the indices of `combo`, in that order. */
  function Pick(circles: seq<Circle>, combo: seq<nat>): seq<Circle>
    requires forall i :: 0 <= i < |combo| ==> combo[i] < |circles|
  {
    seq(|combo|, i requires 0 <= i < |combo| => circles[combo[i]])
  }

  /** The order in which `combinations(circles, 4)` yields its tuples. */
  function Combos(circles: seq<Circle>): (combos: seq<seq<nat>>)
    ensures |combos| == Binomial(|circles|, 4)
    ensures forall p :: 0 <= p < |combos| ==> IsCombination(combos[p], 0, |circles|, 4)
  {
    ChooseCount(0, |circles|, 4);
    ChooseSound(0, |circles|, 4);
    Choose(0, |circles|, 4)
  }

  /** The tuple at position `p` of `combinations(circles, 4)`. */
  function ComboAt(circles: seq<Circle>, p: nat): (markers: seq<Circle>)
    requires p < |Combos(circles)|
    ensures |markers| == 4
    ensures forall j :: 0 <= j < 4 ==> markers[j] in circles
  {
    Pick(circles, Combos(circles)[p])
  }

  /** The score of a group of circles: the skew of their areas, 0 when they
      are all alike. */
  function Score(markers: seq<Circle>): (score: real)
    requires |markers| > 0
    ensures score >= 0.0
    ensures score == 0.0 <==> Median(Areas(markers)) == Mean(Areas(markers))
  {
    Skew(Areas(markers))
  }

  /** The score of every combination, in enumeration order. */
  function Scores(circles: seq<Circle>): (scores: seq<real>)
    ensures |scores| == |Combos(circles)|
    ensures forall p :: 0 <= p < |scores| ==> scores[p] >= 0.0
    ensures forall p :: 0 <= p < |scores| ==>
      (scores[p] == 0.0 <==> Median(Areas(ComboAt(circles, p))) == Mean(Areas(ComboAt(circles, p))))
  {
    seq(|Combos(circles)|, p requires 0 <= p < |Combos(circles)| => Score(ComboAt(circles, p)))
  }

  /** Position `p` holds the smallest score, and no later position ties it. */
  ghost predicate IsLastMinimum(scores: seq<real>, p: int)
  {
    LastMinimumOfFirst(scores, |scores|, p)
  }

  /** `p` is the last minimum among the first `n` scores. */
  ghost predicate LastMinimumOfFirst(scores: seq<real>, n: nat, p: int)
    requires n <= |scores|
  {
    && 0 <= p < n
    && (forall q :: 0 <= q < n ==> scores[p] <= scores[q])
    && (forall q :: p < q < n ==> scores[p] < scores[q])
  }

  /** There is at most one last minimum, so the selection is determined. */
  lemma LastMinimumUnique(scores: seq<real>, p: int, p': int)
    requires IsLastMinimum(scores, p) && IsLastMinimum(scores, p')
    ensures p == p'
  {
    assert scores[p] <= scores[p'] && scores[p'] <= scores[p];
  }

  /** With at least four circles there is something to choose from. */
  lemma CombosNonEmpty(circles: seq<Circle>)
    requires |circles| >= 4
    ensures |Combos(circles)| > 0
  {
    ChooseComplete(0, |circles|, 4, [0, 1, 2, 3]);
  }

  /** The selection loop of both programs: `bestScore` and `bestMarkers` stay
      None with fewer than four circles; otherwise they hold the score and
      the circles of the last best-scoring combination. */
  method SelectBestMarkers(circles: seq<Circle>) returns (bestScore: Option<real>, bestMarkers: Option<seq<Circle>>)
    ensures bestScore.None? <==> |circles| < 4
    ensures bestMarkers.None? <==> |circles| < 4
    ensures |circles| >= 4 ==>
      exists p :: IsLastMinimum(Scores(circles), p)
        && bestMarkers.value == ComboAt(circles, p)
        && bestScore.value == Scores(circles)[p]
  {
    bestScore, bestMarkers := None, None;
    if |circles| >= 4 {
      var combos := Combos(circles);
      ghost var scores := Scores(circles);
      ghost var bestPos := 0;
      for i := 0 to |combos|
        invariant bestScore.None? <==> i == 0
        invariant bestMarkers.None? <==> i == 0
        invariant i > 0 ==>
          && LastMinimumOfFirst(scores, i, bestPos)
          && bestMarkers.value == ComboAt(circles, bestPos)
          && bestScore.value == scores[bestPos]
      {
        var thisCombo := ComboAt(circles, i);
        var circleAreas := Areas(thisCombo);
        var score := Abs(Median(circleAreas) - Mean(circleAreas));
        assert score == scores[i];
        LastMinimumStep(scores, i, bestPos);
        if bestScore.None? || score <= bestScore.value {
          bestScore := Some(score);
          bestMarkers := Some(thisCombo);
          bestPos := i;
        }
      }
      CombosNonEmpty(circles);
    }
  }

  /** One more score keeps the last minimum where it was when the new score
      is larger, and moves it to the new score otherwise. */
  lemma LastMinimumStep(scores: seq<real>, i: nat, p: int)
    requires i < |scores|
    requires i > 0 ==> LastMinimumOfFirst(scores, i, p)
    ensures i == 0 || scores[i] <= scores[p] ==> LastMinimumOfFirst(scores, i + 1, i)
    ensures i > 0 && scores[i] > scores[p] ==> LastMinimumOfFirst(scores, i + 1, p)
  {
  }

  /** The chosen markers are four different circles of the frame, listed in
      the order in which they were detected. */
  lemma ComboAtIsCombination(circles: seq<Circle>, p: nat)
    requires p < |Combos(circles)|
    ensures exists c :: IsCombination(c, 0, |circles|, 4) && ComboAt(circles, p) == Pick(circles, c)
  {
    ChooseSound(0, |circles|, 4);
    assert IsCombination(Combos(circles)[p], 0, |circles|, 4);
  }

  /** When all circles have the same area every combination scores 0, so the
      last combination, the one of the last four circles, is chosen. */
  lemma UniformAreasPickLastFour(circles: seq<Circle>, a: real)
    requires |circles| >= 4
    requires forall i :: 0 <= i < |circles| ==> circles[i].area == a
    ensures IsLastMinimum(Scores(circles), |Combos(circles)| - 1)
    ensures ComboAt(circles, |Combos(circles)| - 1) == circles[|circles| - 4..]
  {
    var n := |circles|;
    var scores := Scores(circles);
    ChooseSound(0, n, 4);
    forall p | 0 <= p < |scores| ensures scores[p] == 0.0 {
      var areas := Areas(ComboAt(circles, p));
      SkewOfUniformIsZero(areas, a);
    }
    LastCombo(0, n, 4);
    assert ComboAt(circles, |Combos(circles)| - 1) == circles[n - 4..];
  }

  /** What 2016/04/P2-filterRegMarks.py circles in cyan in a frame: nothing
      with fewer than four circles, else the four circles of `bestMarkers`. */
  method HighlightRegistrationMarks(circles: seq<Circle>) returns (highlighted: seq<Circle>)
    ensures |circles| < 4 ==> highlighted == []
    ensures |circles| >= 4 ==>
      exists p :: IsLastMinimum(Scores(circles), p) && highlighted == ComboAt(circles, p)
  {
    highlighted := [];
    var bestScore, bestMarkers := SelectBestMarkers(circles);
    if |circles| >= 4 {
      var markers := bestMarkers.value;
      for k := 0 to |markers|
        invariant highlighted == markers[..k]
      {
        highlighted := highlighted + [markers[k]];
      }
      assert markers[..|markers|] == markers;
    }
  }
}
