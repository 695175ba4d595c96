/** Ordering the four chosen registration markers into the corners top left,
    top right, bottom right, bottom left, and building the `corners` list for
    the warp (2016/04/P3-optimiseSquare.py). Each marker gets an angle against
    a datum line through the middle of the image, the markers are sorted by
    that angle, and four integer corrections derived from the sorted markers
    give the eight points handed to `img.warp`. */
module CornerOrdering {
  import opened StableSort
  import opened MarkerSelection

  datatype Point = Point(x: int, y: int)

  /** One `[angle, C_Marker]` pair of `markerOrder`. */
  datatype Entry = Entry(angle: real, marker: Circle)

  /** What a frame of the program ends in: too few circles to choose from,
      the ZeroDivisionError that ends the program when the cosine rule
      divides by a zero distance, or the markers in corner order and the
      points handed to the warp. */
  datatype FrameResult =
    | NotEnoughCircles
    | ZeroDivision
    | Warped(markerOrder: seq<Entry>, corners: seq<Point>)

  /** `math.degrees(math.acos(...))` of the cosine rule, as the angle at the
      middle point of a triangle; the trigonometry itself is not modelled. */
  type RawAngle = (Point, Point, Point) -> real

  /** `pdist(a, b)` squared: the square root is left out, and the cosine
      rule only ever uses it squared or as a divisor. */
  function SquaredDistance(a: Point, b: Point): (d: int)
    ensures d >= 0
    ensures d == 0 <==> a == b
  {
    SquareNonNegative(a.x - b.x);
    SquareNonNegative(a.y - b.y);
    (a.x - b.x) * (a.x - b.x) + (a.y - b.y) * (a.y - b.y)
  }

  lemma SquareNonNegative(d: int)
    ensures d * d >= 0
    ensures d * d == 0 <==> d == 0
  {
    if d < 0 {
      assert d * d == (-d) * (-d);
    }
  }

  /** The numerator of the cosine rule in `compute_angle`:
      pdist(a,b)^2 + pdist(b,c)^2 - pdist(a,c)^2. Its sign is the sign of the
      cosine of the angle at `b`. */
  function CosineNumerator(a: Point, b: Point, c: Point): int
  {
    SquaredDistance(a, b) + SquaredDistance(b, c) - SquaredDistance(a, c)
  }

  /** Twice the signed area of the triangle a, b, c: zero exactly when the
      three points are collinear. */
  function Cross(a: Point, b: Point, c: Point): int
  {
    (a.x - b.x) * (c.y - b.y) - (a.y - b.y) * (c.x - b.x)
  }

  /** What the model assumes of degrees(acos(cosine)) at `b`, for a triangle
      whose sides at `b` are not empty: it lies in [0, 180], it is below 90
      exactly when the cosine is positive and 90 exactly when the cosine is 0,
      and it is 0 or 180 only when the three points are collinear. */
  ghost predicate IsCosineRuleAngle(raw: RawAngle)
  {
    forall a, b, c :: a != b && c != b ==>
      && 0.0 <= raw(a, b, c) <= 180.0
      && (raw(a, b, c) < 90.0 <==> CosineNumerator(a, b, c) > 0)
      && (raw(a, b, c) == 90.0 <==> CosineNumerator(a, b, c) == 0)
      && (raw(a, b, c) == 0.0 || raw(a, b, c) == 180.0 ==> Cross(a, b, c) == 0)
  }

  /** `compute_angle(a, b, c)`: the cosine-rule angle at `b`, moved by the
      quadrant correction so that it grows around `b`. The divisions by
      pdist(a, b) and pdist(b, c) need both to be non-zero. */
  function ComputeAngle(raw: RawAngle, a: Point, b: Point, c: Point): real
    requires SquaredDistance(a, b) != 0 && SquaredDistance(b, c) != 0
  {
    if c.y < b.y then raw(a, b, c)
    else if c.y > b.y && c.x > b.x then raw(a, b, c) + 90.0
    else raw(a, b, c) + 90.0 + 180.0
  }

  /** The corrected angle lies in [0, 450]: the three branches add 0, 90 or
      270 to an angle of [0, 180]. */
  lemma ComputeAngleRange(raw: RawAngle, a: Point, b: Point, c: Point)
    requires IsCosineRuleAngle(raw)
    requires SquaredDistance(a, b) != 0 && SquaredDistance(b, c) != 0
    ensures 0.0 <= ComputeAngle(raw, a, b, c) <= 450.0
    ensures c.y < b.y ==> ComputeAngle(raw, a, b, c) <= 180.0
    ensures c.y > b.y && c.x > b.x ==> 90.0 <= ComputeAngle(raw, a, b, c) <= 270.0
    ensures !(c.y < b.y) && !(c.y > b.y && c.x > b.x) ==> 270.0 <= ComputeAngle(raw, a, b, c)
  {
    assert a != b && c != b;
  }

  /** `LeftDatum = (0, int(ImageHeight/2))` */
  function LeftDatum(h: nat): Point
  {
    Point(0, h / 2)
  }

  /** `RightDatum = (int(ImageWidth/2), int(ImageHeight/2))` */
  function RightDatum(w: nat, h: nat): Point
  {
    Point(w / 2, h / 2)
  }

  function Centre(m: Circle): Point
  {
    Point(m.x, m.y)
  }

  /** Whether the markers' angles can be computed without dividing by zero:
      the datums differ (the image is at least 2 pixels wide) and no marker
      sits on the right datum. */
  predicate Clear(markers: seq<Circle>, w: nat, h: nat): (ok: bool)
    ensures ok <==> w >= 2 && forall i :: 0 <= i < |markers| ==> markers[i].x != w / 2 || markers[i].y != h / 2
  {
    LeftDatum(h) != RightDatum(w, h) && forall i | 0 <= i < |markers| :: Centre(markers[i]) != RightDatum(w, h)
  }

  /** The angle of a marker against the datum line: within [0, 180] above
      the right datum, [90, 270] below and to its right, [270, 450] else. */
  function MarkerAngle(raw: RawAngle, m: Circle, w: nat, h: nat): (angle: real)
    requires LeftDatum(h) != RightDatum(w, h) && Centre(m) != RightDatum(w, h)
    ensures IsCosineRuleAngle(raw) ==>
      && 0.0 <= angle <= 450.0
      && (m.y < h / 2 ==> angle <= 180.0)
      && (m.y > h / 2 && m.x > w / 2 ==> 90.0 <= angle <= 270.0)
      && (m.y >= h / 2 && !(m.y > h / 2 && m.x > w / 2) ==> 270.0 <= angle)
  {
    assert IsCosineRuleAngle(raw) ==> 0.0 <= ComputeAngle(raw, LeftDatum(h), RightDatum(w, h), Centre(m)) by {
      if IsCosineRuleAngle(raw) {
        ComputeAngleRange(raw, LeftDatum(h), RightDatum(w, h), Centre(m));
      }
    }
    ComputeAngle(raw, LeftDatum(h), RightDatum(w, h), Centre(m))
  }

  /** `markerOrder` before the sort: each marker with its angle, in the
      order of `bestMarkers`. */
  function Tagged(raw: RawAngle, markers: seq<Circle>, w: nat, h: nat): (entries: seq<Entry>)
    requires Clear(markers, w, h)
    ensures |entries| == |markers|
  {
    seq(|markers|, i requires 0 <= i < |markers| => Entry(MarkerAngle(raw, markers[i], w, h), markers[i]))
  }

  function AngleKey(e: Entry): real
  {
    e.angle
  }

  /** Lines 112-124: the angle of every marker is appended to `markerOrder`,
      which is then sorted on the angle, stably. */
  method OrderMarkers(raw: RawAngle, markers: seq<Circle>, w: nat, h: nat) returns (markerOrder: seq<Entry>)
    requires Clear(markers, w, h)
    ensures SortedBy(markerOrder, AngleKey)
    ensures StablePermutationOf(markerOrder, Tagged(raw, markers, w, h), AngleKey)
    ensures markerOrder == SortBy(Tagged(raw, markers, w, h), AngleKey)
  {
    markerOrder := [];
    for i := 0 to |markers|
      invariant markerOrder == Tagged(raw, markers[..i], w, h)
    {
      var angle := ComputeAngle(raw, LeftDatum(h), RightDatum(w, h), Centre(markers[i]));
      markerOrder := markerOrder + [Entry(angle, markers[i])];
    }
    assert markers[..|markers|] == markers;
    markerOrder := SortBy(markerOrder, AngleKey);
    SortByCorrect(Tagged(raw, markers, w, h), AngleKey);
  }

  /** The four corrections of lines 130-134, from the markers in corner
      order TL = 0, TR = 1, BR = 2, BL = 3. */
  datatype Corrections = Corrections(horzStart: int, vertStart: int, horzAdjust: int, vertAdjust: int)

  function CorrectionsOf(order: seq<Entry>): Corrections
    requires |order| == 4
  {
    var tl, tr, br, bl := order[0].marker, order[1].marker, order[2].marker, order[3].marker;
    Corrections(tl.x - bl.x, tl.y - tr.y, (tr.x - br.x) - (tl.x - bl.x), (tl.y - tr.y) - (bl.y - br.y))
  }

  /** The `corners` list of lines 139-147: four target corners, then the
      four marker centres moved left by the vertical start correction. */
  function CornerList(order: seq<Entry>, w: nat, h: nat): (corners: seq<Point>)
    requires |order| == 4
    ensures |corners| == 8
    // the corrections cancel in the bottom right target corner
    ensures corners[2] == Point(w + order[1].marker.x - order[2].marker.x, h + order[3].marker.y - order[2].marker.y)
  {
    var c := CorrectionsOf(order);
    var hs, vs, ha, va := c.horzStart, c.vertStart, c.horzAdjust, c.vertAdjust;
    [ Point(-hs, -vs), Point(w, vs), Point(w + hs + ha, h + vs - va), Point(-hs, h + vs),
      Point(order[0].marker.x - vs, order[0].marker.y), Point(order[1].marker.x - vs, order[1].marker.y),
      Point(order[2].marker.x - vs, order[2].marker.y), Point(order[3].marker.x - vs, order[3].marker.y) ]
  }

  /** Lines 130-147: the corrections, then the eight appends to `corners`. */
  method BuildCorners(markerOrder: seq<Entry>, w: nat, h: nat) returns (corners: seq<Point>)
    requires |markerOrder| == 4
    ensures corners == CornerList(markerOrder, w, h)
  {
    var horzStartCorrect := markerOrder[0].marker.x - markerOrder[3].marker.x;
    var vertStartCorrect := markerOrder[0].marker.y - markerOrder[1].marker.y;
    var horzDistAdjust := (markerOrder[1].marker.x - markerOrder[2].marker.x) - (markerOrder[0].marker.x - markerOrder[3].marker.x);
    var vertDistAdjust := (markerOrder[0].marker.y - markerOrder[1].marker.y) - (markerOrder[3].marker.y - markerOrder[2].marker.y);
    corners := [];
    corners := corners + [Point(-horzStartCorrect, -vertStartCorrect)];
    corners := corners + [Point(w, vertStartCorrect)];
    corners := corners + [Point(w + horzStartCorrect + horzDistAdjust, h + vertStartCorrect - vertDistAdjust)];
    corners := corners + [Point(-horzStartCorrect, h + vertStartCorrect)];
    for k := 0 to 4
      invariant |corners| == 4 + k
      invariant corners[..4 + k] == CornerList(markerOrder, w, h)[..4 + k]
    {
      corners := corners + [Point(markerOrder[k].marker.x - vertStartCorrect, markerOrder[k].marker.y)];
    }
  }

  /** What a frame with at least four circles produces from its chosen
      markers. */
  function PlanFor(raw: RawAngle, markers: seq<Circle>, w: nat, h: nat): (r: FrameResult)
    requires |markers| == 4
    ensures r != NotEnoughCircles
    ensures r.ZeroDivision? <==> !Clear(markers, w, h)
    ensures r.Warped? ==>
      && SortedBy(r.markerOrder, AngleKey)
      && StablePermutationOf(r.markerOrder, Tagged(raw, markers, w, h), AngleKey)
      && |r.corners| == 8
  {
    if !Clear(markers, w, h) then ZeroDivision
    else
      var order := SortBy(Tagged(raw, markers, w, h), AngleKey);
      SortByCorrect(Tagged(raw, markers, w, h), AngleKey);
      Warped(order, CornerList(order, w, h))
  }

  /** One pass of the frame loop after blob detection: select the markers,
      order them and build the warp's corner list. */
  method OptimiseSquareFrame(raw: RawAngle, circles: seq<Circle>, w: nat, h: nat) returns (r: FrameResult)
    ensures r == NotEnoughCircles <==> |circles| < 4
    ensures |circles| >= 4 ==>
      exists p :: IsLastMinimum(Scores(circles), p) && r == PlanFor(raw, ComboAt(circles, p), w, h)
  {
    var bestScore, bestMarkers := SelectBestMarkers(circles);
    if |circles| < 4 {
      return NotEnoughCircles;
    }
    var markers := bestMarkers.value;
    if !Clear(markers, w, h) {
      return ZeroDivision;
    }
    var markerOrder := OrderMarkers(raw, markers, w, h);
    var corners := BuildCorners(markerOrder, w, h);
    r := Warped(markerOrder, corners);
  }

  lemma MulPositive(a: int, b: int)
    requires a > 0
    ensures b > 0 ==> a * b > 0
    ensures b < 0 ==> a * b < 0
    ensures b == 0 ==> a * b == 0
  {
  }

  /** Against the datum line, the cosine rule's numerator is 2 Rx (Rx - c.x)
      and the cross product -Rx (c.y - Ry), where (Rx, Ry) is the right
      datum. */
  lemma DatumGeometry(w: nat, h: nat, c: Point)
    ensures var d := RightDatum(w, h);
      && CosineNumerator(LeftDatum(h), d, c) == 2 * d.x * (d.x - c.x)
      && Cross(LeftDatum(h), d, c) == -d.x * (c.y - d.y)
  {
    var d := RightDatum(w, h);
    var u, v := c.x - d.x, c.y - d.y;
    assert SquaredDistance(LeftDatum(h), d) == d.x * d.x;
    assert SquaredDistance(d, c) == u * u + v * v;
    assert SquaredDistance(LeftDatum(h), c) == (u + d.x) * (u + d.x) + v * v;
    assert (u + d.x) * (u + d.x) == u * u + 2 * d.x * u + d.x * d.x;
  }

  /** The angle of a marker tells its quadrant around the right datum: below
      90 at the upper left, (90, 180] at the upper right, (180, 270) at the
      lower right and (270, 360) at the lower left. A marker level with the
      datums falls in [270, 450], after all four quadrants but the lower left. */
  lemma {:induction false} QuadrantAngles(raw: RawAngle, c: Point, w: nat, h: nat)
    requires IsCosineRuleAngle(raw)
    requires LeftDatum(h) != RightDatum(w, h) && c != RightDatum(w, h)
    ensures var a, d := ComputeAngle(raw, LeftDatum(h), RightDatum(w, h), c), RightDatum(w, h);
      && (c.x < d.x && c.y < d.y ==> a < 90.0)
      && (c.x > d.x && c.y < d.y ==> 90.0 < a <= 180.0)
      && (c.x > d.x && c.y > d.y ==> 180.0 < a < 270.0)
      && (c.x < d.x && c.y > d.y ==> 270.0 < a < 360.0)
      && (c.y == d.y ==> 270.0 <= a)
  {
    var l, d := LeftDatum(h), RightDatum(w, h);
    var r := raw(l, d, c);
    DatumGeometry(w, h, c);
    assert d.x > 0;
    MulPositive(2 * d.x, d.x - c.x);
    MulPositive(d.x, c.y - d.y);
    assert c.x < d.x ==> r < 90.0;
    assert c.x > d.x ==> r > 90.0;
    assert c.y != d.y ==> r != 0.0 && r != 180.0;
  }

  lemma {:induction false} TaggedAppend(raw: RawAngle, a: seq<Circle>, b: seq<Circle>, w: nat, h: nat)
    requires Clear(a, w, h) && Clear(b, w, h)
    ensures Clear(a + b, w, h)
    ensures Tagged(raw, a + b, w, h) == Tagged(raw, a, w, h) + Tagged(raw, b, w, h)
  {
    assert forall i :: 0 <= i < |a + b| ==> (a + b)[i] == if i < |a| then a[i] else b[i - |a|];
  }

  /** The entries do not depend on the order in which the markers were
      chosen, only on which they are. */
  lemma {:induction false} TaggedPermutation(raw: RawAngle, s: seq<Circle>, t: seq<Circle>, w: nat, h: nat)
    requires Clear(s, w, h) && Clear(t, w, h)
    requires multiset(s) == multiset(t)
    ensures multiset(Tagged(raw, s, w, h)) == multiset(Tagged(raw, t, w, h))
    decreases |s|
  {
    if |s| == 0 {
      assert |t| == |multiset(t)| == |multiset(s)| == 0;
    } else {
      assert s[0] in multiset(t);
      var i :| 0 <= i < |t| && t[i] == s[0];
      var rest := t[..i] + t[i + 1..];
      assert multiset(s[1..]) == multiset(rest) by {
        RemoveMatching(s, t, i);
      }
      TaggedRemove(raw, t, i, w, h);
      TaggedRemove(raw, s, 0, w, h);
      assert s[..0] + s[1..] == s[1..];
      assert multiset(Tagged(raw, s[1..], w, h)) == multiset(Tagged(raw, rest, w, h)) by {
        TaggedPermutation(raw, s[1..], rest, w, h);
      }
    }
  }

  /** Leaving out the marker at `i` leaves out its entry. */
  lemma TaggedRemove(raw: RawAngle, t: seq<Circle>, i: nat, w: nat, h: nat)
    requires Clear(t, w, h) && i < |t|
    ensures Clear(t[..i] + t[i + 1..], w, h)
    ensures multiset(Tagged(raw, t, w, h))
         == multiset(Tagged(raw, t[..i] + t[i + 1..], w, h)) + multiset{Entry(MarkerAngle(raw, t[i], w, h), t[i])}
  {
    var rest := t[..i] + t[i + 1..];
    assert forall j :: 0 <= j < |rest| ==> rest[j] == (if j < i then t[j] else t[j + 1]);
    var all := Tagged(raw, t, w, h);
    assert Tagged(raw, rest, w, h) == all[..i] + all[i + 1..];
    RemoveAt(all, i);
  }

  /** One marker in each quadrant around the right datum, chosen in any
      order: the sort puts them top left, top right, bottom right, bottom
      left. */
  lemma QuadrantOrder(raw: RawAngle, markers: seq<Circle>, w: nat, h: nat, tl: Circle, tr: Circle, br: Circle, bl: Circle)
    requires IsCosineRuleAngle(raw)
    requires w >= 2
    requires tl.x < w / 2 && tl.y < h / 2 && tr.x > w / 2 && tr.y < h / 2
    requires br.x > w / 2 && br.y > h / 2 && bl.x < w / 2 && bl.y > h / 2
    requires multiset(markers) == multiset{tl, tr, br, bl}
    ensures Clear(markers, w, h) && Clear([tl, tr, br, bl], w, h)
    ensures SortBy(Tagged(raw, markers, w, h), AngleKey) == Tagged(raw, [tl, tr, br, bl], w, h)
  {
    var target := [tl, tr, br, bl];
    assert Clear(markers, w, h) && Clear(target, w, h) by {
      QuadrantsClear(markers, w, h, tl, tr, br, bl);
    }
    var entries := Tagged(raw, target, w, h);
    assert forall i, j :: 0 <= i < j < |entries| ==> AngleKey(entries[i]) < AngleKey(entries[j]) by {
      QuadrantKeysIncrease(raw, w, h, tl, tr, br, bl);
    }
    var sorted := SortBy(Tagged(raw, markers, w, h), AngleKey);
    assert SortedBy(sorted, AngleKey) && multiset(sorted) == multiset(entries) by {
      TaggedPermutation(raw, markers, target, w, h);
      SortByCorrect(Tagged(raw, markers, w, h), AngleKey);
    }
    StrictlySortedUnique(entries, sorted, AngleKey);
  }

  lemma QuadrantsClear(markers: seq<Circle>, w: nat, h: nat, tl: Circle, tr: Circle, br: Circle, bl: Circle)
    requires w >= 2
    requires tl.x < w / 2 && tr.x > w / 2 && br.x > w / 2 && bl.x < w / 2
    requires multiset(markers) == multiset{tl, tr, br, bl}
    ensures Clear(markers, w, h) && Clear([tl, tr, br, bl], w, h)
  {
    forall i | 0 <= i < |markers| ensures Centre(markers[i]) != RightDatum(w, h) {
      assert markers[i] in multiset(markers);
    }
  }

  /** The four quadrant markers, in target order, have strictly increasing
      angles. */
  lemma QuadrantKeysIncrease(raw: RawAngle, w: nat, h: nat, tl: Circle, tr: Circle, br: Circle, bl: Circle)
    requires IsCosineRuleAngle(raw)
    requires w >= 2
    requires tl.x < w / 2 && tl.y < h / 2 && tr.x > w / 2 && tr.y < h / 2
    requires br.x > w / 2 && br.y > h / 2 && bl.x < w / 2 && bl.y > h / 2
    ensures Clear([tl, tr, br, bl], w, h)
    ensures var entries := Tagged(raw, [tl, tr, br, bl], w, h);
      forall i, j :: 0 <= i < j < |entries| ==> AngleKey(entries[i]) < AngleKey(entries[j])
  {
    var entries := Tagged(raw, [tl, tr, br, bl], w, h);
    QuadrantAngles(raw, Centre(tl), w, h);
    QuadrantAngles(raw, Centre(tr), w, h);
    QuadrantAngles(raw, Centre(br), w, h);
    QuadrantAngles(raw, Centre(bl), w, h);
    assert AngleKey(entries[0]) < AngleKey(entries[1]) < AngleKey(entries[2]) < AngleKey(entries[3]);
  }

  /** Markers already at the corners of an upright rectangle need no
      correction: the target corners are those of the image, and the source
      points are the markers themselves. */
  lemma RectangleCorners(order: seq<Entry>, w: nat, h: nat)
    requires |order| == 4
    requires order[0].marker.x == order[3].marker.x && order[1].marker.x == order[2].marker.x
    requires order[0].marker.y == order[1].marker.y && order[3].marker.y == order[2].marker.y
    ensures CorrectionsOf(order) == Corrections(0, 0, 0, 0)
    ensures CornerList(order, w, h)
         == [Point(0, 0), Point(w, 0), Point(w, h), Point(0, h)]
          + [Centre(order[0].marker), Centre(order[1].marker), Centre(order[2].marker), Centre(order[3].marker)]
  {
  }

  /** A frame whose chosen markers are the corners of an upright rectangle
      around the middle of the image is warped from exactly those corners
      onto the corners of the image. */
  lemma RectangleFrame(raw: RawAngle, markers: seq<Circle>, w: nat, h: nat, left: int, right: int, top: int, bottom: int, areas: seq<real>)
    requires IsCosineRuleAngle(raw)
    requires w >= 2 && |areas| == 4
    requires left < w / 2 < right && top < h / 2 < bottom
    requires multiset(markers) == multiset{
               Circle(left, top, areas[0]), Circle(right, top, areas[1]),
               Circle(right, bottom, areas[2]), Circle(left, bottom, areas[3])}
    ensures |markers| == 4
    ensures PlanFor(raw, markers, w, h).Warped?
    ensures PlanFor(raw, markers, w, h).corners
         == [Point(0, 0), Point(w, 0), Point(w, h), Point(0, h),
             Point(left, top), Point(right, top), Point(right, bottom), Point(left, bottom)]
  {
    var tl, tr, br, bl := Circle(left, top, areas[0]), Circle(right, top, areas[1]), Circle(right, bottom, areas[2]), Circle(left, bottom, areas[3]);
    assert |markers| == |multiset(markers)| == 4;
    QuadrantOrder(raw, markers, w, h, tl, tr, br, bl);
    var order := Tagged(raw, [tl, tr, br, bl], w, h);
    RectangleCorners(order, w, h);
  }
}
