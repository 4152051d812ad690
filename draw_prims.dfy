/** The drawing primitives the mappings select, in data coordinates.  The
    renderer turns each point into pixels with ContextMapper.Map; which
    points and segments are drawn depends only on check_bounds. */
module Primitives {
  import opened ContextMapping

  datatype Point = Point(x: real, y: real)
  datatype Segment = Segment(from: Point, to: Point)

  function Min(a: nat, b: nat): nat
  {
    if a <= b then a else b
  }

  /** Pairs x and y values position by position, stopping at the shorter vector. */
  function Zip(xs: seq<real>, ys: seq<real>): (r: seq<Point>)
    ensures |r| == Min(|xs|, |ys|)
    ensures forall i :: 0 <= i < |r| ==> r[i] == Point(xs[i], ys[i])
  {
    seq(Min(|xs|, |ys|), i requires 0 <= i < Min(|xs|, |ys|) => Point(xs[i], ys[i]))
  }

  predicate InBounds(mapper: ContextMapper, p: Point)
    reads mapper
  {
    mapper.CheckBounds(p.x, p.y)
  }

  /** The points that pass check_bounds, in their original order. */
  function Visible(mapper: ContextMapper, pts: seq<Point>): seq<Point>
    reads mapper
  {
    if |pts| == 0 then []
    else Visible(mapper, pts[..|pts| - 1]) + (if InBounds(mapper, pts[|pts| - 1]) then [pts[|pts| - 1]] else [])
  }

  /** A point is drawn exactly when it is in the data and in bounds. */
  lemma {:induction false} VisibleExact(mapper: ContextMapper, pts: seq<Point>, p: Point)
    ensures p in Visible(mapper, pts) <==> p in pts && InBounds(mapper, p)
    decreases |pts|
  {
    if |pts| > 0 {
      var init := pts[..|pts| - 1];
      VisibleExact(mapper, init, p);
      assert pts == init + [pts[|pts| - 1]];
    }
  }

  lemma {:induction false} VisibleLength(mapper: ContextMapper, pts: seq<Point>)
    ensures |Visible(mapper, pts)| <= |pts|
    ensures (forall p :: p in pts ==> InBounds(mapper, p)) ==> Visible(mapper, pts) == pts
    decreases |pts|
  {
    if |pts| > 0 {
      var init := pts[..|pts| - 1];
      VisibleLength(mapper, init);
      assert pts == init + [pts[|pts| - 1]];
    }
  }

  /** Line segments: each point after the first that is in bounds is joined to
      the point before it, whether or not that one was in bounds. */
  function Strokes(mapper: ContextMapper, pts: seq<Point>): seq<Segment>
    reads mapper
  {
    if |pts| <= 1 then []
    else
      var last := if InBounds(mapper, pts[|pts| - 1]) then [Segment(pts[|pts| - 2], pts[|pts| - 1])] else [];
      Strokes(mapper, pts[..|pts| - 1]) + last
  }

  /** A segment is stroked exactly when it joins two consecutive points whose
      end is in bounds. */
  lemma {:induction false} StrokesExact(mapper: ContextMapper, pts: seq<Point>, s: Segment)
    ensures s in Strokes(mapper, pts) <==>
      exists k :: 1 <= k < |pts| && InBounds(mapper, pts[k]) && s == Segment(pts[k - 1], pts[k])
    decreases |pts|
  {
    if |pts| > 1 {
      var init := pts[..|pts| - 1];
      StrokesExact(mapper, init, s);
      if s in Strokes(mapper, pts) && s !in Strokes(mapper, init) {
        assert InBounds(mapper, pts[|pts| - 1]) && s == Segment(pts[|pts| - 2], pts[|pts| - 1]);
      }
      if exists k :: 1 <= k < |pts| && InBounds(mapper, pts[k]) && s == Segment(pts[k - 1], pts[k]) {
        var k :| 1 <= k < |pts| && InBounds(mapper, pts[k]) && s == Segment(pts[k - 1], pts[k]);
        if k < |pts| - 1 {
          assert init[k] == pts[k] && init[k - 1] == pts[k - 1];
        }
      }
    }
  }

  /** There is one segment per visible point after the first. */
  lemma {:induction false} StrokesCount(mapper: ContextMapper, pts: seq<Point>)
    requires |pts| >= 1
    ensures |Strokes(mapper, pts)| == |Visible(mapper, pts[1..])|
    decreases |pts|
  {
    if |pts| > 1 {
      var init := pts[..|pts| - 1];
      StrokesCount(mapper, init);
      assert pts[1..][..|pts[1..]| - 1] == init[1..];
    }
  }
}
