/** The data-to-pixel mapping of one plot area: data bounds, per-axis
    inversion and log flags, the axis extents derived from the bounds and the
    pixel size of the drawing area.  Only the linear branches are modelled;
    coordinates are reals. */
module ContextMapping {

  /** A point in pixel space. */
  datatype Coord2D = Coord2D(x: real, y: real)

  function Abs(v: real): (r: real)
    ensures r >= 0.0 && (r == v || r == -v)
  {
    if v < 0.0 then -v else v
  }

  /** calc_ext without log scaling: the absolute width of each data range. */
  function CalcExt(xmax: real, xmin: real, ymax: real, ymin: real): (r: (real, real))
    ensures r.0 >= 0.0 && (r.0 == 0.0 <==> xmax == xmin)
    ensures r.1 >= 0.0 && (r.1 == 0.0 <==> ymax == ymin)
    ensures xmin <= xmax ==> r.0 == xmax - xmin
    ensures ymin <= ymax ==> r.1 == ymax - ymin
  {
    (Abs(xmax - xmin), Abs(ymax - ymin))
  }

  /** The proportion of the data range at which `v` lies along one axis;
      an inverted axis measures from the upper bound. */
  function Prop(v: real, lo: real, hi: real, ext: real, inv: bool): real
    requires ext != 0.0
  {
    if inv then (hi - v) / ext else (v - lo) / ext
  }

  /** Inverting an axis is the same as reflecting the value inside the bounds. */
  lemma PropInverted(v: real, lo: real, hi: real, ext: real)
    requires ext != 0.0
    ensures Prop(v, lo, hi, ext, true) == Prop(lo + hi - v, lo, hi, ext, false)
  {
  }

  /** A value inside [lo, hi] has a proportion in [0, 1] when ext is the range width. */
  lemma PropInUnit(v: real, lo: real, hi: real, inv: bool)
    requires lo < hi && lo <= v <= hi
    ensures 0.0 <= Prop(v, lo, hi, hi - lo, inv) <= 1.0
  {
    var ext := hi - lo;
    if inv {
      assert 0.0 <= hi - v <= ext;
    } else {
      assert 0.0 <= v - lo <= ext;
    }
    DivUnit(if inv then hi - v else v - lo, ext);
  }

  lemma DivUnit(a: real, b: real)
    requires b > 0.0 && 0.0 <= a <= b
    ensures 0.0 <= a / b <= 1.0
  {
    assert a / b * b == a;
  }

  /** A pixel coordinate along one side: a 10% padding on each edge, the
      proportion scaled over the remaining 80%. */
  function Pixel(size: int, prop: real): real
  {
    0.1 * (size as real) + ((size as real) - 2.0 * (0.1 * (size as real))) * prop
  }

  lemma PixelRange(size: int, prop: real)
    requires size >= 0 && 0.0 <= prop <= 1.0
    ensures 0.1 * (size as real) <= Pixel(size, prop) <= 0.9 * (size as real)
  {
    var s := size as real;
    assert Pixel(size, prop) == 0.1 * s + 0.8 * s * prop;
    assert 0.0 <= 0.8 * s * prop <= 0.8 * s by {
      MulUnit(0.8 * s, prop);
    }
  }

  lemma MulUnit(a: real, p: real)
    requires a >= 0.0 && 0.0 <= p <= 1.0
    ensures 0.0 <= a * p <= a
  {
    assert a * p <= a * 1.0;
  }

  class ContextMapper {
    var xmin: real
    var xmax: real
    var ymin: real
    var ymax: real
    var xlog: bool
    var ylog: bool
    var xinv: bool
    var yinv: bool
    var xext: real
    var yext: real
    var w: int
    var h: int

    /** `Default::default()`: everything zero or false. */
    constructor Default()
      ensures xmin == 0.0 && xmax == 0.0 && ymin == 0.0 && ymax == 0.0
      ensures !xlog && !ylog && !xinv && !yinv
      ensures xext == 0.0 && yext == 0.0 && w == 0 && h == 0
    {
      xmin, xmax, ymin, ymax := 0.0, 0.0, 0.0, 0.0;
      xlog, ylog, xinv, yinv := false, false, false, false;
      xext, yext := 0.0, 0.0;
      w, h := 0, 0;
    }

    /** ContextMapper::new on linear axes: the extents come from the bounds
        and the pixel size starts at zero. */
    constructor (xmin0: real, xmax0: real, ymin0: real, ymax0: real, xinv0: bool, yinv0: bool)
      ensures xmin == xmin0 && xmax == xmax0 && ymin == ymin0 && ymax == ymax0
      ensures !xlog && !ylog && xinv == xinv0 && yinv == yinv0
      ensures (xext, yext) == CalcExt(xmax0, xmin0, ymax0, ymin0)
      ensures w == 0 && h == 0
    {
      xmin, xmax, ymin, ymax := xmin0, xmax0, ymin0, ymax0;
      xlog, ylog, xinv, yinv := false, false, xinv0, yinv0;
      var e := CalcExt(xmax0, xmin0, ymax0, ymin0);
      xext, yext := e.0, e.1;
      w, h := 0, 0;
    }

    /** update_data_extensions: new bounds, extents left as they were. */
    method UpdateDataExtensions(xmin0: real, xmax0: real, ymin0: real, ymax0: real)
      modifies this
      ensures xmin == xmin0 && xmax == xmax0 && ymin == ymin0 && ymax == ymax0
      ensures xext == old(xext) && yext == old(yext)
      ensures xlog == old(xlog) && ylog == old(ylog) && xinv == old(xinv) && yinv == old(yinv)
      ensures w == old(w) && h == old(h)
    {
      xmin, xmax, ymin, ymax := xmin0, xmax0, ymin0, ymax0;
    }

    method UpdateDimensions(w0: int, h0: int)
      modifies this
      ensures w == w0 && h == h0
      ensures xmin == old(xmin) && xmax == old(xmax) && ymin == old(ymin) && ymax == old(ymax)
      ensures xext == old(xext) && yext == old(yext)
      ensures xlog == old(xlog) && ylog == old(ylog) && xinv == old(xinv) && yinv == old(yinv)
    {
      w, h := w0, h0;
    }

    /** set_mode on linear axes: new flags, extents recomputed from the
        current bounds; the bounds and therefore check_bounds are unchanged. */
    method SetMode(xinv0: bool, yinv0: bool)
      modifies this
      ensures xinv == xinv0 && yinv == yinv0 && !xlog && !ylog
      ensures (xext, yext) == CalcExt(xmax, xmin, ymax, ymin)
      ensures xmin == old(xmin) && xmax == old(xmax) && ymin == old(ymin) && ymax == old(ymax)
      ensures w == old(w) && h == old(h)
      ensures forall x: real, y: real :: CheckBounds(x, y) == old(CheckBounds(x, y))
    {
      xlog, xinv, ylog, yinv := false, xinv0, false, yinv0;
      var e := CalcExt(xmax, xmin, ymax, ymin);
      xext, yext := e.0, e.1;
    }

    /** check_bounds: inside the data bounds on both axes, whatever the inversion flags. */
    predicate CheckBounds(x: real, y: real)
      reads this
    {
      xmin <= x <= xmax && ymin <= y <= ymax
    }

    /** map, linear branch: x is laid out left to right in the padded frame;
        y is the same layout mirrored top to bottom, so that larger values
        are drawn higher. */
    function Map(x: real, y: real): (c: Coord2D)
      reads this
      requires !xlog && !ylog && xext != 0.0 && yext != 0.0
      ensures c.x - Pixel(w, 0.0) == 0.8 * (w as real) * Prop(x, xmin, xmax, xext, xinv)
      ensures c.y == (h as real) - Pixel(h, Prop(y, ymin, ymax, yext, yinv))
    {
      Coord2D(Pixel(w, Prop(x, xmin, xmax, xext, xinv)), Pixel(h, 1.0 - Prop(y, ymin, ymax, yext, yinv)))
    }

    function DataExtensions(): (r: (real, real, real, real))
      reads this
      ensures r == (xmin, xmax, ymin, ymax)
    {
      (xmin, xmax, ymin, ymax)
    }

    /** The bounds' extents match the bounds (as after new or set_mode on an ordered range). */
    predicate Consistent()
      reads this
    {
      !xlog && !ylog && xmin < xmax && ymin < ymax && xext == xmax - xmin && yext == ymax - ymin
    }
  }

  /** Non-inverted corners: xmin at 10% and xmax at 90% of the width;
      ymin at 90% and ymax at 10% of the height. */
  lemma MapCorners(m: ContextMapper)
    requires m.Consistent() && !m.xinv && !m.yinv
    ensures m.Map(m.xmin, m.ymin) == Coord2D(0.1 * (m.w as real), 0.9 * (m.h as real))
    ensures m.Map(m.xmax, m.ymax) == Coord2D(0.9 * (m.w as real), 0.1 * (m.h as real))
  {
    assert (m.xmax - m.xmin) / m.xext == 1.0;
    assert (m.ymax - m.ymin) / m.yext == 1.0;
  }

  /** Inverting an axis maps x where the plain axis maps xmin + xmax - x. */
  lemma MapInvertedX(m: ContextMapper, x: real, y: real)
    requires !m.xlog && !m.ylog && m.xext != 0.0 && m.yext != 0.0 && m.xinv
    ensures m.Map(x, y).x == Pixel(m.w, Prop(m.xmin + m.xmax - x, m.xmin, m.xmax, m.xext, false))
  {
    PropInverted(x, m.xmin, m.xmax, m.xext);
  }

  lemma MapInvertedY(m: ContextMapper, x: real, y: real)
    requires !m.xlog && !m.ylog && m.xext != 0.0 && m.yext != 0.0 && m.yinv
    ensures m.Map(x, y).y == Pixel(m.h, 1.0 - Prop(m.ymin + m.ymax - y, m.ymin, m.ymax, m.yext, false))
  {
    PropInverted(y, m.ymin, m.ymax, m.yext);
  }

  /** A point that passes check_bounds is drawn inside the padded frame. */
  lemma {:induction false} InBoundsMapsInside(m: ContextMapper, x: real, y: real)
    requires m.Consistent() && m.w >= 0 && m.h >= 0 && m.CheckBounds(x, y)
    ensures 0.1 * (m.w as real) <= m.Map(x, y).x <= 0.9 * (m.w as real)
    ensures 0.1 * (m.h as real) <= m.Map(x, y).y <= 0.9 * (m.h as real)
  {
    PropInUnit(x, m.xmin, m.xmax, m.xinv);
    PropInUnit(y, m.ymin, m.ymax, m.yinv);
    PixelRange(m.w, Prop(x, m.xmin, m.xmax, m.xext, m.xinv));
    PixelRange(m.h, 1.0 - Prop(y, m.ymin, m.ymax, m.yext, m.yinv));
  }
}
