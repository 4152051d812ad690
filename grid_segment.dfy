/** One axis of a plot area: its label, the range it covers and the grid
    steps along it.  Only linear scaling is modelled; steps are reals. */
module GridSegments {

  datatype GridSegment = GridSegment(labelText: string, precision: int, from: real, to: real,
                                     steps: seq<real>, log: bool, invert: bool, offset: int)

  /** The width of one grid interval. */
  function IntervalSize(from: real, to: real, nIntervals: int): real
    requires nIntervals != 0
  {
    (to - from) / (nIntervals as real)
  }

  /** Where the first step sits: `from` shifted by `offset` percent of an interval. */
  function FromOffset(from: real, to: real, nIntervals: int, offset: int): real
    requires nIntervals != 0
  {
    from + IntervalSize(from, to, nIntervals) * ((offset as real) / 100.0)
  }

  /** The number of iterations of `0..n_intervals+1`. */
  function StepCount(nIntervals: int): nat
  {
    if nIntervals + 1 <= 0 then 0 else nIntervals + 1
  }

  /** Step k of a linear grid: the start plus k intervals. */
  function GridStep(start: real, size: real, k: int): real
  {
    start + (k as real) * size
  }

  /** Step i of a linear grid starting at `start` with intervals of `size`. */
  function LinearStep(start: real, size: real, i: nat): real
  {
    start + (i as real) * size
  }

  /** GridSegment::new, linear branch: step i is the offset start plus i intervals. */
  method NewGridSegment(labelText: string, precision: int, from: real, to: real, nIntervals: int,
                        invert: bool, offset: int) returns (g: GridSegment)
    requires nIntervals != 0
    ensures |g.steps| == StepCount(nIntervals)
    ensures forall i :: 0 <= i < |g.steps| ==>
      g.steps[i] == FromOffset(from, to, nIntervals, offset) + (i as real) * IntervalSize(from, to, nIntervals)
    ensures g.labelText == labelText && g.precision == precision && g.from == from && g.to == to
    ensures !g.log && g.invert == invert && g.offset == offset
  {
    var fromOffset := FromOffset(from, to, nIntervals, offset);
    var intvSize := IntervalSize(from, to, nIntervals);
    var steps: seq<real> := [];
    var i := 0;
    while i < nIntervals + 1
      invariant 0 <= i && (nIntervals + 1 >= 0 ==> i <= nIntervals + 1)
      invariant nIntervals + 1 <= 0 ==> i == 0
      invariant |steps| == i
      invariant forall k :: 0 <= k < i ==> steps[k] == GridStep(fromOffset, intvSize, k)
    {
      steps := steps + [GridStep(fromOffset, intvSize, i)];
      i := i + 1;
    }
    g := GridSegment(labelText, precision, from, to, steps, false, invert, offset);
  }

  /** Consecutive steps are one interval apart. */
  lemma EvenSpacing(g: GridSegment, from: real, to: real, nIntervals: int, offset: int, i: nat)
    requires nIntervals != 0 && i + 1 < |g.steps|
    requires forall k :: 0 <= k < |g.steps| ==>
      g.steps[k] == FromOffset(from, to, nIntervals, offset) + (k as real) * IntervalSize(from, to, nIntervals)
    ensures g.steps[i + 1] - g.steps[i] == IntervalSize(from, to, nIntervals)
  {
    assert g.steps[i + 1] == FromOffset(from, to, nIntervals, offset) + ((i + 1) as real) * IntervalSize(from, to, nIntervals);
  }

  /** With no offset the grid starts at `from` and, for a positive interval
      count, ends exactly at `to`. */
  lemma EndPoints(g: GridSegment, from: real, to: real, nIntervals: int)
    requires nIntervals > 0 && |g.steps| == StepCount(nIntervals)
    requires forall k :: 0 <= k < |g.steps| ==>
      g.steps[k] == FromOffset(from, to, nIntervals, 0) + (k as real) * IntervalSize(from, to, nIntervals)
    ensures g.steps[0] == from
    ensures g.steps[|g.steps| - 1] == to
  {
    var n := nIntervals as real;
    assert g.steps[nIntervals] == from + n * ((to - from) / n);
    assert n * ((to - from) / n) == to - from;
  }

  /** A value in the description table (numbers are kept as numbers rather than text). */
  datatype DescValue = Text(s: string) | Int(i: int) | Real(r: real) | Bool(b: bool)

  /** description: the interval count and the density are both reported as
      the number of steps, which for a segment built with n >= 0 intervals
      is n + 1, so the description does not give back the count it was built with. */
  method Description(g: GridSegment) returns (desc: map<string, DescValue>)
    ensures desc.Keys == {"label", "precision", "from", "to", "n_intervals", "invert",
                          "log_scaling", "grid_offset", "grid_density"}
    ensures desc["label"] == Text(g.labelText) && desc["precision"] == Int(g.precision)
    ensures desc["from"] == Real(g.from) && desc["to"] == Real(g.to)
    ensures desc["n_intervals"] == Int(|g.steps|) && desc["grid_density"] == Int(|g.steps|)
    ensures desc["invert"] == Bool(g.invert) && desc["log_scaling"] == Bool(g.log)
    ensures desc["grid_offset"] == Int(g.offset)
  {
    desc := map[];
    desc := desc["label" := Text(g.labelText)];
    desc := desc["precision" := Int(g.precision)];
    desc := desc["from" := Real(g.from)];
    desc := desc["to" := Real(g.to)];
    desc := desc["n_intervals" := Int(|g.steps|)];
    desc := desc["invert" := Bool(g.invert)];
    desc := desc["log_scaling" := Bool(g.log)];
    desc := desc["grid_offset" := Int(g.offset)];
    desc := desc["grid_density" := Int(|g.steps|)];
  }
}
