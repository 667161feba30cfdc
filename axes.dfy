/**
 * Grid generation: the per-column x axis and the per-row y axis that map
 * pixels of the fixed 1920 x 1080 frame to points of the complex plane.
 *
 * The source stores coordinates as f64; here they are idealised as `real`,
 * so rounding (and the error the cumulative construction accumulates) is
 * not modelled.
 */
module Axes {

  const Width: nat := 1920
  const Height: nat := 1080

  /** One viewport: x coordinate of every column and y coordinate of every row (top row first). */
  datatype Grid = Grid(xs: seq<real>, ys: seq<real>)

  predicate WellFormed(g: Grid)
  {
    |g.xs| == Width && |g.ys| == Height
  }

  /** The four bounds a viewport is built from. */
  datatype Bounds = Bounds(xMin: real, xMax: real, yMin: real, yMax: real)

  /** The full-set view the program starts with. */
  const DefaultBounds: Bounds := Bounds(-2.00, 0.47, -1.12, 1.12)

  /**
   * Closed form of an axis of `n` cells: cell 0 is `first`, the last cell is
   * forced to `last`, and every other cell i is `first + i * step`.
   */
  function AxisSpec(n: nat, first: real, last: real, step: real): (a: seq<real>)
    requires n >= 2
    ensures |a| == n
  {
    seq(n, i requires 0 <= i < n => if i == n - 1 then last else first + i as real * step)
  }

  /** The grid spanned by `b`: x from xMin to xMax, y from yMax (top) down to yMin. */
  function GridFor(b: Bounds): (g: Grid)
    ensures WellFormed(g)
  {
    Grid(AxisSpec(Width, b.xMin, b.xMax, (b.xMax - b.xMin) / Width as real),
         AxisSpec(Height, b.yMax, b.yMin, -((b.yMax - b.yMin) / Height as real)))
  }

  /** The zero-filled grid the history slots hold before they are first written. */
  function BlankGrid(): (g: Grid)
    ensures WellFormed(g)
  {
    Grid(seq(Width, _ => 0.0), seq(Height, _ => 0.0))
  }

  ghost predicate Ascending(a: seq<real>)
  {
    forall i, k :: 0 <= i <= k < |a| ==> a[i] <= a[k]
  }

  ghost predicate Descending(a: seq<real>)
  {
    forall i, k :: 0 <= i <= k < |a| ==> a[i] >= a[k]
  }

  /**
   * Fills an axis cell by cell, as both grid builders do: the first cell is
   * `first`, the last is `last`, and every interior cell is the previous cell
   * plus `step`.
   */
  method FillAxis(n: nat, first: real, last: real, step: real) returns (axis: seq<real>)
    requires n >= 2
    ensures |axis| == n && axis[0] == first && axis[n - 1] == last
    ensures forall i :: 0 < i < n - 1 ==> axis[i] == axis[i - 1] + step
    ensures axis == AxisSpec(n, first, last, step)
  {
    var a := new real[n];
    for i := 0 to n
      invariant forall k :: 0 <= k < i ==> a[k] == AxisSpec(n, first, last, step)[k]
    {
      if i == 0 {
        a[i] := first;
      } else if i == n - 1 {
        a[i] := last;
      } else {
        a[i] := a[i - 1] + step;
      }
    }
    axis := a[..];
  }

  /** The initial viewport, built from the default bounds. */
  method InitOgSpace() returns (g: Grid)
    ensures g == GridFor(DefaultBounds)
    ensures g.xs[0] == -2.00 && g.xs[Width - 1] == 0.47
    ensures g.ys[0] == 1.12 && g.ys[Height - 1] == -1.12
  {
    var height := Height as real;
    var width := Width as real;
    var xMin, xMax, yMin, yMax := -2.00, 0.47, -1.12, 1.12;
    var dx := (xMax - xMin) / width;
    var xs := FillAxis(Width, xMin, xMax, dx);
    var dy := (yMax - yMin) / height;
    var ys := FillAxis(Height, yMax, yMin, -dy);
    g := Grid(xs, ys);
  }

  /** With a non-negative span per cell, the axis never decreases. */
  lemma AxisAscending(n: nat, first: real, last: real)
    requires n >= 2 && first <= last
    ensures Ascending(AxisSpec(n, first, last, (last - first) / n as real))
  {
    // The step is non-negative and n steps span last - first, so interior
    // cells grow by (k - i) * step and the forced last cell lies at or above
    // first + (n - 1) * step; the solver closes this without hints.
  }

  /** With a non-positive span per cell, the axis never increases. */
  lemma AxisDescending(n: nat, first: real, last: real)
    requires n >= 2 && last <= first
    ensures Descending(AxisSpec(n, first, last, -((first - last) / n as real)))
  {
    // Mirror image of AxisAscending: the step is non-positive and n steps
    // span last - first, so the axis only falls, down to the forced last cell.
  }

  /** A grid built from ordered bounds runs left to right upwards and top to bottom downwards. */
  lemma GridOrdered(b: Bounds)
    requires b.xMin <= b.xMax && b.yMin <= b.yMax
    ensures Ascending(GridFor(b).xs) && Descending(GridFor(b).ys)
    ensures GridFor(b).xs[0] == b.xMin && GridFor(b).xs[Width - 1] == b.xMax
    ensures GridFor(b).ys[0] == b.yMax && GridFor(b).ys[Height - 1] == b.yMin
  {
    AxisAscending(Width, b.xMin, b.xMax);
    AxisDescending(Height, b.yMax, b.yMin);
  }

}
