/**
 * Re-centering: the bounds of the next viewport are read off the current
 * axes around the clicked pixel, and the new axes are built from them.
 *
 * The horizontal cascade looks at the click column, the vertical cascade at
 * the click row. They are coupled: the middle horizontal branch also sets
 * the lower y bound, and the middle vertical branch also sets the upper
 * x bound, so some bands leave a bound at its initial 0.0. A read past the
 * end of an axis panics in the source; here it yields `None`.
 */
module Recenter {

  import opened Wrappers
  import opened Axes

  /** Half the zoom window in columns and in rows. */
  const MarginX: nat := 48
  const MarginY: nat := 27

  /** Which branch of a cascade a click coordinate falls in. */
  datatype Band = Low | Mid | High

  /** Left edge (below 48), right edge (above 1920 - 48) or middle. */
  function ColumnBand(mx: nat): Band
  {
    if mx < MarginX then Low else if mx > Width - MarginX then High else Mid
  }

  /** Top edge (below 27), bottom edge (above 1080 - 27) or middle. */
  function RowBand(my: nat): Band
  {
    if my > Height - MarginY then High else if my < MarginY then Low else Mid
  }

  /**
   * The clicks for which every axis read of the bound selection is in range:
   * the click lies on the frame, a middle column reads the row 27 below it,
   * and a middle row reads the column 48 to the right.
   */
  predicate SafeClick(mx: nat, my: nat)
  {
    && mx < Width && my < Height
    && (ColumnBand(mx) == Mid ==> my + MarginY < Height)
    && (RowBand(my) == Mid ==> mx + MarginX < Width)
  }

  /**
   * The selected bounds, bound by bound. Each bound is read from the branch
   * that assigns it last; a bound that no taken branch assigns keeps 0.0.
   */
  function RecenterBounds(xs: seq<real>, ys: seq<real>, mx: nat, my: nat): (b: Bounds)
    requires |xs| == Width && |ys| == Height && SafeClick(mx, my)
  {
    var xMin :=
      match ColumnBand(mx)
      case Low => xs[mx]
      case High => xs[mx - 2 * MarginX]
      case Mid => xs[mx - MarginX];
    var xMax :=
      if RowBand(my) == Mid then xs[mx + MarginX]
      else match ColumnBand(mx)
        case Low => xs[mx + 2 * MarginX]
        case High => xs[mx]
        case Mid => 0.0;
    var yMin :=
      match RowBand(my)
      case High => ys[my]
      case Low => ys[my + 2 * MarginY]
      case Mid => if ColumnBand(mx) == Mid then ys[my + MarginY] else 0.0;
    var yMax :=
      match RowBand(my)
      case High => ys[my - 2 * MarginY]
      case Low => ys[my]
      case Mid => ys[my - MarginY];
    Bounds(xMin, xMax, yMin, yMax)
  }

  /**
   * The two cascades of the source, run on four bounds that start at 0.0.
   * Returns `None` exactly where the source would index past an axis.
   */
  method SelectBounds(xs: seq<real>, ys: seq<real>, mx: nat, my: nat) returns (b: Option<Bounds>)
    requires |xs| == Width && |ys| == Height
    ensures b.Some? <==> SafeClick(mx, my)
    ensures b.Some? ==> b.value == RecenterBounds(xs, ys, mx, my)
  {
    var newXMin, newXMax, newYMin, newYMax := 0.0, 0.0, 0.0, 0.0;

    if mx < MarginX {
      newXMin := xs[mx];
      newXMax := xs[mx + 2 * MarginX];
    } else if mx > Width - MarginX {
      if mx >= |xs| { return None; }
      newXMax := xs[mx];
      newXMin := xs[mx - 2 * MarginX];
    } else {
      newXMin := xs[mx - MarginX];
      if my + MarginY >= |ys| { return None; }
      newYMin := ys[my + MarginY];
    }

    if my > Height - MarginY {
      if my >= |ys| { return None; }
      newYMin := ys[my];
      newYMax := ys[my - 2 * MarginY];
    } else if my < MarginY {
      newYMax := ys[my];
      newYMin := ys[my + 2 * MarginY];
    } else {
      if mx + MarginX >= |xs| { return None; }
      newXMax := xs[mx + MarginX];
      newYMax := ys[my - MarginY];
    }

    b := Some(Bounds(newXMin, newXMax, newYMin, newYMax));
  }

  /** The next viewport for a click on `prev`, or `None` where the source panics. */
  method InitNewSpace(prev: Grid, mx: nat, my: nat) returns (r: Option<Grid>)
    requires WellFormed(prev)
    ensures r.Some? <==> SafeClick(mx, my)
    ensures r.Some? ==> r.value == GridFor(RecenterBounds(prev.xs, prev.ys, mx, my))
  {
    var height := Height as real;
    var width := Width as real;
    var bounds := SelectBounds(prev.xs, prev.ys, mx, my);
    if bounds.None? {
      return None;
    }
    var b := bounds.value;
    var dx := (b.xMax - b.xMin) / width;
    var dy := (b.yMax - b.yMin) / height;
    var xs := FillAxis(Width, b.xMin, b.xMax, dx);
    var ys := FillAxis(Height, b.yMax, b.yMin, -dy);
    r := Some(Grid(xs, ys));
  }

  /**
   * The coupling of the two cascades: a middle column with an edge row never
   * sets the upper x bound, and a middle row with an edge column never sets
   * the lower y bound; in every other band both are read from the axes.
   */
  lemma CoupledBoundsStayZero(xs: seq<real>, ys: seq<real>, mx: nat, my: nat)
    requires |xs| == Width && |ys| == Height && SafeClick(mx, my)
    ensures ColumnBand(mx) == Mid && RowBand(my) != Mid ==> RecenterBounds(xs, ys, mx, my).xMax == 0.0
    ensures RowBand(my) == Mid && ColumnBand(mx) != Mid ==> RecenterBounds(xs, ys, mx, my).yMin == 0.0
    ensures RowBand(my) == Mid ==> RecenterBounds(xs, ys, mx, my).xMax == xs[mx + MarginX]
  {
  }

  /**
   * A click right of column 1872 is only safe on an edge row: on a middle
   * row the source reads column mx + 48, past the last column. Likewise a
   * middle column is unsafe on any row from 1053 down.
   */
  lemma UnsafeBands(mx: nat, my: nat)
    ensures ColumnBand(mx) == High && RowBand(my) == Mid ==> !SafeClick(mx, my)
    ensures ColumnBand(mx) == Mid && my >= Height - MarginY ==> !SafeClick(mx, my)
    ensures mx == Width - MarginX && RowBand(my) == Mid ==> !SafeClick(mx, my)
  {
  }

  /**
   * On strictly ordered axes, every bound pair that the cascades do set is
   * read from two different cells in the right order, so the new viewport is
   * not degenerate in that direction.
   */
  lemma RecenterOrdered(xs: seq<real>, ys: seq<real>, mx: nat, my: nat)
    requires |xs| == Width && |ys| == Height && SafeClick(mx, my)
    requires forall i, k :: 0 <= i < k < Width ==> xs[i] < xs[k]
    requires forall i, k :: 0 <= i < k < Height ==> ys[i] > ys[k]
    ensures !(ColumnBand(mx) == Mid && RowBand(my) != Mid) ==>
              RecenterBounds(xs, ys, mx, my).xMin < RecenterBounds(xs, ys, mx, my).xMax
    ensures !(RowBand(my) == Mid && ColumnBand(mx) != Mid) ==>
              RecenterBounds(xs, ys, mx, my).yMin < RecenterBounds(xs, ys, mx, my).yMax
  {
  }

  /**
   * A middle click on a grid built from bounds `b` zooms in twenty-fold: the
   * new x span is 96 columns of the old one (1920 / 96 = 20) and the new y
   * span 54 rows (1080 / 54 = 20). The exception is a click whose window
   * ends on the forced last cell (column 1871, row 1052). There the span
   * reaches one cell further: 97 / 1920 or 55 / 1080 of the old one.
   */
  lemma MiddleClickZooms(b: Bounds, mx: nat, my: nat)
    requires SafeClick(mx, my) && ColumnBand(mx) == Mid && RowBand(my) == Mid
    ensures var nb := RecenterBounds(GridFor(b).xs, GridFor(b).ys, mx, my);
            && nb.xMax - nb.xMin == (if mx + MarginX < Width - 1 then (b.xMax - b.xMin) / 20.0
                                     else (b.xMax - b.xMin) * 97.0 / 1920.0)
            && nb.yMax - nb.yMin == (if my + MarginY < Height - 1 then (b.yMax - b.yMin) / 20.0
                                     else (b.yMax - b.yMin) * 55.0 / 1080.0)
  {
    // Interior reads are 96 columns and 54 rows apart, so the spans are
    // 96 * dx and 54 * dy. A read of the last cell lands one step beyond the
    // closed form (the last cell is first + n * step), which adds one step.
  }

}
