/**
 * The fractal evaluator: clears an RGBA byte buffer, then walks the frame
 * row by row, runs the escape-time iteration z := z*z + c for every pixel,
 * and copies the palette entry of the escape count (modulo 10) into the
 * pixel's four bytes.
 *
 * The iteration runs over `real`, an idealisation of the source's f64.
 */
module Render {

  import opened Axes

  newtype Byte = x: int | 0 <= x < 256

  const MaxIteration: nat := 1000
  const PaletteSize: nat := 10
  /** Bytes per pixel: red, green, blue, alpha. */
  const Channels: nat := 4
  /** Number of bytes the render loop writes. */
  const FrameBytes: nat := Width * Height * Channels

  /** Palette slot 0: opaque black. */
  const Black: seq<Byte> := [0, 0, 0, 255]

  predicate ValidPalette(colors: seq<seq<Byte>>)
  {
    |colors| == PaletteSize && forall k :: 0 <= k < |colors| ==> |colors[k]| == Channels
  }

  /**
   * Builds the palette: slot 0 is opaque black, and slots 1 to 9 take four
   * random bytes each (red, green, blue, alpha), drawn in that order from
   * `random`, which stands for the random generator's output.
   */
  method RandomColorSpace(random: seq<Byte>) returns (colors: seq<seq<Byte>>)
    requires |random| == Channels * (PaletteSize - 1)
    ensures ValidPalette(colors)
    ensures colors[0] == Black
    ensures forall k :: 1 <= k < PaletteSize ==> colors[k] == random[Channels * (k - 1) .. Channels * k]
  {
    var c := new seq<Byte>[PaletteSize](_ => [0, 0, 0, 0]);
    c[0] := [0, 0, 0, 255];
    var next := 0;
    for i := 1 to PaletteSize
      invariant next == Channels * (i - 1)
      invariant c[0] == Black
      invariant forall k :: 1 <= k < i ==> c[k] == random[Channels * (k - 1) .. Channels * k]
    {
      var cr := random[next];
      var cg := random[next + 1];
      var cb := random[next + 2];
      var ca := random[next + 3];
      next := next + 4;
      c[i] := [cr, cg, cb, ca];
    }
    colors := c[..];
  }

  /** The cleared pattern: zero colour channels, opaque alpha. */
  function ClearedByte(p: nat): (v: Byte)
  {
    if p % Channels == 3 then 255 else 0
  }

  /** Overwrites every byte of `screen` with the cleared pattern. */
  method Clear(screen: array<Byte>)
    modifies screen
    ensures forall p :: 0 <= p < screen.Length ==> screen[p] == ClearedByte(p)
  {
    for i := 0 to screen.Length
      invariant forall p :: 0 <= p < i ==> screen[p] == ClearedByte(p)
    {
      screen[i] := if i % 4 == 3 then 255 else 0;
    }
  }

  /**
   * Escape count from the state (x, y) after `iteration` steps: the number
   * of steps taken once |z|^2 exceeds 4 or the cap is reached.
   */
  function EscapeFrom(x: real, y: real, x0: real, y0: real, iteration: nat): (n: nat)
    requires iteration <= MaxIteration
    ensures iteration <= n <= MaxIteration
    decreases MaxIteration - iteration
  {
    if x * x + y * y <= 2.0 * 2.0 && iteration < MaxIteration then
      EscapeFrom(x * x - y * y + x0, 2.0 * x * y + y0, x0, y0, iteration + 1)
    else
      iteration
  }

  /** Escape count of c = x0 + y0 i, iterating from z = 0. */
  function EscapeCount(x0: real, y0: real): (n: nat)
    ensures 1 <= n <= MaxIteration
  {
    EscapeFrom(0.0, 0.0, x0, y0, 0)
  }

  /** The escape-time loop for one pixel. */
  method EscapeTime(x0: real, y0: real) returns (iteration: nat)
    ensures iteration == EscapeCount(x0, y0)
    ensures 1 <= iteration <= MaxIteration
  {
    var x := 0.0;
    var y := 0.0;
    iteration := 0;
    while x * x + y * y <= 2.0 * 2.0 && iteration < MaxIteration
      invariant iteration <= MaxIteration
      invariant EscapeFrom(x, y, x0, y0, iteration) == EscapeCount(x0, y0)
      decreases MaxIteration - iteration
    {
      var xtemp := x * x - y * y + x0;
      y := 2.0 * x * y + y0;
      x := xtemp;
      iteration := iteration + 1;
    }
  }

  /** c = 0 keeps z at 0 for ever, so from any step it runs to the cap. */
  lemma {:induction false} OriginStaysBounded(iteration: nat)
    requires iteration <= MaxIteration
    ensures EscapeFrom(0.0, 0.0, 0.0, 0.0, iteration) == MaxIteration
    decreases MaxIteration - iteration
  {
    if iteration < MaxIteration {
      OriginStaysBounded(iteration + 1);
    }
  }

  /** The origin reaches the cap; a point with |c|^2 > 4 escapes after one step. */
  lemma KnownPoints(x0: real, y0: real)
    ensures EscapeCount(0.0, 0.0) == MaxIteration
    ensures x0 * x0 + y0 * y0 > 4.0 ==> EscapeCount(x0, y0) == 1
  {
    OriginStaysBounded(0);
    assert EscapeCount(x0, y0) == EscapeFrom(x0, y0, x0, y0, 1);
  }

  /** The colour of pixel (column i, row j). */
  function PixelColor(xs: seq<real>, ys: seq<real>, colors: seq<seq<Byte>>, j: nat, i: nat): (c: seq<Byte>)
    requires |xs| == Width && |ys| == Height && ValidPalette(colors)
    requires j < Height && i < Width
    ensures |c| == Channels
  {
    colors[EscapeCount(xs[i], ys[j]) % PaletteSize]
  }

  /**
   * Byte p of the rendered frame: within the first 1920 * 1080 pixels it is
   * channel p % 4 of pixel p / 4 in row-major order; beyond them it is the
   * cleared pattern.
   */
  function RenderedByte(xs: seq<real>, ys: seq<real>, colors: seq<seq<Byte>>, p: nat): Byte
    requires |xs| == Width && |ys| == Height && ValidPalette(colors)
  {
    if p < FrameBytes then
      var pixel := p / Channels;
      PixelColor(xs, ys, colors, pixel / Width, pixel % Width)[p % Channels]
    else
      ClearedByte(p)
  }

  /** The byte offsets of channel k of pixel (i, j) decompose back to (j, i, k). */
  lemma PixelOffset(j: nat, i: nat, k: nat)
    requires j < Height && i < Width && k < Channels
    ensures (Width * j + i) * Channels + k < FrameBytes
    ensures ((Width * j + i) * Channels + k) / Channels == Width * j + i
    ensures ((Width * j + i) * Channels + k) % Channels == k
    ensures (Width * j + i) / Width == j && (Width * j + i) % Width == i
  {
  }

  /**
   * The rendered frame in row-major RGBA layout: the four bytes of pixel
   * (column i, row j) hold the palette entry of that pixel's escape count.
   */
  lemma PixelLayout(xs: seq<real>, ys: seq<real>, colors: seq<seq<Byte>>, j: nat, i: nat, k: nat)
    requires |xs| == Width && |ys| == Height && ValidPalette(colors)
    requires j < Height && i < Width && k < Channels
    ensures RenderedByte(xs, ys, colors, (Width * j + i) * Channels + k)
            == colors[EscapeCount(xs[i], ys[j]) % PaletteSize][k]
  {
    PixelOffset(j, i, k);
  }

  /** A pixel at c = 0 gets palette slot 0, opaque black, whatever slots 1 to 9 hold. */
  lemma OriginIsBlack(xs: seq<real>, ys: seq<real>, colors: seq<seq<Byte>>, j: nat, i: nat)
    requires |xs| == Width && |ys| == Height && ValidPalette(colors) && colors[0] == Black
    requires j < Height && i < Width && xs[i] == 0.0 && ys[j] == 0.0
    ensures PixelColor(xs, ys, colors, j, i) == Black
  {
    KnownPoints(0.0, 0.0);
  }

  /**
   * Renders the grid (xs, ys) into `screen`: clears it, then writes pixel
   * after pixel through a running byte index. A buffer shorter than
   * `FrameBytes` makes the source's slice copy panic, hence the requires.
   */
  method Mandelbrot(xs: seq<real>, ys: seq<real>, screen: array<Byte>, colors: seq<seq<Byte>>)
    requires |xs| == Width && |ys| == Height && ValidPalette(colors)
    requires screen.Length >= FrameBytes
    modifies screen
    ensures forall p :: 0 <= p < screen.Length ==> screen[p] == RenderedByte(xs, ys, colors, p)
  {
    Clear(screen);
    var index := 0;
    for j := 0 to Height
      invariant index == Width * j * Channels
      invariant forall p :: 0 <= p < index ==> screen[p] == RenderedByte(xs, ys, colors, p)
      invariant forall p :: index <= p < screen.Length ==> screen[p] == ClearedByte(p)
    {
      for i := 0 to Width
        invariant index == (Width * j + i) * Channels
        invariant forall p :: 0 <= p < index ==> screen[p] == RenderedByte(xs, ys, colors, p)
        invariant forall p :: index <= p < screen.Length ==> screen[p] == ClearedByte(p)
      {
        var x0 := xs[i];
        var y0 := ys[j];
        var iteration := EscapeTime(x0, y0);
        var color := colors[iteration % PaletteSize];
        PixelOffset(j, i, 0);
        PixelOffset(j, i, 1);
        PixelOffset(j, i, 2);
        PixelOffset(j, i, 3);
        screen[index] := color[0];
        screen[index + 1] := color[1];
        screen[index + 2] := color[2];
        screen[index + 3] := color[3];
        index := index + 4;
      }
    }
  }

}
