/**
 * The history ring: ten grid slots and the index of the one on screen.
 * Slot 0 holds the initial viewport and is never written again. A zoom
 * writes the recentred grid into the next slot (wrapping from 9 back to 1),
 * a step back only lowers the index, and a save only bumps the counter that
 * numbers exported images.
 */
module History {

  import opened Axes
  import opened Recenter
  import opened Render

  const Capacity: nat := 10
  /** Number of the first exported image. */
  const FirstImageNumber: nat := 23

  /** The slot a zoom writes to: the next one, or slot 1 after slot 9. */
  function NextSlot(index: nat): (next: nat)
    requires index < Capacity
    ensures 1 <= next < Capacity
  {
    if index == Capacity - 1 then 1 else index + 1
  }

  /** The index after `n` zooms from a fresh history. */
  function SlotAfter(n: nat): (index: nat)
    ensures index < Capacity
  {
    if n == 0 then 0 else NextSlot(SlotAfter(n - 1))
  }

  /**
   * Zooms from a fresh history visit slots 1 to 9 in turn, then cycle
   * through 1 to 9 again: slot 0 is left after the first zoom and never
   * revisited by zooming.
   */
  lemma {:induction false} SlotAfterCycles(n: nat)
    ensures SlotAfter(n) == if n == 0 then 0 else (n - 1) % (Capacity - 1) + 1
  {
    if n > 0 {
      SlotAfterCycles(n - 1);
    }
  }

  /** Nine zooms reach slot 9, and the tenth wraps to slot 1. */
  lemma TenthZoomWraps()
    ensures SlotAfter(9) == 9 && SlotAfter(10) == 1
  {
    SlotAfterCycles(9);
    SlotAfterCycles(10);
  }

  class SpaceHistory {
    var slots: array<Grid>
    var index: nat
    var imageCount: nat
    /** Slots 0 .. filled - 1 have been written; the rest are still blank. */
    ghost var filled: nat

    ghost predicate Valid()
      reads this, slots
    {
      && slots.Length == Capacity
      && index < filled <= Capacity
      && (forall k :: 0 <= k < Capacity ==> WellFormed(slots[k]))
      && (forall k :: filled <= k < Capacity ==> slots[k] == BlankGrid())
    }

    /** Slot 0 holds the initial viewport, the other slots are blank. */
    constructor ()
      ensures Valid() && fresh(slots)
      ensures index == 0 && imageCount == FirstImageNumber
      ensures slots[0] == GridFor(DefaultBounds)
      ensures forall k :: 1 <= k < Capacity ==> slots[k] == BlankGrid()
      ensures filled == 1
    {
      var space := InitOgSpace();
      var a := new Grid[Capacity](_ => BlankGrid());
      a[0] := space;
      slots := a;
      index := 0;
      imageCount := FirstImageNumber;
      filled := 1;
    }

    /** The grid on screen. */
    function Current(): (g: Grid)
      reads this, slots
      requires Valid()
      ensures WellFormed(g)
    {
      slots[index]
    }

    /**
     * Zoom (the Z key) around the mouse position (mx, my): the recentred
     * grid of the current slot goes into the next slot, which becomes
     * current. The source panics on a position outside `SafeClick`.
     */
    method Advance(mx: nat, my: nat)
      requires Valid() && SafeClick(mx, my)
      modifies this, slots
      ensures Valid() && slots == old(slots)
      ensures index == NextSlot(old(index))
      ensures slots[index] == GridFor(RecenterBounds(old(slots[index]).xs, old(slots[index]).ys, mx, my))
      ensures forall k :: 0 <= k < Capacity && k != index ==> slots[k] == old(slots[k])
      ensures slots[0] == old(slots[0])
      ensures imageCount == old(imageCount)
      ensures filled == if old(filled) <= index then index + 1 else old(filled)
    {
      var space := InitNewSpace(slots[index], mx, my);
      if index == 9 {
        index := 1;
        slots[index] := space.value;
      } else {
        index := index + 1;
        slots[index] := space.value;
      }
      if filled <= index {
        filled := index + 1;
      }
    }

    /**
     * Step back to the previous slot without recomputing anything. The
     * source decrements an unsigned index, so index 0 is excluded.
     */
    method Retreat()
      requires Valid() && index >= 1
      modifies this
      ensures Valid()
      ensures index == old(index) - 1
      ensures slots == old(slots) && unchanged(slots)
      ensures imageCount == old(imageCount)
      ensures filled == old(filled)
    {
      index := index - 1;
    }

    /**
     * Export the frame: returns the number that names the image file and
     * advances the counter. The file write itself is not modelled.
     */
    method Save() returns (number: nat)
      requires Valid()
      modifies this
      ensures Valid()
      ensures number == old(imageCount) && imageCount == old(imageCount) + 1
      ensures index == old(index) && slots == old(slots) && unchanged(slots)
      ensures filled == old(filled)
    {
      number := imageCount;
      imageCount := imageCount + 1;
    }

    /** Render the current grid into `screen` with palette `colors`. */
    method Redraw(screen: array<Byte>, colors: seq<seq<Byte>>)
      requires Valid() && ValidPalette(colors) && screen.Length >= FrameBytes
      modifies screen
      ensures forall p :: 0 <= p < screen.Length ==>
                screen[p] == RenderedByte(Current().xs, Current().ys, colors, p)
    {
      Mandelbrot(slots[index].xs, slots[index].ys, screen, colors);
    }
  }

}
