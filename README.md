# Mandelbrot viewer: a Dafny model of its core

The program renders the Mandelbrot set into a 1920 x 1080 RGBA pixel buffer.
Pressing Z zooms in around the pixel under the mouse. Previous viewports are kept in a ten-slot
history. This project models the core of `src/main.rs` and proves properties
of that model:

- **Axes** (`axes.dfy`): the x axis (one coordinate per column) and the y axis
  (one per row, top row first), filled cell by cell. The first and last cells
  are forced to the bounds. Each interior cell is the previous cell plus `dx`
  (x axis) or minus `dy` (y axis). The default bounds are -2.00, 0.47, -1.12
  and 1.12. `AxisSpec` gives the closed form of such an axis, and `FillAxis`
  is proved equal to it.
- **Recenter** (`recenter.dfy`): choosing the next viewport's bounds from the
  column and row under the mouse when Z is pressed (a "click" below). There
  are two cascades: the column cascade uses thresholds 48 and 1920 - 48, the
  row cascade 27 and 1080 - 27. The middle
  branch of each cascade also assigns one bound that belongs to the other axis.
  `SelectBounds` follows the branches of the source. `RecenterBounds` states
  the result bound by bound. `SafeClick` is the exact set of clicks for which
  no axis read goes out of range. The source panics on every other click.
- **Render** (`render.dfy`): the pre-clear pass, the escape-time loop, the
  palette, and the row-major walk that copies palette entries into the buffer
  through a running byte index. `RenderedByte` gives the expected value of
  every byte.
- **History** (`history.dfy`): the class `SpaceHistory`. It holds the slot
  array, the current index and the image counter, and it updates them for the
  zoom (`Z`), back (`X`) and save (`I`) keys.

Coordinates are `real`: this idealises the source's `f64`. The model is
therefore exact where the program rounds, including the error that builds up
along the cumulative axis construction. A mouse position is a pair of `nat`s.
The random bytes of palette slots 1 to 9 are a parameter.

The y axis is filled by the same `FillAxis` as the x axis, with step `-dy`.
Over the reals, adding `-dy` is the same as subtracting `dy`.

Three points where the model follows the code:

- The frame buffer only has to hold at least 1920 * 1080 * 4 bytes, because
  the code sizes the buffer from the window and the render loop writes only
  that many bytes. Any bytes past that point keep the cleared pattern. A
  shorter buffer (a window scale factor below 1) makes the slice copy of the
  render loop panic; the precondition `screen.Length >= FrameBytes` of
  `Mandelbrot` and `Redraw` stands for that panic.
- The escape count lies in [1, 1000], not [0, 1000]. The loop test at z = 0
  always passes, so every count is at least 1.
- Alpha is not 255 everywhere after a render. It is 255 for pixels that get
  palette slot 0 and for bytes past the frame. Slots 1 to 9 carry a random
  alpha byte.

## Model

| member | source | states |
|---|---|---|
| `Axes.FillAxis` | src/main.rs:106-127 | cell 0 is the first bound, the last cell is the last bound, every interior cell is the previous cell plus the step, and the whole axis equals the closed form `AxisSpec` |
| `Axes.InitOgSpace` | src/main.rs:98-130 | the initial grid is the grid of the default bounds: x runs from -2.00 to 0.47 and y from 1.12 (top row) down to -1.12 |
| `Axes.AxisAscending` | src/main.rs:106-116 | with `dx = (x_max - x_min) / 1920` and `x_min <= x_max`, the x axis never decreases (real idealisation) |
| `Axes.AxisDescending` | src/main.rs:117-127 | with `dy = (y_max - y_min) / 1080` and `y_min <= y_max`, the y axis, stored top to bottom, never increases |
| `Axes.GridOrdered` | src/main.rs:167-191 | a grid built from ordered bounds has an ascending x axis and a descending y axis with exact endpoints `x[0] = x_min`, `x[1919] = x_max`, `y[0] = y_max`, `y[1079] = y_min` |
| `Recenter.SelectBounds` | src/main.rs:137-164 | the cascades finish without an out-of-range read exactly when `SafeClick` holds, and their four bounds are then the per-bound case table `RecenterBounds` |
| `Recenter.InitNewSpace` | src/main.rs:132-192 | the new grid exists exactly for safe clicks, and it is the grid built from the selected bounds |
| `Recenter.CoupledBoundsStayZero` | src/main.rs:148-164 | a middle column with an edge row leaves `new_x_max` at 0.0; a middle row with an edge column leaves `new_y_min` at 0.0; a middle row always sets `new_x_max` to the cell 48 columns to the right |
| `Recenter.UnsafeBands` | src/main.rs:142-164 | a right-edge column with a middle row, a middle column on any row from 1053 on, and column 1872 with a middle row all read past an axis |
| `Recenter.RecenterOrdered` | src/main.rs:142-164 | on strictly ordered axes, every bound pair outside the coupled cases is strictly ordered (`x_min < x_max`, `y_min < y_max`) |
| `Recenter.MiddleClickZooms` | src/main.rs:148-170 | a middle click on a grid built from bounds `b` with column at most 1870 and row at most 1051 divides the x span and the y span by 20 (96 of 1920 columns, 54 of 1080 rows); at column 1871 the window ends on the forced last cell and the x span becomes 97/1920 of the old one, and at row 1052 the y span becomes 55/1080 |
| `Render.RandomColorSpace` | src/main.rs:279-292 | the palette has 10 entries of 4 bytes; slot 0 is opaque black `[0,0,0,255]`; slot k takes the k-th group of four generator bytes (r, g, b, a) |
| `Render.Clear` | src/main.rs:225-229 | afterwards byte p is 255 when p % 4 == 3 and 0 otherwise, over the whole buffer |
| `Render.EscapeFrom` | src/main.rs:205-214 | continuing the escape loop from step `iteration` ends with a count between `iteration` and 1000 |
| `Render.EscapeCount` | src/main.rs:203-214 | the escape count of every point lies in [1, 1000]; it is at least 1 because the first test at z = 0 always passes |
| `Render.EscapeTime` | src/main.rs:203-214 | the while loop returns exactly the escape count of (x0, y0); it is in [1, 1000] |
| `Render.OriginStaysBounded` | src/main.rs:205-214 | for c = 0, z stays 0, so the loop runs from any step to the cap of 1000 |
| `Render.KnownPoints` | src/main.rs:209-214 | c = 0 reaches the cap; any c with x0^2 + y0^2 > 4 has count exactly 1 |
| `Render.PixelOffset` | src/main.rs:200-217 | the byte offset `(1920 j + i) * 4 + k` lies in the frame and decomposes back to row j, column i and channel k |
| `Render.PixelLayout` | src/main.rs:200-218 | bytes `(1920 j + i) * 4 .. + 3` of the frame hold `colors[count(x[i], y[j]) % 10]` |
| `Render.OriginIsBlack` | src/main.rs:215 | a pixel at c = 0 gets palette slot 0 (1000 % 10 = 0), which is opaque black, whatever slots 1 to 9 hold |
| `Render.Mandelbrot` | src/main.rs:197-221 | after rendering, every byte of the buffer is its `RenderedByte`: the palette entry of the pixel's escape count within the frame, and the cleared pattern beyond it |
| `History.NextSlot` | src/main.rs:58-66 | a zoom targets a slot in 1..9: slot 0 is never a target |
| `History.SlotAfter` | src/main.rs:55-67 | the index after any number of zooms stays below 10 |
| `History.SlotAfterCycles` | src/main.rs:55-67 | after n >= 1 zooms from index 0, the index is `(n - 1) % 9 + 1` |
| `History.TenthZoomWraps` | src/main.rs:58-66 | nine zooms from index 0 reach index 9, and the tenth wraps to index 1 |
| `History.SpaceHistory.constructor` | src/main.rs:27-31 | slot 0 holds the default grid, the other slots are blank, the index is 0 and the image counter is 23; only slot 0 counts as written (`filled == 1`) |
| `History.SpaceHistory.Current` | src/main.rs:35 | the grid on screen is a well-formed 1920 x 1080 grid |
| `History.SpaceHistory.Advance` | src/main.rs:55-68 | the index becomes 1 if it was 9 and index + 1 otherwise; the recentred grid lands in that slot; every other slot, slot 0 included, and the counter are unchanged; the written prefix `filled` grows to cover the new index exactly when the index passes it, so `index < filled` (the index is on a written slot) is kept with `filled` pinned |
| `History.SpaceHistory.Retreat` | src/main.rs:70-72 | the index drops by exactly 1 and nothing else changes, the written prefix `filled` included, so the index still points at a written slot; index 0 is excluded because the unsigned decrement underflows there |
| `History.SpaceHistory.Save` | src/main.rs:74-80 | returns the current counter, which names the exported file, and increments the counter by 1; the index, the slots and the written prefix `filled` are unchanged |
| `History.SpaceHistory.Redraw` | src/main.rs:34-35 | the buffer afterwards holds the rendering of the current slot's grid |

## Left out

- Window creation and monitor sizing (`create_window`, src/main.rs:232-277). This is windowing-library glue.
- Event-loop wiring, input polling, surface resize, scale-factor handling, the quit key and `pixels.render()` (src/main.rs:22-26, 33-53, 85-92). These belong to external libraries. Only the history updates for the three keys are modelled, plus the render call of a redraw.
- Writing the PNG file (src/main.rs:75-78). This is file I/O. `Save` keeps only the counter, and it returns the number that names the file.
- The random generator (src/main.rs:283-286). Its 36 bytes are a parameter of `RandomColorSpace`. No claim is made about palette slots 1 to 9; their alpha may be anything.
- The `f32 as usize` cast of the mouse position and the `unwrap` of a missing mouse position (src/main.rs:57, 135-136). A click is a pair of `nat`s.
- The `println!` diagnostics (src/main.rs:165-166).
- IEEE-754 rounding, including the error the cumulative axis construction accumulates. Monotonicity and the zoom factor are proved over the reals only.
- Render.EscapeTime: proved over `real`, so it does not capture overflow to infinity or NaN in the f64 loop.
- History.SpaceHistory.Advance: requires `SafeClick`, because the source panics on any other click and so ends the program. `InitNewSpace` and `SelectBounds` model that panic as `None`.
- History.SpaceHistory.Retreat: requires index >= 1. The source does not guard the unsigned decrement, and the model does not invent a clamping policy.
