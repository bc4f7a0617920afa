/** The pixel buffer of the demo and the one rectangle painter that both
    the player's and the platforms' `draw` use (src/main.rs:112-120, 134-142).
    The buffer is row-major, WIDTH cells per row, origin at the top left. */
module Canvas {

  /** World size in pixels (src/main.rs:3-4). */
  const WIDTH: nat := 1280
  const HEIGHT: nat := 720

  /** A packed 0x00RRGGBB colour, Rust's `u32`. */
  type u32 = c: int | 0 <= c < 0x1_0000_0000

  /** Rust's `v as usize` for a finite `f32`: truncation toward zero that
      saturates at 0, so every negative value becomes 0. */
  function Trunc(v: real): (r: nat)
    ensures v < 0.0 ==> r == 0
    ensures 0.0 <= v ==> r as real <= v < r as real + 1.0
  {
    if v < 0.0 then 0 else v.Floor
  }

  /** Cell `i` of the buffer lies in the rectangle that `draw` walks for a body
      at (x, y) of size w by h: the columns Trunc(x) .. Trunc(x)+w-1 and the rows
      Trunc(y) .. Trunc(y)+h-1. Cells of that range outside the buffer have no
      index, which is how the `x < WIDTH && y < HEIGHT` guard clips them. */
  predicate Covers(x: real, y: real, w: nat, h: nat, i: nat)
  {
    var col, row := i % WIDTH, i / WIDTH;
    Trunc(x) <= col < Trunc(x) + w && Trunc(y) <= row < Trunc(y) + h
  }

  /** The buffer after painting the rectangle: covered cells take `color`,
      all others keep their value. */
  function Paint(s: seq<u32>, x: real, y: real, w: nat, h: nat, color: u32): seq<u32>
  {
    seq(|s|, i requires 0 <= i < |s| => if Covers(x, y, w, h, i) then color else s[i])
  }

  /** A screen of WIDTH * HEIGHT cells all holding 0 (src/main.rs:146, 166-168). */
  function Blank(): seq<u32>
  {
    seq(WIDTH * HEIGHT, i => 0)
  }

  /** The index of screen cell (row, col) splits back into that row and column. */
  lemma CellIndex(row: nat, col: nat)
    requires col < WIDTH
    ensures (row * WIDTH + col) / WIDTH == row
    ensures (row * WIDTH + col) % WIDTH == col
  {
  }

  /** The cell in column `col` of row `row` of the screen is painted exactly
      when it lies in the truncated rectangle: the clip keeps every in-screen
      cell of the rectangle and nothing else. */
  lemma PaintAtCell(s: seq<u32>, x: real, y: real, w: nat, h: nat, color: u32, row: nat, col: nat)
    requires |s| == WIDTH * HEIGHT
    requires row < HEIGHT && col < WIDTH
    ensures row * WIDTH + col < |s|
    ensures Paint(s, x, y, w, h, color)[row * WIDTH + col] ==
            if Trunc(x) <= col < Trunc(x) + w && Trunc(y) <= row < Trunc(y) + h
            then color else s[row * WIDTH + col]
  {
  }

  /** A body left of or above the screen is drawn as if it stood at column 0
      or row 0: the `as usize` cast moves it, it does not clip it. */
  lemma NegativeOriginShifts(x: real, y: real, w: nat, h: nat, i: nat)
    ensures Covers(x, y, w, h, i) ==
            Covers(if x < 0.0 then 0.0 else x, if y < 0.0 then 0.0 else y, w, h, i)
  {
  }

  /** Writes `color` into every in-screen cell of the truncated rectangle
      (the nested loops of src/main.rs:113-119 and 135-141). */
  method PaintRect(buffer: array<u32>, x: real, y: real, w: nat, h: nat, color: u32)
    requires buffer.Length == WIDTH * HEIGHT
    modifies buffer
    ensures buffer[..] == Paint(old(buffer[..]), x, y, w, h, color)
  {
    var tx, ty := Trunc(x), Trunc(y);
    for row := ty to ty + h
      invariant forall i :: 0 <= i < buffer.Length ==>
        buffer[i] == if Covers(x, y, w, h, i) && i / WIDTH < row then color else old(buffer[i])
    {
      for col := tx to tx + w
        invariant forall i :: 0 <= i < buffer.Length ==>
          buffer[i] == if Covers(x, y, w, h, i) && (i / WIDTH < row || (i / WIDTH == row && i % WIDTH < col))
                       then color else old(buffer[i])
      {
        if col < WIDTH && row < HEIGHT {
          CellIndex(row, col);
          buffer[row * WIDTH + col] := color;
        }
      }
    }
  }

  /** Sets every cell to 0, the per-frame clear of src/main.rs:166-168. */
  method Clear(buffer: array<u32>)
    requires buffer.Length == WIDTH * HEIGHT
    modifies buffer
    ensures buffer[..] == Blank()
  {
    for i := 0 to buffer.Length
      invariant forall k :: 0 <= k < i ==> buffer[k] == 0
    {
      buffer[i] := 0;
    }
  }
}
