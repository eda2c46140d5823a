/** The 64x32 screen of `src/graphics.go` and its sprite blit `Draw`.

    The screen is Go's `[ScreenWidth][ScreenHeight]uint8`, indexed
    `screen[column][row]`. `Draw` first copies `n` sprite rows out of memory
    and then walks an `n` by `n` square, XOR-ing sprite bits into the screen
    with wrap-around. The flag it returns is set whenever a sprite bit differs
    from the pixel it lands on.

    The pure functions below are the reference semantics. `PaintRow` and
    `PaintRows` follow the two nested loops, carrying the screen and the flag. */
module Display {
  import opened Common
  import MemoryUnit

  const Width: nat := 64
  const Height: nat := 32

  type Pixels = seq<seq<Byte>>

  predicate IsScreen(s: Pixels)
  {
    |s| == Width && forall c :: 0 <= c < Width ==> |s[c]| == Height
  }

  /** Every pixel is 0 or 1. */
  ghost predicate IsBinary(s: Pixels)
    requires IsScreen(s)
  {
    forall c, r :: 0 <= c < Width && 0 <= r < Height ==> s[c][r] <= 1
  }

  /** The Go zero value of the screen array. */
  function Blank(): (s: Pixels)
    ensures IsScreen(s)
    ensures forall c, r :: 0 <= c < Width && 0 <= r < Height ==> s[c][r] == 0
  {
    seq(Width, _ => seq(Height, _ => 0))
  }

  /** The screen with one pixel replaced. */
  function SetPixel(s: Pixels, col: nat, rw: nat, v: Byte): (r: Pixels)
    requires IsScreen(s) && col < Width && rw < Height
    ensures IsScreen(r) && r[col][rw] == v
    ensures forall c, k :: 0 <= c < Width && 0 <= k < Height && (c != col || k != rw) ==> r[c][k] == s[c][k]
  {
    var column: seq<Byte> := s[col][rw := v];
    s[col := column]
  }

  /** `(line >> uint8(7 - c)) & 0x01`. For a column c from 8 to 254 the shift
      count `uint8(7 - c)` wraps to a value of at least 8, and shifting a
      `uint8` that far gives 0. */
  function Bit(line: Byte, c: nat): (b: Byte)
    ensures b <= 1
    ensures c < 8 ==> b == (line / [0x80, 0x40, 0x20, 0x10, 0x08, 0x04, 0x02, 0x01][c]) % 2
    ensures c >= 8 ==> b == 0
  {
    if c < 8 then (line / [0x80, 0x40, 0x20, 0x10, 0x08, 0x04, 0x02, 0x01][c]) % 2 else 0
  }

  /** `v ^ p` for a one-bit `p`: p = 0 keeps v, p = 1 toggles its lowest bit. */
  function Flip(v: Byte, p: Byte): (r: Byte)
    requires p <= 1
    ensures p == 0 ==> r == v
    ensures p == 1 ==> r / 2 == v / 2 && r % 2 != v % 2
  {
    if p == 0 then v else if v % 2 == 0 then v + 1 else v - 1
  }

  /** The inner loop from column `c` on: columns c..n-1 of sprite row `row`. */
  function PaintRow(s: Pixels, carry: bool, x: nat, y: nat, row: nat, line: Byte, c: nat, n: nat): (r: (Pixels, bool))
    requires IsScreen(s)
    ensures IsScreen(r.0)
    ensures carry ==> r.1
    decreases n - c
  {
    if c >= n then (s, carry)
    else
      var col := (x + c) % Width;
      var rw := (y + row) % Height;
      var p := Bit(line, c);
      PaintRow(SetPixel(s, col, rw, Flip(s[col][rw], p)), carry || p != s[col][rw], x, y, row, line, c + 1, n)
  }

  /** The outer loop from row `row` on, over a sprite of |sprite| rows and as many columns. */
  function PaintRows(s: Pixels, carry: bool, x: nat, y: nat, sprite: seq<Byte>, row: nat): (r: (Pixels, bool))
    requires IsScreen(s)
    ensures IsScreen(r.0)
    ensures carry ==> r.1
    decreases |sprite| - row
  {
    if row >= |sprite| then (s, carry)
    else
      var (s', carry') := PaintRow(s, carry, x, y, row, sprite[row], 0, |sprite|);
      PaintRows(s', carry', x, y, sprite, row + 1)
  }

  /** Draw on a memory image: the new screen, the flag and the error. The `n`
      reads at `(addr & 0x0FFF) + i` all succeed exactly when the last of them
      is below 4096; if one fails, nothing is drawn and the flag is false. */
  function DrawResult(cells: seq<Byte>, s: Pixels, x: nat, y: nat, n: Byte, addr: Word): (r: (Pixels, bool, Status))
    requires |cells| == MemoryUnit.Size && IsScreen(s)
    ensures IsScreen(r.0)
    ensures r.2 == Ok <==> addr % 0x1000 + n <= MemoryUnit.Size
    ensures r.2 != Ok ==> r == (s, false, Fail(OutOfBounds))
  {
    var a := addr % 0x1000;
    if a + n > MemoryUnit.Size then (s, false, Fail(OutOfBounds))
    else
      var (s', carry) := PaintRows(s, false, x, y, cells[a..a + n], 0);
      (s', carry, Ok)
  }

  // ---------------------------------------------------------------- lemmas

  /** Column and row offsets: the cell reached from `x` by offset `d` gives
      back offset `d`, and every cell is reached from `x` by its own offset. */
  lemma ColOffset(x: nat, d: nat)
    requires d < Width
    ensures ((x + d) % Width - x) % Width == d
  {
  }

  lemma RowOffset(y: nat, d: nat)
    requires d < Height
    ensures ((y + d) % Height - y) % Height == d
  {
  }

  lemma ColReached(x: nat, col: nat)
    requires col < Width
    ensures (x + (col - x) % Width) % Width == col
  {
  }

  lemma RowReached(y: nat, rw: nat)
    requires rw < Height
    ensures (y + (rw - y) % Height) % Height == rw
  {
  }

  /** Flipping the same bit twice gives the pixel back. */
  lemma FlipTwice(v: Byte, p: Byte)
    requires p <= 1
    ensures Flip(Flip(v, p), p) == v
  {
  }

  /** Screens are equal when all their pixels are. */
  lemma ScreenEq(a: Pixels, b: Pixels)
    requires IsScreen(a) && IsScreen(b)
    requires forall c, r :: 0 <= c < Width && 0 <= r < Height ==> a[c][r] == b[c][r]
    ensures a == b
  {
    forall c | 0 <= c < Width
      ensures a[c] == b[c]
    {
    }
  }

  /** The cells the inner loop visits from column `c` on: row `(y + row) % 32`
      at column offsets c..n-1 from x. */
  predicate InRowSpan(x: nat, y: nat, row: nat, c: nat, n: nat, col: nat, rw: nat)
  {
    rw == (y + row) % Height && c <= (col - x) % Width < n
  }

  /** Inner loop, pixels: with at most 64 columns no cell is visited twice, so
      each visited cell is flipped once by its own sprite bit and every other
      cell is kept. */
  lemma {:induction false} PaintRowPixels(s: Pixels, carry: bool, x: nat, y: nat, row: nat, line: Byte, c: nat, n: nat)
    requires IsScreen(s) && c <= n <= Width
    ensures forall col, rw :: 0 <= col < Width && 0 <= rw < Height ==>
              PaintRow(s, carry, x, y, row, line, c, n).0[col][rw] ==
                if InRowSpan(x, y, row, c, n, col, rw) then Flip(s[col][rw], Bit(line, (col - x) % Width)) else s[col][rw]
    decreases n - c
  {
    if c < n {
      var col0 := (x + c) % Width;
      var rw0 := (y + row) % Height;
      var p := Bit(line, c);
      var s1 := SetPixel(s, col0, rw0, Flip(s[col0][rw0], p));
      var carry1 := carry || p != s[col0][rw0];
      assert PaintRow(s, carry, x, y, row, line, c, n) == PaintRow(s1, carry1, x, y, row, line, c + 1, n);
      PaintRowPixels(s1, carry1, x, y, row, line, c + 1, n);
      ColOffset(x, c);
      forall col, rw | 0 <= col < Width && 0 <= rw < Height
        ensures PaintRow(s1, carry1, x, y, row, line, c + 1, n).0[col][rw] ==
                  if InRowSpan(x, y, row, c, n, col, rw) then Flip(s[col][rw], Bit(line, (col - x) % Width)) else s[col][rw]
      {
        ColReached(x, col);
      }
    }
  }

  /** Painting one column leaves the cells of every other column offset alone. */
  lemma OtherColumnKept(s: Pixels, x: nat, c: nat, d: nat, rw: nat, v: Byte)
    requires IsScreen(s) && c < Width && d < Width && c != d && rw < Height
    ensures SetPixel(s, (x + c) % Width, rw, v)[(x + d) % Width][rw] == s[(x + d) % Width][rw]
  {
    ColOffset(x, c);
    ColOffset(x, d);
  }

  /** One column of the inner loop, flag: a difference at some column from c
      on is one at column c or one, on the painted screen, after it. */
  lemma PaintColumnCarry(s: Pixels, x: nat, y: nat, row: nat, line: Byte, c: nat, n: nat)
    requires IsScreen(s) && c < n <= Width
    ensures var col0, rw0 := (x + c) % Width, (y + row) % Height;
            var s1 := SetPixel(s, col0, rw0, Flip(s[col0][rw0], Bit(line, c)));
            (exists d :: c <= d < n && Bit(line, d) != s[(x + d) % Width][rw0]) <==>
              Bit(line, c) != s[col0][rw0] || exists d :: c + 1 <= d < n && Bit(line, d) != s1[(x + d) % Width][rw0]
  {
    var col0, rw0 := (x + c) % Width, (y + row) % Height;
    var v := Flip(s[col0][rw0], Bit(line, c));
    var s1 := SetPixel(s, col0, rw0, v);
    if exists d :: c + 1 <= d < n && Bit(line, d) != s1[(x + d) % Width][rw0] {
      var d :| c + 1 <= d < n && Bit(line, d) != s1[(x + d) % Width][rw0];
      OtherColumnKept(s, x, c, d, rw0, v);
    }
    if exists d :: c + 1 <= d < n && Bit(line, d) != s[(x + d) % Width][rw0] {
      var d :| c + 1 <= d < n && Bit(line, d) != s[(x + d) % Width][rw0];
      OtherColumnKept(s, x, c, d, rw0, v);
    }
  }

  /** Inner loop, flag: the flag ends up set iff it was set or some visited
      sprite bit differed from the pixel it met. */
  lemma {:induction false} PaintRowCarry(s: Pixels, carry: bool, x: nat, y: nat, row: nat, line: Byte, c: nat, n: nat)
    requires IsScreen(s) && c <= n <= Width
    ensures PaintRow(s, carry, x, y, row, line, c, n).1 <==>
              carry || exists d :: c <= d < n && Bit(line, d) != s[(x + d) % Width][(y + row) % Height]
    decreases n - c
  {
    if c < n {
      var col0 := (x + c) % Width;
      var rw0 := (y + row) % Height;
      var p := Bit(line, c);
      var s1 := SetPixel(s, col0, rw0, Flip(s[col0][rw0], p));
      var carry1 := carry || p != s[col0][rw0];
      assert PaintRow(s, carry, x, y, row, line, c, n) == PaintRow(s1, carry1, x, y, row, line, c + 1, n);
      PaintRowCarry(s1, carry1, x, y, row, line, c + 1, n);
      PaintColumnCarry(s, x, y, row, line, c, n);
    }
  }

  /** The cells the outer loop visits from row `row` on, for an n-row sprite:
      column offsets below n and row offsets row..n-1. */
  predicate InWindow(x: nat, y: nat, row: nat, n: nat, col: nat, rw: nat)
  {
    (col - x) % Width < n && row <= (rw - y) % Height < n
  }

  /** Painting one row leaves the cells of every other row offset alone. */
  lemma OtherRowKept(s: Pixels, carry: bool, x: nat, y: nat, row: nat, line: Byte, n: nat, dc: nat, dr: nat)
    requires IsScreen(s) && n <= Width && dc < Width && row < Height && dr < Height && dr != row
    ensures PaintRow(s, carry, x, y, row, line, 0, n).0[(x + dc) % Width][(y + dr) % Height] ==
              s[(x + dc) % Width][(y + dr) % Height]
  {
    PaintRowPixels(s, carry, x, y, row, line, 0, n);
    RowOffset(y, dr);
    RowOffset(y, row);
  }

  /** Outer loop, pixels: with at most 32 rows (and so at most 32 columns) no
      cell is visited twice; each visited cell is flipped by its own sprite bit
      and every other cell is kept. */
  lemma {:induction false} PaintRowsPixels(s: Pixels, carry: bool, x: nat, y: nat, sprite: seq<Byte>, row: nat)
    requires IsScreen(s) && row <= |sprite| <= Height
    ensures forall col, rw :: 0 <= col < Width && 0 <= rw < Height ==>
              PaintRows(s, carry, x, y, sprite, row).0[col][rw] ==
                if InWindow(x, y, row, |sprite|, col, rw)
                then Flip(s[col][rw], Bit(sprite[(rw - y) % Height], (col - x) % Width)) else s[col][rw]
    decreases |sprite| - row
  {
    var n := |sprite|;
    if row < n {
      var (s1, carry1) := PaintRow(s, carry, x, y, row, sprite[row], 0, n);
      assert PaintRows(s, carry, x, y, sprite, row) == PaintRows(s1, carry1, x, y, sprite, row + 1);
      PaintRowPixels(s, carry, x, y, row, sprite[row], 0, n);
      PaintRowsPixels(s1, carry1, x, y, sprite, row + 1);
      RowOffset(y, row);
      forall col, rw | 0 <= col < Width && 0 <= rw < Height
        ensures PaintRows(s1, carry1, x, y, sprite, row + 1).0[col][rw] ==
                  if InWindow(x, y, row, n, col, rw)
                  then Flip(s[col][rw], Bit(sprite[(rw - y) % Height], (col - x) % Width)) else s[col][rw]
      {
        RowReached(y, rw);
      }
    }
  }

  /** One row of the outer loop, flag: a difference at some row from `row` on
      is one in row `row` or one, on the screen after that row, further down. */
  lemma PaintRowStepCarry(s: Pixels, carry: bool, x: nat, y: nat, sprite: seq<Byte>, row: nat)
    requires IsScreen(s) && row < |sprite| <= Height
    ensures var s1 := PaintRow(s, carry, x, y, row, sprite[row], 0, |sprite|).0;
            (exists dr, dc :: row <= dr < |sprite| && 0 <= dc < |sprite| &&
                Bit(sprite[dr], dc) != s[(x + dc) % Width][(y + dr) % Height]) <==>
              (exists dc :: 0 <= dc < |sprite| && Bit(sprite[row], dc) != s[(x + dc) % Width][(y + row) % Height]) ||
              (exists dr, dc :: row + 1 <= dr < |sprite| && 0 <= dc < |sprite| &&
                Bit(sprite[dr], dc) != s1[(x + dc) % Width][(y + dr) % Height])
  {
    var n := |sprite|;
    var s1 := PaintRow(s, carry, x, y, row, sprite[row], 0, n).0;
    if exists dr, dc :: row + 1 <= dr < n && 0 <= dc < n && Bit(sprite[dr], dc) != s1[(x + dc) % Width][(y + dr) % Height] {
      var dr, dc :| row + 1 <= dr < n && 0 <= dc < n && Bit(sprite[dr], dc) != s1[(x + dc) % Width][(y + dr) % Height];
      OtherRowKept(s, carry, x, y, row, sprite[row], n, dc, dr);
    }
    if exists dr, dc :: row + 1 <= dr < n && 0 <= dc < n && Bit(sprite[dr], dc) != s[(x + dc) % Width][(y + dr) % Height] {
      var dr, dc :| row + 1 <= dr < n && 0 <= dc < n && Bit(sprite[dr], dc) != s[(x + dc) % Width][(y + dr) % Height];
      OtherRowKept(s, carry, x, y, row, sprite[row], n, dc, dr);
    }
  }

  /** Outer loop, flag: the flag ends up set iff it was set or some visited
      sprite bit differed from the pixel it met. */
  lemma {:induction false} PaintRowsCarry(s: Pixels, carry: bool, x: nat, y: nat, sprite: seq<Byte>, row: nat)
    requires IsScreen(s) && row <= |sprite| <= Height
    ensures PaintRows(s, carry, x, y, sprite, row).1 <==>
              carry || exists dr, dc :: row <= dr < |sprite| && 0 <= dc < |sprite| &&
                         Bit(sprite[dr], dc) != s[(x + dc) % Width][(y + dr) % Height]
    decreases |sprite| - row
  {
    var n := |sprite|;
    if row < n {
      var (s1, carry1) := PaintRow(s, carry, x, y, row, sprite[row], 0, n);
      assert PaintRows(s, carry, x, y, sprite, row) == PaintRows(s1, carry1, x, y, sprite, row + 1);
      PaintRowCarry(s, carry, x, y, row, sprite[row], 0, n);
      PaintRowsCarry(s1, carry1, x, y, sprite, row + 1);
      PaintRowStepCarry(s, carry, x, y, sprite, row);
    }
  }

  /** Inner and outer loop keep a screen of 0s and 1s one (for any n). */
  lemma {:induction false} PaintRowBinary(s: Pixels, carry: bool, x: nat, y: nat, row: nat, line: Byte, c: nat, n: nat)
    requires IsScreen(s) && IsBinary(s)
    ensures IsBinary(PaintRow(s, carry, x, y, row, line, c, n).0)
    decreases n - c
  {
    if c < n {
      var col0, rw0 := (x + c) % Width, (y + row) % Height;
      var p := Bit(line, c);
      var s1 := SetPixel(s, col0, rw0, Flip(s[col0][rw0], p));
      assert PaintRow(s, carry, x, y, row, line, c, n) == PaintRow(s1, carry || p != s[col0][rw0], x, y, row, line, c + 1, n);
      PaintRowBinary(s1, carry || p != s[col0][rw0], x, y, row, line, c + 1, n);
    }
  }

  lemma {:induction false} PaintRowsBinary(s: Pixels, carry: bool, x: nat, y: nat, sprite: seq<Byte>, row: nat)
    requires IsScreen(s) && IsBinary(s)
    ensures IsBinary(PaintRows(s, carry, x, y, sprite, row).0)
    decreases |sprite| - row
  {
    if row < |sprite| {
      var (s1, carry1) := PaintRow(s, carry, x, y, row, sprite[row], 0, |sprite|);
      PaintRowBinary(s, carry, x, y, row, sprite[row], 0, |sprite|);
      PaintRowsBinary(s1, carry1, x, y, sprite, row + 1);
    }
  }

  /** Inner loop, frame (for any n): a cell off the painted row, or whose
      column offset from x is at least n, is kept. */
  lemma {:induction false} PaintRowFrame(s: Pixels, carry: bool, x: nat, y: nat, row: nat, line: Byte, c: nat, n: nat, col: nat, rw: nat)
    requires IsScreen(s) && col < Width && rw < Height
    requires rw != (y + row) % Height || n <= (col - x) % Width
    ensures PaintRow(s, carry, x, y, row, line, c, n).0[col][rw] == s[col][rw]
    decreases n - c
  {
    if c < n {
      var col0, rw0 := (x + c) % Width, (y + row) % Height;
      var p := Bit(line, c);
      var s1 := SetPixel(s, col0, rw0, Flip(s[col0][rw0], p));
      assert PaintRow(s, carry, x, y, row, line, c, n) == PaintRow(s1, carry || p != s[col0][rw0], x, y, row, line, c + 1, n);
      PaintRowFrame(s1, carry || p != s[col0][rw0], x, y, row, line, c + 1, n, col, rw);
      if rw == rw0 {
        ColOffset(x, c);
      }
    }
  }

  /** Outer loop, frame (for any n): a cell whose column offset from x or row
      offset from y is at least n is kept. */
  lemma {:induction false} PaintRowsFrame(s: Pixels, carry: bool, x: nat, y: nat, sprite: seq<Byte>, row: nat, col: nat, rw: nat)
    requires IsScreen(s) && col < Width && rw < Height
    requires |sprite| <= (col - x) % Width || |sprite| <= (rw - y) % Height
    ensures PaintRows(s, carry, x, y, sprite, row).0[col][rw] == s[col][rw]
    decreases |sprite| - row
  {
    if row < |sprite| {
      var (s1, carry1) := PaintRow(s, carry, x, y, row, sprite[row], 0, |sprite|);
      if |sprite| > (col - x) % Width {
        RowOffset(y, row % Height);
        assert rw != (y + row) % Height;
      }
      PaintRowFrame(s, carry, x, y, row, sprite[row], 0, |sprite|, col, rw);
      PaintRowsFrame(s1, carry1, x, y, sprite, row + 1, col, rw);
    }
  }

  // ------------------------------------------------- properties of a whole Draw

  /** The n sprite rows Draw copies out of memory. */
  function SpriteAt(cells: seq<Byte>, addr: Word, n: Byte): (r: seq<Byte>)
    requires |cells| == MemoryUnit.Size && addr % 0x1000 + n <= MemoryUnit.Size
    ensures |r| == n && forall i :: 0 <= i < n ==> r[i] == cells[addr % 0x1000 + i]
  {
    cells[addr % 0x1000..addr % 0x1000 + n]
  }

  /** The pixel at offset (dc, dr) from (x, y), wrapping around both edges. */
  function At(s: Pixels, x: nat, y: nat, dc: nat, dr: nat): Byte
    requires IsScreen(s)
  {
    s[(x + dc) % Width][(y + dr) % Height]
  }

  /** A Draw with at most 32 rows that finds its sprite in memory flips each
      pixel at column offset dc < n and row offset dr < n from (x, y) by bit
      dc of sprite row dr (0 for dc >= 8), and keeps every other pixel. */
  lemma DrawPixels(cells: seq<Byte>, s: Pixels, x: nat, y: nat, n: Byte, addr: Word, col: nat, rw: nat)
    requires |cells| == MemoryUnit.Size && IsScreen(s) && n <= Height
    requires addr % 0x1000 + n <= MemoryUnit.Size && col < Width && rw < Height
    ensures var dc, dr := (col - x) % Width, (rw - y) % Height;
            DrawResult(cells, s, x, y, n, addr).0[col][rw] ==
              if dc < n && dr < n then Flip(s[col][rw], Bit(SpriteAt(cells, addr, n)[dr], dc)) else s[col][rw]
  {
    PaintRowsPixels(s, false, x, y, SpriteAt(cells, addr, n), 0);
  }

  /** The flag of such a Draw is set iff some sprite bit differs from the
      pixel it is drawn onto (a 0 bit over a lit pixel counts as much as a
      1 bit over a dark one). */
  lemma DrawFlag(cells: seq<Byte>, s: Pixels, x: nat, y: nat, n: Byte, addr: Word)
    requires |cells| == MemoryUnit.Size && IsScreen(s) && n <= Height
    requires addr % 0x1000 + n <= MemoryUnit.Size
    ensures DrawResult(cells, s, x, y, n, addr).1 <==>
              exists dr, dc :: 0 <= dr < n && 0 <= dc < n && Bit(SpriteAt(cells, addr, n)[dr], dc) != At(s, x, y, dc, dr)
  {
    var sprite := SpriteAt(cells, addr, n);
    PaintRowsCarry(s, false, x, y, sprite, 0);
    if exists dr, dc :: 0 <= dr < n && 0 <= dc < n && Bit(sprite[dr], dc) != s[(x + dc) % Width][(y + dr) % Height] {
      var dr, dc :| 0 <= dr < n && 0 <= dc < n && Bit(sprite[dr], dc) != s[(x + dc) % Width][(y + dr) % Height];
      assert Bit(sprite[dr], dc) != At(s, x, y, dc, dr);
    }
    if exists dr, dc :: 0 <= dr < n && 0 <= dc < n && Bit(sprite[dr], dc) != At(s, x, y, dc, dr) {
      var dr, dc :| 0 <= dr < n && 0 <= dc < n && Bit(sprite[dr], dc) != At(s, x, y, dc, dr);
      assert Bit(sprite[dr], dc) != s[(x + dc) % Width][(y + dr) % Height];
    }
  }

  /** On a screen of 0s and 1s the flag means: some visited pixel is lit
      after the Draw. */
  lemma DrawFlagLit(cells: seq<Byte>, s: Pixels, x: nat, y: nat, n: Byte, addr: Word)
    requires |cells| == MemoryUnit.Size && IsScreen(s) && IsBinary(s) && n <= Height
    requires addr % 0x1000 + n <= MemoryUnit.Size
    ensures DrawResult(cells, s, x, y, n, addr).1 <==>
              exists dr, dc :: 0 <= dr < n && 0 <= dc < n && At(DrawResult(cells, s, x, y, n, addr).0, x, y, dc, dr) == 1
  {
    var r := DrawResult(cells, s, x, y, n, addr).0;
    var sprite := SpriteAt(cells, addr, n);
    DrawFlag(cells, s, x, y, n, addr);
    forall dr, dc | 0 <= dr < n && 0 <= dc < n
      ensures At(r, x, y, dc, dr) == 1 <==> Bit(sprite[dr], dc) != At(s, x, y, dc, dr)
    {
      ColOffset(x, dc);
      RowOffset(y, dr);
      DrawPixels(cells, s, x, y, n, addr, (x + dc) % Width, (y + dr) % Height);
    }
  }
  /** Draw keeps a screen of 0s and 1s one, for every n. */
  lemma DrawKeepsBinary(cells: seq<Byte>, s: Pixels, x: nat, y: nat, n: Byte, addr: Word)
    requires |cells| == MemoryUnit.Size && IsScreen(s) && IsBinary(s)
    ensures IsBinary(DrawResult(cells, s, x, y, n, addr).0)
  {
    var a := addr % 0x1000;
    if a + n <= MemoryUnit.Size {
      PaintRowsBinary(s, false, x, y, cells[a..a + n], 0);
    }
  }

  /** Draw keeps, for every n, each pixel whose column or row offset from
      (x, y) is at least n. */
  lemma DrawFrame(cells: seq<Byte>, s: Pixels, x: nat, y: nat, n: Byte, addr: Word, col: nat, rw: nat)
    requires |cells| == MemoryUnit.Size && IsScreen(s) && col < Width && rw < Height
    requires n <= (col - x) % Width || n <= (rw - y) % Height
    ensures DrawResult(cells, s, x, y, n, addr).0[col][rw] == s[col][rw]
  {
    var a := addr % 0x1000;
    if a + n <= MemoryUnit.Size {
      PaintRowsFrame(s, false, x, y, cells[a..a + n], 0, col, rw);
    }
  }

  /** Drawing the same sprite at the same place twice restores the screen
      when the sprite has at most 32 rows, which covers every Dxyn (n <= 15). */
  lemma DrawTwiceRestores(cells: seq<Byte>, s: Pixels, x: nat, y: nat, n: Byte, addr: Word)
    requires |cells| == MemoryUnit.Size && IsScreen(s) && n <= Height
    ensures DrawResult(cells, DrawResult(cells, s, x, y, n, addr).0, x, y, n, addr).0 == s
  {
    var s1 := DrawResult(cells, s, x, y, n, addr).0;
    var s2 := DrawResult(cells, s1, x, y, n, addr).0;
    if addr % 0x1000 + n <= MemoryUnit.Size {
      forall col, rw | 0 <= col < Width && 0 <= rw < Height
        ensures s2[col][rw] == s[col][rw]
      {
        DrawPixels(cells, s, x, y, n, addr, col, rw);
        DrawPixels(cells, s1, x, y, n, addr, col, rw);
        var dc, dr := (col - x) % Width, (rw - y) % Height;
        if dc < n && dr < n {
          FlipTwice(s[col][rw], Bit(SpriteAt(cells, addr, n)[dr], dc));
        }
      }
      ScreenEq(s2, s);
    }
  }

  // ------------------------------------------------------------ the class

  /** The `Graphics` struct without its SDL handles and colours: the shared
      memory, the dimensions and the screen array. `Pixels` mirrors the array. */
  class Graphics {
    const m: MemoryUnit.Memory
    const w: int
    const h: int
    const screen: array2<Byte>
    ghost var Pixels: Pixels

    ghost predicate Valid()
      reads this, m, screen
    {
      m.Valid() && w == Width && h == Height &&
      screen.Length0 == Width && screen.Length1 == Height && IsScreen(Pixels) &&
      forall c, r :: 0 <= c < Width && 0 <= r < Height ==> screen[c, r] == Pixels[c][r]
    }

    /** NewGraphics: a 64 by 32 screen, every pixel 0, drawing from `mem`. */
    constructor (mem: MemoryUnit.Memory)
      requires mem.Valid()
      ensures Valid() && fresh(screen)
      ensures m == mem && w == 64 && h == 32
      ensures Pixels == Blank()
    {
      m := mem;
      w, h := Width, Height;
      screen := new Byte[Width, Height]((_, _) => 0);
      Pixels := Blank();
      new;
      ScreenEq(Pixels, Blank());
    }

    /** Draw: copy n rows from `(addr & 0x0FFF) + i`, then XOR the n by n
        square into the screen at (x, y) with wrap-around, returning whether
        some sprite bit differed from the pixel it met. Coordinates are
        non-negative and far from the int32 limit, as every caller's are. */
    method Draw(x: int, y: int, n: Byte, addr: Word) returns (carry: bool, err: Status)
      requires Valid() && 0 <= x < 0x7FFF_FF00 && 0 <= y < 0x7FFF_FF00
      modifies this, screen
      ensures Valid()
      ensures (Pixels, carry, err) == DrawResult(m.memory[..], old(Pixels), x, y, n, addr)
    {
      var a := addr % 0x1000;  // addr & 0x0FFF
      var sprite: seq<Byte> := [];
      carry := false;

      var i := 0;
      while i < n
        invariant Valid() && Pixels == old(Pixels)
        invariant 0 <= i <= n && a + i <= MemoryUnit.Size
        invariant sprite == m.memory[a..a + i]
      {
        var line, e := m.Read(a + i);
        if e != Ok {
          return false, e;
        }
        sprite := sprite + [line];
        i := i + 1;
      }
      assert sprite == m.memory[..][a..a + n];

      carry := PaintSprite(x, y, sprite);
      return carry, Ok;
    }

    /** Draw's outer loop: one screen row per sprite row. */
    method PaintSprite(x: int, y: int, sprite: seq<Byte>) returns (carry: bool)
      requires Valid() && 0 <= x < 0x7FFF_FF00 && 0 <= y < 0x7FFF_FF00
      modifies this, screen
      ensures Valid()
      ensures (Pixels, carry) == PaintRows(old(Pixels), false, x, y, sprite, 0)
    {
      carry := false;
      ghost var target := PaintRows(Pixels, false, x, y, sprite, 0);
      var screenh := 0;
      while screenh < |sprite|
        invariant Valid() && 0 <= screenh <= |sprite|
        invariant PaintRows(Pixels, carry, x, y, sprite, screenh) == target
      {
        carry := PaintLine(x, y, screenh, sprite[screenh], |sprite|, carry);
        screenh := screenh + 1;
      }
    }

    /** Draw's inner loop: columns 0..n-1 of sprite row `row`, setting the
        flag when a sprite bit differs from the pixel it meets. */
    method PaintLine(x: int, y: int, row: nat, line: Byte, n: nat, carry0: bool) returns (carry: bool)
      requires Valid() && 0 <= x < 0x7FFF_FF00 && 0 <= y < 0x7FFF_FF00
      modifies this, screen
      ensures Valid()
      ensures (Pixels, carry) == PaintRow(old(Pixels), carry0, x, y, row, line, 0, n)
    {
      carry := carry0;
      ghost var target := PaintRow(Pixels, carry, x, y, row, line, 0, n);
      var screenw := 0;
      while screenw < n
        invariant Valid() && 0 <= screenw <= n
        invariant PaintRow(Pixels, carry, x, y, row, line, screenw, n) == target
      {
        var col, rw := (x + screenw) % w, (y + row) % h;
        var pixel := Bit(line, screenw);
        if pixel != screen[col, rw] {
          carry := true;
        }
        screen[col, rw] := Flip(screen[col, rw], pixel);
        Pixels := SetPixel(Pixels, col, rw, Flip(Pixels[col][rw], pixel));
        screenw := screenw + 1;
      }
    }
  }
}
