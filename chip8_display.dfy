/**
 * The pixel buffer of the current emulator (tomo/src/chip8/display.rs).
 *
 * 2048 cells, addressed as (x, y) at index x + y * BREITE. The constant names are kept as the
 * source has them: HOEHE ("height") is 64 and BREITE ("width") is 32, so in this file's own
 * terms the buffer is 32 cells wide and 64 tall, stored row by row.
 * The source stores each cell as a u8 that only `set_pixel` writes, always 0 or 1; it is a
 * bool here.
 */
module Chip8Display {
  import opened Bits
  import SpriteBlit

  const HOEHE: nat := 64
  const BREITE: nat := 32
  const CELLS: nat := 2048

  /** The layout display.rs uses: cell (x, y) at x + y * BREITE. */
  const SCREEN: SpriteBlit.Screen := SpriteBlit.Screen(BREITE, HOEHE, SpriteBlit.RowMajor)

  /** The built-in hexadecimal font: 16 glyphs 0-F, 5 rows each. */
  const FONT: seq<byte> := [
    0xF0, 0x90, 0x90, 0x90, 0xF0, // 0
    0x20, 0x60, 0x20, 0x20, 0x70, // 1
    0xF0, 0x10, 0xF0, 0x80, 0xF0, // 2
    0xF0, 0x10, 0xF0, 0x10, 0xF0, // 3
    0x90, 0x90, 0xF0, 0x10, 0x10, // 4
    0xF0, 0x80, 0xF0, 0x10, 0xF0, // 5
    0xF0, 0x80, 0xF0, 0x90, 0xF0, // 6
    0xF0, 0x10, 0x20, 0x40, 0x40, // 7
    0xF0, 0x90, 0xF0, 0x90, 0xF0, // 8
    0xF0, 0x90, 0xF0, 0x10, 0xF0, // 9
    0xF0, 0x90, 0xF0, 0x90, 0x90, // A
    0xE0, 0x90, 0xE0, 0x90, 0xE0, // B
    0xF0, 0x80, 0x80, 0x80, 0xF0, // C
    0xE0, 0x90, 0x90, 0x90, 0xE0, // D
    0xF0, 0x80, 0xF0, 0x80, 0xF0, // E
    0xF0, 0x80, 0xF0, 0x80, 0x80  // F
  ]


  class Display {
    const mem: array<bool>

    ghost predicate Valid()
      reads this
    {
      mem.Length == CELLS
    }

    ghost function Cells(): seq<bool>
      reads this, mem
    {
      mem[..]
    }

    /** `Display::new`: every cell off. */
    constructor ()
      ensures Valid() && fresh(mem)
      ensures Cells() == AllOff(CELLS)
    {
      mem := new bool[CELLS](_ => false);
    }

    /** `set_pixel`: cell x + y * BREITE becomes `on`; nothing else changes. */
    method SetPixel(x: nat, y: nat, on: bool)
      requires Valid() && x + y * BREITE < CELLS
      modifies mem
      ensures Cells() == old(Cells())[x + y * BREITE := on]
      ensures GetPixel(x, y) == on
    {
      mem[x + y * BREITE] := on;
    }

    /** `get_pixel`: reads the cell at (x, y) of the row-major layout. */
    function GetPixel(x: nat, y: nat): (on: bool)
      reads this, mem
      requires Valid() && x + y * BREITE < CELLS
      ensures x < BREITE && y < HOEHE ==> on == Cells()[SpriteBlit.Cell(SCREEN, x, y)]
    {
      mem[x + y * BREITE]
    }

    /** `get_pixel_single`: reads a cell by its linear index. */
    function GetPixelSingle(position: nat): (on: bool)
      reads this, mem
      requires Valid() && position < CELLS
      ensures position < CELLS ==> on == GetPixel(SpriteBlit.ColOf(SCREEN, position), SpriteBlit.RowOf(SCREEN, position))
    {
      SpriteBlit.CellOnto(SCREEN, position);
      mem[position]
    }

    /** `clear_display`: visits every (x, y) with x < BREITE and y < HOEHE and switches it off. */
    method ClearDisplay()
      requires Valid()
      modifies mem
      ensures Cells() == AllOff(CELLS)
    {
      var x := 0;
      while x < BREITE
        invariant 0 <= x <= BREITE
        invariant forall p :: 0 <= p < CELLS ==> mem[p] == (if p % BREITE < x then false else old(mem[p]))
      {
        var y := 0;
        while y < HOEHE
          invariant 0 <= y <= HOEHE
          invariant forall p :: 0 <= p < CELLS ==>
            mem[p] == (if p % BREITE < x || (p % BREITE == x && p / BREITE < y) then false else old(mem[p]))
        {
          SetPixel(x, y, false);
          y := y + 1;
        }
        x := x + 1;
      }
    }

    /**
     * `draw`: XOR-blits the sprite at (x, y) with wrap-around and reports a collision.
     * Cells under no set bit keep their value; for a sprite of at most HOEHE rows, exactly the
     * cells under set bits are toggled and the collision is "some set bit met a lit cell".
     */
    method Draw(x: nat, y: nat, sprite: seq<byte>) returns (collision: bool)
      requires Valid()
      modifies mem
      ensures SpriteBlit.Blit(Cells(), collision) == SpriteBlit.Draw(SCREEN, old(Cells()), x, y, sprite)
      ensures forall p :: 0 <= p < CELLS && !SpriteBlit.Covered(SCREEN, x, y, sprite, p) ==> Cells()[p] == old(Cells())[p]
      ensures |sprite| <= HOEHE ==>
        && (forall p :: 0 <= p < CELLS ==> Cells()[p] == (old(Cells())[p] != SpriteBlit.Covered(SCREEN, x, y, sprite, p)))
        && (collision <==> SpriteBlit.HitsLit(SCREEN, old(Cells()), x, y, sprite))
    {
      ghost var start := mem[..];
      collision := false;
      var j := 0;
      while j < |sprite|
        invariant 0 <= j <= |sprite|
        invariant SpriteBlit.Blit(mem[..], collision) == SpriteBlit.DrawRows(SCREEN, start, x, y, sprite, j)
      {
        var row := sprite[j];
        ghost var rowStart := SpriteBlit.Blit(mem[..], collision);
        var i := 0;
        while i < 8
          invariant 0 <= i <= 8
          invariant SpriteBlit.Blit(mem[..], collision) == SpriteBlit.DrawBits(SCREEN, rowStart, x, y, sprite, j, i)
        {
          var newValue := (row >> (7 - i)) & 0x01;
          ghost var before := SpriteBlit.Blit(mem[..], collision);
          assert newValue == 1 <==> BitAt(sprite[j], i);
          if newValue == 1 {
            var xi := (x + i) % BREITE;
            var yj := (y + j) % HOEHE;
            assert xi + yj * BREITE == SpriteBlit.Target(SCREEN, x, y, j, i);
            var oldValue := GetPixel(xi, yj);
            if oldValue {
              collision := true;
            }
            SetPixel(xi, yj, (newValue == 1) != oldValue);
          }
          assert SpriteBlit.Blit(mem[..], collision) == SpriteBlit.Visit(SCREEN, before, x, y, sprite, j, i);
          i := i + 1;
        }
        j := j + 1;
      }
      SpriteBlit.DrawProperties(SCREEN, start, x, y, sprite);
    }
  }
}
