/** The scroll engine's arithmetic: shifting a glyph into the display
    buffer one column at a time, the glyph width, and the position in the
    message string. */
module Scroll {
  import opened Wiring

  /** One column step for one row (the loop body over i): the glyph row's
      bit 7 is captured, both rows shift left in uint8_t, and the captured
      bit enters bit 0 of the display row. Result: (display row, glyph row). */
  function ShiftRow(d: bv8, f: bv8): (r: (bv8, bv8))
    ensures r.0 == d * 2 + f / 128
    ensures r.1 == f * 2
  {
    var tmpb := f & 0x80 != 0;
    var glyph := f << 1;
    var shifted := d << 1;
    (if tmpb then shifted + 1 else shifted, glyph)
  }

  /** After one column step every visible pixel takes the value of its right
      neighbour, and the rightmost column takes the glyph row's top bit. */
  lemma ShiftRowScrollsLeft(d: bv8, f: bv8)
    ensures forall x :: 0 <= x < 4 ==> PixelBit(ShiftRow(d, f).0, x) == PixelBit(d, x + 1)
    ensures PixelBit(ShiftRow(d, f).0, 4) == (f & 0x80 != 0)
  {
    var r := ShiftRow(d, f).0;
    forall x | 0 <= x < 4
      ensures PixelBit(r, x) == PixelBit(d, x + 1)
    {
      assert x == 0 || x == 1 || x == 2 || x == 3;
    }
  }

  /** k column steps of one row. */
  function ShiftRowN(d: bv8, f: bv8, k: nat): (bv8, bv8)
    decreases k
  {
    if k == 0 then (d, f) else var r := ShiftRowN(d, f, k - 1); ShiftRow(r.0, r.1)
  }

  /** The display row and the glyph row read as one 16-bit register. */
  function Join(d: bv8, f: bv8): bv16
  {
    (d as bv16 << 8) | f as bv16
  }

  lemma JoinShiftRow(d: bv8, f: bv8)
    ensures Join(ShiftRow(d, f).0, ShiftRow(d, f).1) == Join(d, f) << 1
  {
  }

  /** v shifted left one bit, k times. */
  function Shl(v: bv16, k: nat): bv16
    decreases k
  {
    if k == 0 then v else Shl(v, k - 1) << 1
  }

  /** k column steps shift the 16-bit pair (display row, glyph row) left by
      k: the display row ends up holding the next k glyph columns. */
  lemma {:induction false} ShiftRowNIsShift(d: bv8, f: bv8, k: nat)
    ensures Join(ShiftRowN(d, f, k).0, ShiftRowN(d, f, k).1) == Shl(Join(d, f), k)
    decreases k
  {
    if k > 0 {
      ShiftRowNIsShift(d, f, k - 1);
      var r := ShiftRowN(d, f, k - 1);
      JoinShiftRow(r.0, r.1);
    }
  }

  /** A three-column glyph 0b101 shifted into a blank row shows 0b101. */
  lemma ThreeColumnGlyph()
    ensures ShiftRowN(0, 0xA0, 3) == (0x05, 0x00)
  {
    ShiftRowNIsShift(0, 0xA0, 3);
  }

  /** width = FontWidth & 0xf: at most 15 columns. */
  function Width(fontWidth: bv8): (w: nat)
    ensures w < 16 && w == fontWidth as int % 16
  {
    (fontWidth & 0xf) as nat
  }

  /** The string position after reading str[len]: len++ in uint8_t, reset to
      0 once it reaches strlength. */
  function NextPos(len: nat, strlength: nat): (r: nat)
    ensures len < strlength <= 255 ==> r == if len + 1 == strlength then 0 else len + 1
  {
    var next := (len + 1) % 256;
    if next >= strlength then 0 else next
  }

  /** Positions read by k successive loads starting at p. */
  function PosAfter(p: nat, strlength: nat, k: nat): nat
    decreases k
  {
    if k == 0 then p else NextPos(PosAfter(p, strlength, k - 1), strlength)
  }

  /** Without a wrap, k loads from p read the k positions after p. */
  lemma {:induction false} PosAfterCounts(p: nat, strlength: nat, k: nat)
    requires p + k < strlength <= 255
    ensures PosAfter(p, strlength, k) == p + k
    decreases k
  {
    if k > 0 {
      PosAfterCounts(p, strlength, k - 1);
    }
  }

  /** k = a + b loads are a loads followed by b loads. */
  lemma {:induction false} PosAfterAdd(p: nat, strlength: nat, a: nat, b: nat)
    ensures PosAfter(p, strlength, a + b) == PosAfter(PosAfter(p, strlength, a), strlength, b)
    decreases b
  {
    if b > 0 {
      PosAfterAdd(p, strlength, a, b - 1);
    }
  }

  /** The loads wrap to position 0 after the last character, and come back
      to where they started after strlength loads. */
  lemma PosAfterCycles(p: nat, strlength: nat)
    requires p < strlength <= 255
    ensures PosAfter(p, strlength, strlength - p) == 0
    ensures PosAfter(p, strlength, strlength) == p
  {
    PosAfterCounts(p, strlength, strlength - p - 1);
    PosAfterAdd(p, strlength, strlength - p - 1, 1);
    PosAfterAdd(p, strlength, strlength - p, p);
    if p > 0 {
      PosAfterCounts(0, strlength, p);
    }
  }
}
