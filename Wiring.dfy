/** The charlieplexing wiring of the 5x5 badge: the six drive lines, the
    nibble packing of the LED table, the 25-entry table itself, the pixel
    index arithmetic and the six pixel groups that Refresh walks. */
module Wiring {

  /** Drive lines, numbered as the firmware numbers them (A = 0 .. F = 5). */
  const A: bv8 := 0
  const B: bv8 := 1
  const C: bv8 := 2
  const D: bv8 := 3
  const E: bv8 := 4
  const F: bv8 := 5

  /** Index of line F, the line shared with the push-button. */
  const FLine: nat := 5

  /** PACK(h,l): high line in the upper nibble, low line in the lower one. */
  function Pack(h: bv8, l: bv8): (b: bv8)
    ensures h < 16 && l < 16 ==> UnpackH(b) == h && UnpackL(b) == l
  {
    (h << 4) | l
  }

  /** UNPACKH(b) */
  function UnpackH(b: bv8): (h: bv8)
    ensures h < 16
  {
    (b >> 4) & 0xf
  }

  /** UNPACKL(b) */
  function UnpackL(b: bv8): (l: bv8)
    ensures l < 16
  {
    b & 0xf
  }

  /** Packing two nibbles and unpacking them gives them back, and a packed
      byte is determined by its two nibbles. */
  lemma PackUnpack(b: bv8)
    ensures Pack(UnpackH(b), UnpackL(b)) == b
  {
  }

  /** LEDS[25]: (high line, low line) of every pixel, row-major from the
      top-left pixel (0,0) to the bottom-right pixel (4,4). */
  const Leds: seq<bv8> := [
    Pack(F, E), Pack(F, D), Pack(F, C), Pack(F, B), Pack(F, A),
    Pack(D, E), Pack(E, D), Pack(E, C), Pack(E, B), Pack(E, A),
    Pack(C, E), Pack(C, D), Pack(D, C), Pack(D, B), Pack(D, A),
    Pack(B, E), Pack(B, D), Pack(B, C), Pack(C, B), Pack(C, A),
    Pack(A, E), Pack(A, D), Pack(A, C), Pack(A, B), Pack(B, A)
  ]

  /** The line that is driven high to light pixel n. */
  function Hi(n: nat): nat
    requires n < 25
  {
    UnpackH(Leds[n]) as nat
  }

  /** The line that is driven low to light pixel n. */
  function Lo(n: nat): nat
    requires n < 25
  {
    UnpackL(Leds[n]) as nat
  }

  /** n = x + (y<<2) + y, computed in uint8_t arithmetic as setpixel does. */
  function PixelIndex(x: bv8, y: bv8): (n: bv8)
    ensures x < 5 && y < 5 ==> n as int == x as int + 5 * y as int && n < 25
  {
    x + (y << 2) + y
  }

  /** Column and row of pixel n. */
  function X(n: nat): bv8
    requires n < 25
  {
    (n % 5) as bv8
  }

  function Y(n: nat): bv8
    requires n < 25
  {
    (n / 5) as bv8
  }

  lemma PixelIndexOfXY(n: nat)
    requires n < 25
    ensures X(n) < 5 && Y(n) < 5 && PixelIndex(X(n), Y(n)) as nat == n
  {
  }

  /** The six pixel groups of Refresh, in the order its switch cases light
      them (cases 0 to 5). */
  const Groups: seq<seq<nat>> := [
    [0, 1, 2, 3, 4],
    [6, 7, 8, 9],
    [5, 12, 13, 14],
    [10, 11, 18, 19],
    [15, 16, 17, 24],
    [20, 21, 22, 23]
  ]

  /** The (x, y) arguments of the setpixel calls that switch the pixels of
      pix: each pair is the coordinate whose index is that pixel. */
  function Calls(pix: seq<nat>): (r: seq<(bv8, bv8)>)
    requires forall k :: 0 <= k < |pix| ==> pix[k] < 25
    ensures |r| == |pix|
    ensures forall k :: 0 <= k < |pix| ==>
      r[k].0 < 5 && r[k].1 < 5 && PixelIndex(r[k].0, r[k].1) as nat == pix[k]
  {
    seq(|pix|, k requires 0 <= k < |pix| => (PixelIndexOfXY(pix[k]); (X(pix[k]), Y(pix[k]))))
  }

  /** The high line shared by every pixel of group g: F, E, D, C, B, A. */
  function GroupHigh(g: nat): nat
    requires g < 6
  {
    FLine - g
  }

  /** The group that lights pixel n (its high line decides it). */
  function GroupOf(n: nat): nat
    requires n < 25
  {
    if Hi(n) <= FLine then FLine - Hi(n) else 0
  }

  /** Per-entry facts of the table, one pixel at a time. */
  predicate EntryOk(n: nat)
    requires n < 25
  {
    Hi(n) <= FLine && Lo(n) < FLine && Hi(n) != Lo(n)
  }

  /** Every LEDS entry names two different lines, and the low line is never F. */
  lemma LedsWellFormed()
    ensures forall n :: 0 <= n < 25 ==> Hi(n) <= FLine && Lo(n) < FLine && Hi(n) != Lo(n)
  {
    forall n | 0 <= n < 25
      ensures EntryOk(n)
    {
      assert n in {0, 1, 2, 3, 4, 5, 6, 7, 8, 9, 10, 11, 12, 13, 14, 15, 16, 17, 18, 19, 20, 21, 22, 23, 24};
    }
  }

  /** The pixels of pix can be lit together through high line h: they all
      use h as their high line, none uses h as its low line, and no two
      share a low line. */
  predicate GroupShaped(h: nat, pix: seq<nat>)
  {
    && (forall k :: 0 <= k < |pix| ==> pix[k] < 25 && Hi(pix[k]) == h && Lo(pix[k]) != h)
    && (forall j, k :: 0 <= j < k < |pix| ==> Lo(pix[j]) != Lo(pix[k]))
  }

  /** GroupShaped, checked one pixel at a time (so that it can be evaluated
      on the constant table). */
  predicate ShapedFrom(h: nat, pix: seq<nat>)
  {
    |pix| == 0 ||
    (pix[0] < 25 && Hi(pix[0]) == h && Lo(pix[0]) != h &&
     LowAbsent(Lo(pix[0]), pix[1..]) && ShapedFrom(h, pix[1..]))
  }

  predicate LowAbsent(l: nat, pix: seq<nat>)
  {
    |pix| == 0 || (pix[0] < 25 && Lo(pix[0]) != l && LowAbsent(l, pix[1..]))
  }

  lemma {:induction false} LowAbsentAt(l: nat, pix: seq<nat>, k: nat)
    requires LowAbsent(l, pix) && k < |pix|
    ensures pix[k] < 25 && Lo(pix[k]) != l
  {
    if k > 0 {
      LowAbsentAt(l, pix[1..], k - 1);
    }
  }

  lemma {:induction false} ShapedFromIsShaped(h: nat, pix: seq<nat>)
    requires ShapedFrom(h, pix)
    ensures GroupShaped(h, pix)
  {
    if |pix| > 0 {
      ShapedFromIsShaped(h, pix[1..]);
      forall j, k | 0 <= j < k < |pix|
        ensures Lo(pix[j]) != Lo(pix[k])
      {
        if j == 0 {
          LowAbsentAt(Lo(pix[0]), pix[1..], k - 1);
        } else {
          assert pix[j] == pix[1..][j - 1] && pix[k] == pix[1..][k - 1];
        }
      }
      forall k | 0 <= k < |pix|
        ensures pix[k] < 25 && Hi(pix[k]) == h && Lo(pix[k]) != h
      {
        if k > 0 {
          assert pix[k] == pix[1..][k - 1];
        }
      }
    }
  }

  lemma GroupShapedAt(g: nat)
    requires g < 6
    ensures GroupShaped(GroupHigh(g), Groups[g])
  {
    if g < 3 {
      ShapedFromFToD(g);
    } else {
      ShapedFromCToA(g);
    }
    ShapedFromIsShaped(GroupHigh(g), Groups[g]);
  }

  /** The groups on high lines F, E and D, entry by entry. */
  lemma ShapedFromFToD(g: nat)
    requires g < 3
    ensures ShapedFrom(GroupHigh(g), Groups[g])
  {
    if g == 0 {
      assert ShapedFrom(5, [0, 1, 2, 3, 4]);
    } else if g == 1 {
      assert ShapedFrom(4, [6, 7, 8, 9]);
    } else {
      assert ShapedFrom(3, [5, 12, 13, 14]);
    }
  }

  /** The groups on high lines C, B and A, entry by entry. */
  lemma ShapedFromCToA(g: nat)
    requires 3 <= g < 6
    ensures ShapedFrom(GroupHigh(g), Groups[g])
  {
    if g == 3 {
      assert ShapedFrom(2, [10, 11, 18, 19]);
    } else if g == 4 {
      assert ShapedFrom(1, [15, 16, 17, 24]);
    } else {
      assert ShapedFrom(0, [20, 21, 22, 23]);
    }
  }

  /** Each group of Refresh can be lit at once without a line conflict. */
  lemma GroupsConflictFree()
    ensures forall g :: 0 <= g < 6 ==> GroupShaped(GroupHigh(g), Groups[g])
  {
    forall g | 0 <= g < 6
      ensures GroupShaped(GroupHigh(g), Groups[g])
    {
      GroupShapedAt(g);
    }
  }

  /** Pixel n occurs in the group its high line selects. */
  lemma InOwnGroup(n: nat)
    requires n < 25
    ensures GroupOf(n) < 6 && n in Groups[GroupOf(n)]
  {
    assert n in {0, 1, 2, 3, 4, 5, 6, 7, 8, 9, 10, 11, 12, 13, 14, 15, 16, 17, 18, 19, 20, 21, 22, 23, 24};
  }

  /** The six groups cover the 25 pixels exactly once: every entry of a group
      is a pixel whose group is that one, every pixel occurs in its group,
      and no group lists a pixel twice. */
  lemma GroupsPartitionPixels()
    ensures forall g, k :: 0 <= g < 6 && 0 <= k < |Groups[g]| ==>
      Groups[g][k] < 25 && GroupOf(Groups[g][k]) == g
    ensures forall n :: 0 <= n < 25 ==> GroupOf(n) < 6 && n in Groups[GroupOf(n)]
    ensures forall g, j, k :: 0 <= g < 6 && 0 <= j < k < |Groups[g]| ==> Groups[g][j] != Groups[g][k]
  {
    GroupsConflictFree();
    forall n | 0 <= n < 25
      ensures GroupOf(n) < 6 && n in Groups[GroupOf(n)]
    {
      InOwnGroup(n);
    }
  }

  /** All 25 LEDS entries are distinct (high, low) pairs. */
  lemma LedsInjective()
    ensures forall m, n :: 0 <= m < 25 && 0 <= n < 25 && Hi(m) == Hi(n) && Lo(m) == Lo(n) ==> m == n
  {
    forall m, n | 0 <= m < 25 && 0 <= n < 25 && Hi(m) == Hi(n) && Lo(m) == Lo(n)
      ensures m == n
    {
      InOwnGroup(m);
      InOwnGroup(n);
      var g := GroupOf(m);
      var pix := Groups[g];
      GroupShapedAt(g);
      var j :| 0 <= j < |pix| && pix[j] == m;
      var k :| 0 <= k < |pix| && pix[k] == n;
    }
  }

  /** Pixel (x, y) is bit 4 - x of display row Disp[y]: mask 0x10 is the
      leftmost column and 0x01 the rightmost. */
  predicate PixelBit(row: bv8, x: nat)
    requires x < 5
  {
    row & (0x10 >> x) != 0
  }

  /** Whether the display buffer switches pixel n on. */
  predicate PixelOn(disp: seq<bv8>, n: nat)
    requires |disp| == 5 && n < 25
  {
    PixelBit(disp[n / 5], n % 5)
  }
}
