/** What the LEDs show: the frame one Refresh delay lights, the frames of
    a Refresh, of a hold loop and of a scrolled character, and what they
    mean in terms of the display buffer. */
module Frames {
  import opened Wiring
  import opened Lines
  import opened Scroll
  import opened Button

  /** rep: Refresh calls per scrolled column. */
  const Rep: nat := 35

  /** The pixel blinkn uses: (0, 1), LED6. */
  const BlinkPixel: nat := 5

  /** The on-bits Refresh computes from Disp for the pixels of group g. */
  function GroupBits(disp: seq<bv8>, g: nat): (on: seq<bool>)
    requires |disp| == 5 && g < 6
    ensures |on| == |Groups[g]|
    ensures forall k :: 0 <= k < |Groups[g]| ==> Groups[g][k] < 25 && on[k] == PixelOn(disp, Groups[g][k])
  {
    GroupsPartitionPixels();
    seq(|Groups[g]|, k requires 0 <= k < |Groups[g]| => PixelOn(disp, Groups[g][k]))
  }

  /** Case 0 of Refresh: the masks it applies to Disp and the setpixel
      coordinates it lights, in order. */
  lemma RefreshCase0(disp: seq<bv8>)
    requires |disp| == 5
    ensures GroupBits(disp, 0) == [disp[0] & 0x10 != 0, disp[0] & 0x08 != 0, disp[0] & 0x04 != 0, disp[0] & 0x02 != 0, disp[0] & 0x01 != 0]
    ensures Calls(Groups[0]) == [(0, 0), (1, 0), (2, 0), (3, 0), (4, 0)]
  {
    assert Groups[0] == [0, 1, 2, 3, 4];
  }

  /** Case 1 of Refresh: the masks it applies to Disp and the setpixel
      coordinates it lights, in order. */
  lemma RefreshCase1(disp: seq<bv8>)
    requires |disp| == 5
    ensures GroupBits(disp, 1) == [disp[1] & 0x08 != 0, disp[1] & 0x04 != 0, disp[1] & 0x02 != 0, disp[1] & 0x01 != 0]
    ensures Calls(Groups[1]) == [(1, 1), (2, 1), (3, 1), (4, 1)]
  {
    assert Groups[1] == [6, 7, 8, 9];
  }

  /** Case 2 of Refresh: the masks it applies to Disp and the setpixel
      coordinates it lights, in order. */
  lemma RefreshCase2(disp: seq<bv8>)
    requires |disp| == 5
    ensures GroupBits(disp, 2) == [disp[1] & 0x10 != 0, disp[2] & 0x04 != 0, disp[2] & 0x02 != 0, disp[2] & 0x01 != 0]
    ensures Calls(Groups[2]) == [(0, 1), (2, 2), (3, 2), (4, 2)]
  {
    assert Groups[2] == [5, 12, 13, 14];
  }

  /** Case 3 of Refresh: the masks it applies to Disp and the setpixel
      coordinates it lights, in order. */
  lemma RefreshCase3(disp: seq<bv8>)
    requires |disp| == 5
    ensures GroupBits(disp, 3) == [disp[2] & 0x10 != 0, disp[2] & 0x08 != 0, disp[3] & 0x02 != 0, disp[3] & 0x01 != 0]
    ensures Calls(Groups[3]) == [(0, 2), (1, 2), (3, 3), (4, 3)]
  {
    assert Groups[3] == [10, 11, 18, 19];
  }

  /** Case 4 of Refresh: the masks it applies to Disp and the setpixel
      coordinates it lights, in order. */
  lemma RefreshCase4(disp: seq<bv8>)
    requires |disp| == 5
    ensures GroupBits(disp, 4) == [disp[3] & 0x10 != 0, disp[3] & 0x08 != 0, disp[3] & 0x04 != 0, disp[4] & 0x01 != 0]
    ensures Calls(Groups[4]) == [(0, 3), (1, 3), (2, 3), (4, 4)]
  {
    assert Groups[4] == [15, 16, 17, 24];
  }

  /** Case 5 of Refresh: the masks it applies to Disp and the setpixel
      coordinates it lights, in order. */
  lemma RefreshCase5(disp: seq<bv8>)
    requires |disp| == 5
    ensures GroupBits(disp, 5) == [disp[4] & 0x10 != 0, disp[4] & 0x08 != 0, disp[4] & 0x04 != 0, disp[4] & 0x02 != 0]
    ensures Calls(Groups[5]) == [(0, 4), (1, 4), (2, 4), (3, 4)]
  {
    assert Groups[5] == [20, 21, 22, 23];
  }

  /** main's hold loop, with its rep of 35: at most 35 Refreshes, exactly
      35 when no event is pending at the end, and 13 reads per Refresh when
      the switch is enabled. */
  lemma MainHold(enabled: bool, b: Button, levels: nat -> bool, pos: nat, rep: nat)
    requires rep == Rep
    ensures var r := HoldFrom(enabled, b, levels, pos, rep);
      && 1 <= r.refreshes <= 35
      && (!r.button.event ==> r.refreshes == 35)
      && (enabled ==> r.pos == pos + 13 * r.refreshes)
  {
    HoldBounds(enabled, b, levels, pos, rep);
  }

  /** The pixels of pix that Disp switches on, collected in order. */
  function LitPixels(disp: seq<bv8>, pix: seq<nat>): set<nat>
    requires |disp| == 5
    decreases |pix|
  {
    if |pix| == 0 then {}
    else
      var p := pix[|pix| - 1];
      LitPixels(disp, pix[..|pix| - 1]) + (if p < 25 && PixelOn(disp, p) then {p} else {})
  }

  /** The pixels of group g that Disp switches on. */
  function GroupFrame(disp: seq<bv8>, g: nat): set<nat>
    requires |disp| == 5 && g < 6
  {
    LitPixels(disp, Groups[g])
  }

  /** A pixel is collected exactly when it occurs in pix and Disp switches
      it on. */
  lemma {:induction false} LitPixelsMembers(disp: seq<bv8>, pix: seq<nat>, n: nat)
    requires |disp| == 5
    ensures n in LitPixels(disp, pix) <==> n < 25 && PixelOn(disp, n) && n in pix
    decreases |pix|
  {
    if |pix| > 0 {
      var init := pix[..|pix| - 1];
      LitPixelsMembers(disp, init, n);
      assert pix == init + [pix[|pix| - 1]];
    }
  }

  /** The pixels Refresh lights for group g are the pixels of that group
      Disp switches on. */
  lemma GroupFrameIsOnSet(disp: seq<bv8>, g: nat)
    requires |disp| == 5 && g < 6
    ensures OnSet(Groups[g], GroupBits(disp, g)) == GroupFrame(disp, g)
  {
    var on := GroupBits(disp, g);
    forall n | n in GroupFrame(disp, g)
      ensures n in OnSet(Groups[g], on)
    {
      LitPixelsMembers(disp, Groups[g], n);
      var k :| 0 <= k < |Groups[g]| && Groups[g][k] == n;
    }
    forall n | n in OnSet(Groups[g], on)
      ensures n in GroupFrame(disp, g)
    {
      LitPixelsMembers(disp, Groups[g], n);
    }
  }

  /** Group g's frame holds exactly the pixels that the table assigns to
      group g and that Disp switches on. */
  lemma GroupFrameMeaning(disp: seq<bv8>, g: nat, n: nat)
    requires |disp| == 5 && g < 6
    ensures n in GroupFrame(disp, g) <==> n < 25 && GroupOf(n) == g && PixelOn(disp, n)
  {
    LitPixelsMembers(disp, Groups[g], n);
    GroupsPartitionPixels();
    if n in Groups[g] {
      var k :| 0 <= k < |Groups[g]| && Groups[g][k] == n;
    }
  }

  /** What one Refresh shows during its six delays, when it starts with
      read number pos: group g is blanked when the switch is enabled and
      the second read of its turn (read pos + 2g + 1) is low. */
  function RefreshFrames(enabled: bool, disp: seq<bv8>, levels: nat -> bool, pos: nat): (r: seq<set<nat>>)
    requires |disp| == 5
    ensures |r| == 6
  {
    seq(6, g requires 0 <= g < 6 =>
      if Blanked(enabled, levels, pos, g) then {} else GroupFrame(disp, g))
  }

  /** The union of a sequence of frames. */
  function Union(frames: seq<set<nat>>): set<nat>
    decreases |frames|
  {
    if |frames| == 0 then {} else Union(frames[..|frames| - 1]) + frames[|frames| - 1]
  }

  lemma {:induction false} UnionMembers(frames: seq<set<nat>>, n: nat)
    ensures n in Union(frames) <==> exists k :: 0 <= k < |frames| && n in frames[k]
    decreases |frames|
  {
    if |frames| > 0 {
      var last := |frames| - 1;
      UnionMembers(frames[..last], n);
      if n in frames[last] {
        assert 0 <= last < |frames| && n in frames[last];
      }
      if exists k :: 0 <= k < last && n in frames[k] {
        var k :| 0 <= k < last && n in frames[k];
        assert n in frames[..last][k];
      }
    }
  }

  /** Whether group g's blanking read, in a Refresh starting with read
      pos, hides the group. */
  predicate Blanked(enabled: bool, levels: nat -> bool, pos: nat, g: nat)
  {
    enabled && !levels(pos + 2 * g + 1)
  }

  /** Over one Refresh a pixel is shown exactly when Disp switches it on
      and its group is not blanked: with the switch disabled (or
      released) Refresh shows the whole display buffer, and a button held
      down hides every group whose blanking read sees it. */
  lemma RefreshShows(enabled: bool, disp: seq<bv8>, levels: nat -> bool, pos: nat, n: nat)
    requires |disp| == 5
    ensures n in Union(RefreshFrames(enabled, disp, levels, pos)) <==>
      n < 25 && PixelOn(disp, n) && !Blanked(enabled, levels, pos, GroupOf(n))
  {
    var frames := RefreshFrames(enabled, disp, levels, pos);
    UnionMembers(frames, n);
    if n in Union(frames) {
      ShownIsOn(enabled, disp, levels, pos, n);
    }
    if n < 25 && PixelOn(disp, n) && !Blanked(enabled, levels, pos, GroupOf(n)) {
      OnIsShown(enabled, disp, levels, pos, n);
    }
  }

  lemma ShownIsOn(enabled: bool, disp: seq<bv8>, levels: nat -> bool, pos: nat, n: nat)
    requires |disp| == 5
    requires exists g :: 0 <= g < 6 && n in RefreshFrames(enabled, disp, levels, pos)[g]
    ensures n < 25 && PixelOn(disp, n) && !Blanked(enabled, levels, pos, GroupOf(n))
  {
    var g :| 0 <= g < 6 && n in RefreshFrames(enabled, disp, levels, pos)[g];
    GroupFrameMeaning(disp, g, n);
  }

  lemma OnIsShown(enabled: bool, disp: seq<bv8>, levels: nat -> bool, pos: nat, n: nat)
    requires |disp| == 5 && n < 25 && PixelOn(disp, n) && !Blanked(enabled, levels, pos, GroupOf(n))
    ensures exists g :: 0 <= g < 6 && n in RefreshFrames(enabled, disp, levels, pos)[g]
  {
    InOwnGroup(n);
    var g := GroupOf(n);
    GroupFrameMeaning(disp, g, n);
    assert n in RefreshFrames(enabled, disp, levels, pos)[g];
  }

  /** No pixel is lit in two delays of one Refresh: each LED is on for at
      most one sixth of a refresh. */
  lemma RefreshFramesDisjoint(enabled: bool, disp: seq<bv8>, levels: nat -> bool, pos: nat, g: nat, h: nat, n: nat)
    requires |disp| == 5 && g < 6 && h < 6 && g != h
    ensures var frames := RefreshFrames(enabled, disp, levels, pos);
      !(n in frames[g] && n in frames[h])
  {
    GroupFrameMeaning(disp, g, n);
    GroupFrameMeaning(disp, h, n);
  }

  /** What a hold loop of count Refresh calls shows, starting with read pos. */
  function HoldFrames(enabled: bool, disp: seq<bv8>, levels: nat -> bool, pos: nat, count: nat): (r: seq<set<nat>>)
    requires |disp| == 5
    ensures |r| == 6 * count
    decreases count
  {
    if count == 0 then []
    else
      var start := pos + (if enabled then 1 else 0);
      RefreshFrames(enabled, disp, levels, start) +
      HoldFrames(enabled, disp, levels, start + RefreshReads(enabled), count - 1)
  }

  /** What a whole hold loop of rep iterations shows, from detector state b
      and read pos. */
  function HoldLog(enabled: bool, b: Button, disp: seq<bv8>, levels: nat -> bool, pos: nat, rep: nat): seq<set<nat>>
    requires |disp| == 5
  {
    HoldFrames(enabled, disp, levels, pos, HoldFrom(enabled, b, levels, pos, rep).refreshes)
  }

  /** One hold-loop iteration, in terms of the frames: the iteration's
      Refresh frames come first, then those of the rest of the loop. */
  lemma HoldStepFrames(enabled: bool, b: Button, disp: seq<bv8>, levels: nat -> bool, pos: nat, left: nat)
    requires |disp| == 5 && left >= 1
    ensures var r := HoldFrom(enabled, b, levels, pos, left);
      var b' := Poll(enabled, b, levels(pos));
      var start := pos + (if enabled then 1 else 0);
      var pos' := start + RefreshReads(enabled);
      var frames := RefreshFrames(enabled, disp, levels, start);
      && r.refreshes >= 1
      && (b'.event ==> r == HoldResult(b', 1, pos') && HoldFrames(enabled, disp, levels, pos, r.refreshes) == frames)
      && (!b'.event ==>
            var r' := HoldFrom(enabled, b', levels, pos', left - 1);
            && r.button == r'.button && r.pos == r'.pos && r.refreshes == r'.refreshes + 1
            && HoldFrames(enabled, disp, levels, pos, r.refreshes) ==
               frames + HoldFrames(enabled, disp, levels, pos', r'.refreshes))
  {
    var start := pos + (if enabled then 1 else 0);
    assert HoldFrames(enabled, disp, levels, start + RefreshReads(enabled), 0) == [];
  }

  /** The hold loop's invariant: the loop's overall result and log are
      those still to come from detector state b, read pos, left iterations
      to go and the log so far. */
  ghost predicate HoldTracks(enabled: bool, total: HoldResult, all: seq<set<nat>>, b: Button, disp: seq<bv8>,
                             levels: nat -> bool, pos: nat, left: nat, shown: seq<set<nat>>)
    requires |disp| == 5
  {
    var r := HoldFrom(enabled, b, levels, pos, left);
    && total.button == r.button && total.pos == r.pos
    && all == shown + HoldFrames(enabled, disp, levels, pos, r.refreshes)
  }

  /** One iteration keeps HoldTracks, and when it sets the event the loop's
      result and log are reached. */
  lemma HoldAdvance(enabled: bool, total: HoldResult, all: seq<set<nat>>, b: Button, disp: seq<bv8>,
                    levels: nat -> bool, pos: nat, left: nat, shown: seq<set<nat>>)
    requires |disp| == 5 && left >= 1
    requires HoldTracks(enabled, total, all, b, disp, levels, pos, left, shown)
    ensures var b' := Poll(enabled, b, levels(pos));
      var start := pos + (if enabled then 1 else 0);
      var pos' := start + RefreshReads(enabled);
      var shown' := shown + RefreshFrames(enabled, disp, levels, start);
      && (b'.event ==> total.button == b' && total.pos == pos' && all == shown')
      && (!b'.event ==> HoldTracks(enabled, total, all, b', disp, levels, pos', left - 1, shown'))
  {
    HoldStepFrames(enabled, b, disp, levels, pos, left);
    var b' := Poll(enabled, b, levels(pos));
    var start := pos + (if enabled then 1 else 0);
    var pos' := start + RefreshReads(enabled);
    var frames := RefreshFrames(enabled, disp, levels, start);
    if !b'.event {
      var r' := HoldFrom(enabled, b', levels, pos', left - 1);
      ConcatAssoc(shown, frames, HoldFrames(enabled, disp, levels, pos', r'.refreshes));
    }
  }

  /** With no iterations left, the state reached is the loop's result. */
  lemma HoldDone(enabled: bool, total: HoldResult, all: seq<set<nat>>, b: Button, disp: seq<bv8>,
                 levels: nat -> bool, pos: nat, shown: seq<set<nat>>)
    requires |disp| == 5
    requires HoldTracks(enabled, total, all, b, disp, levels, pos, 0, shown)
    ensures total.button == b && total.pos == pos && all == shown
  {
  }

  /** The display rows after one column step of every row. */
  function ShiftedDisp(disp: seq<bv8>, font: seq<bv8>): (r: seq<bv8>)
    requires |disp| == 5 && |font| == 5
    ensures |r| == 5 && forall i :: 0 <= i < 5 ==> r[i] == ShiftRow(disp[i], font[i]).0
  {
    seq(5, i requires 0 <= i < 5 => ShiftRow(disp[i], font[i]).0)
  }

  /** The glyph rows after one column step of every row. */
  function ShiftedFont(disp: seq<bv8>, font: seq<bv8>): (r: seq<bv8>)
    requires |disp| == 5 && |font| == 5
    ensures |r| == 5 && forall i :: 0 <= i < 5 ==> r[i] == ShiftRow(disp[i], font[i]).1
  {
    seq(5, i requires 0 <= i < 5 => ShiftRow(disp[i], font[i]).1)
  }

  /** What cols remaining columns of the width loop show: each column
      shifts the rows, then holds the shifted display. */
  function ColumnFrames(enabled: bool, disp: seq<bv8>, font: seq<bv8>, levels: nat -> bool,
                        b: Button, pos: nat, rep: nat, cols: nat): seq<set<nat>>
    requires |disp| == 5 && |font| == 5
    decreases cols
  {
    if cols == 0 then []
    else
      var d := ShiftedDisp(disp, font);
      var h := HoldFrom(enabled, b, levels, pos, rep);
      HoldLog(enabled, b, d, levels, pos, rep) +
      ColumnFrames(enabled, d, ShiftedFont(disp, font), levels, h.button, h.pos, rep, cols - 1)
  }

  /** The width loop's invariant, as HoldTracks is the hold loop's. */
  ghost predicate ColumnsTrack(enabled: bool, total: HoldResult, all: seq<set<nat>>, disp: seq<bv8>, font: seq<bv8>,
                               levels: nat -> bool, b: Button, pos: nat, rep: nat, cols: nat, shown: seq<set<nat>>)
    requires |disp| == 5 && |font| == 5
  {
    var r := ColumnsFrom(enabled, b, levels, pos, rep, cols);
    && total.button == r.button && total.pos == r.pos
    && all == shown + ColumnFrames(enabled, disp, font, levels, b, pos, rep, cols)
  }

  /** One column keeps ColumnsTrack. */
  lemma ColumnAdvance(enabled: bool, total: HoldResult, all: seq<set<nat>>, disp: seq<bv8>, font: seq<bv8>,
                      levels: nat -> bool, b: Button, pos: nat, rep: nat, cols: nat, shown: seq<set<nat>>)
    requires |disp| == 5 && |font| == 5 && cols >= 1
    requires ColumnsTrack(enabled, total, all, disp, font, levels, b, pos, rep, cols, shown)
    ensures var d := ShiftedDisp(disp, font);
      var h := HoldFrom(enabled, b, levels, pos, rep);
      ColumnsTrack(enabled, total, all, d, ShiftedFont(disp, font), levels, h.button, h.pos, rep, cols - 1,
                   shown + HoldLog(enabled, b, d, levels, pos, rep))
  {
    var d := ShiftedDisp(disp, font);
    var f := ShiftedFont(disp, font);
    var h := HoldFrom(enabled, b, levels, pos, rep);
    ConcatAssoc(shown, HoldLog(enabled, b, d, levels, pos, rep),
                ColumnFrames(enabled, d, f, levels, h.button, h.pos, rep, cols - 1));
  }

  /** blinkn(n): n times pixel (0, 1) alone, then nothing. */
  function BlinkFrames(n: nat): seq<set<nat>>
    decreases n
  {
    if n == 0 then [] else BlinkFrames(n - 1) + [{BlinkPixel}, {}]
  }

  /** blinkn(n) shows 2n frames that alternate between LED6 alone and
      nothing, starting with LED6. */
  lemma {:induction false} BlinkFramesAlternate(n: nat)
    ensures |BlinkFrames(n)| == 2 * n
    ensures forall k :: 0 <= k < 2 * n ==> BlinkFrames(n)[k] == if k % 2 == 0 then {BlinkPixel} else {}
    decreases n
  {
    if n > 0 {
      BlinkFramesAlternate(n - 1);
    }
  }

  lemma ConcatAssoc<T>(a: seq<T>, b: seq<T>, c: seq<T>)
    ensures a + (b + c) == (a + b) + c
  {
  }

  /** str[i], or the terminating NUL past its end. */
  function CharAt(str: seq<bv8>, i: nat): bv8
  {
    if i < |str| then str[i] else 0
  }
}
