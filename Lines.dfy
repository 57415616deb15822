/** The six tri-state drive lines as the pixel driver sees them: what one
    setpixel call does to them, and which LEDs a configuration lights. */
module Lines {
  import opened Wiring

  /** One tri-state line: its data-direction bit (isOutput) and its output
      latch bit (level). A disabled line is an input; its latch is kept. */
  datatype Pin = Pin(isOutput: bool, level: bool)

  /** The state after reset: every line an input with its latch low. */
  const Idle := Pin(false, false)

  predicate AllIdle(lines: seq<Pin>)
  {
    |lines| == 6 && forall i :: 0 <= i < 6 ==> lines[i] == Idle
  }

  function IdleLines(): (r: seq<Pin>)
    ensures AllIdle(r)
  {
    seq(6, _ => Idle)
  }

  lemma AllIdleIsIdleLines(lines: seq<Pin>)
    requires AllIdle(lines)
    ensures lines == IdleLines()
  {
  }

  /** The high line's switch case: enable and drive high to switch on
      (line F, inverted on the V0.9 board, is driven low instead); drive low
      and disable to switch off (line F is only disabled). */
  function HighRole(p: Pin, h: nat, on: bool): Pin
  {
    if h == FLine then
      if on then Pin(true, false) else Pin(false, p.level)
    else
      if on then Pin(true, true) else Pin(false, false)
  }

  /** The low line's switch case: enable and drive low to switch on; only
      disable to switch off. */
  function LowRole(p: Pin, on: bool): Pin
  {
    if on then Pin(true, false) else Pin(false, p.level)
  }

  /** The lines after setpixel on pixel n: the high line's switch runs
      first, then the low line's; the low switch has no case for line F,
      and neither switch has a case for a nibble above 5. */
  function SetPixelLines(lines: seq<Pin>, n: nat, on: bool): (r: seq<Pin>)
    requires |lines| == 6 && n < 25
    ensures |r| == 6
  {
    var h := Hi(n);
    var l := Lo(n);
    var afterHigh := if h < 6 then lines[h := HighRole(lines[h], h, on)] else lines;
    if l < FLine then afterHigh[l := LowRole(afterHigh[l], on)] else afterHigh
  }

  /** LED n lights when its high line is an output at its active level
      (high, or low for the inverted line F) and its low line is an output
      driven low. */
  predicate Conducts(lines: seq<Pin>, n: nat)
    requires |lines| == 6 && n < 25
  {
    var h := Hi(n);
    var l := Lo(n);
    h < 6 && l < 6 &&
    lines[h].isOutput && lines[h].level == (h != FLine) &&
    lines[l].isOutput && !lines[l].level
  }

  /** The set of pixels a line configuration lights. */
  function Visible(lines: seq<Pin>): set<nat>
    requires |lines| == 6
  {
    set n | 0 <= n < 25 && Conducts(lines, n)
  }

  /** setpixel applied in order to every pixel of pix whose bit in on is set. */
  function SwitchAll(lines: seq<Pin>, pix: seq<nat>, on: seq<bool>, val: bool): (r: seq<Pin>)
    requires |lines| == 6 && |on| == |pix|
    requires forall k :: 0 <= k < |pix| ==> pix[k] < 25
    ensures |r| == 6
    decreases |pix|
  {
    if |pix| == 0 then lines
    else
      var last := |pix| - 1;
      var before := SwitchAll(lines, pix[..last], on[..last], val);
      if on[last] then SetPixelLines(before, pix[last], val) else before
  }

  /** Some pixel of pix that is switched on uses line i as its low line. */
  predicate LowDriven(pix: seq<nat>, on: seq<bool>, i: int)
  {
    exists k :: 0 <= k < |pix| && k < |on| && pix[k] < 25 && on[k] && Lo(pix[k]) == i
  }

  /** Lines with high line h active (when hiLit), the low lines of the
      switched-on pixels of pix driven low, and every other line idle. */
  function LinesOf(h: nat, hiLit: bool, pix: seq<nat>, on: seq<bool>): (r: seq<Pin>)
    ensures |r| == 6
  {
    seq(6, i => if i == h && hiLit then Pin(true, h != FLine)
                else if LowDriven(pix, on, i) then Pin(true, false)
                else Idle)
  }

  /** The pixels of pix whose bit in on is set. */
  function OnSet(pix: seq<nat>, on: seq<bool>): set<nat>
  {
    set k | 0 <= k < |pix| && k < |on| && on[k] :: pix[k]
  }

  lemma LowDrivenSnoc(pix: seq<nat>, on: seq<bool>, p: nat, b: bool, i: nat)
    requires |on| == |pix| && p < 25
    ensures LowDriven(pix + [p], on + [b], i) == (LowDriven(pix, on, i) || (b && Lo(p) == i))
  {
    var P, O := pix + [p], on + [b];
    if LowDriven(pix, on, i) {
      var k :| 0 <= k < |pix| && k < |on| && pix[k] < 25 && on[k] && Lo(pix[k]) == i;
      assert P[k] == pix[k] && O[k] == on[k];
    }
    if b && Lo(p) == i {
      assert P[|pix|] == p && O[|pix|] == b;
    }
    if LowDriven(P, O, i) {
      var k :| 0 <= k < |P| && k < |O| && P[k] < 25 && O[k] && Lo(P[k]) == i;
      if k < |pix| {
        assert P[k] == pix[k] && O[k] == on[k];
      }
    }
  }

  lemma LowDrivenCons(pix: seq<nat>, on: seq<bool>, i: nat)
    requires |on| == |pix| > 0 && pix[0] < 25
    ensures LowDriven(pix, on, i) == ((on[0] && Lo(pix[0]) == i) || LowDriven(pix[1..], on[1..], i))
  {
    if LowDriven(pix[1..], on[1..], i) {
      var k :| 0 <= k < |pix[1..]| && k < |on[1..]| && pix[1..][k] < 25 && on[1..][k] && Lo(pix[1..][k]) == i;
      assert pix[k + 1] == pix[1..][k] && on[k + 1] == on[1..][k];
    }
    if LowDriven(pix, on, i) {
      var k :| 0 <= k < |pix| && k < |on| && pix[k] < 25 && on[k] && Lo(pix[k]) == i;
      if k > 0 {
        assert pix[1..][k - 1] == pix[k] && on[1..][k - 1] == on[k];
      }
    }
  }

  /** No switched-on pixel of a group drives the group's high line, nor F,
      as its low line. */
  lemma NotLowDriven(h: nat, pix: seq<nat>, on: seq<bool>, i: nat)
    requires GroupShaped(h, pix) && |on| == |pix|
    requires i == h || i == FLine
    ensures !LowDriven(pix, on, i)
  {
    LedsWellFormed();
  }

  lemma ShapedPrefix(h: nat, pix: seq<nat>, m: nat)
    requires GroupShaped(h, pix) && m <= |pix|
    ensures GroupShaped(h, pix[..m]) && GroupShaped(h, pix[m..])
  {
    assert forall k :: 0 <= k < m ==> pix[..m][k] == pix[k];
    assert forall k :: 0 <= k < |pix| - m ==> pix[m..][k] == pix[m + k];
  }

  /** Switching on one more pixel of a group adds its low line, and the
      group's high line, to the lit configuration. */
  lemma LightStepOn(h: nat, hiLit: bool, pix: seq<nat>, on: seq<bool>, p: nat)
    requires GroupShaped(h, pix + [p]) && |on| == |pix|
    ensures p < 25
    ensures SetPixelLines(LinesOf(h, hiLit, pix, on), p, true) == LinesOf(h, true, pix + [p], on + [true])
  {
    LedsWellFormed();
    var P, O := pix + [p], on + [true];
    assert P[|pix|] == p;
    var before := LinesOf(h, hiLit, pix, on);
    var after := LinesOf(h, true, P, O);
    var r := SetPixelLines(before, p, true);
    var l := Lo(p);
    assert Hi(p) == h && l != h && l < FLine;
    forall i | 0 <= i < 6
      ensures r[i] == after[i]
    {
      LowDrivenSnoc(pix, on, p, true, i);
    }
  }

  /** Skipping a switched-off pixel changes nothing. */
  lemma LightStepOff(h: nat, pix: seq<nat>, on: seq<bool>, p: nat)
    requires |on| == |pix| && p < 25
    ensures LinesOf(h, true in on + [false], pix + [p], on + [false]) == LinesOf(h, true in on, pix, on)
  {
    assert (true in on + [false]) == (true in on);
    forall i | 0 <= i < 6
      ensures LowDriven(pix + [p], on + [false], i) == LowDriven(pix, on, i)
    {
      LowDrivenSnoc(pix, on, p, false, i);
    }
  }

  /** Lighting a group from idle lines gives LinesOf: the group's high line
      active and the low lines of the switched-on pixels driven low. */
  lemma {:induction false} LightGroup(h: nat, pix: seq<nat>, on: seq<bool>)
    requires GroupShaped(h, pix) && |on| == |pix|
    ensures SwitchAll(IdleLines(), pix, on, true) == LinesOf(h, true in on, pix, on)
    decreases |pix|
  {
    if |pix| == 0 {
      assert forall i :: 0 <= i < 6 ==> !LowDriven(pix, on, i);
    } else {
      var last := |pix| - 1;
      var P, O, p, b := pix[..last], on[..last], pix[last], on[last];
      assert pix == P + [p] && on == O + [b];
      ShapedPrefix(h, pix, last);
      LightGroup(h, P, O);
      if b {
        LightStepOn(h, true in O, P, O, p);
      } else {
        LightStepOff(h, P, O, p);
      }
    }
  }

  /** Whether the high line is still lit after the first m pixels of a lit
      group have been switched off. */
  function HiLitAfter(on: seq<bool>, m: nat): bool
    requires m <= |on|
  {
    true in on[m..] && !(true in on[..m])
  }

  /** Switching off the first pixel of the still-lit part of a group
      returns its low line and the group's high line to idle. */
  lemma ClearStepOn(h: nat, hiLit: bool, pix: seq<nat>, on: seq<bool>)
    requires GroupShaped(h, pix) && |on| == |pix| > 0 && on[0]
    ensures SetPixelLines(LinesOf(h, hiLit, pix, on), pix[0], false) == LinesOf(h, false, pix[1..], on[1..])
  {
    LedsWellFormed();
    var p := pix[0];
    var l := Lo(p);
    assert Hi(p) == h && l != h && l < FLine;
    ShapedPrefix(h, pix, 1);
    var before := LinesOf(h, hiLit, pix, on);
    var after := LinesOf(h, false, pix[1..], on[1..]);
    var r := SetPixelLines(before, p, false);
    NotLowDriven(h, pix, on, h);
    assert !LowDriven(pix[1..], on[1..], l) by {
      forall k | 0 <= k < |pix[1..]|
        ensures Lo(pix[1..][k]) != l
      {
        assert pix[1..][k] == pix[k + 1];
      }
    }
    forall i | 0 <= i < 6
      ensures r[i] == after[i]
    {
      LowDrivenCons(pix, on, i);
    }
  }

  lemma ClearStepOff(h: nat, hiLit: bool, pix: seq<nat>, on: seq<bool>)
    requires |on| == |pix| > 0 && pix[0] < 25 && !on[0]
    ensures LinesOf(h, hiLit, pix, on) == LinesOf(h, hiLit, pix[1..], on[1..])
  {
    forall i | 0 <= i < 6
      ensures LowDriven(pix, on, i) == LowDriven(pix[1..], on[1..], i)
    {
      LowDrivenCons(pix, on, i);
    }
  }

  lemma ClearStep(h: nat, pix: seq<nat>, on: seq<bool>, m: nat)
    requires GroupShaped(h, pix) && |on| == |pix| && m < |pix|
    ensures
      var before := LinesOf(h, HiLitAfter(on, m), pix[m..], on[m..]);
      var after := LinesOf(h, HiLitAfter(on, m + 1), pix[m + 1..], on[m + 1..]);
      (if on[m] then SetPixelLines(before, pix[m], false) else before) == after
  {
    ShapedPrefix(h, pix, m);
    assert pix[m..][1..] == pix[m + 1..] && on[m..][1..] == on[m + 1..];
    assert on[..m + 1] == on[..m] + [on[m]];
    assert on[m..] == [on[m]] + on[m + 1..];
    if on[m] {
      assert !HiLitAfter(on, m + 1);
      ClearStepOn(h, HiLitAfter(on, m), pix[m..], on[m..]);
    } else {
      assert HiLitAfter(on, m + 1) == HiLitAfter(on, m);
      ClearStepOff(h, HiLitAfter(on, m), pix[m..], on[m..]);
    }
  }

  lemma {:induction false} ClearPrefix(h: nat, pix: seq<nat>, on: seq<bool>, m: nat)
    requires GroupShaped(h, pix) && |on| == |pix| && m <= |pix|
    ensures SwitchAll(LinesOf(h, true in on, pix, on), pix[..m], on[..m], false) ==
            LinesOf(h, HiLitAfter(on, m), pix[m..], on[m..])
    decreases m
  {
    ShapedPrefix(h, pix, m);
    if m == 0 {
      assert pix[0..] == pix && on[0..] == on && on[..0] == [];
    } else {
      ClearPrefix(h, pix, on, m - 1);
      assert pix[..m][..m - 1] == pix[..m - 1] && on[..m][..m - 1] == on[..m - 1];
      assert pix[..m][m - 1] == pix[m - 1] && on[..m][m - 1] == on[m - 1];
      ClearStep(h, pix, on, m - 1);
    }
  }

  /** Switching off, in the same order, the pixels a group lit returns
      every line to idle. */
  lemma ClearGroup(h: nat, pix: seq<nat>, on: seq<bool>)
    requires GroupShaped(h, pix) && |on| == |pix|
    ensures SwitchAll(LinesOf(h, true in on, pix, on), pix, on, false) == IdleLines()
  {
    ClearPrefix(h, pix, on, |pix|);
    assert pix[..|pix|] == pix && on[..|on|] == on;
    assert pix[|pix|..] == [] && on[|on|..] == [];
    assert forall i :: 0 <= i < 6 ==> !LowDriven([], [], i);
  }

  /** Switching pixels off on idle lines leaves them idle (a blanked group). */
  lemma {:induction false} ClearIdle(pix: seq<nat>, on: seq<bool>)
    requires |on| == |pix| && forall k :: 0 <= k < |pix| ==> pix[k] < 25
    ensures SwitchAll(IdleLines(), pix, on, false) == IdleLines()
    decreases |pix|
  {
    if |pix| > 0 {
      var last := |pix| - 1;
      ClearIdle(pix[..last], on[..last]);
    }
  }

  lemma LitConductsIfOn(h: nat, pix: seq<nat>, on: seq<bool>, n: nat)
    requires GroupShaped(h, pix) && |on| == |pix| && n in OnSet(pix, on)
    ensures n < 25 && Conducts(LinesOf(h, true in on, pix, on), n)
  {
    LedsWellFormed();
    var k :| 0 <= k < |pix| && k < |on| && on[k] && pix[k] == n;
    assert true in on;
    NotLowDriven(h, pix, on, h);
    assert LowDriven(pix, on, Lo(n));
  }

  lemma LitOnIfConducts(h: nat, pix: seq<nat>, on: seq<bool>, n: nat)
    requires GroupShaped(h, pix) && |on| == |pix| && n < 25
    requires Conducts(LinesOf(h, true in on, pix, on), n)
    ensures n in OnSet(pix, on)
  {
    LedsWellFormed();
    LedsInjective();
    var L := LinesOf(h, true in on, pix, on);
    NotLowDriven(h, pix, on, FLine);
    var l := Lo(n);
    assert L[l] == Pin(true, false);
    assert LowDriven(pix, on, l);
    var k :| 0 <= k < |pix| && k < |on| && pix[k] < 25 && on[k] && Lo(pix[k]) == l;
    assert Hi(n) == h;
    assert pix[k] == n;
  }

  /** A lit group shows exactly its switched-on pixels: no other LED of the
      matrix sees an active high line together with a low-driven low line. */
  lemma VisibleLit(h: nat, pix: seq<nat>, on: seq<bool>)
    requires GroupShaped(h, pix) && |on| == |pix|
    ensures Visible(LinesOf(h, true in on, pix, on)) == OnSet(pix, on)
  {
    var L := LinesOf(h, true in on, pix, on);
    forall n | n in OnSet(pix, on)
      ensures n in Visible(L)
    {
      LitConductsIfOn(h, pix, on, n);
    }
    forall n | n in Visible(L)
      ensures n in OnSet(pix, on)
    {
      LitOnIfConducts(h, pix, on, n);
    }
  }

  /** Idle lines light nothing. */
  lemma VisibleIdle()
    ensures Visible(IdleLines()) == {}
  {
    LedsWellFormed();
    forall n | 0 <= n < 25
      ensures !Conducts(IdleLines(), n)
    {
      assert Hi(n) < 6 && Lo(n) < 6;
    }
  }

  /** What one setpixel call does: only the pixel's high and low lines
      change; the high line is enabled at its active level or driven low and
      disabled (line F: only disabled), the low line is enabled low or only
      disabled. */
  lemma SetPixelEffect(lines: seq<Pin>, n: nat, on: bool)
    requires |lines| == 6 && n < 25
    ensures var r := SetPixelLines(lines, n, on);
      var h := Hi(n);
      var l := Lo(n);
      && h < 6 && l < FLine && h != l
      && (forall i :: 0 <= i < 6 && i != h && i != l ==> r[i] == lines[i])
      && r[l] == (if on then Pin(true, false) else Pin(false, lines[l].level))
      && r[h] == (if on then Pin(true, h != FLine)
                  else Pin(false, if h == FLine then lines[h].level else false))
  {
    LedsWellFormed();
  }

  /** From idle lines, switching pixel n on enables exactly its two lines
      (the low one driven low, the high one at its active level), lights
      exactly that LED, and switching it off again restores idle lines. */
  lemma SetPixelRoundTrip(n: nat)
    requires n < 25
    ensures var lit := SetPixelLines(IdleLines(), n, true);
      && (forall i :: 0 <= i < 6 ==>
            lit[i] == (if i == Hi(n) then Pin(true, Hi(n) != FLine)
                       else if i == Lo(n) then Pin(true, false)
                       else Idle))
      && Visible(lit) == {n}
      && SetPixelLines(lit, n, false) == IdleLines()
  {
    LedsWellFormed();
    var h := Hi(n);
    assert GroupShaped(h, [n]);
    LightGroup(h, [n], [true]);
    ClearGroup(h, [n], [true]);
    VisibleLit(h, [n], [true]);
    assert OnSet([n], [true]) == {n};
    var lit := SetPixelLines(IdleLines(), n, true);
    assert SwitchAll(IdleLines(), [n], [true], true) == lit;
    assert SwitchAll(lit, [n], [true], false) == SetPixelLines(lit, n, false);
  }
}
