/** The firmware's state and its imperative parts: the six drive lines,
    the display and glyph buffers, the F_LINE input, setpixel, Refresh,
    blinkn, the start-up self-test and one pass of the scroll loop. */
module Firmware {
  import opened Wiring
  import opened Lines
  import opened Scroll
  import opened Button
  import opened Frames

  class Badge {
    /** The six drive lines A..F (DDRB and PORTB bits). */
    const lines: array<Pin>
    /** Disp[5]: the display rows, 5 low bits each. */
    const disp: array<bv8>
    /** FontChar[5]: the glyph rows being shifted in, from the top bit. */
    const font: array<bv8>
    /** The value line F reads at each successive input_test(F_LINE). */
    const levels: nat -> bool
    /** The message string, without its terminating NUL. */
    const str: seq<bv8>
    /** strlen(str) stored in a uint8_t. */
    const strlength: nat
    /** The glyph rows and width loadfontchar gives for a character. */
    const glyphs: bv8 -> seq<bv8>
    const widths: bv8 -> bv8

    /** How many F_LINE reads have happened. */
    var readCount: nat
    var fLineEnabled: bool
    var fontWidth: bv8
    var buttonevent: bool
    var prevbuttonpress: bool
    var msgnum: bool
    var len: nat
    /** What the LEDs showed during each delay so far. */
    ghost var shown: seq<set<nat>>

    ghost predicate Valid()
      reads this`len
    {
      && lines.Length == 6 && disp.Length == 5 && font.Length == 5 && disp != font
      && (forall c: bv8 :: |glyphs(c)| == 5)
      && strlength == |str| % 256
      && (len == 0 || len < strlength)
    }

    function ButtonState(): Button
      reads this`prevbuttonpress, this`buttonevent
    {
      Button(prevbuttonpress, buttonevent)
    }

    /** avrinit: all lines inputs with latches low; globals and main's
        locals zero. */
    constructor (levels: nat -> bool, str: seq<bv8>, glyphs: bv8 -> seq<bv8>, widths: bv8 -> bv8)
      requires forall c: bv8 :: |glyphs(c)| == 5
      requires forall i :: 0 <= i < |str| ==> str[i] != 0
      ensures Valid() && AllIdle(lines[..]) && disp[..] == [0, 0, 0, 0, 0] && font[..] == [0, 0, 0, 0, 0]
      ensures this.levels == levels && this.str == str && this.glyphs == glyphs && this.widths == widths
      ensures readCount == 0 && !fLineEnabled && fontWidth == 0
      ensures !buttonevent && !prevbuttonpress && !msgnum && len == 0 && shown == []
      ensures fresh(lines) && fresh(disp) && fresh(font)
    {
      lines := new Pin[6](_ => Idle);
      disp := new bv8[5](_ => 0);
      font := new bv8[5](_ => 0);
      this.levels := levels;
      this.str := str;
      strlength := |str| % 256;
      this.glyphs := glyphs;
      this.widths := widths;
      readCount := 0;
      fLineEnabled := false;
      fontWidth := 0;
      buttonevent := false;
      prevbuttonpress := false;
      msgnum := false;
      len := 0;
      shown := [];
    }

    /** input_test(F_LINE): the next value of the input stream. */
    method ReadFLine() returns (level: bool)
      modifies this`readCount
      ensures level == levels(old(readCount)) && readCount == old(readCount) + 1
    {
      level := levels(readCount);
      readCount := readCount + 1;
    }

    /** mydelay1 / mydelay10: time passes while the lines stay as they are;
        what they light is recorded. */
    ghost method Delay()
      requires lines.Length == 6
      modifies this`shown
      ensures shown == old(shown) + [Visible(lines[..])]
    {
      shown := shown + [Visible(lines[..])];
    }

    /** setpixel(x, y, val): look the pixel up in LEDS, then run the switch
        on its high line and the switch on its low line. */
    method SetPixel(x: bv8, y: bv8, val: bool)
      requires lines.Length == 6 && PixelIndex(x, y) < 25
      modifies lines
      ensures lines[..] == SetPixelLines(old(lines[..]), PixelIndex(x, y) as nat, val)
    {
      var n := PixelIndex(x, y);
      var b := Leds[n];
      var hi := UnpackH(b) as nat;
      var lo := UnpackL(b) as nat;
      assert hi == Hi(n as nat) && lo == Lo(n as nat);
      DriveHigh(hi, val);
      DriveLow(lo, val);
    }

    /** setpixel's switch on the high line: drive it to its active level
        (high, or low for line F) to switch on, release it to switch off;
        no case for a nibble above 5. */
    method DriveHigh(hi: nat, val: bool)
      requires lines.Length == 6
      modifies lines
      ensures lines[..] == if hi < 6 then old(lines[..])[hi := HighRole(old(lines[hi]), hi, val)] else old(lines[..])
    {
      if hi < FLine {
        if val {
          lines[hi] := Pin(true, lines[hi].level);    // output_enable
          lines[hi] := Pin(lines[hi].isOutput, true); // output_high
        } else {
          lines[hi] := Pin(lines[hi].isOutput, false); // output_low
          lines[hi] := Pin(false, lines[hi].level);    // output_disable
        }
      } else if hi == FLine {
        if val {
          lines[hi] := Pin(true, lines[hi].level);     // output_enable
          lines[hi] := Pin(lines[hi].isOutput, false); // output_low (inverted line)
        } else {
          lines[hi] := Pin(false, lines[hi].level);    // output_disable
        }
      }
    }

    /** setpixel's switch on the low line: enable and drive low to switch
        on, only disable to switch off; no case for line F. */
    method DriveLow(lo: nat, val: bool)
      requires lines.Length == 6
      modifies lines
      ensures lines[..] == if lo < FLine then old(lines[..])[lo := LowRole(old(lines[lo]), val)] else old(lines[..])
    {
      if lo < FLine {
        if val {
          lines[lo] := Pin(true, lines[lo].level);     // output_enable
          lines[lo] := Pin(lines[lo].isOutput, false); // output_low
        } else {
          lines[lo] := Pin(false, lines[lo].level);    // output_disable
        }
      }
    }

    /** The setpixel calls of one Refresh case: pixel pix[k] is switched to
        val when bit on[k] is set. */
    method SwitchGroup(pix: seq<nat>, on: seq<bool>, val: bool)
      requires lines.Length == 6 && |on| == |pix| && forall k :: 0 <= k < |pix| ==> pix[k] < 25
      modifies lines
      ensures lines[..] == SwitchAll(old(lines[..]), pix, on, val)
    {
      var k := 0;
      while k < |pix|
        invariant 0 <= k <= |pix|
        invariant lines[..] == SwitchAll(old(lines[..]), pix[..k], on[..k], val)
      {
        assert pix[..k + 1][..k] == pix[..k] && on[..k + 1][..k] == on[..k];
        if on[k] {
          var xy := Calls(pix)[k];
          SetPixel(xy.0, xy.1, val);
        }
        k := k + 1;
      }
      assert pix[..k] == pix && on[..k] == on;
    }

    /** One case of Refresh's switch: read the on-bits of group g, make the
        dummy read, make the blanking read when blankEn, light the group
        unless blanked, delay, switch the group's pixels off. */
    method RefreshGroup(g: nat, blankEn: bool)
      requires Valid() && AllIdle(lines[..]) && g < 6
      modifies lines, this`readCount, this`shown
      ensures AllIdle(lines[..])
      ensures readCount == old(readCount) + (if blankEn then 2 else 1)
      ensures shown == old(shown) +
        [if blankEn && !levels(old(readCount) + 1) then {} else GroupFrame(disp[..], g)]
    {
      var pix := Groups[g];
      var on := GroupBits(disp[..], g);
      GroupShapedAt(g);
      var dummy := ReadFLine();
      var blank := false;
      if blankEn {
        var level := ReadFLine();
        blank := !level;
      }
      AllIdleIsIdleLines(lines[..]);
      if !blank {
        SwitchGroup(pix, on, true);
        LightGroup(GroupHigh(g), pix, on);
        VisibleLit(GroupHigh(g), pix, on);
        GroupFrameIsOnSet(disp[..], g);
      } else {
        VisibleIdle();
      }
      Delay();
      if !blank {
        ClearGroup(GroupHigh(g), pix, on);
      } else {
        ClearIdle(pix, on);
      }
      SwitchGroup(pix, on, false);
    }

    /** Refresh(): the six groups in turn, with blanking enabled exactly
        when the switch is. */
    method Refresh()
      requires Valid() && AllIdle(lines[..])
      modifies lines, this`readCount, this`shown
      ensures AllIdle(lines[..])
      ensures readCount == old(readCount) + RefreshReads(fLineEnabled)
      ensures shown == old(shown) + RefreshFrames(fLineEnabled, disp[..], levels, old(readCount))
    {
      var blankEn := fLineEnabled;
      ghost var frames := RefreshFrames(blankEn, disp[..], levels, readCount);
      var g := 0;
      while g < 6
        invariant 0 <= g <= 6
        invariant AllIdle(lines[..])
        invariant readCount == old(readCount) + (if blankEn then 2 * g else g)
        invariant shown == old(shown) + frames[..g]
      {
        RefreshGroup(g, blankEn);
        assert frames[..g + 1] == frames[..g] + [frames[g]];
        g := g + 1;
      }
      assert frames[..6] == frames;
    }

    /** loadfontchar(c): FontChar and FontWidth for character c. */
    method LoadFontChar(c: bv8)
      requires Valid()
      modifies font, this`fontWidth
      ensures font[..] == glyphs(c) && fontWidth == widths(c)
    {
      forall i | 0 <= i < 5 {
        font[i] := glyphs(c)[i];
      }
      fontWidth := widths(c);
    }

    /** The row loop of one column step: each row's glyph bit 7 moves into
        bit 0 of its display row. */
    method ScrollColumn()
      requires Valid()
      modifies disp, font
      ensures disp[..] == ShiftedDisp(old(disp[..]), old(font[..]))
      ensures font[..] == ShiftedFont(old(disp[..]), old(font[..]))
    {
      var i := 0;
      while i < 5
        invariant 0 <= i <= 5
        invariant forall k :: 0 <= k < i ==> (disp[k], font[k]) == ShiftRow(old(disp[k]), old(font[k]))
        invariant forall k :: i <= k < 5 ==> disp[k] == old(disp[k]) && font[k] == old(font[k])
      {
        ShiftRowAt(i);
        i := i + 1;
      }
    }

    /** The row loop's body for row i: remember bit 7 of the glyph row, shift
        the glyph row and the display row left, and carry the bit in. */
    method ShiftRowAt(i: nat)
      requires Valid() && i < 5
      modifies disp, font
      ensures var r := ShiftRow(old(disp[i]), old(font[i]));
        disp[..] == old(disp[..])[i := r.0] && font[..] == old(font[..])[i := r.1]
    {
      var tmpb := font[i] & 0x80 != 0;
      var tmp := font[i] << 1;
      font[i] := tmp;
      tmp := disp[i] << 1;
      disp[i] := tmp;
      if tmpb {
        disp[i] := disp[i] + 1;
      }
    }

    /** One round of blinkn's loop: pixel (x, y) on, delay, off, delay. */
    method BlinkOnce(x: bv8, y: bv8)
      requires lines.Length == 6 && AllIdle(lines[..]) && x == 0 && y == 1
      modifies lines, this`shown
      ensures AllIdle(lines[..])
      ensures shown == old(shown) + [{BlinkPixel}, {}]
    {
      SetPixelRoundTrip(BlinkPixel);
      VisibleIdle();
      AllIdleIsIdleLines(lines[..]);
      SetPixel(x, y, true);
      Delay();
      SetPixel(x, y, false);
      Delay();
    }

    /** blinkn(n): pixel (0, 1) on, delay, off, delay, n times. */
    method BlinkN(n: bv8)
      requires lines.Length == 6 && AllIdle(lines[..])
      modifies lines, this`shown
      ensures AllIdle(lines[..])
      ensures shown == old(shown) + BlinkFrames(n as nat)
    {
      var x: bv8 := 0;
      var y: bv8 := 1;
      var count := n as nat;
      var i: nat := 0;
      while i < count
        invariant i <= count
        invariant AllIdle(lines[..])
        invariant shown == old(shown) + BlinkFrames(i)
      {
        BlinkOnce(x, y);
        ConcatAssoc(old(shown), BlinkFrames(i), [{BlinkPixel}, {}]);
        i := i + 1;
      }
    }

    /** The start of main: a dummy read, then a read of line F; the switch
        is enabled when it reads high (not pressed); then LED6 blinks 4
        times if the switch is enabled and 3 times if not. */
    method SelfTest()
      requires lines.Length == 6 && AllIdle(lines[..])
      modifies lines, this`readCount, this`fLineEnabled, this`shown
      ensures fLineEnabled == (old(fLineEnabled) || levels(old(readCount) + 1))
      ensures readCount == old(readCount) + 2
      ensures AllIdle(lines[..])
      ensures shown == old(shown) + BlinkFrames(if fLineEnabled then 4 else 3)
    {
      var dummy := ReadFLine();
      var level := ReadFLine();
      if level {
        fLineEnabled := true;
      }
      if fLineEnabled {
        BlinkN(4);
      } else {
        BlinkN(3);
      }
    }

    /** The button poll at the top of the hold loop: when the switch is
        enabled, read line F (low is pressed), set the event on a new
        press, remember the sample. */
    method PollButton()
      modifies this`readCount, this`buttonevent, this`prevbuttonpress
      ensures ButtonState() == Poll(fLineEnabled, old(ButtonState()), levels(old(readCount)))
      ensures readCount == old(readCount) + (if fLineEnabled then 1 else 0)
    {
      if fLineEnabled {
        var level := ReadFLine();
        var buttonpress := !level;
        if !prevbuttonpress && buttonpress {
          buttonevent := true;
        }
        prevbuttonpress := buttonpress;
      }
    }

    /** One pass of the hold loop's body: poll the button, then Refresh. */
    method HoldIteration()
      requires Valid() && AllIdle(lines[..])
      modifies lines, this`readCount, this`buttonevent, this`prevbuttonpress, this`shown
      ensures AllIdle(lines[..])
      ensures ButtonState() == Poll(fLineEnabled, old(ButtonState()), levels(old(readCount)))
      ensures var start := old(readCount) + (if fLineEnabled then 1 else 0);
        && readCount == start + RefreshReads(fLineEnabled)
        && shown == old(shown) + RefreshFrames(fLineEnabled, disp[..], levels, start)
    {
      PollButton();
      Refresh();
    }

    /** The hold loop: up to rep times poll the button and Refresh, leaving
        early once an event is pending. */
    method Hold(rep: nat)
      requires Valid() && AllIdle(lines[..])
      modifies lines, this`readCount, this`buttonevent, this`prevbuttonpress, this`shown
      ensures AllIdle(lines[..])
      ensures var r := HoldFrom(fLineEnabled, old(ButtonState()), levels, old(readCount), rep);
        && ButtonState() == r.button && readCount == r.pos
      ensures shown == old(shown) + HoldLog(fLineEnabled, old(ButtonState()), disp[..], levels, old(readCount), rep)
    {
      ghost var total := HoldFrom(fLineEnabled, ButtonState(), levels, readCount, rep);
      ghost var d := disp[..];
      ghost var all := shown + HoldLog(fLineEnabled, ButtonState(), d, levels, readCount, rep);
      var i := 0;
      while i < rep
        invariant 0 <= i <= rep
        invariant AllIdle(lines[..]) && disp[..] == d
        invariant HoldTracks(fLineEnabled, total, all, ButtonState(), d, levels, readCount, rep - i, shown)
      {
        ghost var s0 := shown;
        ghost var p0 := readCount;
        ghost var b0 := ButtonState();
        HoldIteration();
        HoldAdvance(fLineEnabled, total, all, b0, d, levels, p0, rep - i, s0);
        if buttonevent {
          break;
        }
        i := i + 1;
      }
      if !buttonevent {
        HoldDone(fLineEnabled, total, all, ButtonState(), d, levels, readCount, shown);
      }
      assert ButtonState() == total.button && readCount == total.pos && shown == all;
    }

    /** One column of the width loop: shift every row, then hold. */
    method Column(rep: nat)
      requires Valid() && AllIdle(lines[..])
      modifies lines, disp, font, this`readCount, this`buttonevent, this`prevbuttonpress, this`shown
      ensures AllIdle(lines[..])
      ensures disp[..] == ShiftedDisp(old(disp[..]), old(font[..]))
      ensures font[..] == ShiftedFont(old(disp[..]), old(font[..]))
      ensures var h := HoldFrom(fLineEnabled, old(ButtonState()), levels, old(readCount), rep);
        && ButtonState() == h.button && readCount == h.pos
      ensures shown == old(shown) + HoldLog(fLineEnabled, old(ButtonState()), disp[..], levels, old(readCount), rep)
    {
      ScrollColumn();
      Hold(rep);
    }

    /** The width loop: width columns of the current glyph. */
    method ScrollIn(width: nat, rep: nat)
      requires Valid() && AllIdle(lines[..])
      modifies lines, disp, font, this`readCount, this`buttonevent, this`prevbuttonpress, this`shown
      ensures AllIdle(lines[..])
      ensures forall i :: 0 <= i < 5 ==> (disp[i], font[i]) == ShiftRowN(old(disp[i]), old(font[i]), width)
      ensures var r := ColumnsFrom(fLineEnabled, old(ButtonState()), levels, old(readCount), rep, width);
        ButtonState() == r.button && readCount == r.pos
      ensures shown == old(shown) + ColumnFrames(fLineEnabled, old(disp[..]), old(font[..]), levels,
                                                 old(ButtonState()), old(readCount), rep, width)
    {
      ghost var d0 := disp[..];
      ghost var f0 := font[..];
      ghost var total := ColumnsFrom(fLineEnabled, ButtonState(), levels, readCount, rep, width);
      ghost var all := shown + ColumnFrames(fLineEnabled, d0, f0, levels, ButtonState(), readCount, rep, width);
      var j := 0;
      while j < width
        invariant 0 <= j <= width
        invariant AllIdle(lines[..])
        invariant forall i :: 0 <= i < 5 ==> (disp[i], font[i]) == ShiftRowN(d0[i], f0[i], j)
        invariant ColumnsTrack(fLineEnabled, total, all, disp[..], font[..], levels, ButtonState(), readCount,
                               rep, width - j, shown)
      {
        ghost var s0 := shown;
        ghost var p0 := readCount;
        ghost var b0 := ButtonState();
        ghost var dj := disp[..];
        ghost var fj := font[..];
        ColumnAdvance(fLineEnabled, total, all, dj, fj, levels, b0, p0, rep, width - j, s0);
        Column(rep);
        j := j + 1;
      }
    }

    /** The top of main's loop: a pending button event toggles msgnum,
        restarts the message and is cleared. */
    method ConsumeEvent()
      requires Valid()
      modifies this`msgnum, this`len, this`buttonevent
      ensures Valid() && !buttonevent
      ensures msgnum == (old(msgnum) != old(buttonevent))
      ensures len == if old(buttonevent) then 0 else old(len)
    {
      if buttonevent {
        msgnum := !msgnum;
        len := 0;
        buttonevent := false;
      }
    }

    /** c = str[len]; loadfontchar(c); len++, wrapping to 0 at strlength. */
    method LoadNext() returns (c: bv8)
      requires Valid()
      modifies font, this`fontWidth, this`len
      ensures Valid()
      ensures c == CharAt(str, old(len)) && font[..] == glyphs(c) && fontWidth == widths(c)
      ensures len == NextPos(old(len), strlength)
    {
      c := CharAt(str, len);
      LoadFontChar(c);
      len := (len + 1) % 256;
      if len >= strlength {
        len := 0;
      }
    }

    /** One pass of main's infinite loop: act on a pending button event,
        load the glyph of str[len] and advance len, then scroll the glyph's
        width columns in, holding each column for rep Refreshes (main's
        constant rep, Rep = 35). */
    method Step(rep: nat) returns (c: bv8)
      requires Valid() && AllIdle(lines[..])
      modifies lines, disp, font, this`readCount, this`buttonevent, this`prevbuttonpress
      modifies this`msgnum, this`len, this`fontWidth, this`shown
      ensures Valid() && AllIdle(lines[..])
      ensures var start := if old(buttonevent) then 0 else old(len);
        && c == CharAt(str, start)
        && len == NextPos(start, strlength)
        && msgnum == (old(msgnum) != old(buttonevent))
        && fontWidth == widths(c)
      ensures forall i :: 0 <= i < 5 ==>
        (disp[i], font[i]) == ShiftRowN(old(disp[i]), glyphs(c)[i], Width(widths(c)))
      ensures var r := ColumnsFrom(fLineEnabled, Button(old(prevbuttonpress), false), levels,
                                   old(readCount), rep, Width(widths(c)));
        ButtonState() == r.button && readCount == r.pos
      ensures shown == old(shown) + ColumnFrames(fLineEnabled, old(disp[..]), glyphs(c), levels,
                                                 Button(old(prevbuttonpress), false), old(readCount),
                                                 rep, Width(widths(c)))
    {
      ConsumeEvent();
      c := LoadNext();
      var width := Width(fontWidth);
      ScrollIn(width, rep);
    }
  }
}
