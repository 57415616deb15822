# fivebyfive scrolling badge, modelled in Dafny

This project models the firmware of the 5x5 charlieplexed LED badge
(`fivebyfive_scrolltext-quietaction.c`) and proves properties of the model.

The badge drives 25 LEDs from six tri-state lines, A to F. Line F is also
the push-button input.

- The 25-entry `LEDS` table packs, for every pixel, the line driven high and
  the line driven low.
- `setpixel` switches one pixel by reconfiguring those two lines.
- `Refresh` lights the display buffer `Disp` in six groups. One group is lit
  during each short delay. Each group turn starts with a discarded read of
  line F. When the switch is enabled, a second read follows; if it is low,
  the group is blanked.
- At start-up, `main` reads line F to decide whether the switch is usable
  (`FLineEnabled`), then blinks LED6 four or three times.
- `main` then loops forever:
  - a pending button event toggles the message and restarts it;
  - the glyph of the next character is loaded, and the position in the
    string wraps at its end;
  - the glyph is shifted into `Disp` one column at a time;
  - after each column, up to `rep` = 35 times: poll the button, then call
    `Refresh`; the hold is left early once an event is pending.

Modules, one per file:

- `Wiring`: the line numbers, `PACK`/`UNPACKH`/`UNPACKL`, the `LEDS` table,
  the pixel index arithmetic and the six groups of `Refresh`.
- `Lines`: a line as a (direction, latch) pair, one `setpixel` call as a
  function on the six lines, and which LEDs a line configuration lights.
- `Scroll`: the per-row column shift, the glyph width and the string
  position.
- `Button`: the edge detector, and the hold loop as a function of the F-line
  reads.
- `Frames`: what the LEDs show during each delay of a `Refresh`, a hold
  loop, a scrolled glyph and `blinkn`.
- `Firmware`: class `Badge`.
  - Its state: the six lines (an array), `Disp` and `FontChar` (arrays), the
    globals, and main's locals.
  - Its methods: `setpixel`, `Refresh`, `blinkn`, the self-test and one pass
    of the main loop, each with loop invariants where the source has a loop.

How the model handles time and input:

- Each `input_test(F_LINE)` returns the next value of a fixed input stream
  `levels`, numbered by `readCount`.
- Each delay appends to a ghost log `shown` the set of LEDs that the lines
  light at that moment.
- The methods are proved against functions on these values.
  - `Refresh` proves its log equal to `RefreshFrames`.
  - The hold loop proves its log equal to `HoldLog`/`HoldFrom`.
  - The width loop proves its log equal to `ColumnFrames`/`ColumnsFrom`.
- Lemmas then say what those functions mean: each pixel shown, blanking, the
  event and the early exit.

Points where the model follows the code closely:

- Switching a pixel off drives only a high line A to E low before disabling
  it. The low line, and line F as a high line, are only disabled
  (`setpixel`, lines 516-638).
- The start-up test makes a dummy read, then a real one (lines 375-379).
- `Refresh`'s blanking read sits behind `blankEn &&`, so it happens only
  when the switch is enabled. A group turn therefore reads line F twice
  when the switch is enabled and once when it is not (`RefreshReads`).

## Model

| member | source | states |
|---|---|---|
| Wiring.Pack | fivebyfive_scrolltext-quietaction.c:92-94 | For nibbles h, l < 16, UNPACKH(PACK(h,l)) = h and UNPACKL(PACK(h,l)) = l |
| Wiring.UnpackH | fivebyfive_scrolltext-quietaction.c:93 | The high nibble is below 16 |
| Wiring.UnpackL | fivebyfive_scrolltext-quietaction.c:94 | The low nibble is below 16 |
| Wiring.PackUnpack | fivebyfive_scrolltext-quietaction.c:92-94 | Every byte is the PACK of its two nibbles |
| Wiring.PixelIndex | fivebyfive_scrolltext-quietaction.c:507-508 | For x, y <= 4, the uint8_t value x + (y<<2) + y equals x + 5y and is below 25 |
| Wiring.PixelIndexOfXY | fivebyfive_scrolltext-quietaction.c:508 | Every pixel n < 25 is the index of its own column n%5 and row n/5 |
| Wiring.LedsWellFormed | fivebyfive_scrolltext-quietaction.c:102-132 | Every LEDS entry names a high line <= F, a low line other than F, and two different lines |
| Wiring.LedsInjective | fivebyfive_scrolltext-quietaction.c:102-132 | The 25 (high, low) pairs are pairwise distinct |
| Wiring.GroupShapedAt | fivebyfive_scrolltext-quietaction.c:214-357 | Every pixel of Refresh group g has high line F-g (F, E, D, C, B, A). None uses that line as its low line. The low lines within a group are pairwise distinct |
| Wiring.GroupsConflictFree | fivebyfive_scrolltext-quietaction.c:214-357 | The same, for all six groups at once: each group can be lit together without a line conflict |
| Wiring.InOwnGroup | fivebyfive_scrolltext-quietaction.c:102-132 | Each pixel occurs in the group its high line selects |
| Wiring.Calls | fivebyfive_scrolltext-quietaction.c:228-238 | The (x, y) arguments of a group's setpixel calls address exactly the group's pixels, in order: x, y < 5 and x + 5y is the pixel |
| Wiring.GroupsPartitionPixels | fivebyfive_scrolltext-quietaction.c:214-357 | The six groups cover the 25 pixels exactly once: every entry belongs to that group, every pixel is in its group, no group repeats a pixel |
| Lines.SetPixelEffect | fivebyfive_scrolltext-quietaction.c:502-639 | setpixel changes only the pixel's two lines. The low line is enabled low (on) or only disabled (off). The high line is enabled high, or low for F (on); or driven low and disabled, or only disabled for F (off) |
| Lines.SetPixelRoundTrip | fivebyfive_scrolltext-quietaction.c:502-639 | From idle lines, setpixel(..,1) enables exactly the two lines and lights exactly that LED; setpixel(..,0) then restores the idle lines |
| Lines.LightGroup | fivebyfive_scrolltext-quietaction.c:228-232 | Lighting a group's on-pixels from idle lines leaves the group's high line active, the on-pixels' low lines driven low, and every other line idle |
| Lines.VisibleLit | fivebyfive_scrolltext-quietaction.c:228-234 | That configuration lights exactly the group's on-pixels and no other LED |
| Lines.ClearGroup | fivebyfive_scrolltext-quietaction.c:234-239 | Switching the same pixels off, in the same order, returns every line to idle |
| Lines.ClearIdle | fivebyfive_scrolltext-quietaction.c:224-239 | For a blanked group, switching the pixels off leaves the idle lines idle |
| Lines.VisibleIdle | fivebyfive_scrolltext-quietaction.c:657-658 | Idle lines light no LED |
| Scroll.ShiftRow | fivebyfive_scrolltext-quietaction.c:449-464 | In uint8_t arithmetic, new Disp[i] = 2*Disp[i] + FontChar[i]/128 and new FontChar[i] = 2*FontChar[i] |
| Scroll.ShiftRowScrollsLeft | fivebyfive_scrolltext-quietaction.c:448-464 | After one column step, visible pixel x < 4 of a row shows old pixel x+1, and pixel 4 shows the glyph row's bit 7 |
| Scroll.ShiftRowNIsShift | fivebyfive_scrolltext-quietaction.c:448-464 | k column steps shift the 16-bit pair (display row, glyph row) left k times |
| Scroll.ThreeColumnGlyph | fivebyfive_scrolltext-quietaction.c:448-464 | Shifting the 3-wide glyph 101 into a blank row gives 00101 with the glyph row consumed |
| Scroll.Width | fivebyfive_scrolltext-quietaction.c:446 | width = FontWidth & 0xf is FontWidth mod 16, thus at most 15 |
| Scroll.NextPos | fivebyfive_scrolltext-quietaction.c:439-443 | For len < strlength, the position after a load is len+1, or 0 when len was the last character |
| Scroll.PosAfterCounts | fivebyfive_scrolltext-quietaction.c:436-443 | With no wrap, k loads from p end at p+k |
| Scroll.PosAfterAdd | fivebyfive_scrolltext-quietaction.c:436-443 | a+b loads are a loads followed by b loads |
| Scroll.PosAfterCycles | fivebyfive_scrolltext-quietaction.c:436-443 | The position wraps to 0 after the last character and returns to its start after strlength loads |
| Button.SampleAllMeaning | fivebyfive_scrolltext-quietaction.c:470-481 | After any samples, prevbuttonpress is the last sample. The event is set exactly when it was already set or some sample is a not-pressed to pressed transition |
| Button.PressAndHoldFiresOnce | fivebyfive_scrolltext-quietaction.c:474-478 | Released, held for h >= 1 samples, released: exactly one transition, at the first held sample |
| Button.HeldPressExample | fivebyfive_scrolltext-quietaction.c:470-481 | The samples 1,1,0,0,0,1,1 give one transition, at index 2, and leave the event set |
| Button.HoldPendingRunsOnce | fivebyfive_scrolltext-quietaction.c:467-488 | With an event already pending, a hold loop runs exactly one Refresh and keeps the event |
| Button.HoldBounds | fivebyfive_scrolltext-quietaction.c:467-488 | A hold loop runs 1 to rep Refreshes, all rep when it ends without an event. It never clears an event. It uses a fixed number of reads per Refresh |
| Button.HoldSamples | fivebyfive_scrolltext-quietaction.c:467-488 | With the switch enabled, the hold loop leaves the detector as if it had run over the samples taken before each of its Refreshes |
| Button.HoldDisabled | fivebyfive_scrolltext-quietaction.c:470 | With the switch disabled, the detector is never touched: one Refresh if an event is pending, rep otherwise |
| Button.ColumnsAfterEvent | fivebyfive_scrolltext-quietaction.c:448-488 | Once an event is pending, every remaining column of the glyph gets exactly one Refresh |
| Frames.GroupBits | fivebyfive_scrolltext-quietaction.c:216-220 | The on-bit of each pixel of a group is bit 4-x of Disp[y] (mask 0x10 is x = 0); the RefreshCase lemmas give each case's literal masks |
| Frames.RefreshCase0 | fivebyfive_scrolltext-quietaction.c:214-240 | Case 0's on-bits are Disp[0] & 0x10, 0x08, 0x04, 0x02, 0x01, and its setpixel calls go to (0,0) (1,0) (2,0) (3,0) (4,0), in that order |
| Frames.RefreshCase1 | fivebyfive_scrolltext-quietaction.c:242-263 | Case 1's on-bits are Disp[1] & 0x08, 0x04, 0x02, 0x01, and its setpixel calls go to (1,1) (2,1) (3,1) (4,1), in that order |
| Frames.RefreshCase2 | fivebyfive_scrolltext-quietaction.c:265-286 | Case 2's on-bits are Disp[1] & 0x10, then Disp[2] & 0x04, 0x02, 0x01, and its setpixel calls go to (0,1) (2,2) (3,2) (4,2), in that order |
| Frames.RefreshCase3 | fivebyfive_scrolltext-quietaction.c:288-309 | Case 3's on-bits are Disp[2] & 0x10, 0x08, then Disp[3] & 0x02, 0x01, and its setpixel calls go to (0,2) (1,2) (3,3) (4,3), in that order |
| Frames.RefreshCase4 | fivebyfive_scrolltext-quietaction.c:311-332 | Case 4's on-bits are Disp[3] & 0x10, 0x08, 0x04, then Disp[4] & 0x01, and its setpixel calls go to (0,3) (1,3) (2,3) (4,4), in that order |
| Frames.RefreshCase5 | fivebyfive_scrolltext-quietaction.c:334-357 | Case 5's on-bits are Disp[4] & 0x10, 0x08, 0x04, 0x02, and its setpixel calls go to (0,4) (1,4) (2,4) (3,4), in that order |
| Frames.GroupFrameMeaning | fivebyfive_scrolltext-quietaction.c:214-357 | The frame of group g holds exactly the pixels that the table assigns to group g and that Disp switches on |
| Frames.RefreshShows | fivebyfive_scrolltext-quietaction.c:207-239 | Over one Refresh, a pixel is shown exactly when Disp switches it on and its group is not blanked. A group is blanked exactly when the switch is enabled and its second read is low |
| Frames.RefreshFramesDisjoint | fivebyfive_scrolltext-quietaction.c:210-357 | No pixel is lit in two different delays of one Refresh |
| Frames.HoldFrames | fivebyfive_scrolltext-quietaction.c:467-483 | A hold loop of count Refreshes shows 6*count frames |
| Frames.MainHold | fivebyfive_scrolltext-quietaction.c:467-488 | With main's rep of 35, a hold loop runs 1 to 35 Refreshes, exactly 35 when it ends without an event, and uses 13 reads per Refresh with the switch enabled |
| Frames.BlinkFramesAlternate | fivebyfive_scrolltext-quietaction.c:179-195 | blinkn(n) shows 2n frames, alternating LED6 alone and nothing, starting with LED6 |
| Firmware.Badge.constructor | fivebyfive_scrolltext-quietaction.c:647-661 | After avrinit, all lines are inputs with latches low. Disp, the glyph, the flags and len are zero |
| Firmware.Badge.ReadFLine | fivebyfive_scrolltext-quietaction.c:223 | input_test(F_LINE) returns the next input value and advances the read count by one |
| Firmware.Badge.Delay | fivebyfive_scrolltext-quietaction.c:153-176 | A delay changes no line and logs the set of LEDs visible at that moment |
| Firmware.Badge.SetPixel | fivebyfive_scrolltext-quietaction.c:502-639 | The new lines are SetPixelLines of the old lines, for the pixel x + 5y |
| Firmware.Badge.DriveHigh | fivebyfive_scrolltext-quietaction.c:516-578 | The high-line switch sets only line hi, as HighRole says, including the F case; a nibble above 5 changes nothing |
| Firmware.Badge.DriveLow | fivebyfive_scrolltext-quietaction.c:582-638 | The low-line switch sets only line lo, as LowRole says; F and nibbles above 5 change nothing |
| Firmware.Badge.SwitchGroup | fivebyfive_scrolltext-quietaction.c:228-239 | The guarded setpixel calls of one switch case, in order, give SwitchAll of the old lines |
| Firmware.Badge.RefreshGroup | fivebyfive_scrolltext-quietaction.c:214-240 | One switch case of Refresh starts and ends on idle lines. It consumes 2 reads (1 without blankEn). It logs the group's frame, or nothing when blanked |
| Firmware.Badge.Refresh | fivebyfive_scrolltext-quietaction.c:199-360 | Refresh returns the lines to idle and consumes 12 reads (6 with the switch disabled). It logs RefreshFrames. Disp and FLineEnabled are untouched |
| Firmware.Badge.LoadFontChar | fivebyfive_scrolltext-quietaction.c:437 | loadfontchar(c) sets FontChar to the glyph rows of c and FontWidth to its width |
| Firmware.Badge.ScrollColumn | fivebyfive_scrolltext-quietaction.c:449-464 | The row loop applies ShiftRow to every row of Disp and FontChar |
| Firmware.Badge.ShiftRowAt | fivebyfive_scrolltext-quietaction.c:450-463 | The row loop's body changes only row i, to ShiftRow of its old values |
| Firmware.Badge.BlinkOnce | fivebyfive_scrolltext-quietaction.c:190-193 | One blink, from idle lines, shows LED6 alone and then nothing, and ends on idle lines |
| Firmware.Badge.BlinkN | fivebyfive_scrolltext-quietaction.c:179-195 | blinkn(n) ends on idle lines and logs BlinkFrames(n) |
| Firmware.Badge.SelfTest | fivebyfive_scrolltext-quietaction.c:375-387 | A dummy read, then a real one. The switch is enabled exactly when the real read is high. LED6 blinks 4 times (enabled) or 3 times |
| Firmware.Badge.PollButton | fivebyfive_scrolltext-quietaction.c:470-481 | The button poll is one detector step on the next read when the switch is enabled, and does nothing otherwise |
| Firmware.Badge.HoldIteration | fivebyfive_scrolltext-quietaction.c:467-483 | One pass of the hold loop body: a poll, then one Refresh starting at the read after the poll |
| Firmware.Badge.Hold | fivebyfive_scrolltext-quietaction.c:467-488 | The hold loop with its early break reaches the detector state and read count of HoldFrom, and logs HoldLog |
| Firmware.Badge.Column | fivebyfive_scrolltext-quietaction.c:448-488 | One column: every row shifted, then one hold loop on the shifted display |
| Firmware.Badge.ScrollIn | fivebyfive_scrolltext-quietaction.c:448-489 | The width loop shifts every row width times (ShiftRowN), reaches the state of ColumnsFrom, and logs ColumnFrames |
| Firmware.Badge.ConsumeEvent | fivebyfive_scrolltext-quietaction.c:425-429 | A pending event toggles msgnum, resets len to 0 and clears the event; otherwise nothing changes. Two events restore msgnum |
| Firmware.Badge.LoadNext | fivebyfive_scrolltext-quietaction.c:435-443 | The character read is str[len] (the NUL past the end), its glyph is loaded, and len advances by NextPos, staying below strlength |
| Firmware.Badge.Step | fivebyfive_scrolltext-quietaction.c:422-490 | One pass of main's loop: toggle and restart on an event, load the character at the (restarted) position, advance it, and shift the glyph's width columns in. Ends in the detector state, read count and log of ColumnsFrom/ColumnFrames |

## Left out

- Busy-wait delays (`mydelay1`, `mydelay10`, `NOP`): timing only. A delay is modelled as a ghost step that logs which LEDs are lit.
- `avrinit`'s register writes and `cli`/`sei`: only the resulting idle lines are modelled (PORTB = DDRB = 0).
- `start_timer1` and the timer ISR: they sit under `#ifdef NOTDEF` and are not compiled.
- `loadfontchar`, `FontChar`'s and `FontWidth`'s definitions: the font files are not part of this model. The glyph rows and widths are constructor parameters, and FontChar starts at zero.
- The pin macros of `fivebyfive_iodefs.h`: that header is not part of this model. A line is a (direction, latch) pair, and reads come from a supplied input stream.
- Electrical behaviour, such as reading line F while it is being driven, is out of scope: every read is an arbitrary input value.
- The infinite `while (1)` loop: modelled as one pass, `Step`. Repeated passes are repeated calls.
- `msgnum` is toggled but never read in this file. Only the one string `str` is shown.
- The string literal itself: `str` is a constructor parameter without NUL bytes, and `strlength` is its length mod 256.
- Refresh's six unrolled switch cases: modelled as one table-driven case over `Groups`, transcribed from cases 0-5. `RefreshCase0` to `RefreshCase5` state, for each case, the literal masks of `Disp` the model reads and the setpixel coordinates it calls, in order.
- Firmware.Badge.Step: takes main's `rep` as a parameter and is stated for any value, not only for main's constant 35 (`Frames.Rep`); `Frames.MainHold` states the hold loop's bounds at 35.
- The end-to-end scenario of a two-character message scrolled with a hold count of 1 is not stated as a lemma.
