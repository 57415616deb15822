/** The push-button edge detector of the scroll loop and the hold loop that
    interleaves it with display refreshes. The button shares line F and is
    active low: a read of 0 means pressed. */
module Button {

  /** prevbuttonpress and buttonevent. */
  datatype Button = Button(prev: bool, event: bool)

  /** One sample of line F: pressed is the read being low; the event is set
      on a not-pressed to pressed transition and otherwise kept; the new
      sample becomes the previous one. */
  function Sample(b: Button, level: bool): Button
  {
    var pressed := !level;
    Button(pressed, b.event || (!b.prev && pressed))
  }

  /** Samples are taken only while line F is usable as a switch. */
  function Poll(enabled: bool, b: Button, level: bool): Button
  {
    if enabled then Sample(b, level) else b
  }

  /** The detector run over a sequence of samples, oldest first. */
  function SampleAll(b: Button, levels: seq<bool>): Button
    decreases |levels|
  {
    if |levels| == 0 then b
    else Sample(SampleAll(b, levels[..|levels| - 1]), levels[|levels| - 1])
  }

  /** Sample i is a press (read low) that follows a sample that was not a
      press; before the first sample, prev tells. */
  predicate RisingAt(prev: bool, levels: seq<bool>, i: nat)
    requires i < |levels|
  {
    !levels[i] && (if i == 0 then !prev else levels[i - 1])
  }

  /** The detector remembers the last sample, and its event is pending
      exactly when it was pending before or some sample is a new press. */
  lemma {:induction false} SampleAllMeaning(b: Button, levels: seq<bool>)
    ensures SampleAll(b, levels).prev == (if |levels| == 0 then b.prev else !levels[|levels| - 1])
    ensures SampleAll(b, levels).event <==>
      b.event || exists i :: 0 <= i < |levels| && RisingAt(b.prev, levels, i)
    decreases |levels|
  {
    if |levels| > 0 {
      var last := |levels| - 1;
      var init := levels[..last];
      SampleAllMeaning(b, init);
      forall i | 0 <= i < last
        ensures RisingAt(b.prev, init, i) == RisingAt(b.prev, levels, i)
      {
      }
      if exists i :: 0 <= i < |levels| && RisingAt(b.prev, levels, i) {
        var i :| 0 <= i < |levels| && RisingAt(b.prev, levels, i);
        if i < last {
          assert RisingAt(b.prev, init, i);
        }
      }
      var before := SampleAll(b, init);
      assert (!before.prev && !levels[last]) == RisingAt(b.prev, levels, last);
      if exists i :: 0 <= i < last && RisingAt(b.prev, init, i) {
        var i :| 0 <= i < last && RisingAt(b.prev, init, i);
        assert RisingAt(b.prev, levels, i);
      }
    }
  }

  /** The samples at which a new press is seen. */
  function RisingEdges(prev: bool, levels: seq<bool>): set<nat>
  {
    set i | 0 <= i < |levels| && RisingAt(prev, levels, i)
  }

  function Repeat(b: bool, n: nat): (r: seq<bool>)
    ensures |r| == n && forall i :: 0 <= i < n ==> r[i] == b
  {
    seq(n, _ => b)
  }

  /** Released for a samples, held for h >= 1 samples, released again for r
      samples: the detector sees exactly one new press, at the first held
      sample; holding the button does not fire again. */
  lemma PressAndHoldFiresOnce(a: nat, h: nat, r: nat)
    requires h >= 1
    ensures RisingEdges(false, Repeat(true, a) + Repeat(false, h) + Repeat(true, r)) == {a}
  {
    var levels := Repeat(true, a) + Repeat(false, h) + Repeat(true, r);
    assert forall i :: 0 <= i < a ==> levels[i];
    assert forall i :: a <= i < a + h ==> !levels[i];
    assert forall i :: a + h <= i < |levels| ==> levels[i];
    assert RisingAt(false, levels, a);
  }

  /** The sample sequence 1,1,0,0,0,1,1 records one event, at sample 2. */
  lemma HeldPressExample()
    ensures RisingEdges(false, [true, true, false, false, false, true, true]) == {2}
    ensures SampleAll(Button(false, false), [true, true, false, false, false, true, true]) == Button(false, true)
  {
    assert [true, true, false, false, false, true, true] == Repeat(true, 2) + Repeat(false, 3) + Repeat(true, 2);
    PressAndHoldFiresOnce(2, 3, 2);
    SampleAllMeaning(Button(false, false), [true, true, false, false, false, true, true]);
    assert RisingAt(false, [true, true, false, false, false, true, true], 2);
  }

  /** Number of F_LINE reads one Refresh makes: a discarded read per group,
      plus the blanking read when the switch is enabled. */
  function RefreshReads(enabled: bool): nat
  {
    if enabled then 12 else 6
  }

  /** The result of a hold loop: detector state, Refresh calls made, and the
      index of the next F_LINE read. */
  datatype HoldResult = HoldResult(button: Button, refreshes: nat, pos: nat)

  /** The hold loop with `left` iterations to go: poll the button (when
      enabled), Refresh, and stop early once an event is pending. */
  function HoldFrom(enabled: bool, b: Button, levels: nat -> bool, pos: nat, left: nat): HoldResult
    decreases left
  {
    if left == 0 then HoldResult(b, 0, pos)
    else
      var b' := Poll(enabled, b, levels(pos));
      var pos' := pos + (if enabled then 1 else 0) + RefreshReads(enabled);
      if b'.event then HoldResult(b', 1, pos')
      else
        var r := HoldFrom(enabled, b', levels, pos', left - 1);
        HoldResult(r.button, r.refreshes + 1, r.pos)
  }

  /** A pending event makes the hold loop run exactly one Refresh. */
  lemma HoldPendingRunsOnce(enabled: bool, b: Button, levels: nat -> bool, pos: nat, left: nat)
    requires b.event && left >= 1
    ensures HoldFrom(enabled, b, levels, pos, left).refreshes == 1
    ensures HoldFrom(enabled, b, levels, pos, left).button.event
  {
  }

  /** The hold loop runs between 1 and `left` Refreshes, runs all of them
      when it ends without a pending event, never clears a pending event,
      and consumes a fixed number of reads per Refresh. */
  lemma {:induction false} HoldBounds(enabled: bool, b: Button, levels: nat -> bool, pos: nat, left: nat)
    requires left >= 1
    ensures var r := HoldFrom(enabled, b, levels, pos, left);
      && 1 <= r.refreshes <= left
      && (!r.button.event ==> r.refreshes == left)
      && (b.event ==> r.button.event)
      && r.pos == pos + r.refreshes * ((if enabled then 1 else 0) + RefreshReads(enabled))
    decreases left
  {
    var b' := Poll(enabled, b, levels(pos));
    var pos' := pos + (if enabled then 1 else 0) + RefreshReads(enabled);
    if !b'.event && left > 1 {
      HoldBounds(enabled, b', levels, pos', left - 1);
    }
  }

  /** The samples a hold loop reads: one before each Refresh, 13 reads apart. */
  function HoldLevels(levels: nat -> bool, pos: nat, count: nat): (r: seq<bool>)
    ensures |r| == count
  {
    seq(count, k requires 0 <= k => levels(pos + 13 * k))
  }

  /** With the switch enabled, the hold loop leaves the detector as if it had
      run over the samples taken before each of its Refreshes. */
  lemma {:induction false} HoldSamples(b: Button, levels: nat -> bool, pos: nat, left: nat)
    ensures var r := HoldFrom(true, b, levels, pos, left);
      r.button == SampleAll(b, HoldLevels(levels, pos, r.refreshes))
    decreases left
  {
    var r := HoldFrom(true, b, levels, pos, left);
    if left > 0 {
      var b' := Sample(b, levels(pos));
      assert HoldLevels(levels, pos, 1) == [levels(pos)];
      if !b'.event {
        HoldSamples(b', levels, pos + 13, left - 1);
        var rest := HoldFrom(true, b', levels, pos + 13, left - 1);
        SampleAllCons(b, levels(pos), HoldLevels(levels, pos + 13, rest.refreshes));
        assert [levels(pos)] + HoldLevels(levels, pos + 13, rest.refreshes) ==
          HoldLevels(levels, pos, rest.refreshes + 1);
      }
    }
  }

  lemma {:induction false} SampleAllCons(b: Button, level: bool, levels: seq<bool>)
    ensures SampleAll(b, [level] + levels) == SampleAll(Sample(b, level), levels)
    decreases |levels|
  {
    if |levels| > 0 {
      var last := |levels| - 1;
      assert ([level] + levels)[..|levels|] == [level] + levels[..last];
      SampleAllCons(b, level, levels[..last]);
    }
  }

  /** With the switch disabled, the detector is never touched: a pending
      event is kept (one Refresh) and none appears (full hold). */
  lemma {:induction false} HoldDisabled(b: Button, levels: nat -> bool, pos: nat, left: nat)
    requires left >= 1
    ensures var r := HoldFrom(false, b, levels, pos, left);
      r.button == b && r.refreshes == (if b.event then 1 else left) && r.pos == pos + 6 * r.refreshes
    decreases left
  {
    if !b.event && left > 1 {
      HoldDisabled(b, levels, pos + 6, left - 1);
    }
  }

  /** The hold loops of `cols` successive columns. */
  function ColumnsFrom(enabled: bool, b: Button, levels: nat -> bool, pos: nat, rep: nat, cols: nat): HoldResult
    decreases cols
  {
    if cols == 0 then HoldResult(b, 0, pos)
    else
      var h := HoldFrom(enabled, b, levels, pos, rep);
      var r := ColumnsFrom(enabled, h.button, levels, h.pos, rep, cols - 1);
      HoldResult(r.button, h.refreshes + r.refreshes, r.pos)
  }

  /** Once an event is pending, every remaining column gets a single
      Refresh: the event is acted on only when the next character loads. */
  lemma {:induction false} ColumnsAfterEvent(enabled: bool, b: Button, levels: nat -> bool, pos: nat, rep: nat, cols: nat)
    requires b.event && rep >= 1
    ensures ColumnsFrom(enabled, b, levels, pos, rep, cols).refreshes == cols
    ensures ColumnsFrom(enabled, b, levels, pos, rep, cols).button.event
    decreases cols
  {
    if cols > 0 {
      HoldPendingRunsOnce(enabled, b, levels, pos, rep);
      var h := HoldFrom(enabled, b, levels, pos, rep);
      ColumnsAfterEvent(enabled, h.button, levels, h.pos, rep, cols - 1);
    }
  }
}
