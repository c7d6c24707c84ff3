/** The state machine of `Button_Update` as a pure function of the button's
    timing state, its latches, the stage table, the pressed level and the
    current tick; and what it guarantees over a run of polls. */
module ButtonFsm {
  import opened ButtonTypes
  import opened Stages

  /** The part of a button that one poll may change: the raw stored state
      value, the three tick marks and the contents of the stage latches. */
  datatype Snapshot = Snapshot(
    state: nat,
    lastChange: Tick,
    pressStart: Tick,
    lastHold: Tick,
    latches: seq<bool>)

  /** The state after one poll and the events it emits, in emission order. */
  datatype Outcome = Outcome(next: Snapshot, emitted: seq<Event>)

  /** What the registered callback receives: every emitted event when a
      callback is registered, nothing otherwise. */
  function Dispatch(hasCallback: bool, emitted: seq<Event>): (delivered: seq<Event>)
    ensures hasCallback ==> delivered == emitted
    ensures !hasCallback ==> delivered == []
  {
    if hasCallback then emitted else []
  }

  function Enter(s: Snapshot, st: State): Snapshot {
    s.(state := StateCode(st))
  }

  /** IDLE: a press starts the debounce window. */
  function IdleStep(s: Snapshot, pressed: bool, now: Tick): (o: Outcome)
    ensures o.emitted == []
    ensures o.next.pressStart == s.pressStart && o.next.lastHold == s.lastHold && o.next.latches == s.latches
    ensures o.next != s ==> pressed && InState(o.next, Debounce) && o.next.lastChange == now
  {
    if pressed then Outcome(Enter(s, Debounce).(lastChange := now), [])
    else Outcome(s, [])
  }

  /** DEBOUNCE: nothing happens inside the window, whatever the level; at its
      end the level decides between PRESSED and IDLE. */
  function DebounceStep(s: Snapshot, pressed: bool, now: Tick): (o: Outcome)
    ensures Elapsed(now, s.lastChange) < DebounceTicks ==> o == Outcome(s, [])
    ensures o.emitted == [] || (o.emitted == [Pressed] && pressed && InState(o.next, PressedState))
    ensures o.emitted == [Pressed] ==> o.next.lastChange == now
    ensures o.next.pressStart == s.pressStart && o.next.lastHold == s.lastHold && o.next.latches == s.latches
  {
    if Elapsed(now, s.lastChange) >= DebounceTicks then
      if pressed then Outcome(Enter(s, PressedState).(lastChange := now), [Pressed])
      else Outcome(Enter(s, Idle), [])
    else Outcome(s, [])
  }

  /** PRESSED: a release ends the press; holding long enough enters
      LONG_PRESSED and restarts all three tick marks. */
  function PressedStep(s: Snapshot, pressed: bool, now: Tick): (o: Outcome)
    ensures o.next.latches == s.latches
    ensures o.emitted == [Released] <==> !pressed
    ensures o.emitted == [] ==> o.next == s
    ensures o.emitted == [] || o.emitted == [Released] || o.emitted == [LongPressed]
    ensures o.emitted == [LongPressed] ==>
      InState(o.next, LongPressedState) && o.next.lastChange == now && o.next.pressStart == now && o.next.lastHold == now
  {
    if !pressed then Outcome(Enter(s, Idle), [Released])
    else if Elapsed(now, s.lastChange) >= LongPressTicks then
      Outcome(Enter(s, LongPressedState).(lastChange := now, pressStart := now, lastHold := now), [LongPressed])
    else Outcome(s, [])
  }

  /** Whether the repeating HOLD pulse is due: the hold, measured from
      long-press entry, has reached the long-press time and a hold period has
      passed since the last pulse. */
  predicate HoldDue(s: Snapshot, now: Tick): (due: bool)
    ensures due ==> now != s.lastHold && now != s.pressStart
  {
    Elapsed(now, s.pressStart) >= LongPressTicks && Elapsed(now, s.lastHold) >= HoldTicks
  }

  /** LONG_PRESSED: a release clears every latch; while held, the stage table
      is scanned and then the HOLD pulse is considered. */
  function LongStep(s: Snapshot, configs: seq<StageConfig>, pressed: bool, now: Tick): (o: Outcome)
    requires |s.latches| == |configs|
    ensures |o.next.latches| == |s.latches|
    ensures o.next.lastChange == s.lastChange && o.next.pressStart == s.pressStart
    ensures !pressed ==> o.emitted == [Released] && InState(o.next, Idle) && o.next.lastHold == s.lastHold
    ensures !pressed ==> forall j :: 0 <= j < |o.next.latches| ==> !o.next.latches[j]
    ensures pressed ==> o.next.state == s.state && |o.emitted| <= |configs| + 1
    ensures pressed ==> forall j :: 0 <= j < |s.latches| ==> s.latches[j] ==> o.next.latches[j]
  {
    if !pressed then
      Outcome(Enter(s, Idle).(latches := seq(|s.latches|, _ => false)), [Released])
    else
      var held := Elapsed(now, s.pressStart);
      var scanned := s.(latches := Latched(configs, s.latches, held));
      var stageEvents := Fired(configs, s.latches, held, |configs|);
      if HoldDue(s, now) then Outcome(scanned.(lastHold := now), stageEvents + [Hold])
      else Outcome(scanned, stageEvents)
  }

  /** One poll of the state machine; a corrupted state value resets to IDLE. */
  function Step(s: Snapshot, configs: seq<StageConfig>, pressed: bool, now: Tick): (o: Outcome)
    requires |s.latches| == |configs|
    ensures |o.next.latches| == |s.latches|
    ensures DecodeState(o.next.state).Some?
    ensures |o.emitted| <= |configs| + 1
  {
    match DecodeState(s.state)
    case None => Outcome(Enter(s, Idle), [])
    case Some(Idle) => IdleStep(s, pressed, now)
    case Some(Debounce) => DebounceStep(s, pressed, now)
    case Some(PressedState) => PressedStep(s, pressed, now)
    case Some(LongPressedState) => LongStep(s, configs, pressed, now)
  }

  predicate InState(s: Snapshot, st: State) {
    s.state == StateCode(st)
  }

  /* ---------------- Properties of one poll ---------------- */

  /** A stored value outside the four states is reset to IDLE, silently. */
  lemma CorruptStateResets(s: Snapshot, configs: seq<StageConfig>, pressed: bool, now: Tick)
    requires |s.latches| == |configs|
    requires s.state >= 4
    ensures Step(s, configs, pressed, now) == Outcome(s.(state := 0), [])
  {
  }

  /** IDLE moves to DEBOUNCE, marking the press, exactly when pressed. */
  lemma IdleBehaviour(s: Snapshot, configs: seq<StageConfig>, pressed: bool, now: Tick)
    requires |s.latches| == |configs| && InState(s, Idle)
    ensures var o := Step(s, configs, pressed, now);
      o.emitted == [] &&
      (pressed ==> o.next == s.(state := StateCode(Debounce), lastChange := now)) &&
      (!pressed ==> o.next == s)
  {
  }

  /** DEBOUNCE waits while less than the debounce time has elapsed, ignoring
      the level; from the boundary on (inclusive) it emits PRESSED exactly
      when pressed, and otherwise drops back to IDLE silently. */
  lemma DebounceBehaviour(s: Snapshot, configs: seq<StageConfig>, pressed: bool, now: Tick)
    requires |s.latches| == |configs| && InState(s, Debounce)
    ensures var o := Step(s, configs, pressed, now);
      var waited := Elapsed(now, s.lastChange);
      (waited < DebounceTicks ==> o == Outcome(s, [])) &&
      (waited >= DebounceTicks && pressed ==>
         o == Outcome(s.(state := StateCode(PressedState), lastChange := now), [Pressed])) &&
      (waited >= DebounceTicks && !pressed ==> o == Outcome(s.(state := StateCode(Idle)), []))
  {
  }

  /** PRESSED: a release emits exactly RELEASED and keeps the tick marks;
      holding for the long-press time (inclusive) emits exactly LONG_PRESSED
      and sets all three marks to now; otherwise nothing changes. */
  lemma PressedBehaviour(s: Snapshot, configs: seq<StageConfig>, pressed: bool, now: Tick)
    requires |s.latches| == |configs| && InState(s, PressedState)
    ensures var o := Step(s, configs, pressed, now);
      (!pressed ==> o == Outcome(s.(state := StateCode(Idle)), [Released])) &&
      (pressed && Elapsed(now, s.lastChange) >= LongPressTicks ==>
         o == Outcome(Snapshot(StateCode(LongPressedState), now, now, now, s.latches), [LongPressed])) &&
      (pressed && Elapsed(now, s.lastChange) < LongPressTicks ==> o == Outcome(s, []))
  {
  }

  /** Releasing a long press returns to IDLE, opens every latch and emits
      exactly one RELEASED, with no stage or HOLD events. */
  lemma LongReleaseClearsLatches(s: Snapshot, configs: seq<StageConfig>, now: Tick)
    requires |s.latches| == |configs| && InState(s, LongPressedState)
    ensures var o := Step(s, configs, false, now);
      InState(o.next, Idle) && o.emitted == [Released] &&
      (forall j :: 0 <= j < |o.next.latches| ==> !o.next.latches[j]) &&
      o.next.lastChange == s.lastChange && o.next.pressStart == s.pressStart && o.next.lastHold == s.lastHold
  {
  }

  /** While a long press is held: the state, the entry mark and the last
      change stay; latches only close; the stage events come first, in table
      order, and at most one HOLD follows them, only when due, moving the
      hold mark to now. */
  lemma LongHeldBehaviour(s: Snapshot, configs: seq<StageConfig>, now: Tick)
    requires |s.latches| == |configs| && InState(s, LongPressedState)
    ensures var o := Step(s, configs, true, now);
      var held := Elapsed(now, s.pressStart);
      var stageEvents := Fired(configs, s.latches, held, |configs|);
      InState(o.next, LongPressedState) &&
      o.next.pressStart == s.pressStart && o.next.lastChange == s.lastChange &&
      (forall j :: 0 <= j < |s.latches| ==> s.latches[j] ==> o.next.latches[j]) &&
      o.emitted[..|stageEvents|] == stageEvents &&
      (HoldDue(s, now) ==> o.emitted == stageEvents + [Hold] && o.next.lastHold == now && held >= LongPressTicks) &&
      (!HoldDue(s, now) ==> o.emitted == stageEvents && o.next.lastHold == s.lastHold)
  {
  }

  /* ---------------- Runs of polls ---------------- */

  /** One poll's inputs: the level already mapped through the polarity, and the tick. */
  datatype Sample = Sample(pressed: bool, now: Tick)

  /** The snapshots a run of polls passes through, starting with `s`. */
  function Trace(s: Snapshot, configs: seq<StageConfig>, samples: seq<Sample>): (t: seq<Snapshot>)
    requires |s.latches| == |configs|
    ensures |t| == |samples| + 1 && t[0] == s
    ensures forall i :: 0 <= i < |t| ==> |t[i].latches| == |configs|
    decreases |samples|
  {
    if samples == [] then [s]
    else [s] + Trace(Step(s, configs, samples[0].pressed, samples[0].now).next, configs, samples[1..])
  }

  /** Each snapshot of a run is what one poll makes of the snapshot before it. */
  lemma {:induction false} TraceStep(s: Snapshot, configs: seq<StageConfig>, samples: seq<Sample>, i: nat)
    requires |s.latches| == |configs| && i < |samples|
    ensures var t := Trace(s, configs, samples);
      t[i + 1] == Step(t[i], configs, samples[i].pressed, samples[i].now).next
    decreases i
  {
    if i > 0 {
      var next := Step(s, configs, samples[0].pressed, samples[0].now).next;
      TraceStep(next, configs, samples[1..], i - 1);
      assert samples[1..][i - 1] == samples[i];
    }
  }

  /** All events of a run, in order. */
  function RunEvents(s: Snapshot, configs: seq<StageConfig>, samples: seq<Sample>): (r: seq<Event>)
    requires |s.latches| == |configs|
    ensures |r| <= |samples| * (|configs| + 1)
    decreases |samples|
  {
    if samples == [] then []
    else
      var o := Step(s, configs, samples[0].pressed, samples[0].now);
      var rest := RunEvents(o.next, configs, samples[1..]);
      assert |samples| * (|configs| + 1) == (|configs| + 1) + (|samples| - 1) * (|configs| + 1);
      o.emitted + rest
  }

  predicate AllHeld(samples: seq<Sample>) {
    forall i :: 0 <= i < |samples| ==> samples[i].pressed
  }

  /** While a long press is held it stays a long press measured from the same
      entry tick, and every HOLD pulse comes at least the long-press time after
      that entry: the first HOLD follows LONG_PRESSED by 1000 ticks, not by one
      hold period. */
  lemma {:induction false} HoldAnchoredToEntry(s: Snapshot, configs: seq<StageConfig>, samples: seq<Sample>, i: nat)
    requires |s.latches| == |configs| && InState(s, LongPressedState)
    requires AllHeld(samples) && i <= |samples|
    ensures var t := Trace(s, configs, samples);
      InState(t[i], LongPressedState) && t[i].pressStart == s.pressStart &&
      (i < |samples| && HoldDue(t[i], samples[i].now) ==> Elapsed(samples[i].now, s.pressStart) >= LongPressTicks)
  {
    var t := Trace(s, configs, samples);
    if i > 0 {
      HoldAnchoredToEntry(s, configs, samples, i - 1);
      TraceStep(s, configs, samples, i - 1);
      LongHeldBehaviour(t[i - 1], configs, samples[i - 1].now);
    }
  }

  /** One held poll of a long-press run, seen from the trace: the state and
      the entry mark stay, latches only close, a firing stage's latch closes,
      and the hold mark moves to the poll's tick exactly when a HOLD is due. */
  lemma HeldPoll(s: Snapshot, configs: seq<StageConfig>, samples: seq<Sample>, m: nat)
    requires |s.latches| == |configs| && InState(s, LongPressedState)
    requires AllHeld(samples) && m < |samples|
    ensures var t := Trace(s, configs, samples);
      var held := Elapsed(samples[m].now, t[m].pressStart);
      InState(t[m + 1], LongPressedState) && t[m + 1].pressStart == s.pressStart &&
      (forall j :: 0 <= j < |configs| ==> t[m].latches[j] || Fires(configs[j], t[m].latches[j], held) ==> t[m + 1].latches[j]) &&
      (HoldDue(t[m], samples[m].now) ==> t[m + 1].lastHold == samples[m].now) &&
      (!HoldDue(t[m], samples[m].now) ==> t[m + 1].lastHold == t[m].lastHold)
  {
    var t := Trace(s, configs, samples);
    HoldAnchoredToEntry(s, configs, samples, m);
    TraceStep(s, configs, samples, m);
    LongHeldBehaviour(t[m], configs, samples[m].now);
  }

  /** Within one held long press every stage fires at most once: a stage that
      fires at poll `i` does not fire at any later poll `k`. */
  lemma {:induction false} StageFiresOnce(s: Snapshot, configs: seq<StageConfig>, samples: seq<Sample>, j: nat, i: nat, k: nat)
    requires |s.latches| == |configs| && InState(s, LongPressedState)
    requires AllHeld(samples) && j < |configs| && i < k < |samples|
    ensures var t := Trace(s, configs, samples);
      Fires(configs[j], t[i].latches[j], Elapsed(samples[i].now, t[i].pressStart)) ==>
      !Fires(configs[j], t[k].latches[j], Elapsed(samples[k].now, t[k].pressStart))
  {
    var t := Trace(s, configs, samples);
    if Fires(configs[j], t[i].latches[j], Elapsed(samples[i].now, t[i].pressStart)) {
      LatchStaysClosed(s, configs, samples, j, i, k);
    }
  }

  /** Once a stage's latch has closed during a held long press, it stays closed. */
  lemma {:induction false} LatchStaysClosed(s: Snapshot, configs: seq<StageConfig>, samples: seq<Sample>, j: nat, i: nat, k: nat)
    requires |s.latches| == |configs| && InState(s, LongPressedState)
    requires AllHeld(samples) && j < |configs| && i < k <= |samples|
    requires var t := Trace(s, configs, samples);
      Fires(configs[j], t[i].latches[j], Elapsed(samples[i].now, t[i].pressStart))
    ensures Trace(s, configs, samples)[k].latches[j]
    decreases k
  {
    HeldPoll(s, configs, samples, k - 1);
    if k - 1 > i {
      LatchStaysClosed(s, configs, samples, j, i, k - 1);
    }
  }

  /** After a HOLD pulse at poll `i`, the hold mark is that poll's tick until
      the next pulse. */
  lemma {:induction false} HoldMarkAfterPulse(s: Snapshot, configs: seq<StageConfig>, samples: seq<Sample>, i: nat, k: nat)
    requires |s.latches| == |configs| && InState(s, LongPressedState)
    requires AllHeld(samples) && i < k <= |samples|
    requires var t := Trace(s, configs, samples);
      HoldDue(t[i], samples[i].now) &&
      forall m :: i < m < k ==> !HoldDue(t[m], samples[m].now)
    ensures Trace(s, configs, samples)[k].lastHold == samples[i].now
    decreases k
  {
    HeldPoll(s, configs, samples, k - 1);
    if k - 1 > i {
      HoldMarkAfterPulse(s, configs, samples, i, k - 1);
    }
  }

  /** HOLD repeats with a period of at least the hold time: between two
      consecutive pulses of a held long press at least `HoldTicks` elapse. */
  lemma HoldSpacing(s: Snapshot, configs: seq<StageConfig>, samples: seq<Sample>, i: nat, k: nat)
    requires |s.latches| == |configs| && InState(s, LongPressedState)
    requires AllHeld(samples) && i < k < |samples|
    requires var t := Trace(s, configs, samples);
      HoldDue(t[i], samples[i].now) &&
      HoldDue(t[k], samples[k].now) &&
      forall m :: i < m < k ==> !HoldDue(t[m], samples[m].now)
    ensures Elapsed(samples[k].now, samples[i].now) >= HoldTicks
  {
    HoldMarkAfterPulse(s, configs, samples, i, k);
  }

  /** Debounce rejects a glitch: polls within the debounce window of the
      press, then a release seen at or after the window's end, bring the
      button back to IDLE without emitting anything. */
  lemma {:induction false} GlitchRejected(s: Snapshot, configs: seq<StageConfig>, samples: seq<Sample>)
    requires |s.latches| == |configs| && InState(s, Debounce)
    requires |samples| > 0
    requires forall i :: 0 <= i < |samples| - 1 ==> Elapsed(samples[i].now, s.lastChange) < DebounceTicks
    requires !samples[|samples| - 1].pressed
    requires Elapsed(samples[|samples| - 1].now, s.lastChange) >= DebounceTicks
    ensures InState(Trace(s, configs, samples)[|samples|], Idle)
    ensures RunEvents(s, configs, samples) == []
    decreases |samples|
  {
    var o := Step(s, configs, samples[0].pressed, samples[0].now);
    if |samples| > 1 {
      assert o == Outcome(s, []);
      GlitchRejected(s, configs, samples[1..]);
      assert Trace(s, configs, samples)[|samples|] == Trace(s, configs, samples[1..])[|samples| - 1];
    }
  }

  /** The table, start state and polls of the concrete run below. */
  function ScenarioStages(): seq<StageConfig> {
    [StageConfig(2000, Custom(1)), StageConfig(3000, Custom(2))]
  }

  function ScenarioSamples(): seq<Sample> {
    [Sample(true, 0), Sample(true, 50), Sample(true, 1050), Sample(true, 1100),
     Sample(true, 2050), Sample(true, 3050), Sample(true, 4050), Sample(false, 5000)]
  }

  function ScenarioTrace(): seq<Snapshot> {
    var s3 := Snapshot(StateCode(LongPressedState), 1050, 1050, 1050, [false, false]);
    [Snapshot(StateCode(Idle), 0, 0, 0, [false, false]),
     Snapshot(StateCode(Debounce), 0, 0, 0, [false, false]),
     Snapshot(StateCode(PressedState), 50, 0, 0, [false, false]),
     s3,
     s3,
     s3.(lastHold := 2050),
     Snapshot(StateCode(LongPressedState), 1050, 1050, 3050, [true, false]),
     Snapshot(StateCode(LongPressedState), 1050, 1050, 4050, [true, true]),
     Snapshot(StateCode(Idle), 1050, 1050, 4050, [false, false])]
  }

  function ScenarioEvents(): seq<seq<Event>> {
    [[], [Pressed], [LongPressed], [], [Hold], [Custom(1), Hold], [Custom(2), Hold], [Released]]
  }

  /** Each poll of the concrete run, one at a time. */
  lemma ScenarioSteps(i: nat)
    requires i < 8
    ensures Step(ScenarioTrace()[i], ScenarioStages(), ScenarioSamples()[i].pressed, ScenarioSamples()[i].now)
            == Outcome(ScenarioTrace()[i + 1], ScenarioEvents()[i])
  {
    var configs := ScenarioStages();
    var t := ScenarioTrace();
    if i == 3 {
      assert Fired(configs, t[3].latches, 50, 2) == [];
    } else if i == 4 {
      assert Fired(configs, t[4].latches, 1000, 2) == [];
    } else if i == 5 {
      assert Fired(configs, t[5].latches, 2000, 1) == [Custom(1)];
      assert Fired(configs, t[5].latches, 2000, 2) == [Custom(1)];
      assert Latched(configs, t[5].latches, 2000) == [true, false];
    } else if i == 6 {
      assert Fired(configs, t[6].latches, 3000, 1) == [];
      assert Fired(configs, t[6].latches, 3000, 2) == [Custom(2)];
      assert Latched(configs, t[6].latches, 3000) == [true, true];
    }
  }

  /** The events of the concrete run from poll `k` on, and the snapshot it ends in. */
  lemma {:induction false} ScenarioFrom(k: nat)
    requires k <= 8
    ensures |ScenarioTrace()[k].latches| == 2
    ensures RunEvents(ScenarioTrace()[k], ScenarioStages(), ScenarioSamples()[k..])
            == Flatten(ScenarioEvents()[k..])
    ensures Trace(ScenarioTrace()[k], ScenarioStages(), ScenarioSamples()[k..])[8 - k] == ScenarioTrace()[8]
    decreases 8 - k
  {
    if k < 8 {
      ScenarioSteps(k);
      ScenarioFrom(k + 1);
      assert ScenarioSamples()[k..][1..] == ScenarioSamples()[k + 1..];
      assert ScenarioEvents()[k..][1..] == ScenarioEvents()[k + 1..];
    }
  }

  /** Concatenation of the per-poll event lists of a run. */
  function Flatten(parts: seq<seq<Event>>): seq<Event> {
    if parts == [] then [] else parts[0] + Flatten(parts[1..])
  }

  /** The per-poll events of the concrete run, concatenated. */
  lemma ScenarioFlatten()
    ensures Flatten(ScenarioEvents()) == [Pressed, LongPressed, Hold, Custom(1), Hold, Custom(2), Hold, Released]
  {
    var e := ScenarioEvents();
    assert e[7..][1..] == [];
    assert Flatten(e[7..]) == [Released];
    assert e[6..][1..] == e[7..];
    assert Flatten(e[6..]) == [Custom(2), Hold, Released];
    assert e[5..][1..] == e[6..];
    assert Flatten(e[5..]) == [Custom(1), Hold, Custom(2), Hold, Released];
    assert e[4..][1..] == e[5..];
    assert Flatten(e[4..]) == [Hold, Custom(1), Hold, Custom(2), Hold, Released];
    assert e[3..][1..] == e[4..];
    assert Flatten(e[3..]) == [Hold, Custom(1), Hold, Custom(2), Hold, Released];
    assert e[2..][1..] == e[3..];
    assert Flatten(e[2..]) == [LongPressed, Hold, Custom(1), Hold, Custom(2), Hold, Released];
    assert e[1..][1..] == e[2..];
    assert Flatten(e[1..]) == [Pressed, LongPressed, Hold, Custom(1), Hold, Custom(2), Hold, Released];
    assert e[1..] == e[0..][1..];
  }

  /** A concrete run with stages at 2000 and 3000 ticks, held from tick 0 and
      released at tick 5000. PRESSED comes at 50 and LONG_PRESSED at 1050;
      stage thresholds count from 1050, so the stages fire at 3050 and 4050;
      no HOLD is due at 1100, and the first HOLD comes at 2050. The release
      emits RELEASED and opens both latches. */
  lemma Scenario()
    ensures RunEvents(ScenarioTrace()[0], ScenarioStages(), ScenarioSamples())
            == [Pressed, LongPressed, Hold, Custom(1), Hold, Custom(2), Hold, Released]
    ensures Trace(ScenarioTrace()[0], ScenarioStages(), ScenarioSamples())[8]
            == Snapshot(StateCode(Idle), 1050, 1050, 4050, [false, false])
  {
    var samples, events := ScenarioSamples(), ScenarioEvents();
    assert samples[0..] == samples;
    assert events[0..] == events;
    ScenarioFrom(0);
    ScenarioFlatten();
  }
}
