/** The driver object and its public operations (`button_static.c`). A
    button's fields are updated in place; each operation first validates its
    arguments and changes nothing when it rejects them. The pin reader, the
    tick source and the callback are reduced to whether they are set: the
    level a poll reads and the tick it takes are parameters of `Update`, and
    the events handed to the callback are its result. */
module ButtonDriver {
  import opened ButtonTypes
  import opened Stages
  import opened ButtonFsm

  /** The fields of a button that polling never changes. */
  datatype Settings = Settings(
    activeLevel: ActiveLevel,
    hasReader: bool,
    hasTick: bool,
    hasCallback: bool,
    configs: seq<StageConfig>,
    latches: array?<bool>)

  class Button {
    /** Raw value of the state field; values other than the four states are corrupt. */
    var lastState: nat
    var lastChange: Tick
    var pressStart: Tick
    var lastHold: Tick
    var activeLevel: ActiveLevel
    /** Whether the pin-reader and tick-source function pointers are set. */
    var hasReader: bool
    var hasTick: bool
    /** Whether an event callback is registered. */
    var hasCallback: bool
    /** The stage table: exactly the configured number of entries, empty when none is attached. */
    var configs: seq<StageConfig>
    /** The caller's latch storage, one latch per stage; null when no table is attached. */
    var latches: array?<bool>

    /** Every latch the table needs exists, the count fits in 8 bits, and an
        attached table is one `validate_stages` accepts. */
    ghost predicate Valid()
      reads this
    {
      |configs| <= MaxStages &&
      (latches == null ==> configs == []) &&
      (latches != null ==> |configs| <= latches.Length) &&
      (configs != [] ==> StagesValid(configs))
    }

    /** The state one poll works on. */
    function Snap(): (s: Snapshot)
      reads this, latches
      requires Valid()
      ensures |s.latches| == |configs|
    {
      Snapshot(lastState, lastChange, pressStart, lastHold,
               if latches == null then [] else latches[..|configs|])
    }

    function Setup(): Settings
      reads this
    {
      Settings(activeLevel, hasReader, hasTick, hasCallback, configs, latches)
    }

    /** Every field holds its zero value. */
    predicate IsZeroed()
      reads this
    {
      lastState == 0 && lastChange == 0 && pressStart == 0 && lastHold == 0 &&
      activeLevel == ActiveLow && !hasReader && !hasTick && !hasCallback &&
      configs == [] && latches == null
    }

    /** Storage for a button before initialisation: all fields zero. */
    constructor ()
      ensures IsZeroed() && Valid()
    {
      lastState, lastChange, pressStart, lastHold := 0, 0, 0, 0;
      activeLevel := ActiveLow;
      hasReader, hasTick, hasCallback := false, false, false;
      configs, latches := [], null;
    }

    /** What the callback receives for one event. */
    function Deliver(e: Event): (delivered: seq<Event>)
      reads this
      ensures delivered == Dispatch(hasCallback, [e])
    {
      if hasCallback then [e] else []
    }

    /** `handle_state_idle`. */
    method HandleIdle(pressed: bool, now: Tick) returns (events: seq<Event>)
      requires Valid() && lastState == StateCode(Idle)
      modifies this
      ensures Valid() && Setup() == old(Setup())
      ensures Snap() == IdleStep(old(Snap()), pressed, now).next
      ensures events == Dispatch(hasCallback, IdleStep(old(Snap()), pressed, now).emitted)
    {
      events := [];
      if pressed {
        lastState := StateCode(Debounce);
        lastChange := now;
      }
    }

    /** `handle_state_debounce`. */
    method HandleDebounce(pressed: bool, now: Tick) returns (events: seq<Event>)
      requires Valid() && lastState == StateCode(Debounce)
      modifies this
      ensures Valid() && Setup() == old(Setup())
      ensures Snap() == DebounceStep(old(Snap()), pressed, now).next
      ensures events == Dispatch(hasCallback, DebounceStep(old(Snap()), pressed, now).emitted)
    {
      events := [];
      var diff := Elapsed(now, lastChange);
      if diff >= DebounceTicks {
        if pressed {
          lastState := StateCode(PressedState);
          lastChange := now;
          events := Deliver(Pressed);
        } else {
          lastState := StateCode(Idle);
        }
      }
    }

    /** `handle_state_pressed`. */
    method HandlePressed(pressed: bool, now: Tick) returns (events: seq<Event>)
      requires Valid() && lastState == StateCode(PressedState)
      modifies this
      ensures Valid() && Setup() == old(Setup())
      ensures Snap() == PressedStep(old(Snap()), pressed, now).next
      ensures events == Dispatch(hasCallback, PressedStep(old(Snap()), pressed, now).emitted)
    {
      events := [];
      var diff := Elapsed(now, lastChange);
      if !pressed {
        lastState := StateCode(Idle);
        events := Deliver(Released);
      } else if diff >= LongPressTicks {
        lastState := StateCode(LongPressedState);
        lastChange := now;
        pressStart := now;
        lastHold := now;
        events := Deliver(LongPressed);
      }
    }

    /** The clearing loop of `handle_state_long`: opens the latch of every
        stage of the table; latch storage beyond the table is not touched. */
    method OpenLatches()
      requires Valid()
      modifies latches
      ensures Snap().latches == seq(|configs|, _ => false)
      ensures latches != null ==> latches[|configs|..] == old(latches[|configs|..])
    {
      var a := latches;
      if a != null {
        for i := 0 to |configs|
          invariant forall j :: 0 <= j < i ==> !a[j]
          invariant forall j :: i <= j < a.Length ==> a[j] == old(a[j])
        {
          a[i] := false;
        }
        assert a[..|configs|] == seq(|configs|, _ => false);
      }
    }

    /** The scanning loop of `handle_state_long`: visits the stages in table
        order and, for each one that fires at hold time `held`, closes its
        latch and hands its event to the callback. */
    method ScanStages(held: Tick) returns (events: seq<Event>)
      requires Valid()
      modifies latches
      ensures Snap().latches == Latched(configs, old(Snap().latches), held)
      ensures events == Dispatch(hasCallback, Fired(configs, old(Snap().latches), held, |configs|))
      ensures latches != null ==> latches[|configs|..] == old(latches[|configs|..])
    {
      events := [];
      ghost var before := Snap().latches;
      var a := latches;
      if a != null {
        for i := 0 to |configs|
          invariant forall j :: 0 <= j < i ==> a[j] == Latched(configs, before, held)[j]
          invariant forall j :: i <= j < a.Length ==> a[j] == old(a[j])
          invariant events == Dispatch(hasCallback, Fired(configs, before, held, i))
        {
          if held >= configs[i].threshold && !a[i] {
            a[i] := true;
            events := events + Deliver(configs[i].event);
          }
        }
        assert a[..|configs|] == Latched(configs, before, held);
        assert a[|configs|..] == old(a[|configs|..]);
      }
    }

    /** `handle_state_long`: on release, open the latches of the whole table
        and emit RELEASED; while held, scan the table in order, closing the
        latch of and emitting every stage that fires, then emit at most one
        HOLD. Latch storage beyond the table is not touched. */
    method HandleLong(pressed: bool, now: Tick) returns (events: seq<Event>)
      requires Valid() && lastState == StateCode(LongPressedState)
      modifies this, latches
      ensures Valid() && Setup() == old(Setup())
      ensures Snap() == LongStep(old(Snap()), configs, pressed, now).next
      ensures events == Dispatch(hasCallback, LongStep(old(Snap()), configs, pressed, now).emitted)
      ensures latches != null ==> latches[|configs|..] == old(latches[|configs|..])
    {
      if !pressed {
        lastState := StateCode(Idle);
        OpenLatches();
        events := Deliver(Released);
        return;
      }
      var held := Elapsed(now, pressStart);
      events := ScanStages(held);
      if held >= LongPressTicks {
        if Elapsed(now, lastHold) >= HoldTicks {
          lastHold := now;
          events := events + Deliver(Hold);
        }
      }
    }
  }

  /** The stage table of a button is strictly ascending, which is what
      `CoarsePolling` needs: a button that misses polls while a long press is
      held still emits each stage once, in table order. */
  lemma TableAscending(b: Button)
    requires b.Valid()
    ensures Ascending(b.configs)
  {
    StagesValidIff(b.configs);
  }

  /* ---------------- Public operations ---------------- */

  /** `Button_Init`: with a button, both function pointers and a valid
      polarity code, resets the button to IDLE with every tick mark at the
      sampled tick `now`, no callback and no stage table. Otherwise rejects
      the call and writes nothing. */
  method Init(b: Button?, levelCode: nat, hasReader: bool, hasTick: bool, now: Tick) returns (r: Error)
    modifies b
    ensures b == null || !hasReader || !hasTick || levelCode >= ActiveMax ==>
      r == InvalidArg && (b != null ==> unchanged(b))
    ensures b != null && hasReader && hasTick && levelCode < ActiveMax ==>
      r == Ok && b.Valid() &&
      b.lastState == StateCode(Idle) &&
      b.lastChange == now && b.pressStart == now && b.lastHold == now &&
      Some(b.activeLevel) == DecodeLevel(levelCode) &&
      b.hasReader && b.hasTick && !b.hasCallback &&
      b.configs == [] && b.latches == null
  {
    if b == null || !hasReader || !hasTick || levelCode >= ActiveMax {
      return InvalidArg;
    }
    b.activeLevel := DecodeLevel(levelCode).value;
    b.lastState := StateCode(Idle);
    b.hasReader, b.hasTick := hasReader, hasTick;
    b.lastChange, b.pressStart, b.lastHold := now, now, now;
    b.hasCallback := false;
    b.configs, b.latches := [], null;
    return Ok;
  }

  /** `Button_ConfigStages`: attaches the first `count` entries of the table
      and the latch storage when both are given, the count is positive and the
      table is valid; only the table and the latch reference change, and the
      latch contents are left as they are. */
  method ConfigStages(b: Button?, configs: Option<seq<StageConfig>>, latches: array?<bool>, count: StageCount)
    returns (r: Error)
    requires configs.Some? ==> count <= |configs.value|
    requires latches != null ==> count <= latches.Length
    requires b != null ==> b.Valid()
    modifies b
    ensures b != null ==> b.Valid()
    ensures b == null || configs.None? || latches == null || count == 0 ==>
      r == InvalidArg && (b != null ==> unchanged(b))
    ensures b != null && configs.Some? && latches != null && count > 0 ==>
      if StagesValid(configs.value[..count]) then
        r == Ok &&
        b.Setup() == old(b.Setup()).(configs := configs.value[..count], latches := latches) &&
        b.Snap() == old(b.Snap()).(latches := latches[..count])
      else
        r == InvalidStages && unchanged(b)
  {
    if b == null || configs.None? || latches == null || count == 0 {
      return InvalidArg;
    }
    var ok := ValidateStages(configs, count);
    if !ok {
      return InvalidStages;
    }
    b.configs := configs.value[..count];
    b.latches := latches;
    return Ok;
  }

  /** `Button_Update`: with a button whose reader and tick source are set,
      samples the pin (`pinHigh`) and the tick (`now`), maps the level through
      the polarity and advances the state machine by one `Step`, returning the
      events the callback receives in order; otherwise rejects the call and
      changes nothing. */
  method Update(b: Button?, pinHigh: bool, now: Tick) returns (r: Error, events: seq<Event>)
    requires b != null ==> b.Valid()
    modifies b, if b != null then b.latches else null
    ensures b == null ==> r == InvalidArg && events == []
    ensures b != null ==> b.Valid() && b.Setup() == old(b.Setup())
    ensures b != null && !(old(b.hasReader) && old(b.hasTick)) ==>
      r == InvalidArg && events == [] && unchanged(b) && (b.latches != null ==> unchanged(b.latches))
    ensures b != null && old(b.hasReader) && old(b.hasTick) ==>
      var o := Step(old(b.Snap()), b.configs, IsPressed(b.activeLevel, pinHigh), now);
      r == Ok && b.Snap() == o.next && events == Dispatch(b.hasCallback, o.emitted)
    ensures b != null && b.latches != null ==> b.latches[|b.configs|..] == old(b.latches[|b.configs|..])
  {
    if b == null || !b.hasReader || !b.hasTick {
      return InvalidArg, [];
    }
    var pressed := IsPressed(b.activeLevel, pinHigh);
    match DecodeState(b.lastState) {
      case Some(Idle) =>
        events := b.HandleIdle(pressed, now);
      case Some(Debounce) =>
        events := b.HandleDebounce(pressed, now);
      case Some(PressedState) =>
        events := b.HandlePressed(pressed, now);
      case Some(LongPressedState) =>
        events := b.HandleLong(pressed, now);
      case None =>
        b.lastState := StateCode(Idle);
        events := [];
    }
    return Ok, events;
  }

  /** `Button_RegisterHandler`: sets (or, with a null callback, clears) the
      callback; nothing else changes. */
  method RegisterHandler(b: Button?, callback: bool) returns (r: Error)
    modifies b
    ensures b == null ==> r == InvalidArg
    ensures b != null ==>
      r == Ok && b.hasCallback == callback &&
      b.Setup() == old(b.Setup()).(hasCallback := callback) &&
      b.lastState == old(b.lastState) && b.lastChange == old(b.lastChange) &&
      b.pressStart == old(b.pressStart) && b.lastHold == old(b.lastHold)
  {
    if b == null {
      return InvalidArg;
    }
    b.hasCallback := callback;
    return Ok;
  }

  /** `Button_UnregisterHandler`: clears the callback; nothing else changes. */
  method UnregisterHandler(b: Button?) returns (r: Error)
    modifies b
    ensures b == null ==> r == InvalidArg
    ensures b != null ==>
      r == Ok && !b.hasCallback &&
      b.Setup() == old(b.Setup()).(hasCallback := false) &&
      b.lastState == old(b.lastState) && b.lastChange == old(b.lastChange) &&
      b.pressStart == old(b.pressStart) && b.lastHold == old(b.lastHold)
  {
    if b == null {
      return InvalidArg;
    }
    b.hasCallback := false;
    return Ok;
  }

  /** `Button_Deinit`: zeroes every field of the button (not the caller's
      latch storage). */
  method Deinit(b: Button?) returns (r: Error)
    modifies b
    ensures b == null ==> r == InvalidArg
    ensures b != null ==> r == Ok && b.IsZeroed() && b.Valid()
  {
    if b == null {
      return InvalidArg;
    }
    b.lastState, b.lastChange, b.pressStart, b.lastHold := 0, 0, 0, 0;
    b.activeLevel := ActiveLow;
    b.hasReader, b.hasTick, b.hasCallback := false, false, false;
    b.configs, b.latches := [], null;
    return Ok;
  }

  /** After `Deinit` both function pointers are null, so polling is rejected
      and emits nothing until the button is initialised again. */
  method DeinitThenUpdate(b: Button, pinHigh: bool, now: Tick) returns (r: Error, events: seq<Event>)
    modifies b
    ensures r == InvalidArg && events == [] && b.IsZeroed()
  {
    var d := Deinit(b);
    r, events := Update(b, pinHigh, now);
  }
}
