# Polled button state machine, in Dafny

This project models the static button driver `button_FSM/button_static.c`
and its header `button_FSM/include/button_static.h`. The driver is called
periodically. Each call to `Button_Update` samples the pin level and a 32-bit
tick counter. It advances a four-state machine (IDLE → DEBOUNCE → PRESSED →
LONG_PRESSED) and hands the events it produces to a registered callback, in
order. In LONG_PRESSED a table of (threshold, event) stages fires one-shot
events. Each stage has a latch that closes when the stage fires and opens
again on release. A repeating HOLD pulse runs alongside the stages. Every
elapsed time is a wrap-around unsigned 32-bit subtraction.

Layout:

- `types.dfy` (`ButtonTypes`) holds the header's constants and enumerations:
  polarity, events, states, stage records and error codes. It also holds
  `Elapsed`, the modular tick subtraction.
- `stages.dfy` (`Stages`) holds `validate_stages` as a loop proved equal to
  the predicate `StagesValid`. It also specifies one scan of the stage table:
  `Latched` gives the new latches and `Fired` the events, in order.
- `fsm.dfy` (`ButtonFsm`) specifies one poll as the pure function `Step`,
  with one function per state handler. `Trace` and `RunEvents` describe runs
  of polls. The lemmas state what single polls and runs guarantee.
- `button.dfy` (`ButtonDriver`) holds the class `Button`, whose fields the
  operations update in place. The latch storage is an `array<bool>`. The four
  `handle_state_*` handlers are methods of the class. The public C functions
  are module-level methods that take a nullable `Button?`, so that their
  null-pointer checks are part of the model. Each handler and `Update` is
  proved against `Step`: the new snapshot and the delivered events are
  exactly what `Step` gives for the old snapshot.

Modelling choices:

- Ticks are the subset type `Tick` (0 ≤ t < 2^32). `Elapsed(now, mark)` is
  `(now - mark) % 2^32`, which is C's `uint32_t` subtraction.
- The pin reader, tick source and callback are each reduced to a flag saying
  whether the pointer is set. The level and tick that `Button_Update` would
  read are parameters of `Update`. The events passed to the callback are the
  result of `Update`; it is empty when no callback is registered.
- The state field keeps the raw stored value (`nat`). This lets the model
  cover the `default:` branch, which resets a corrupted value to IDLE.
- `configs` holds exactly the `count` attached entries, or nothing when no
  table is attached. `count` is an 8-bit value (`StageCount`, at most 255).

Where the driver's documentation and its code disagree, the model follows
the code:

- The header's comment on `BUTTON_EVENT_HOLD` (`button_static.h:35`) says
  HOLD means the button has been pressed for more than LONG_PRESS_TICKS +
  HOLD_TICKS. Counted from the start of the press, that puts the first pulse
  50 ticks after LONG_PRESSED. The code overwrites `press_start_tick` at
  long-press entry (`button_static.c:106`). It then requires
  `now - press_start >= 1000` (`button_static.c:147`). So the first HOLD
  comes at least 1000 ticks after the LONG_PRESSED event, not 50.
  `ButtonFsm.HoldAnchoredToEntry` proves
  this for every run. `ButtonFsm.Scenario` shows a concrete run with no HOLD
  at tick 1100 and the first HOLD at tick 2050.
- The header's comment on `press_start_tick` calls it the tick at which the
  press was first validated. The code sets it only in `Button_Init` and at
  long-press entry. So stage thresholds count from long-press entry.
- `Button_ConfigStages` does not clear the latch storage it is given. A latch
  that is already closed keeps its stage silent until the next release.

## Model

| member | source | states |
|---|---|---|
| `ButtonTypes.Elapsed` | button_FSM/button_static.c:80 | The span added to `mark` modulo 2^32 gives `now`. It is `now - mark` without wrap and `now - mark + 2^32` with wrap. |
| `ButtonTypes.ElapsedUnique` | button_FSM/button_static.c:137 | Only one 32-bit span reaches `now` from `mark`, so spans of 2^32 ticks or more cannot be told apart from shorter ones. |
| `ButtonTypes.LevelCode` | button_FSM/include/button_static.h:22-27 | ACTIVE_LOW is 0 and ACTIVE_HIGH is 1; both are below `ActiveMax`. |
| `ButtonTypes.DecodeLevel` | button_FSM/include/button_static.h:22-27 | A raw polarity code is valid exactly when it is below `ActiveMax` (2), and it then decodes to the polarity with that code. |
| `ButtonTypes.IsPressed` | button_FSM/button_static.c:49 | Active-low means pressed when the pin reads low; active-high means pressed when it reads high. |
| `ButtonTypes.StateCode` | button_FSM/include/button_static.h:41-46 | Each of the four states is stored as a value below 4. |
| `ButtonTypes.DecodeState` | button_FSM/include/button_static.h:41-46 | A stored value names a state exactly when it is below 4, and that state encodes back to it. |
| `ButtonTypes.StateCodeRoundTrip` | button_FSM/include/button_static.h:41-46 | Decoding the code of a state gives the state back, so there are exactly four states. |
| `ButtonTypes.ErrorCode` | button_FSM/include/button_static.h:95-102 | Error codes are 0..5, and 0 means OK. |
| `ButtonTypes.ErrorCodeInjective` | button_FSM/include/button_static.h:95-102 | Distinct error kinds have distinct codes. |
| `Stages.ValidateStages` | button_FSM/button_static.c:181-188 | Returns true exactly when the table is non-null, the count is positive, the first threshold is positive and each threshold exceeds the one before it. |
| `Stages.ValidIncreasing` | button_FSM/button_static.c:183-186 | In a valid table, any earlier stage has a lower threshold than any later one, and every threshold is positive. |
| `Stages.StagesValidIff` | button_FSM/button_static.c:181-188 | A table is valid exactly when it is non-empty, starts above zero and is strictly increasing throughout. Both directions are proved. |
| `Stages.Latched` | button_FSM/button_static.c:139-144 | After a scan, a latch is closed exactly when it was closed before or its stage's threshold has been reached. Latches only go from open to closed. |
| `Stages.Fired` | button_FSM/button_static.c:139-144 | One scan emits at most one event per stage. |
| `Stages.FiredMembers` | button_FSM/button_static.c:140-142 | The scan emits exactly the events of the stages that fire (open latch, threshold reached, inclusive): every emitted event is such a stage's event, and every such stage's event is emitted. |
| `Stages.RescanFiresNothing` | button_FSM/button_static.c:140-141 | A second scan at the same or an earlier hold time fires nothing. |
| `Stages.CoarsePolling` | button_FSM/button_static.c:137-145 | With ascending thresholds, scanning at `h1` and then at a later `h2` emits the same events in the same order, and leaves the same latches, as one scan at `h2`. |
| `ButtonFsm.Dispatch` | button_FSM/button_static.c:85-87 | With a callback registered, every emitted event is delivered; without one, nothing is. |
| `ButtonFsm.IdleStep` | button_FSM/button_static.c:72-77 | IDLE emits nothing and never touches `pressStart`, `lastHold` or the latches; if anything changes, the button was pressed and is now in DEBOUNCE with `lastChange = now`. |
| `ButtonFsm.DebounceStep` | button_FSM/button_static.c:79-92 | Inside the 50-tick window nothing changes. The only event it can emit is PRESSED, only when pressed, entering PRESSED with `lastChange = now`. `pressStart`, `lastHold` and the latches never change. |
| `ButtonFsm.PressedStep` | button_FSM/button_static.c:94-116 | Emits RELEASED exactly when not pressed, otherwise nothing or exactly LONG_PRESSED. LONG_PRESSED enters LONG_PRESSED with all three marks at `now`; emitting nothing changes nothing. The latches never change. |
| `ButtonFsm.HoldDue` | button_FSM/button_static.c:147-148 | A HOLD is never due at the tick of the previous pulse or of long-press entry. |
| `ButtonFsm.LongStep` | button_FSM/button_static.c:118-155 | `lastChange` and `pressStart` never change. A release gives IDLE, every latch open, exactly [RELEASED] and the hold mark kept. While held, the state stays, latches only close and at most one event per stage plus one HOLD is emitted. |
| `ButtonFsm.Step` | button_FSM/button_static.c:52-68 | After any poll, even from a corrupted state value, the stored state is one of the four states. The latch count is kept, and one poll emits at most one event per stage plus one. |
| `ButtonFsm.Trace` | button_FSM/button_static.c:45-70 | A run of polls passes through one snapshot per poll plus the start, beginning with the start, and every snapshot keeps the table's latch count. |
| `ButtonFsm.TraceStep` | button_FSM/button_static.c:45-70 | Each snapshot of a run is `Step` of the one before it, for that poll's level and tick. |
| `ButtonFsm.RunEvents` | button_FSM/button_static.c:45-70 | A run of `n` polls emits at most `n * (count + 1)` events. |
| `ButtonFsm.CorruptStateResets` | button_FSM/button_static.c:65-67 | A stored state value of 4 or more is reset to IDLE; nothing else changes and no event is emitted. |
| `ButtonFsm.IdleBehaviour` | button_FSM/button_static.c:72-77 | IDLE emits nothing. When pressed it enters DEBOUNCE with `lastChange = now`; otherwise nothing changes. |
| `ButtonFsm.DebounceBehaviour` | button_FSM/button_static.c:79-92 | While under 50 ticks have elapsed, nothing changes at either level. From 50 ticks on (inclusive), pressed gives PRESSED with `lastChange = now` and exactly [PRESSED]; not pressed gives IDLE and no event. |
| `ButtonFsm.PressedBehaviour` | button_FSM/button_static.c:94-116 | A release gives IDLE, exactly [RELEASED] and unchanged tick marks. Held for 1000 ticks or more (inclusive), it gives LONG_PRESSED with all three marks at `now` and exactly [LONG_PRESSED]. Otherwise nothing changes. |
| `ButtonFsm.LongReleaseClearsLatches` | button_FSM/button_static.c:120-133 | Releasing a long press gives IDLE with every latch of the table open and exactly [RELEASED], with no stage or HOLD event. The tick marks are unchanged. |
| `ButtonFsm.LongHeldBehaviour` | button_FSM/button_static.c:137-154 | While held, the state, `pressStart` and `lastChange` stay and latches only close. The stage events come first, in table order. At most one HOLD follows, only when due; the hold mark then moves to now. |
| `ButtonFsm.HoldAnchoredToEntry` | button_FSM/button_static.c:137-154 | Through any held run from LONG_PRESSED, the state and the entry mark stay. Every HOLD comes at least 1000 ticks after entry. |
| `ButtonFsm.LatchStaysClosed` | button_FSM/button_static.c:140-141 | Once a stage has fired during a held long press, its latch stays closed for the rest of that press. |
| `ButtonFsm.StageFiresOnce` | button_FSM/button_static.c:139-144 | Within one held long press, a stage that fires at one poll does not fire at any later poll. |
| `ButtonFsm.HoldMarkAfterPulse` | button_FSM/button_static.c:147-154 | After a HOLD pulse, the hold mark holds that poll's tick until the next pulse. |
| `ButtonFsm.HoldSpacing` | button_FSM/button_static.c:147-154 | Two consecutive HOLD pulses of a held long press are at least 50 ticks apart. |
| `ButtonFsm.GlitchRejected` | button_FSM/button_static.c:79-92 | Polls inside the debounce window, then a release seen at or after its end, return to IDLE without emitting any event. |
| `ButtonFsm.Scenario` | button_FSM/button_static.c:94-154 | Stages at 2000 and 3000, held from tick 0 and released at 5000, give PRESSED at 50 and LONG_PRESSED at 1050. Then HOLD at 2050, stage 1 and HOLD at 3050, stage 2 and HOLD at 4050, and RELEASED at 5000 with both latches open. |
| `ButtonDriver.Button.constructor` | button_FSM/include/button_static.h:70-93 | A button's storage before initialisation has every field zero. |
| `ButtonDriver.Button.HandleIdle` | button_FSM/button_static.c:72-77 | The new snapshot and the delivered events are exactly `IdleStep` of the old snapshot. The settings are unchanged. |
| `ButtonDriver.Button.HandleDebounce` | button_FSM/button_static.c:79-92 | The new snapshot and the delivered events are exactly `DebounceStep` of the old snapshot. The settings are unchanged. |
| `ButtonDriver.Button.HandlePressed` | button_FSM/button_static.c:94-116 | The new snapshot and the delivered events are exactly `PressedStep` of the old snapshot. The settings are unchanged. |
| `ButtonDriver.Button.OpenLatches` | button_FSM/button_static.c:123-127 | The loop opens the first `count` latches in place and leaves the rest of the storage untouched. |
| `ButtonDriver.Button.ScanStages` | button_FSM/button_static.c:138-145 | The loop leaves the latches as `Latched` says. It delivers `Fired` of the old latches, in table order. |
| `ButtonDriver.Button.HandleLong` | button_FSM/button_static.c:118-155 | The new snapshot and the delivered events are exactly `LongStep` of the old snapshot. The settings and the latch storage beyond the table are unchanged. |
| `ButtonDriver.TableAscending` | button_FSM/button_static.c:36-43 | The stage table attached to a button is strictly ascending, so `Stages.CoarsePolling` applies to it. |
| `ButtonDriver.Init` | button_FSM/button_static.c:12-34 | A null button, a missing reader or tick function, or a polarity code of 2 or more gives INVALID_ARG and writes nothing. Otherwise it gives OK with IDLE, all three marks at the sampled tick, the decoded polarity, no callback and no stage table. |
| `ButtonDriver.ConfigStages` | button_FSM/button_static.c:36-43 | A null button, table or latch storage, or a zero count, gives INVALID_ARG; an invalid table gives INVALID_STAGES. Both change nothing. OK replaces only the table and the latch reference, and the latch contents stay as they were. The attached table is always one `validate_stages` accepts. |
| `ButtonDriver.Update` | button_FSM/button_static.c:45-70 | A null button or a missing reader or tick function gives INVALID_ARG, no events and no change. Otherwise it gives OK, the new snapshot is `Step` of the old one for the polarity-mapped level, and the events are what `Step` emits when a callback is registered. Latch storage beyond the table is never written. |
| `ButtonDriver.RegisterHandler` | button_FSM/button_static.c:164-171 | A null button gives INVALID_ARG. Otherwise OK, and only the callback changes (set, or cleared for a null callback). |
| `ButtonDriver.UnregisterHandler` | button_FSM/button_static.c:173-179 | A null button gives INVALID_ARG. Otherwise OK, and only the callback is cleared. |
| `ButtonDriver.Deinit` | button_FSM/button_static.c:157-162 | A null button gives INVALID_ARG. Otherwise OK, with every field zero. |
| `ButtonDriver.DeinitThenUpdate` | button_FSM/button_static.c:46 | A poll after `Deinit` is rejected with INVALID_ARG and no events, because both function pointers are null. |

## Left out

- The GPIO number is only passed to the pin reader, so the model does not carry it.
- The callback's opaque `context` pointer is left out; only whether a callback is registered matters to the machine.
- The pin-reader and tick-source functions are external collaborators. Their results are parameters of `Update` and `Init`, and only their presence is kept.
- The fields `last_event` and `is_long_pressed_triggered` are declared but no code reads or writes them, so the model has no such fields.
- `SuperLongPressTicks` and the SUPER_LONG_PRESSED event are declared, as in the header, and nothing uses them.
- HW_FAIL, NOT_INIT and UNKNOWN are representable, and no operation returns them.
- Polarity codes are unsigned raw values (`nat`). This assumes the compiler gives the enumeration an unsigned type, so a negative value cast to it is rejected as a large one.
- A stage event outside the named enumerators is `Custom(tag)`. The model does not give event codes, because the driver only passes stage events through.
- Pointer aliasing and lifetime of the caller-owned stage table are not modelled. The table is copied into an immutable `seq`. The latch storage is a reference to the caller's `array<bool>`, and the frames of `Update` and `HandleLong` name it.
- `ConfigStages` requires the table and the latch storage to hold at least `count` entries. C cannot check this, and its behaviour when it fails is undefined.
- An uninitialised button with arbitrary garbage in its fields is not modelled. A button starts from the zero storage of the constructor, and `Valid` holds at every entry point.
- Concurrency and re-entrant callbacks are not modelled. The driver is single-threaded and delivering an event cannot change the button.
