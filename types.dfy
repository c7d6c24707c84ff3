/** Constants, enumerations and records of the polled button driver
    (the header `button_static.h`). Ticks are 32-bit unsigned counters:
    a tick value is a `Tick` below 2^32 and every elapsed time is computed
    with wrap-around subtraction modulo 2^32. */
module ButtonTypes {

  datatype Option<T> = None | Some(value: T)

  /* ---------------- Ticks ---------------- */

  /** A 32-bit unsigned counter wraps around at this value. */
  const TickModulus: int := 0x1_0000_0000

  /** A value of the 32-bit unsigned tick counter. */
  type Tick = t: int | 0 <= t < 0x1_0000_0000

  /** Wrap-around elapsed time `now - mark` of unsigned 32-bit subtraction. */
  function Elapsed(now: Tick, mark: Tick): (span: Tick)
    ensures (mark + span) % TickModulus == now
    ensures now >= mark ==> span == now - mark
    ensures now < mark ==> span == now - mark + TickModulus
  {
    (now - mark) % TickModulus
  }

  /** The elapsed span is the only span that reaches `now` from `mark`, so a
      span longer than the counter's range cannot be told apart from a shorter one. */
  lemma ElapsedUnique(now: Tick, mark: Tick, span: Tick)
    requires (mark + span) % TickModulus == now
    ensures span == Elapsed(now, mark)
  {
  }

  /* ---------------- Timing constants (ticks) ---------------- */

  /** A level change must persist this long before it is trusted. */
  const DebounceTicks: Tick := 50
  /** Time in PRESSED after which the press becomes a long press. */
  const LongPressTicks: Tick := 1000
  /** Period of the repeating HOLD pulse. */
  const HoldTicks: Tick := 50
  /** Declared by the driver but never consulted by the state machine. */
  const SuperLongPressTicks: Tick := 5000

  /* ---------------- Electrical polarity ---------------- */

  /** Which pin level means "pressed". */
  datatype ActiveLevel = ActiveLow | ActiveHigh

  /** Exclusive upper bound of the polarity codes, used for argument validation. */
  const ActiveMax: nat := 2

  function LevelCode(level: ActiveLevel): (code: nat)
    ensures code < ActiveMax
    ensures code == 0 <==> level == ActiveLow
  {
    match level
    case ActiveLow => 0
    case ActiveHigh => 1
  }

  /** The polarity a raw code stands for; only codes below `ActiveMax` are valid. */
  function DecodeLevel(code: nat): (r: Option<ActiveLevel>)
    ensures r.Some? <==> code < ActiveMax
    ensures r.Some? ==> LevelCode(r.value) == code
  {
    if code == 0 then Some(ActiveLow)
    else if code == 1 then Some(ActiveHigh)
    else None
  }

  /** Polarity mapping: an active-low button is pressed when the pin reads low,
      an active-high button when it reads high. */
  function IsPressed(level: ActiveLevel, pinHigh: bool): (pressed: bool)
    ensures level == ActiveLow ==> (pressed <==> !pinHigh)
    ensures level == ActiveHigh ==> (pressed <==> pinHigh)
  {
    if level == ActiveLow then !pinHigh else pinHigh
  }

  /* ---------------- Events ---------------- */

  /** The events the driver dispatches. `Custom` stands for a value of the
      event enumeration outside the named enumerators, which a stage table
      may carry and which the driver passes through unchanged. */
  datatype Event =
    | NoEvent
    | Pressed
    | Released
    | LongPressed
    | Hold
    | SuperLongPressed
    | Custom(tag: nat)

  /* ---------------- FSM states ---------------- */

  datatype State = Idle | Debounce | PressedState | LongPressedState

  /** The value a state occupies in the driver's state field. */
  function StateCode(s: State): (code: nat)
    ensures code < 4
  {
    match s
    case Idle => 0
    case Debounce => 1
    case PressedState => 2
    case LongPressedState => 3
  }

  /** The state a stored value stands for; `None` for a corrupted value. */
  function DecodeState(code: nat): (r: Option<State>)
    ensures r.Some? <==> code < 4
    ensures r.Some? ==> StateCode(r.value) == code
  {
    if code == 0 then Some(Idle)
    else if code == 1 then Some(Debounce)
    else if code == 2 then Some(PressedState)
    else if code == 3 then Some(LongPressedState)
    else None
  }

  /** Exactly four states: encoding then decoding gives the state back. */
  lemma StateCodeRoundTrip(s: State)
    ensures DecodeState(StateCode(s)) == Some(s)
  {
  }

  /* ---------------- Stages ---------------- */

  /** The largest number of stages a stage set can hold (an 8-bit count). */
  const MaxStages: nat := 255

  type StageCount = n: nat | n <= MaxStages

  /** One stage of a multi-stage long press: a tick threshold measured from
      long-press entry and the event dispatched when it is reached. */
  datatype StageConfig = StageConfig(threshold: Tick, event: Event)

  /* ---------------- Error codes ---------------- */

  /** Results of the driver's public operations. `HwFail`, `NotInit` and
      `Unknown` are representable but no operation returns them. */
  datatype Error = Ok | InvalidArg | HwFail | InvalidStages | NotInit | Unknown

  function ErrorCode(e: Error): (code: nat)
    ensures code <= 5
    ensures code == 0 <==> e == Ok
  {
    match e
    case Ok => 0
    case InvalidArg => 1
    case HwFail => 2
    case InvalidStages => 3
    case NotInit => 4
    case Unknown => 5
  }

  /** Distinct error kinds have distinct codes. */
  lemma ErrorCodeInjective(e1: Error, e2: Error)
    requires ErrorCode(e1) == ErrorCode(e2)
    ensures e1 == e2
  {
  }
}
