/** The application's phase state machine (src/app/state.rs): a tagged union
    whose `Initialized` payload holds the delay, the two counters and the
    optional auth token. Every mutator is total and does nothing outside
    `Initialized`; the source's `&mut self` updates of the enum are modelled
    as functions from the old value to the new one. */
module State {
  import opened Wrappers

  /** The OAuth token response; the model never looks inside it. */
  datatype Token = Token(raw: string)

  /** `duration` is a whole number of seconds. */
  datatype AppState =
    | Init
    | LoggedOut
    | Initialized(duration: nat, counterSleep: nat, counterTick: nat, authToken: Option<Token>)

  /** The bounds every delay adjustment clamps to, in seconds. */
  const MinDelay: nat := 1
  const MaxDelay: nat := 10

  /** Rust's `Ord::clamp`. */
  function Clamp(x: int, lo: int, hi: int): (r: int)
    requires lo <= hi
    ensures lo <= r <= hi
    ensures lo <= x <= hi ==> r == x
    ensures x < lo ==> r == lo
    ensures x > hi ==> r == hi
  {
    if x < lo then lo else if x > hi then hi else x
  }

  /** `Default for AppState`: the phase with no data. */
  function Default(): (r: AppState)
    ensures !IsInitialized(r) && !IsAuthenticated(r)
    ensures Duration(r).None? && CountSleep(r).None? && CountTick(r).None?
    ensures r != LoggedOut
  {
    Init
  }

  /** `AppState::initialized`: the ready phase with a one-second delay, both
      counters at zero and no token. */
  function MakeInitialized(): (r: AppState)
    ensures IsInitialized(r)
    ensures Duration(r) == Some(1) && CountSleep(r) == Some(0) && CountTick(r) == Some(0)
    ensures !IsAuthenticated(r)
  {
    Initialized(1, 0, 0, None)
  }

  /** `count_sleep`: defined exactly in the ready phase. */
  function CountSleep(s: AppState): (r: Option<nat>)
    ensures r.None? <==> !s.Initialized?
    ensures r.Some? ==> r.value == s.counterSleep
  {
    if s.Initialized? then Some(s.counterSleep) else None
  }

  /** `count_tick`: defined exactly in the ready phase. */
  function CountTick(s: AppState): (r: Option<nat>)
    ensures r.None? <==> !s.Initialized?
    ensures r.Some? ==> r.value == s.counterTick
  {
    if s.Initialized? then Some(s.counterTick) else None
  }

  /** `duration`: defined exactly in the ready phase. */
  function Duration(s: AppState): (r: Option<nat>)
    ensures r.None? <==> !s.Initialized?
    ensures r.Some? ==> r.value == s.duration
  {
    if s.Initialized? then Some(s.duration) else None
  }

  /** `is_authenticated`: a token is held, which is possible only in the
      ready phase. */
  function IsAuthenticated(s: AppState): (r: bool)
    ensures r ==> s.Initialized?
    ensures s.Initialized? ==> (r <==> s.authToken.Some?)
  {
    if s.Initialized? then s.authToken.Some? else false
  }

  /** `is_initialized`: the state is in the ready phase, which is exactly
      when each accessor has a value. */
  predicate IsInitialized(s: AppState): (r: bool)
    ensures r <==> CountSleep(s).Some?
    ensures r <==> CountTick(s).Some?
    ensures r <==> Duration(s).Some?
  {
    s.Initialized?
  }

  /** `incr_sleep`: one more sleep recorded in the ready phase; nothing else
      changes, and a state outside it is returned as it was. */
  function IncrSleep(s: AppState): (r: AppState)
    ensures IsInitialized(r) == IsInitialized(s)
    ensures !s.Initialized? ==> r == s
    ensures s.Initialized? ==> CountSleep(r) == Some(CountSleep(s).value + 1)
    ensures CountTick(r) == CountTick(s) && Duration(r) == Duration(s)
    ensures s.Initialized? ==> r.authToken == s.authToken
  {
    match s
    case Initialized(d, cs, ct, t) => Initialized(d, cs + 1, ct, t)
    case _ => s
  }

  /** `incr_tick`: one more tick recorded in the ready phase; nothing else
      changes, and a state outside it is returned as it was. */
  function IncrTick(s: AppState): (r: AppState)
    ensures IsInitialized(r) == IsInitialized(s)
    ensures !s.Initialized? ==> r == s
    ensures s.Initialized? ==> CountTick(r) == Some(CountTick(s).value + 1)
    ensures CountSleep(r) == CountSleep(s) && Duration(r) == Duration(s)
    ensures s.Initialized? ==> r.authToken == s.authToken
  {
    match s
    case Initialized(d, cs, ct, t) => Initialized(d, cs, ct + 1, t)
    case _ => s
  }

  /** `increment_delay`: in the ready phase one second more, but never above
      the maximum (and never below the minimum); no-op outside it. */
  function IncrementDelay(s: AppState): (r: AppState)
    ensures IsInitialized(r) == IsInitialized(s)
    ensures !s.Initialized? ==> r == s
    ensures s.Initialized? ==> MinDelay <= r.duration <= MaxDelay
    ensures s.Initialized? && s.duration < MaxDelay ==> r.duration == s.duration + 1
    ensures s.Initialized? && s.duration >= MaxDelay ==> r.duration == MaxDelay
    ensures CountSleep(r) == CountSleep(s) && CountTick(r) == CountTick(s)
    ensures s.Initialized? ==> r.authToken == s.authToken
  {
    match s
    case Initialized(d, cs, ct, t) => Initialized(Clamp(d + 1, MinDelay, MaxDelay), cs, ct, t)
    case _ => s
  }

  /** `decrement_delay`, as the source writes it: it computes `secs + 1`
      clamped to the bounds, exactly like `increment_delay`. A decrement with
      floor `MinDelay` was probably intended. */
  function DecrementDelay(s: AppState): (r: AppState)
    ensures IsInitialized(r) == IsInitialized(s)
    ensures !s.Initialized? ==> r == s
    ensures s.Initialized? ==> MinDelay <= r.duration <= MaxDelay
    ensures CountSleep(r) == CountSleep(s) && CountTick(r) == CountTick(s)
    ensures s.Initialized? ==> r.authToken == s.authToken
  {
    match s
    case Initialized(d, cs, ct, t) => Initialized(Clamp(d + 1, MinDelay, MaxDelay), cs, ct, t)
    case _ => s
  }

  /** As written, decrementing is the same operation as incrementing, so from
      the one-second start it raises the delay to two seconds. */
  lemma DecrementDelayAsWritten(s: AppState)
    ensures DecrementDelay(s) == IncrementDelay(s)
    ensures s == MakeInitialized() ==> Duration(DecrementDelay(s)) == Some(2)
  {
  }

  /** Incrementing is idempotent once the maximum is reached. */
  lemma IncrementDelayIdempotentAtMax(s: AppState)
    requires Duration(IncrementDelay(s)) == Some(MaxDelay)
    ensures IncrementDelay(IncrementDelay(s)) == IncrementDelay(s)
  {
  }

  /** `set_token`: the token is stored in the ready phase; outside it the
      state is unchanged and stays unauthenticated. */
  function SetToken(s: AppState, token: Token): (r: AppState)
    ensures IsAuthenticated(r) <==> s.Initialized?
    ensures !s.Initialized? ==> r == s
    ensures s.Initialized? ==> r.authToken == Some(token)
    ensures CountSleep(r) == CountSleep(s) && CountTick(r) == CountTick(s) && Duration(r) == Duration(s)
  {
    match s
    case Initialized(d, cs, ct, _) => Initialized(d, cs, ct, Some(token))
    case _ => s
  }

  /** A run of delay adjustments (`true` for increment, `false` for
      decrement), applied in order. */
  function AdjustDelay(s: AppState, ops: seq<bool>): AppState
    decreases |ops|
  {
    if ops == [] then s
    else AdjustDelay(if ops[0] then IncrementDelay(s) else DecrementDelay(s), ops[1..])
  }

  /** Any run of adjustments keeps a ready state ready, keeps a delay that
      starts within the bounds within them, and leaves the counters alone. */
  lemma {:induction false} AdjustDelayStaysInRange(s: AppState, ops: seq<bool>)
    requires s.Initialized? && MinDelay <= s.duration <= MaxDelay
    ensures AdjustDelay(s, ops).Initialized?
    ensures MinDelay <= AdjustDelay(s, ops).duration <= MaxDelay
    ensures CountSleep(AdjustDelay(s, ops)) == CountSleep(s)
    ensures CountTick(AdjustDelay(s, ops)) == CountTick(s)
    decreases |ops|
  {
    if ops != [] {
      AdjustDelayStaysInRange(if ops[0] then IncrementDelay(s) else DecrementDelay(s), ops[1..]);
    }
  }

  /** `n` ticks in a row. */
  function Ticks(s: AppState, n: nat): AppState {
    if n == 0 then s else IncrTick(Ticks(s, n - 1))
  }

  /** `n` recorded sleeps in a row. */
  function Sleeps(s: AppState, n: nat): AppState {
    if n == 0 then s else IncrSleep(Sleeps(s, n - 1))
  }

  /** Each tick adds exactly one in the ready phase; outside it ticks do
      nothing. */
  lemma {:induction false} TicksCount(s: AppState, n: nat)
    ensures s.Initialized? ==> CountTick(Ticks(s, n)) == Some(s.counterTick + n)
    ensures s.Initialized? ==> CountSleep(Ticks(s, n)) == CountSleep(s) && Duration(Ticks(s, n)) == Duration(s)
    ensures !s.Initialized? ==> Ticks(s, n) == s
  {
    if n > 0 {
      TicksCount(s, n - 1);
    }
  }

  /** Each recorded sleep adds exactly one in the ready phase; outside it
      they do nothing. */
  lemma {:induction false} SleepsCount(s: AppState, n: nat)
    ensures s.Initialized? ==> CountSleep(Sleeps(s, n)) == Some(s.counterSleep + n)
    ensures s.Initialized? ==> CountTick(Sleeps(s, n)) == CountTick(s) && Duration(Sleeps(s, n)) == Duration(s)
    ensures !s.Initialized? ==> Sleeps(s, n) == s
  {
    if n > 0 {
      SleepsCount(s, n - 1);
    }
  }

  /** From the freshly initialized state the counters count the calls. */
  lemma CountersFromStart(ticks: nat, sleeps: nat)
    ensures CountTick(Ticks(MakeInitialized(), ticks)) == Some(ticks)
    ensures CountSleep(Sleeps(MakeInitialized(), sleeps)) == Some(sleeps)
  {
    var s0 := Initialized(1, 0, 0, None);
    TicksCount(s0, ticks);
    SleepsCount(s0, sleeps);
  }
}
