/** The timer arithmetic of the Q40 board support header: the tick rate and the
    macros that turn a duration in milliseconds or seconds into a count of timer
    ticks, rounding up. The macros expand to C `int` arithmetic, whose division
    truncates toward zero, so that division is written out here. */
module Q40Timer {

  /** Timer interrupts per second. */
  const TimerHz: int := 200

  /** Milliseconds per timer tick, `1000 / TIMER_HZ`. */
  const MsPerTick: int := 1000 / TimerHz

  /** The range of the 32-bit C `int` the macros compute in. */
  const IntMin: int := -0x8000_0000
  const IntMax: int := 0x7fff_ffff

  /** The durations for which `msec + TIMER_MS_PER_TICK - 1` fits in an `int`;
      beyond them the C addition overflows. */
  predicate MsInRange(ms: int) {
    IntMin <= ms && ms + MsPerTick - 1 <= IntMax
  }

  /** The durations for which `sec * 1000` and then the millisecond conversion
      fit in an `int`. */
  predicate SecInRange(sec: int) {
    IntMin <= sec * 1000 && MsInRange(sec * 1000)
  }

  /** C division of `int` operands: the quotient is truncated toward zero
      (Dafny's own `/` on `int` is Euclidean). */
  function CDiv(a: int, b: int): int
    requires b > 0
  {
    if a >= 0 then a / b else -((-a) / b)
  }

  /** The truncated quotient is the one nearest zero: below the exact quotient
      for a non-negative dividend, above it for a negative one. */
  lemma CDivBounds(a: int, b: int)
    requires b > 0
    ensures a >= 0 ==> CDiv(a, b) * b <= a < CDiv(a, b) * b + b
    ensures a < 0 ==> CDiv(a, b) * b >= a > CDiv(a, b) * b - b
  {
  }

  /** The tick count `set_timer_ms(msec)` hands to `set_timer_ticks`:
      `(msec + TIMER_MS_PER_TICK - 1) / TIMER_MS_PER_TICK`. */
  function SetTimerMs(ms: int): int {
    CDiv(ms + MsPerTick - 1, MsPerTick)
  }

  /** The tick count of `set_timer_sec(sec)`, which is `set_timer_ms(sec * 1000)`. */
  function SetTimerSec(sec: int): int {
    SetTimerMs(sec * 1000)
  }

  /** One tick lasts 5 ms. */
  lemma MsPerTickIsFive()
    ensures MsPerTick == 5 && MsPerTick * TimerHz == 1000
  {
  }

  /** For a duration that is not negative, the conversion rounds up: the ticks
      cover the duration and fall short of it by less than one tick. */
  lemma SetTimerMsRoundsUp(ms: int)
    requires ms >= 0 && MsInRange(ms)
    ensures MsPerTick * SetTimerMs(ms) >= ms
    ensures MsPerTick * SetTimerMs(ms) < ms + MsPerTick
  {
    CDivBounds(ms + 4, 5);
  }

  /** A duration that is an exact number of ticks converts exactly. */
  lemma {:induction false} SetTimerMsExact(k: int)
    requires k >= 0 && MsInRange(MsPerTick * k)
    ensures SetTimerMs(MsPerTick * k) == k
  {
    SetTimerMsRoundsUp(MsPerTick * k);
  }

  /** The engine's two timeouts: 1000 ms is 200 ticks and 250 ms is 50 ticks. */
  lemma EngineTimeouts()
    ensures SetTimerMs(1000) == 200
    ensures SetTimerMs(250) == 50
  {
    SetTimerMsExact(200);
    SetTimerMsExact(50);
  }

  /** A whole number of seconds is `TIMER_HZ` ticks per second, as long as
      `sec * 1000` fits in an `int`. */
  lemma SetTimerSecTicks(sec: int)
    requires sec >= 0 && SecInRange(sec)
    ensures SetTimerSec(sec) == TimerHz * sec
    ensures SetTimerSec(sec) == SetTimerMs(1000 * sec)
  {
    SetTimerMsExact(200 * sec);
  }

  /** For a negative argument the truncating division no longer rounds up:
      `set_timer_sec(-1)` gives -199 ticks, not -200. */
  lemma SetTimerSecNegative()
    ensures SetTimerSec(-1) == -199
  {
  }

  /** The conversion is monotone over every duration it computes without
      overflow, negative durations included. */
  lemma SetTimerMsMonotone(a: int, b: int)
    requires MsInRange(a) && MsInRange(b) && a <= b
    ensures SetTimerMs(a) <= SetTimerMs(b)
  {
    var x, y := a + 4, b + 4;
    if x >= 0 {
      DivMonotone(x, y);
    } else if y >= 0 {
      CDivBounds(x, 5);
      assert CDiv(x, 5) <= 0 <= CDiv(y, 5);
    } else {
      DivMonotone(-y, -x);
    }
  }

  /** Euclidean division by 5 of non-negative numbers is monotone. */
  lemma DivMonotone(x: int, y: int)
    requires 0 <= x <= y
    ensures x / 5 <= y / 5
  {
  }
}
