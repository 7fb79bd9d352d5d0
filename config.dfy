/** Values shared by the timer engine: the phases of a pomodoro cycle, the
    user configuration, the duration of each phase and the minutes:seconds
    split used to display the remaining time.

    Durations are whole milliseconds (`nat`). The source keeps them as
    `std::time::Duration`; the durations its view builds are whole seconds
    (spin buttons) and the countdown takes whole 250 ms steps. A
    configuration read from disk may hold sub-millisecond durations, which
    this model does not represent. */
module PomoConfig {

  /** Rust's `u8`: the width of `rest_count` and `rest_counter`. Assigning an
      out-of-range value is a verification error, which is how the model
      shows that the `+ 1` on the counter never overflows. */
  type u8 = x: int | 0 <= x < 256

  /** A filesystem path as its string. Two paths are equal here exactly when
      their strings are; `PathBuf` equality compares components instead, so
      it also equates spellings that differ only in repeated separators,
      interior `.` or a trailing `/`. */
  type Path = string

  datatype Option<T> = None | Some(value: T)

  /** The length of one countdown step (`SLEEP_STEP`), in milliseconds. */
  const SleepStep: nat := 250

  /** The sound file a fresh configuration points at (`DEFAULT_SOUND`). */
  const DefaultSound: Path := "default.ogg"

  /** The phase of the cycle (`State`). The default phase is `Pomodoro`. */
  datatype Phase = Pomodoro | Break | Rest

  /** The persisted user configuration. */
  datatype Config = Config(
    pomodoroTime: nat,
    breakTime: nat,
    restTime: nat,
    /** How many pomodoros until the break is a rest. */
    restCount: u8,
    soundPath: Path)

  /** A configuration the engine can run on: the counter is reduced modulo
      `restCount`, so zero would make the modulo panic. */
  predicate ValidConfig(c: Config) {
    c.restCount >= 1
  }

  /** `State::duration`: the configured length of a phase. */
  function PhaseDuration(p: Phase, c: Config): (d: nat)
    ensures p == Pomodoro ==> d == c.pomodoroTime
    ensures p == Break ==> d == c.breakTime
    ensures p == Rest ==> d == c.restTime
  {
    match p
    case Pomodoro => c.pomodoroTime
    case Break => c.breakTime
    case Rest => c.restTime
  }

  function Minutes(m: nat): nat { m * 60 * 1000 }

  /** `Config::default`: 25 minute pomodoros, 5 minute breaks, 20 minute
      rests, a rest after every fourth pomodoro, the bundled sound. */
  function DefaultConfig(): (c: Config)
    ensures ValidConfig(c)
    ensures c.pomodoroTime == Minutes(25) && c.breakTime == Minutes(5) && c.restTime == Minutes(20)
    ensures c.restCount == 4 && c.soundPath == DefaultSound
  {
    Config(Minutes(25), Minutes(5), Minutes(20), 4, DefaultSound)
  }

  /** What `min_format` displays: `minutes:seconds`, seconds zero-padded. */
  datatype Clock = Clock(minutes: nat, seconds: nat)

  function TotalSeconds(c: Clock): nat {
    c.minutes * 60 + c.seconds
  }

  /** `min_format`: round the milliseconds up to whole seconds, then split
      them into minutes and seconds. The result is the shortest whole number
      of seconds covering `millis`, and the seconds part fits the two digits
      of the `{:02}` format. */
  function MinFormat(millis: nat): (c: Clock)
    ensures c.seconds < 60
    ensures millis <= TotalSeconds(c) * 1000 < millis + 1000
  {
    var secs := millis / 1000 + (if millis % 1000 != 0 then 1 else 0);
    Clock(secs / 60, secs % 60)
  }

  /** A whole number of seconds is shown unrounded: the display of
      `TotalSeconds(c)` seconds is `c` itself whenever its seconds part is
      below 60. */
  lemma MinFormatRoundTrip(c: Clock)
    requires c.seconds < 60
    ensures MinFormat(TotalSeconds(c) * 1000) == c
  {
  }
}
