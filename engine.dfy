/** The timer engine as values: one `TimerState` holds everything
    `AppModel` keeps except the step permissions, and each function below is
    the effect of one of its methods. The class in app_model.dfy is proved
    to change its fields exactly as these functions say; the lemmas at the
    end state what a sequence of commands does (counting down, the rest
    cycle). */
module Engine {
  import opened PomoConfig
  import Commands

  /** The observable state of `AppModel`. `song` is the path the loaded
      `Song` was opened from (`None` when no sound could be opened) and
      `played` lists the songs handed to the player, oldest first. */
  datatype TimerState = TimerState(
    running: bool,
    timer: nat,
    state: Phase,
    restCounter: u8,
    pomodoroCount: nat,
    config: Config,
    song: Option<Path>,
    played: seq<Path>)

  /** What holds between commands whatever the countdown shows: a usable
      configuration, the cycle counter below `restCount`, and a loaded sound
      that is the configured one. */
  predicate Consistent(s: TimerState) {
    && ValidConfig(s.config)
    && s.restCounter < s.config.restCount
    && (s.song.Some? ==> s.song.value == s.config.soundPath)
  }

  /** The engine invariant: consistent, and the countdown never shows more
      than the full length of the current phase. */
  predicate Inv(s: TimerState) {
    Consistent(s) && s.timer <= PhaseDuration(s.state, s.config)
  }

  /** The counter agrees with the phase, as it does in an uninterrupted
      cycle: a Rest follows the last pomodoro of a cycle, a Break any other. */
  predicate InCycle(s: TimerState) {
    && (s.state == Rest ==> s.restCounter + 1 == s.config.restCount)
    && (s.state == Break ==> s.restCounter + 1 < s.config.restCount)
  }

  function Min(a: nat, b: nat): nat {
    if a <= b then a else b
  }

  /** `AppModel::new`: a paused pomodoro at full length; `songOpens` says
      whether the configured sound could be opened. */
  function New(config: Config, songOpens: bool): (s: TimerState)
    requires ValidConfig(config)
    ensures Inv(s) && InCycle(s)
    ensures !s.running && s.state == Pomodoro && s.timer == config.pomodoroTime
    ensures s.restCounter == 0 && s.pomodoroCount == 0 && s.config == config && s.played == []
    ensures s.song.Some? <==> songOpens
  {
    var song := if songOpens then Some(config.soundPath) else None;
    TimerState(false, PhaseDuration(Pomodoro, config), Pomodoro, 0, 0, config, song, [])
  }

  /** `toggle`: set `running` to the explicit value, or flip it. */
  function Toggle(s: TimerState, explicit: Option<bool>): (r: TimerState)
    ensures explicit.Some? ==> r.running == explicit.value
    ensures explicit.None? ==> r.running != s.running
    ensures r.(running := s.running) == s
  {
    match explicit
    case Some(b) => s.(running := b)
    case None => s.(running := !s.running)
  }

  /** `restart_state` (Renew): the current phase starts over. */
  function RestartState(s: TimerState): (r: TimerState)
    ensures r.timer == PhaseDuration(s.state, s.config)
    ensures r.(timer := s.timer) == s
    ensures Consistent(s) ==> Inv(r)
  {
    s.(timer := PhaseDuration(s.state, s.config))
  }

  /** `restart` (Restart): back to the first pomodoro of a cycle, at full
      length; `running` and the completed count are kept. */
  function Restart(s: TimerState): (r: TimerState)
    ensures r.state == Pomodoro && r.restCounter == 0 && r.timer == s.config.pomodoroTime
    ensures r.(state := s.state, restCounter := s.restCounter, timer := s.timer) == s
    ensures InCycle(r)
    ensures ValidConfig(s.config) && (s.song.Some? ==> s.song.value == s.config.soundPath) ==> Inv(r)
  {
    RestartState(s.(state := Pomodoro, restCounter := 0))
  }

  /** The counter after leaving a Break or Rest, `(counter + 1) % count`:
      one place on, wrapping to 0 at `count`. */
  function NextCounter(counter: u8, count: u8): (r: u8)
    requires counter < count
    ensures r == if counter + 1 == count then 0 else counter + 1
  {
    assert (counter + 1) % count == if counter + 1 == count then 0 else counter + 1 by {
      if counter + 1 == count {
        ModUnique(count, count, 1, 0);
      } else {
        ModUnique(counter + 1, count, 0, counter + 1);
      }
    }
    (counter + 1) % count
  }

  /** `next_state` (Skip, and Step at zero): the transition table. A
      pomodoro is counted as completed only when it ran down to zero, and a
      sound is played on every transition at zero. */
  function NextState(s: TimerState): (r: TimerState)
    requires Consistent(s)
    ensures Inv(r) && InCycle(r)
    ensures r.state == Rest <==> s.state == Pomodoro && s.restCounter + 1 == s.config.restCount
    ensures r.state == Break <==> s.state == Pomodoro && s.restCounter + 1 < s.config.restCount
    ensures r.state == Pomodoro <==> s.state != Pomodoro
    ensures s.state == Pomodoro ==> r.restCounter == s.restCounter
    ensures s.state != Pomodoro ==>
      r.restCounter == if s.restCounter + 1 == s.config.restCount then 0 else s.restCounter + 1
    ensures InCycle(s) && s.state != Pomodoro ==> (r.restCounter == 0 <==> s.state == Rest)
    ensures r.pomodoroCount == s.pomodoroCount + if s.state == Pomodoro && s.timer == 0 then 1 else 0
    ensures r.timer == PhaseDuration(r.state, r.config)
    ensures r.played == s.played + if s.timer == 0 && s.song.Some? then [s.song.value] else []
    ensures r.running == s.running && r.config == s.config && r.song == s.song
  {
    var moved :=
      match s.state
      case Pomodoro =>
        s.(pomodoroCount := s.pomodoroCount + (if s.timer == 0 then 1 else 0),
           state := if s.restCounter + 1 >= s.config.restCount then Rest else Break)
      case _ =>
        s.(restCounter := NextCounter(s.restCounter, s.config.restCount), state := Pomodoro);
    var chimed := if s.timer == 0 && s.song.Some? then moved.(played := s.played + [s.song.value]) else moved;
    RestartState(chimed)
  }

  /** `try_next_state` (Step): advance only once the countdown is at zero. */
  function TryNextState(s: TimerState): (r: TimerState)
    requires Consistent(s)
    ensures s.timer != 0 ==> r == s
    ensures s.timer == 0 ==> r == NextState(s)
    ensures Inv(s) ==> Inv(r)
  {
    if s.timer == 0 then NextState(s) else s
  }

  /** The countdown half of `update`: a running timer loses one step, or
      what is left of it when that is less. */
  function Tick(s: TimerState): (r: TimerState)
    ensures r.timer == if s.timer >= SleepStep then s.timer - SleepStep else 0
    ensures r.(timer := s.timer) == s
    ensures Inv(s) ==> Inv(r)
  {
    s.(timer := s.timer - Min(SleepStep, s.timer))
  }

  /** `change_config`: apply the edit; if the sound path changed, load the
      new sound, or put the old path back when it cannot be opened, and play
      the loaded sound; then Restart when the counter no longer fits the new
      `restCount`, Renew otherwise. */
  function ChangeConfig(s: TimerState, edited: Config, songOpens: bool): (r: TimerState)
    requires Consistent(s) && ValidConfig(edited)
    ensures Inv(r)
    ensures r.config.(soundPath := edited.soundPath) == edited
    ensures r.config.soundPath ==
      if edited.soundPath != s.config.soundPath && !songOpens then s.config.soundPath else edited.soundPath
    ensures edited.restCount <= s.restCounter ==>
      r.state == Pomodoro && r.restCounter == 0 && r.timer == edited.pomodoroTime && InCycle(r)
    ensures s.restCounter < edited.restCount ==>
      r.state == s.state && r.restCounter == s.restCounter && r.timer == PhaseDuration(s.state, r.config)
    ensures r.running == s.running && r.pomodoroCount == s.pomodoroCount
    ensures r.song == if edited.soundPath != s.config.soundPath && songOpens then Some(edited.soundPath) else s.song
    ensures r.played == s.played +
      if edited.soundPath != s.config.soundPath && r.song.Some? then [r.song.value] else []
  {
    var changed := edited.soundPath != s.config.soundPath;
    var config := if changed && !songOpens then edited.(soundPath := s.config.soundPath) else edited;
    var song := if changed && songOpens then Some(edited.soundPath) else s.song;
    var played := if changed && song.Some? then s.played + [song.value] else s.played;
    var applied := s.(config := config, song := song, played := played);
    if config.restCount <= s.restCounter then Restart(applied) else RestartState(applied)
  }

  /** The command half of `update`: what each message does to the model. */
  function Apply(s: TimerState, m: Commands.Msg): (r: TimerState)
    requires Inv(s) && Commands.ValidMsg(m)
    ensures Inv(r)
  {
    match m
    case Ignore => s
    case Step => TryNextState(s)
    case Toggle(explicit) => Toggle(s, explicit)
    case Skip => NextState(s)
    case Renew => RestartState(s)
    case Restart => Restart(s)
    case ChangeConfig(edited, songOpens) => ChangeConfig(s, edited, songOpens)
  }

  /** `update` on the model: apply the command and, if the timer then runs,
      count one step down. `Ignore` returns before the countdown. */
  function Update(s: TimerState, m: Commands.Msg): (r: TimerState)
    requires Inv(s) && Commands.ValidMsg(m)
    ensures Inv(r)
    ensures m.Ignore? ==> r == s
    ensures r.(timer := Apply(s, m).timer) == Apply(s, m)
    ensures !m.Ignore? && r.running ==> Apply(s, m).timer - r.timer == Min(SleepStep, Apply(s, m).timer)
    ensures !r.running ==> r.timer == Apply(s, m).timer
  {
    if m.Ignore? then s
    else
      var applied := Apply(s, m);
      if applied.running then Tick(applied) else applied
  }

  /** The model after `n` ticks, each delivered as a `Step` command. */
  function Run(s: TimerState, n: nat): (r: TimerState)
    requires Inv(s)
    ensures Inv(r)
    decreases n
  {
    if n == 0 then s else Run(Update(s, Commands.Step), n - 1)
  }

  lemma {:induction false} RunAdd(s: TimerState, a: nat, b: nat)
    requires Inv(s)
    ensures Run(s, a + b) == Run(Run(s, a), b)
    decreases a
  {
    if a > 0 {
      RunAdd(Update(s, Commands.Step), a - 1, b);
    }
  }

  /** While a whole step is left, each tick takes exactly one step off the
      countdown and changes nothing else. */
  lemma {:induction false} CountdownSteps(s: TimerState, n: nat)
    requires Inv(s) && s.running && n * SleepStep <= s.timer
    ensures Run(s, n) == s.(timer := s.timer - n * SleepStep)
    decreases n
  {
    if n > 0 {
      var next := Update(s, Commands.Step);
      assert next == s.(timer := s.timer - SleepStep);
      CountdownSteps(next, n - 1);
    }
  }

  /** How many ticks a countdown of `millis` takes: one per step, rounded up. */
  function TicksToZero(millis: nat): (n: nat)
    ensures millis <= n * SleepStep < millis + SleepStep
  {
    millis / SleepStep + if millis % SleepStep != 0 then 1 else 0
  }

  /** A running phase reaches zero after exactly `TicksToZero` ticks without
      changing phase, and the tick after that is the natural expiry: the
      phase advances and the next phase starts counting down. */
  lemma {:induction false} CountdownExpires(s: TimerState)
    requires Inv(s) && s.running
    ensures Run(s, TicksToZero(s.timer)) == s.(timer := 0)
    ensures Run(s, TicksToZero(s.timer) + 1) == Tick(NextState(s.(timer := 0)))
  {
    var whole := s.timer / SleepStep;
    var n := TicksToZero(s.timer);
    CountdownSteps(s, whole);
    var left := Run(s, whole);
    if n != whole {
      RunAdd(s, whole, 1);
      assert Run(left, 1) == Update(left, Commands.Step);
    }
    var zero := s.(timer := 0);
    assert Run(s, n) == zero;
    RunAdd(s, n, 1);
    assert Run(zero, 1) == Update(zero, Commands.Step);
  }

  /** A phase that runs out: the countdown is at zero and `Step` arrives. */
  function Expire(s: TimerState): (r: TimerState)
    requires Consistent(s)
    ensures Inv(r)
  {
    TryNextState(s.(timer := 0))
  }

  /** A natural expiry is what the tick after the countdown reaches zero
      delivers, before that tick starts the next phase's countdown. */
  lemma ExpireIsDeliveredTick(s: TimerState)
    requires Inv(s) && s.running
    ensures Run(s, TicksToZero(s.timer) + 1) == Tick(Expire(s))
  {
    CountdownExpires(s);
  }

  /** One round of the cycle: a pomodoro runs out, then its break or rest. */
  function Round(s: TimerState): (r: TimerState)
    requires Consistent(s)
    ensures Inv(r)
  {
    Expire(Expire(s))
  }

  function Rounds(s: TimerState, k: nat): (r: TimerState)
    requires Inv(s)
    ensures Inv(r)
    decreases k
  {
    if k == 0 then s else Rounds(Round(s), k - 1)
  }

  lemma MulMono(a: nat, b: nat, n: nat)
    requires a <= b
    ensures a * n <= b * n
  {
  }

  /** Euclidean division is determined by quotient and remainder. */
  lemma ModUnique(a: nat, n: nat, q: nat, r: nat)
    requires n > 0 && r < n && a == q * n + r
    ensures a % n == r
  {
    var q0, r0 := a / n, a % n;
    assert a == q0 * n + r0;
    if q0 < q {
      assert q0 * n + n <= q * n by { MulMono(q0 + 1, q, n); }
    } else if q < q0 {
      assert q * n + n <= q0 * n by { MulMono(q + 1, q0, n); }
    }
  }

  lemma ModAddDivisor(x: nat, n: nat)
    requires n > 0
    ensures (x + n) % n == x % n
  {
    ModUnique(x, n, x / n, x % n);
    ModUnique(x + n, n, x / n + 1, x % n);
  }

  /** Each round starts a new pomodoro, counts exactly one completed
      pomodoro and moves the cycle counter one place modulo `restCount`;
      nothing else but the countdown and the sounds played changes. */
  lemma {:induction false} RoundsCount(s: TimerState, k: nat)
    requires Inv(s) && s.state == Pomodoro
    ensures Rounds(s, k).state == Pomodoro
    ensures Rounds(s, k).restCounter == (s.restCounter + k) % s.config.restCount
    ensures Rounds(s, k).pomodoroCount == s.pomodoroCount + k
    ensures Rounds(s, k).(restCounter := s.restCounter, pomodoroCount := s.pomodoroCount,
                          timer := s.timer, played := s.played) == s
    decreases k
  {
    if k > 0 {
      var n := s.config.restCount;
      var next := Round(s);
      assert next.restCounter == (s.restCounter + 1) % n by {
        if s.restCounter + 1 == n { ModUnique(n, n, 1, 0); }
        else { ModUnique(s.restCounter + 1, n, 0, s.restCounter + 1); }
      }
      RoundsCount(next, k - 1);
      assert (next.restCounter + (k - 1)) % n == (s.restCounter + k) % n by {
        if s.restCounter + 1 == n {
          ModAddDivisor(k - 1, n);
        }
      }
    }
  }

  /** The rest cycle: starting a cycle with `restCount == N`, the pomodoro
      that ends round `k` is followed by a Rest exactly when `k + 1` is a
      multiple of N, otherwise by a Break; after N rounds the counter is
      back to 0, so the cycle repeats. */
  lemma {:induction false} RestEveryNthPomodoro(s: TimerState, k: nat)
    requires Inv(s) && s.state == Pomodoro && s.restCounter == 0
    ensures Expire(Rounds(s, k)).state == if (k + 1) % s.config.restCount == 0 then Rest else Break
    ensures Rounds(s, s.config.restCount).restCounter == 0
  {
    var n := s.config.restCount;
    RoundsCount(s, k);
    RoundsCount(s, n);
    ModSucc(k, n);
    ModUnique(n, n, 1, 0);
  }

  lemma ModSucc(k: nat, n: nat)
    requires n > 0
    ensures k % n + 1 == n <==> (k + 1) % n == 0
  {
    var c := k % n;
    ModUnique(k, n, k / n, c);
    if c + 1 == n {
      ModUnique(k + 1, n, k / n + 1, 0);
    } else {
      ModUnique(k + 1, n, k / n, c + 1);
    }
  }

  /** With the default configuration: a pomodoro that runs out is followed
      by a full 5 minute Break and counts as completed, the cycle counter
      still 0; a skip at 15 minutes left also goes to the Break but does not
      count. */
  lemma DefaultFirstPomodoro(songOpens: bool)
    ensures var s := New(DefaultConfig(), songOpens).(running := true);
      && Expire(s) == s.(state := Break, timer := Minutes(5), pomodoroCount := 1, played := Expire(s).played)
      && Update(s.(timer := Minutes(15)), Commands.Skip) ==
           s.(state := Break, timer := Minutes(5) - SleepStep)
  {
  }
}
