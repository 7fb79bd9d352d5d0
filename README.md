# pomo-oxide timer core in Dafny

pomo-oxide is a desktop pomodoro timer. Its core is `AppModel`: a state
machine that cycles Pomodoro → Break → Pomodoro → … and puts a Rest in place
of a Break after every `rest_count`-th pomodoro. It counts down in steps of
250 ms and counts completed pomodoros. It also reacts to the commands of the
view (`AppMsg`): Step, Toggle, Skip, Renew, Restart, ChangeConfig, Ignore.
Each countdown step is a background thread that sleeps and then sends
`Step`. The model gives each such thread a permission flag and clears the
flag of the pending one when the next command starts.

The model has four files:

- `config.dfy` (module `PomoConfig`) holds the values: `Phase`, `Config`,
  `State::duration` (`PhaseDuration`), `Config::default` (`DefaultConfig`) and
  `min_format` (`MinFormat`, as its minutes/seconds arithmetic). Durations
  are whole milliseconds. `rest_count` and `rest_counter` use a `u8` subset
  type, so the verifier checks every store to them for overflow.
- `commands.dfy` (module `Commands`) holds the messages: `AppMsg` as `Msg`.
  A configuration edit is given by the configuration it produces, and the
  outcome of opening the new sound file is a boolean.
- `engine.dfy` (module `Engine`) is the engine as values. `TimerState` is
  the fields of `AppModel` without the step permissions, the `player` and
  the `config_file` (src/main.rs:301, 307). Its `song` is the path the loaded
  sound was opened from. It also adds `played`, the list of sounds handed to
  the player. There is one function per
  method: `NextState`, `TryNextState`, `RestartState`, `Restart`,
  `ChangeConfig`, `Toggle`, and `Update` for the dispatcher. The file also
  holds the invariant `Inv` and the lemmas about command sequences: the
  countdown reaches zero and then expires, and the rest cycle repeats.
- `app_model.dfy` (module `App`) is `AppModel` as a class. Its fields and
  methods mirror the Rust ones and change the fields in place. `TryNextState`,
  `NextState`, `RestartState`, `Restart`, `ChangeConfig`, `Toggle`, `Update`
  and `UpdateAsWritten` are each proved to have exactly the effect of the
  engine function of the same name (`Engine.Update` for both dispatchers),
  `Dispatch` that of `Engine.Apply`, and the constructor that of
  `Engine.New`. `ClearStepPermission`, `GrantStepPermission` and
  `ScheduleStep` change the step permissions, which have no engine
  counterpart; their contracts state the new permissions directly. The step
  permissions are a map from token to flag, and the thread's check at fire
  time is `Deliver`.

Points where the code's behaviour is easy to misread:

- `rest_counter` moves when a Break or Rest ends, not when a pomodoro ends.
  After the first pomodoro of a cycle runs out, the counter is still 0
  (`Engine.DefaultFirstPomodoro`). The counter goes back to 0 when the Rest
  ends, not when it starts.
- A pomodoro counts as completed when it leaves with the timer at zero, and
  so does a Skip pressed at zero.
- The sound plays on every transition taken at zero, including when a Break
  or Rest ends. It also plays when the sound path changes. If the new file
  cannot be opened, the old sound plays. A rejected sound path still goes on
  to the Restart/Renew step.
- `rest_counter` agrees with the phase (`Engine.InCycle`) after every
  transition, restart and initial state. A configuration edit that changes
  `rest_count` during a Break or Rest can undo that agreement. When that
  happens, a Break can reset the counter, or a Rest can pass without
  resetting it.

## Model

| member | source | states |
|---|---|---|
| `PomoConfig.PhaseDuration` | src/main.rs:348-354 | each phase lasts its own configured time |
| `PomoConfig.DefaultConfig` | src/main.rs:510-520 | the defaults are 25, 5 and 20 minutes, a rest every 4 pomodoros and the bundled sound; they are usable (`rest_count >= 1`) |
| `PomoConfig.MinFormat` | src/main.rs:522-527 | the display is the least whole number of seconds covering the time (`millis <= 1000*total < millis + 1000`), and the seconds part is below 60, so two digits always suffice |
| `PomoConfig.MinFormatRoundTrip` | src/main.rs:522-527 | a whole number of seconds is shown unrounded: any minutes/seconds pair with seconds below 60 is what its total displays as |
| `Engine.New` | src/main.rs:313-330 | start paused in a full-length Pomodoro, counters at 0, the sound loaded exactly when it opens; the invariant holds |
| `Engine.Toggle` | src/main.rs:386-388 | an explicit value sets `running`, none flips it; nothing else changes |
| `Engine.RestartState` | src/main.rs:430-433 | Renew: the timer is the current phase's full duration and nothing else changes |
| `Engine.Restart` | src/main.rs:435-439 | Restart: Pomodoro, counter 0, full pomodoro time; `running`, the completed count and the rest are kept |
| `Engine.NextCounter` | src/main.rs:416-418 | `(counter + 1) % rest_count` is one place on, wrapping to 0 exactly at `rest_count` |
| `Engine.NextState` | src/main.rs:402-428 | the transition table: a Pomodoro goes to Rest iff it is the last of the cycle, to Break otherwise, keeping the counter; Break/Rest go to Pomodoro with the counter one place on; the count rises by one only for a Pomodoro left at zero; the new phase starts at full length; a sound plays iff the timer was zero and a song is loaded; the invariant holds, including `rest_counter < rest_count` |
| `Engine.TryNextState` | src/main.rs:396-400 | Step is a no-op while time is left and is the advance at zero |
| `Engine.Tick` | src/main.rs:279-281 | a running countdown loses 250 ms, or drops to zero when less is left; it never underflows and nothing else changes |
| `Engine.ChangeConfig` | src/main.rs:441-469 | every edited field except a rejected sound path is applied; a sound path whose file does not open reverts; when the new `rest_count` does not exceed the counter the result is a Restart, otherwise a Renew under the new configuration; `rest_counter < rest_count` afterwards; the song and the sound played follow the path change |
| `Engine.Apply` | src/main.rs:269-277 | every command keeps the engine invariant |
| `Engine.Update` | src/main.rs:266-295 | Ignore changes nothing; otherwise the command is applied and, if then running, the timer drops by exactly `min(250 ms, timer)` |
| `Engine.Run` | src/main.rs:279-293 | any number of delivered ticks keeps the invariant |
| `Engine.CountdownSteps` | src/main.rs:279-281 | while whole steps are left, each delivered tick takes exactly 250 ms off and changes nothing else |
| `Engine.TicksToZero` | src/main.rs:280-281 | the number of ticks a countdown takes is its length divided by 250 ms, rounded up |
| `Engine.CountdownExpires` | src/main.rs:279-293 | a running phase reaches zero after exactly that many ticks without changing phase, and the next tick advances the phase and starts the new countdown |
| `Engine.ExpireIsDeliveredTick` | src/main.rs:279-293 | the tick after a running countdown reaches zero delivers exactly the natural expiry `Expire`, then takes the first step off the next phase |
| `Engine.RoundsCount` | src/main.rs:402-421 | each pomodoro-and-break round that runs out completes one pomodoro and moves the counter one place modulo `rest_count`; nothing else but the countdown and the sounds changes |
| `Engine.RestEveryNthPomodoro` | src/main.rs:410-418 | from the start of a cycle, the pomodoro ending round `k` is followed by a Rest iff `k + 1` is a multiple of `rest_count`, by a Break otherwise, and after `rest_count` rounds the counter is back to 0 |
| `Engine.DefaultFirstPomodoro` | src/main.rs:404-415 | with the defaults, a pomodoro that runs out gives a 5 minute Break, one completed pomodoro and a counter still at 0; a Skip with 15 minutes left gives the Break without counting |
| `App.AppModel.Deliver` | src/main.rs:287-293 | a tick sends `Step` exactly when its permission is still set |
| `App.AppModel.constructor` | src/main.rs:313-330 | the new model is `Engine.New`, with no permission handed out |
| `App.AppModel.Toggle` | src/main.rs:386-388 | changes only `running`, as `Engine.Toggle` |
| `App.AppModel.ClearStepPermission` | src/main.rs:390-394 | the kept permission's flag is cleared and none is kept; no flag is left set |
| `App.AppModel.GrantStepPermission` | src/main.rs:283-285 | a permission with a fresh token is set and kept; it is the only live one |
| `App.AppModel.TryNextState` | src/main.rs:396-400 | has the effect of `Engine.TryNextState` |
| `App.AppModel.NextState` | src/main.rs:402-428 | has the effect of `Engine.NextState`; the in-place `+= 1` on the `u8` counter cannot overflow |
| `App.AppModel.RestartState` | src/main.rs:430-433 | changes only the timer, as `Engine.RestartState` |
| `App.AppModel.Restart` | src/main.rs:435-439 | has the effect of `Engine.Restart` |
| `App.AppModel.ChangeConfig` | src/main.rs:441-469 | has the effect of `Engine.ChangeConfig` |
| `App.AppModel.Dispatch` | src/main.rs:269-277 | each message has the effect of `Engine.Apply` |
| `App.AppModel.ScheduleStep` | src/main.rs:279-294 | a running timer loses one step and exactly one fresh permission is live; a stopped one is untouched |
| `App.AppModel.Update` | src/main.rs:266-295 | has the effect of `Engine.Update`; Ignore keeps the pending permission and changes nothing; on every other command every earlier permission is cleared for good and a fresh one is live exactly when the timer runs |
| `App.AppModel.UpdateAsWritten` | src/main.rs:266-295 | as `Update`, except that Ignore clears the pending permission and leaves `running` as it was |
| `App.IgnoreStallsRunningTimer` | src/main.rs:266-270 | start, then Ignore: as written the timer runs with no tick pending |
| `App.IgnoreKeepsTicking` | src/main.rs:266-295 | start, then Ignore, through the corrected `Update`: the first tick is still live and delivers `Step` |
| `App.StaleTickIsDropped` | src/main.rs:266-295 | after two commands of which the second is not Ignore, the tick scheduled after the first never delivers `Step` (an Ignore second keeps it live, see `App.IgnoreKeepsTicking`) |

## Left out

- The GTK view, widget signals, popover, file dialog and status bar (src/main.rs:48-264): user interface. The view is taken to send any sequence of `Msg` values.
- The threads, the sleep and the `AtomicBool` handoff (src/main.rs:284-293): concurrency. A tick is a token whose flag the model sets and clears. The time that passes during a sleep is not modelled, and neither is the order in which ticks and commands arrive; callers choose that order.
- Audio (`Player`, `Song`, `try_song`, `play_song_now`): a foreign library. Whether a file opens is a boolean input. Playing is recorded as the list of songs played. The panics of `Player::new().expect` and `play_song_now(..).unwrap()` are not modelled.
- Paths are compared as strings, in `Engine.ChangeConfig` and `App.AppModel.ChangeConfig` (src/main.rs:446). `PathBuf` compares components, which ignore repeated separators, interior `.` and a trailing `/`. So `sounds/a.ogg` against `sounds//a.ogg` is a change of sound here and not in the source. Only a hand-edited configuration file can hold such a spelling; the file dialog and the defaults do not make one.
- Loading and saving the configuration through the filesystem and JSON (src/main.rs:26-46, 457-462), the `config_file` field and the log lines: I/O.
- `ValidConfig`: the model requires `rest_count >= 1` of every configuration. A hand-edited configuration file with `rest_count` 0 would panic at the modulo on line 418. The view only offers 1 to 20 (line 163).
- Markup and string formatting (`as_markup`, `min_as_markup`, `status_bar`, the `Display` and `Debug` impls): presentation. `min_format` is modelled as its minutes/seconds pair, not as the string it prints.
- The float conversions of the spin buttons and the opacity (src/main.rs:118, 254): floating point in the view.
- `pomodoro_count` is a `usize` in the source and a `nat` here. It would need 2^64 completed pomodoros to wrap.
- Durations are whole milliseconds here. `Duration` keeps nanoseconds. The durations the view creates are whole seconds (spin buttons) and the countdown takes whole 250 ms steps, but a configuration read back from JSON (src/main.rs:36-37) may hold any nanosecond count. The model does not capture such sub-millisecond durations, nor the truncation of `as_millis()` at src/main.rs:524 that `min_format` applies to them.

## Findings

| source | as written | input that shows it | evidently intended | confidence | as-written member | corrected member |
|---|---|---|---|---|---|---|
| src/main.rs:266-270 | `update` clears the pending tick's permission first, then returns on `AppMsg::Ignore` before the `if self.running` block | the timer is running, then the sound file dialog is cancelled, which sends `Ignore` (line 68): `running` stays true, no permission is live, and the countdown stops until the next command | `Ignore` leaves the model and its pending tick as they were, so a running timer keeps counting down | medium; not executed | `App.AppModel.UpdateAsWritten`, shown by `App.IgnoreStallsRunningTimer` | `App.AppModel.Update`, shown by `App.IgnoreKeepsTicking` |
