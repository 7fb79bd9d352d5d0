/** `AppModel` as a class whose methods change its fields in place, as the
    Rust methods do. Each method that changes the timer state is proved to
    have exactly the effect of the engine function of the same name
    (`Dispatch`: `Engine.Apply`; both dispatchers: `Engine.Update`); the
    methods on step permissions state the new permissions directly.

    The background tick thread is not modelled. What it observes is: the
    model hands each thread a fresh permission flag, keeps a reference to the
    newest one and clears that flag when the next command starts; a thread
    whose flag is still set when its sleep ends sends `Step`. Permissions are
    tokens here: `permits` maps every token handed out so far to its flag. */
module App {
  import opened PomoConfig
  import Engine
  import Commands

  class AppModel {
    var running: bool
    var timer: nat
    var state: Phase
    var restCounter: u8
    var pomodoroCount: nat
    var config: Config
    /** The path the loaded `Song` was opened from. */
    var song: Option<Path>
    /** The songs handed to the player, oldest first. */
    var played: seq<Path>
    /** Every step permission handed to a tick so far, with its flag. */
    var permits: map<nat, bool>
    /** The permission the model keeps (`step_permission`). */
    var stepPermission: Option<nat>
    /** The token the next permission gets. */
    var nextToken: nat

    function View(): Engine.TimerState
      reads this
    {
      Engine.TimerState(running, timer, state, restCounter, pomodoroCount, config, song, played)
    }

    /** The permissions whose flag is still set. */
    function LivePermits(): set<nat>
      reads this
    {
      set p | p in permits && permits[p]
    }

    /** Tokens are never reused, and the only flag still set is the one of
        the permission the model keeps. */
    ghost predicate PermitsValid()
      reads this
    {
      && (forall p :: p in permits ==> p < nextToken)
      && LivePermits() == if stepPermission.Some? then {stepPermission.value} else {}
    }

    ghost predicate Valid()
      reads this
    {
      Engine.Inv(View()) && PermitsValid()
    }

    /** A tick is pending exactly while the timer runs. */
    predicate Ticking()
      reads this
    {
      running <==> stepPermission.Some?
    }

    /** What the tick thread holding `token` does when its sleep ends: send
        `Step` if its permission was not cleared meanwhile, nothing otherwise. */
    function Deliver(token: nat): (msg: Option<Commands.Msg>)
      reads this
      ensures msg.Some? <==> token in LivePermits()
      ensures msg.Some? ==> msg.value == Commands.Step
    {
      if token in permits && permits[token] then Some(Commands.Step) else None
    }

    /** `AppModel::new`; `songOpens` says whether the configured sound could
        be opened. */
    constructor (config: Config, songOpens: bool)
      requires ValidConfig(config)
      ensures Valid() && Ticking()
      ensures View() == Engine.New(config, songOpens)
      ensures permits == map[] && stepPermission == None && nextToken == 0
    {
      this.song := if songOpens then Some(config.soundPath) else None;
      this.state := Pomodoro;
      this.timer := PhaseDuration(Pomodoro, config);
      this.running := false;
      this.restCounter := 0;
      this.pomodoroCount := 0;
      this.config := config;
      this.played := [];
      this.permits := map[];
      this.stepPermission := None;
      this.nextToken := 0;
    }

    /** `toggle`. */
    method Toggle(explicit: Option<bool>)
      modifies this`running
      ensures View() == Engine.Toggle(old(View()), explicit)
    {
      running := match explicit case Some(b) => b case None => !running;
    }

    /** `clear_step_permission`: take the kept permission, if any, and clear
        its flag. */
    method ClearStepPermission()
      requires PermitsValid()
      modifies this`permits, this`stepPermission
      ensures PermitsValid() && stepPermission == None && LivePermits() == {}
      ensures forall p :: p in permits ==> !permits[p]
      ensures permits ==
        if old(stepPermission).Some? then old(permits)[old(stepPermission).value := false] else old(permits)
    {
      ghost var flags, live := permits, LivePermits();
      match stepPermission {
        case Some(p) =>
          permits := permits[p := false];
        case None =>
      }
      forall q | q in permits
        ensures !permits[q]
      {
        if stepPermission != Some(q) {
          assert flags[q] ==> q in live;
        }
      }
      stepPermission := None;
    }

    /** Hand a fresh, set permission to a new tick and keep it. */
    method GrantStepPermission()
      requires PermitsValid() && stepPermission == None
      modifies this`permits, this`stepPermission, this`nextToken
      ensures PermitsValid() && stepPermission == Some(old(nextToken)) && LivePermits() == {old(nextToken)}
      ensures permits == old(permits)[old(nextToken) := true] && nextToken == old(nextToken) + 1
    {
      assert nextToken !in permits;
      permits := permits[nextToken := true];
      assert LivePermits() == old(LivePermits()) + {nextToken};
      stepPermission := Some(nextToken);
      nextToken := nextToken + 1;
    }

    /** `try_next_state`. */
    method TryNextState()
      requires Engine.Consistent(View())
      modifies this`state, this`timer, this`restCounter, this`pomodoroCount, this`played
      ensures View() == Engine.TryNextState(old(View()))
    {
      if timer == 0 {
        NextState();
      }
    }

    /** `next_state`. */
    method NextState()
      requires Engine.Consistent(View())
      modifies this`state, this`timer, this`restCounter, this`pomodoroCount, this`played
      ensures View() == Engine.NextState(old(View()))
    {
      match state {
        case Pomodoro =>
          // a skip is not a completed pomodoro
          if timer == 0 {
            pomodoroCount := pomodoroCount + 1;
          }
          var following: u8 := restCounter + 1;
          state := if following >= config.restCount then Rest else Break;
        case Break | Rest =>
          restCounter := restCounter + 1;
          restCounter := restCounter % config.restCount;
          state := Pomodoro;
      }
      if timer == 0 && song.Some? {
        played := played + [song.value];
      }
      RestartState();
    }

    /** `restart_state`. */
    method RestartState()
      modifies this`timer
      ensures View() == Engine.RestartState(old(View()))
    {
      timer := PhaseDuration(state, config);
    }

    /** `restart`. */
    method Restart()
      modifies this`state, this`restCounter, this`timer
      ensures View() == Engine.Restart(old(View()))
    {
      state := Pomodoro;
      restCounter := 0;
      RestartState();
    }

    /** `change_config`, with the edit given as the configuration it
        produces and `songOpens` standing for `try_song` on the edited path.
        Saving the configuration to disk is not modelled. */
    method ChangeConfig(edited: Config, songOpens: bool)
      requires Engine.Consistent(View()) && ValidConfig(edited)
      modifies this`config, this`song, this`played, this`state, this`restCounter, this`timer
      ensures View() == Engine.ChangeConfig(old(View()), edited, songOpens)
    {
      var previousSoundPath := config.soundPath;
      config := edited;
      if previousSoundPath != config.soundPath {
        if songOpens {
          song := Some(config.soundPath);
        } else {
          config := config.(soundPath := previousSoundPath);
        }
        if song.Some? {
          played := played + [song.value];
        }
      }
      if config.restCount <= restCounter {
        Restart();
      } else {
        RestartState();
      }
    }

    /** The `match message` of `update`. */
    method Dispatch(m: Commands.Msg)
      requires Engine.Inv(View()) && Commands.ValidMsg(m)
      modifies this`running, this`config, this`song, this`played, this`state,
               this`restCounter, this`timer, this`pomodoroCount
      ensures View() == Engine.Apply(old(View()), m)
    {
      match m {
        case Ignore =>
        case Step => TryNextState();
        case Toggle(explicit) => Toggle(explicit);
        case Skip => NextState();
        case Renew => RestartState();
        case Restart => Restart();
        case ChangeConfig(edited, songOpens) => ChangeConfig(edited, songOpens);
      }
    }

    /** The `if self.running` block of `update`: take one step off the
        countdown and hand a fresh permission to the tick that will deliver
        the next `Step`. */
    method ScheduleStep()
      requires PermitsValid() && stepPermission == None
      modifies this`timer, this`permits, this`stepPermission, this`nextToken
      ensures PermitsValid() && Ticking()
      ensures running ==> timer == old(timer) - Engine.Min(SleepStep, old(timer))
      ensures running ==> permits == old(permits)[old(nextToken) := true] && LivePermits() == {old(nextToken)}
      ensures running ==> stepPermission == Some(old(nextToken)) && nextToken == old(nextToken) + 1
      ensures !running ==> timer == old(timer) && permits == old(permits) && nextToken == old(nextToken)
    {
      if running {
        var duration := Engine.Min(SleepStep, timer);
        timer := timer - duration;
        ClearStepPermission();
        GrantStepPermission();
      }
    }

    /** `update` with `Ignore` handled as the do-nothing it stands for: the
        pending tick, if any, stays valid. Every other command clears the
        previous permission first, so a tick scheduled before it can never
        deliver a `Step`, and afterwards a permission is live exactly when
        the timer runs. */
    method Update(m: Commands.Msg)
      requires Valid() && Ticking() && Commands.ValidMsg(m)
      modifies this
      ensures Valid() && Ticking()
      ensures View() == Engine.Update(old(View()), m)
      ensures m.Ignore? ==>
        permits == old(permits) && stepPermission == old(stepPermission) && nextToken == old(nextToken)
      ensures !m.Ignore? ==> forall p :: p in old(permits) ==> p in permits && !permits[p]
      ensures !m.Ignore? && running ==>
        stepPermission == Some(old(nextToken)) && nextToken == old(nextToken) + 1 &&
        permits.Keys == old(permits).Keys + {old(nextToken)}
      ensures !m.Ignore? && !running ==>
        LivePermits() == {} && permits.Keys == old(permits).Keys && nextToken == old(nextToken)
    {
      if m.Ignore? {
        return;
      }
      ClearStepPermission();
      Dispatch(m);
      ScheduleStep();
    }

    /** `update` as the source has it: `Ignore` returns after the previous
        permission has been cleared. A timer that was running stays
        `running` with no tick left to deliver a `Step`. */
    method UpdateAsWritten(m: Commands.Msg)
      requires Valid() && Commands.ValidMsg(m)
      modifies this
      ensures Valid()
      ensures View() == Engine.Update(old(View()), m)
      ensures forall p :: p in old(permits) ==> p in permits && !permits[p]
      ensures !m.Ignore? ==> Ticking()
      ensures m.Ignore? ==> running == old(running) && LivePermits() == {}
    {
      ClearStepPermission();
      if m.Ignore? {
        return;
      }
      Dispatch(m);
      ScheduleStep();
    }
  }

  /** Start the timer, then cancel the sound file dialog (which sends
      `Ignore`): as written, the timer is left running with no tick pending,
      so the countdown stops until the next command. */
  method IgnoreStallsRunningTimer(config: Config, songOpens: bool) returns (app: AppModel)
    requires ValidConfig(config)
    ensures app.Valid() && app.running && !app.Ticking() && app.LivePermits() == {}
  {
    app := new AppModel(config, songOpens);
    app.UpdateAsWritten(Commands.Toggle(None));
    app.UpdateAsWritten(Commands.Ignore);
  }

  /** The same two commands through the corrected `Update`: the tick
      scheduled by the start is still live and will deliver its `Step`. */
  method IgnoreKeepsTicking(config: Config, songOpens: bool) returns (app: AppModel)
    requires ValidConfig(config)
    ensures app.Valid() && app.running && app.Ticking() && app.LivePermits() == {0}
    ensures app.Deliver(0) == Some(Commands.Step)
  {
    app := new AppModel(config, songOpens);
    app.Update(Commands.Toggle(None));
    app.Update(Commands.Ignore);
  }

  /** Two commands in a row, the second not `Ignore`: the tick scheduled
      after the first can never deliver a `Step` once the second has been
      handled. (An `Ignore` second keeps it live, see `IgnoreKeepsTicking`.) */
  method StaleTickIsDropped(app: AppModel, first: Commands.Msg, second: Commands.Msg) returns (stale: Option<nat>)
    requires app.Valid() && app.Ticking() && Commands.ValidMsg(first) && Commands.ValidMsg(second)
    requires !second.Ignore?
    modifies app
    ensures app.Valid() && app.Ticking()
    ensures stale.Some? ==> app.Deliver(stale.value) == None
  {
    app.Update(first);
    stale := app.stepPermission;
    app.Update(second);
  }
}
