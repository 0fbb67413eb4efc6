/**
 * The Pomodoro session controller: one session record replaced by each transition
 * (start, pause, resume, stop, skip, the one-second tick and the foreground
 * correction) plus the settings record. The wall clock is a parameter (`now`, in
 * milliseconds); the interval timer is the `Tick` method, called once per second.
 */
module PomodoroContext {
  import opened Wrappers
  import opened PomodoroTypes

  /** `handlePhaseComplete`: the next break after a work phase, otherwise the next work phase. */
  function PhaseComplete(s: PomodoroState, settings: Settings): PomodoroState {
    var newSessionCount := if s.phase == Work then s.sessionCount + 1 else s.sessionCount;
    if s.phase == Work then
      if LongBreakDue(newSessionCount, settings.sessionsUntilLongBreak) then
        PomodoroState(LongBreak, Seconds(settings.longBreakDuration), false, newSessionCount, s.currentTask)
      else
        PomodoroState(ShortBreak, Seconds(settings.shortBreakDuration), false, newSessionCount, s.currentTask)
    else
      PomodoroState(Work, Seconds(settings.workDuration), false, newSessionCount, s.currentTask)
  }

  /** `count % every === 0` in JavaScript: a zero divisor gives NaN, which is never `0`;
      otherwise the truncated remainder is zero exactly when `every` divides `count`. */
  predicate LongBreakDue(count: nat, every: int) {
    every != 0 && count % every == 0
  }

  /** Completing a work phase counts one more session and starts a long break exactly when
      the new count is a multiple of `sessionsUntilLongBreak`, else a short break; the
      timer is left paused and the task is kept. */
  lemma WorkPhaseComplete(s: PomodoroState, settings: Settings)
    requires s.phase == Work
    requires settings.sessionsUntilLongBreak >= 1
    ensures var r := PhaseComplete(s, settings);
      && r.sessionCount == s.sessionCount + 1
      && (r.phase == LongBreak <==> (s.sessionCount + 1) % settings.sessionsUntilLongBreak == 0)
      && (r.phase == LongBreak || r.phase == ShortBreak)
      && r.timeRemaining == (if r.phase == LongBreak then settings.longBreakDuration
                             else settings.shortBreakDuration) * 60
      && !r.isRunning && r.currentTask == s.currentTask
  {
  }

  /** Completing any other phase (a break, or idle through skip) returns to work with the
      full work duration, leaves the session count alone and pauses. */
  lemma OtherPhaseComplete(s: PomodoroState, settings: Settings)
    requires s.phase != Work
    ensures var r := PhaseComplete(s, settings);
      && r.phase == Work && r.timeRemaining == settings.workDuration * 60
      && r.sessionCount == s.sessionCount && !r.isRunning && r.currentTask == s.currentTask
  {
  }

  /** The one-second tick, as the state it leaves once React has applied both queued updates:
      it acts only while running with time left; above one second it takes one second off;
      at one second or less the phase-complete update (queued inside the updater) lands
      after the updater's own zeroed copy, so the result is the phase-complete state. */
  function TickResult(s: PomodoroState, settings: Settings): PomodoroState {
    if !(s.isRunning && s.timeRemaining > 0) then s
    else if s.timeRemaining <= 1 then PhaseComplete(s, settings)
    else s.(timeRemaining := s.timeRemaining - 1)
  }

  /** `Math.floor((now - since) / 1000)`; Dafny's division by a positive divisor is floor division. */
  function ElapsedSeconds(since: int, now: int): int {
    (now - since) / 1000
  }

  /** The state after the app returns to the foreground while running, `elapsed` whole
      seconds after the last recorded timestamp. */
  function ForegroundResult(s: PomodoroState, settings: Settings, elapsed: int): PomodoroState {
    var t := if s.timeRemaining - elapsed > 0 then s.timeRemaining - elapsed else 0;
    if t == 0 then PhaseComplete(s, settings) else s.(timeRemaining := t)
  }

  /** `n` ticks in a row. */
  function Ticks(s: PomodoroState, settings: Settings, n: nat): PomodoroState
    decreases n
  {
    if n == 0 then s else Ticks(TickResult(s, settings), settings, n - 1)
  }

  /** `n` skips in a row. */
  function Skips(s: PomodoroState, settings: Settings, n: nat): PomodoroState
    decreases n
  {
    if n == 0 then s else Skips(PhaseComplete(s, settings), settings, n - 1)
  }

  /** A tick changes nothing unless running with time left; above one second it removes
      exactly one second and changes nothing else. */
  lemma TickSteps(s: PomodoroState, settings: Settings)
    ensures !(s.isRunning && s.timeRemaining > 0) ==> TickResult(s, settings) == s
    ensures s.isRunning && s.timeRemaining > 1 ==>
      TickResult(s, settings) == s.(timeRemaining := s.timeRemaining - 1)
    ensures s.isRunning && 0 < s.timeRemaining <= 1 ==>
      TickResult(s, settings) == PhaseComplete(s, settings)
  {
  }

  /** The phase-complete rule reads only the phase, the count and the task. */
  lemma PhaseCompleteIgnoresTimer(s: PomodoroState, settings: Settings, t: int, running: bool)
    ensures PhaseComplete(s.(timeRemaining := t, isRunning := running), settings) == PhaseComplete(s, settings)
  {
  }

  /**
   * While running with `T >= 1` seconds left, the first `k < T` ticks count down one second
   * each and the `T`-th tick completes the phase: completion fires exactly once, after
   * exactly `T` ticks, and gives the same state as skipping.
   */
  lemma {:induction false} CountdownCompletes(s: PomodoroState, settings: Settings, k: nat)
    requires s.isRunning && s.timeRemaining >= 1
    ensures k < s.timeRemaining ==> Ticks(s, settings, k) == s.(timeRemaining := s.timeRemaining - k)
    ensures k == s.timeRemaining ==> Ticks(s, settings, k) == PhaseComplete(s, settings)
    decreases k
  {
    if k > 0 && k <= s.timeRemaining {
      if s.timeRemaining == 1 {
        assert Ticks(s, settings, k) == Ticks(PhaseComplete(s, settings), settings, 0);
      } else {
        var next := s.(timeRemaining := s.timeRemaining - 1);
        assert TickResult(s, settings) == next;
        CountdownCompletes(next, settings, k - 1);
        PhaseCompleteIgnoresTimer(s, settings, s.timeRemaining - 1, true);
      }
    }
  }

  /** Skipping a running phase gives what letting its countdown reach zero gives. */
  lemma SkipEqualsCountdown(s: PomodoroState, settings: Settings)
    requires s.isRunning && s.timeRemaining >= 1
    ensures PhaseComplete(s, settings) == Ticks(s, settings, s.timeRemaining as nat)
  {
    CountdownCompletes(s, settings, s.timeRemaining as nat);
  }

  /**
   * The foreground correction does what the missed ticks would have done: after `e` elapsed
   * seconds (not more than the time left) it equals `e` ticks, and after longer it equals
   * the completion of the phase, so time spent in the background is not added to a phase.
   */
  lemma ForegroundEqualsTicks(s: PomodoroState, settings: Settings, e: nat)
    requires s.isRunning && s.timeRemaining >= 1
    ensures e <= s.timeRemaining ==> ForegroundResult(s, settings, e) == Ticks(s, settings, e)
    ensures e >= s.timeRemaining ==>
      ForegroundResult(s, settings, e) == Ticks(s, settings, s.timeRemaining as nat)
  {
    if e < s.timeRemaining {
      CountdownCompletes(s, settings, e);
    } else {
      CountdownCompletes(s, settings, s.timeRemaining as nat);
    }
  }

  /** With the clock set back (a negative elapsed time) the correction adds time to the phase. */
  lemma ForegroundClockSetBack(s: PomodoroState, settings: Settings, e: int)
    requires s.timeRemaining >= 0 && e < 0
    ensures ForegroundResult(s, settings, e).timeRemaining == s.timeRemaining - e > s.timeRemaining
  {
  }

  /** The state `startPomodoro(task)` sets. */
  function Started(settings: Settings, task: Option<string>): PomodoroState {
    PomodoroState(Work, Seconds(settings.workDuration), true, 0, task)
  }

  /** The state `stopPomodoro` sets, also the initial state under the default settings. */
  function Stopped(settings: Settings): PomodoroState {
    PomodoroState(Idle, Seconds(settings.workDuration), false, 0, None)
  }

  /** After exactly `workDuration * 60` ticks from a start, the first work phase is over:
      one session, a short break (a long break needs at least two sessions), paused. */
  lemma StartThenFullCountdown(settings: Settings, task: Option<string>)
    requires ValidSettings(settings)
    ensures var r := Ticks(Started(settings, task), settings, (settings.workDuration * 60) as nat);
      && r.phase == ShortBreak && r.timeRemaining == settings.shortBreakDuration * 60
      && r.sessionCount == 1 && !r.isRunning && r.currentTask == task
  {
    var s := Started(settings, task);
    CountdownCompletes(s, settings, (settings.workDuration * 60) as nat);
    assert 1 % settings.sessionsUntilLongBreak == 1;
  }

  /**
   * Skipping through `k` full work/break cycles from a work phase with count `c` counts
   * `k` sessions and is back at work; the break that follows the next work phase is long
   * exactly when `c + k + 1` is a multiple of `sessionsUntilLongBreak`.
   */
  lemma {:induction false} Cycles(s: PomodoroState, settings: Settings, k: nat)
    requires s.phase == Work && settings.sessionsUntilLongBreak >= 1
    ensures Skips(s, settings, 2 * k).phase == Work
    ensures Skips(s, settings, 2 * k).sessionCount == s.sessionCount + k
    ensures Skips(s, settings, 2 * k + 1).sessionCount == s.sessionCount + k + 1
    ensures Skips(s, settings, 2 * k + 1).phase == LongBreak <==>
      (s.sessionCount + k + 1) % settings.sessionsUntilLongBreak == 0
    decreases k
  {
    if k > 0 {
      var w := PhaseComplete(PhaseComplete(s, settings), settings);
      assert Skips(s, settings, 2 * k) == Skips(w, settings, 2 * (k - 1));
      assert Skips(s, settings, 2 * k + 1) == Skips(w, settings, 2 * (k - 1) + 1);
      Cycles(w, settings, k - 1);
    }
  }

  /** With the default four sessions per long break, the first three work phases end in a
      short break and the fourth in a long break, at a count of four. */
  lemma FourthSessionLongBreak(task: Option<string>)
    ensures var s := Started(DefaultSettings, task);
      && Skips(s, DefaultSettings, 1).phase == ShortBreak
      && Skips(s, DefaultSettings, 3).phase == ShortBreak
      && Skips(s, DefaultSettings, 5).phase == ShortBreak
      && Skips(s, DefaultSettings, 7).phase == LongBreak
      && Skips(s, DefaultSettings, 7).sessionCount == 4
  {
    var s := Started(DefaultSettings, task);
    Cycles(s, DefaultSettings, 0);
    Cycles(s, DefaultSettings, 1);
    Cycles(s, DefaultSettings, 2);
    Cycles(s, DefaultSettings, 3);
  }

  /** A settings change made during a work phase leaves that phase's time alone, and the
      work phase that follows the next break uses the new work duration. */
  lemma SettingsApplyFromNextPhase(s: PomodoroState, settings: Settings, patch: SettingsPatch)
    requires s.phase == Work && patch.workDuration.Some?
    ensures var next := MergeSettings(settings, patch);
      PhaseComplete(PhaseComplete(s, next), next).timeRemaining == patch.workDuration.value * 60
  {
  }

  /** How the operating system reports the app's state. */
  datatype AppStatus = Active | Background | Inactive | Unknown | Extension

  class PomodoroController {
    var settings: Settings
    var state: PomodoroState
    /** The last timestamp recorded on start, resume, or going to the background (ms). */
    var backgroundTime: int

    /** The invariant the transitions keep: sanitised settings, no negative countdown,
        and an idle session has counted nothing. */
    ghost predicate Valid()
      reads this
    {
      ValidSettings(settings) && state.timeRemaining >= 0
      && (state.phase == Idle ==> state.sessionCount == 0)
    }

    /** The provider's initial state: default settings, idle, a full work phase, paused. */
    constructor (now: int)
      ensures Valid()
      ensures settings == DefaultSettings && state == Stopped(DefaultSettings)
      ensures state == PomodoroState(Idle, 1500, false, 0, None) && backgroundTime == now
    {
      settings := DefaultSettings;
      state := PomodoroState(Idle, DefaultSettings.workDuration * 60, false, 0, None);
      backgroundTime := now;
    }

    /** `startPomodoro(task)`: from any state, a fresh running work phase with no sessions. */
    method Start(task: Option<string>, now: int)
      requires Valid()
      modifies this`state, this`backgroundTime
      ensures Valid()
      ensures state == PomodoroState(Work, settings.workDuration * 60, true, 0, task)
      ensures state == Started(settings, task) && backgroundTime == now
    {
      state := PomodoroState(Work, settings.workDuration * 60, true, 0, task);
      backgroundTime := now;
    }

    /** `pausePomodoro`: only `isRunning` changes, to false; pausing twice is pausing once. */
    method Pause()
      requires Valid()
      modifies this`state
      ensures Valid()
      ensures state == old(state).(isRunning := false)
    {
      state := state.(isRunning := false);
    }

    /** `resumePomodoro`: only `isRunning` changes, to true, and the clock is recorded. */
    method Resume(now: int)
      requires Valid()
      modifies this`state, this`backgroundTime
      ensures Valid()
      ensures state == old(state).(isRunning := true) && backgroundTime == now
    {
      state := state.(isRunning := true);
      backgroundTime := now;
    }

    /** `stopPomodoro`: from any state, idle with a full work phase, no sessions, no task. */
    method Stop()
      requires Valid()
      modifies this`state
      ensures Valid()
      ensures state == PomodoroState(Idle, settings.workDuration * 60, false, 0, None)
      ensures state == Stopped(settings)
    {
      state := PomodoroState(Idle, settings.workDuration * 60, false, 0, None);
    }

    /** `skipPhase`: the phase-complete rule applied to the current state. */
    method Skip()
      requires Valid()
      modifies this`state
      ensures Valid()
      ensures state == PhaseComplete(old(state), settings)
    {
      state := PhaseComplete(state, settings);
    }

    /** One firing of the one-second interval, which exists only while running with time left. */
    method Tick()
      requires Valid()
      modifies this`state
      ensures Valid()
      ensures state == TickResult(old(state), settings)
    {
      var prev := state;
      if prev.isRunning && prev.timeRemaining > 0 {
        if prev.timeRemaining <= 1 {
          // the updater's own result, then the phase-complete update it queued
          state := prev.(timeRemaining := 0, isRunning := false);
          state := PhaseComplete(prev, settings);
        } else {
          state := prev.(timeRemaining := prev.timeRemaining - 1);
        }
      }
    }

    /** `handleAppStateChange`: back in the foreground while running, the whole seconds since
        the recorded timestamp are taken off (completing the phase at zero); going to the
        background or inactive only records the timestamp; anything else does nothing. */
    method AppStateChange(next: AppStatus, now: int)
      requires Valid()
      modifies this`state, this`backgroundTime
      ensures Valid()
      ensures next == Active && old(state).isRunning ==>
        state == ForegroundResult(old(state), settings, ElapsedSeconds(old(backgroundTime), now))
        && backgroundTime == old(backgroundTime)
      ensures !(next == Active && old(state).isRunning) && (next == Background || next == Inactive) ==>
        state == old(state) && backgroundTime == now
      ensures !(next == Active && old(state).isRunning) && !(next == Background || next == Inactive) ==>
        state == old(state) && backgroundTime == old(backgroundTime)
    {
      if next == Active && state.isRunning {
        var elapsed := (now - backgroundTime) / 1000;
        var prev := state;
        var newTimeRemaining := if prev.timeRemaining - elapsed > 0 then prev.timeRemaining - elapsed else 0;
        if newTimeRemaining == 0 {
          // the updater returns `prev`; the queued phase-complete update lands after it
          state := prev;
          state := PhaseComplete(prev, settings);
        } else {
          state := prev.(timeRemaining := newTimeRemaining);
        }
      } else if next == Background || next == Inactive {
        backgroundTime := now;
      }
    }

    /** `updateSettings(patch)`: merges into the settings and leaves the session alone. */
    method UpdateSettings(patch: SettingsPatch)
      requires Valid()
      modifies this`settings
      ensures settings == MergeSettings(old(settings), patch)
      ensures state == old(state)
      ensures ValidSettings(settings) ==> Valid()
    {
      settings := MergeSettings(settings, patch);
    }
  }
}
