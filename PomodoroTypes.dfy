/** The Pomodoro record types and their defaults. Durations are minutes; `timeRemaining` is seconds. */
module PomodoroTypes {
  import opened Wrappers

  /** A phase is exactly one of four. */
  datatype Phase = Work | ShortBreak | LongBreak | Idle

  datatype Settings = Settings(
    workDuration: int,           // minutes
    shortBreakDuration: int,     // minutes
    longBreakDuration: int,      // minutes
    sessionsUntilLongBreak: int)

  /** The session record; a state without a task (`currentTask == None`) is a valid state. */
  datatype PomodoroState = PomodoroState(
    phase: Phase,
    timeRemaining: int,          // seconds
    isRunning: bool,
    sessionCount: nat,
    currentTask: Option<string>)

  /** `Partial<PomodoroSettings>`: a field that is `None` is absent and keeps its old value. */
  datatype SettingsPatch = SettingsPatch(
    workDuration: Option<int>,
    shortBreakDuration: Option<int>,
    longBreakDuration: Option<int>,
    sessionsUntilLongBreak: Option<int>)

  const DefaultSettings := Settings(25, 5, 15, 4)

  /** What the settings sanitiser guarantees: a positive length for every phase and
      at least two work sessions per long break. */
  predicate ValidSettings(s: Settings) {
    s.workDuration >= 1 && s.shortBreakDuration >= 1 && s.longBreakDuration >= 1
    && s.sessionsUntilLongBreak >= 2
  }

  /** The length in seconds of a phase of `m` minutes. */
  function Seconds(m: int): int {
    m * 60
  }

  /** `{ ...prev, ...patch }`: the patch's present fields win. */
  function MergeSettings(prev: Settings, patch: SettingsPatch): (r: Settings)
    ensures r.workDuration == patch.workDuration.GetOr(prev.workDuration)
    ensures r.shortBreakDuration == patch.shortBreakDuration.GetOr(prev.shortBreakDuration)
    ensures r.longBreakDuration == patch.longBreakDuration.GetOr(prev.longBreakDuration)
    ensures r.sessionsUntilLongBreak == patch.sessionsUntilLongBreak.GetOr(prev.sessionsUntilLongBreak)
  {
    Settings(
      patch.workDuration.GetOr(prev.workDuration),
      patch.shortBreakDuration.GetOr(prev.shortBreakDuration),
      patch.longBreakDuration.GetOr(prev.longBreakDuration),
      patch.sessionsUntilLongBreak.GetOr(prev.sessionsUntilLongBreak))
  }

  /** The defaults are 25, 5 and 15 minutes and a long break after 4 sessions, and they are valid. */
  lemma DefaultSettingsValues()
    ensures DefaultSettings.workDuration == 25 && DefaultSettings.shortBreakDuration == 5
    ensures DefaultSettings.longBreakDuration == 15 && DefaultSettings.sessionsUntilLongBreak == 4
    ensures ValidSettings(DefaultSettings)
    ensures Seconds(DefaultSettings.workDuration) == 1500
  {
  }

  /** A patch that names every field replaces the settings outright. */
  lemma MergeFullPatch(prev: Settings, s: Settings)
    ensures MergeSettings(prev, SettingsPatch(Some(s.workDuration), Some(s.shortBreakDuration),
                                              Some(s.longBreakDuration), Some(s.sessionsUntilLongBreak))) == s
  {
  }
}
