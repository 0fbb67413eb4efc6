/**
 * The Pomodoro timer view: the `MM:SS` rendering of the remaining seconds, the colour,
 * label and icon of each phase, and which controls are shown for a phase and a running
 * flag, in the compact (dashboard) and full layouts.
 */
module PomodoroTimer {
  import opened Wrappers
  import opened JsText
  import opened PomodoroTypes
  import PomodoroContext

  /** `formatTime(seconds)`: whole minutes, a colon, and the seconds within the minute, each
      padded to at least two digits. Reading the two numerals back gives the minutes and
      the seconds; below 100 minutes the text is exactly five characters. */
  function FormatTime(seconds: nat): string {
    Pad2(seconds / 60) + ":" + Pad2(seconds % 60)
  }

  lemma FormatTimeFields(seconds: nat)
    ensures var r := FormatTime(seconds);
      && |r| >= 5 && r[|r| - 3] == ':'
      && AllDigits(r[..|r| - 3]) && DecimalValue(r[..|r| - 3]) == seconds / 60
      && AllDigits(r[|r| - 2..]) && DecimalValue(r[|r| - 2..]) == seconds % 60 < 60
      && (seconds < 6000 <==> |r| == 5)
  {
    var m, sc := seconds / 60, seconds % 60;
    assert FormatTime(seconds) == Pad2(m) + ":" + Pad2(sc);
    assert sc < 60 && (m < 100 <==> seconds < 6000) by {
      MinuteBound(seconds);
    }
    ClockFields(m, sc);
  }

  lemma MinuteBound(seconds: nat)
    ensures seconds % 60 < 60
    ensures seconds / 60 < 100 <==> seconds < 6000
  {
  }

  /** The fields of `pad2(m) + ":" + pad2(s)` for a seconds value below 60. */
  lemma ClockFields(m: nat, sc: nat)
    requires sc < 60
    ensures var r := Pad2(m) + ":" + Pad2(sc);
      && |r| >= 5 && r[|r| - 3] == ':'
      && AllDigits(r[..|r| - 3]) && DecimalValue(r[..|r| - 3]) == m
      && AllDigits(r[|r| - 2..]) && DecimalValue(r[|r| - 2..]) == sc
      && (m < 100 <==> |r| == 5)
  {
    Joined(Pad2(m), Pad2(sc));
    Pad2Wide(m);
  }

  lemma Joined(a: string, b: string)
    requires |b| == 2
    ensures var r := a + ":" + b;
      |r| == |a| + 3 && r[..|r| - 3] == a && r[|r| - 3] == ':' && r[|r| - 2..] == b
  {
  }

  /** Three or more digits are needed from 100 on. */
  lemma Pad2Wide(n: nat)
    ensures n >= 100 ==> |Pad2(n)| >= 3
  {
    DecimalValueBound(Pad2(n));
    assert Pow10(2) == 100;
  }

  /** How a reader takes `M:SS` back to a number of seconds: a numeral of minutes, a colon,
      and two digits of seconds. */
  function ReadTime(text: string): Option<int> {
    if |text| >= 4 && text[|text| - 3] == ':' then
      var mins, secs := text[..|text| - 3], text[|text| - 2..];
      if AllDigits(mins) && AllDigits(secs) then Some(DecimalValue(mins) * 60 + DecimalValue(secs))
      else None
    else None
  }

  /** Reading the rendered time back recovers the number of seconds. */
  lemma FormatTimeRoundTrip(seconds: nat)
    ensures ReadTime(FormatTime(seconds)) == Some(seconds)
  {
    var r := FormatTime(seconds);
    FormatTimeFields(seconds);
    var m, sc := DecimalValue(r[..|r| - 3]), DecimalValue(r[|r| - 2..]);
    MinutesAndSeconds(seconds, m, sc);
    ReadTimeFields(r, seconds);
  }

  lemma ReadTimeFields(text: string, seconds: int)
    requires |text| >= 4 && text[|text| - 3] == ':'
    requires AllDigits(text[..|text| - 3]) && AllDigits(text[|text| - 2..])
    requires DecimalValue(text[..|text| - 3]) * 60 + DecimalValue(text[|text| - 2..]) == seconds
    ensures ReadTime(text) == Some(seconds)
  {
  }

  lemma MinutesAndSeconds(seconds: nat, m: nat, sc: nat)
    requires m == seconds / 60 && sc == seconds % 60
    ensures m * 60 + sc == seconds
  {
  }

  /** The colour of the phase indicator; idle takes the app's primary colour. */
  function PhaseColor(phase: Phase): string {
    match phase
    case Work => "#EF4444"
    case ShortBreak => "#10B981"
    case LongBreak => "#3B82F6"
    case Idle => "#007AFF"
  }

  function PhaseLabel(phase: Phase): string {
    match phase
    case Work => "Focus Time"
    case ShortBreak => "Short Break"
    case LongBreak => "Long Break"
    case Idle => "Pomodoro"
  }

  function PhaseIcon(phase: Phase): string {
    match phase
    case Work => "flash"
    case ShortBreak => "cafe"
    case LongBreak => "bed"
    case Idle => "timer-outline"
  }

  /** Every phase has its own colour, its own label and its own icon, so each of the three
      tells the phases apart; idle shows the defaults. */
  lemma PhaseLookupsDistinct(p: Phase, q: Phase)
    ensures p != q ==> PhaseColor(p) != PhaseColor(q)
    ensures p != q ==> PhaseLabel(p) != PhaseLabel(q)
    ensures p != q ==> PhaseIcon(p) != PhaseIcon(q)
    ensures PhaseColor(Idle) == "#007AFF" && PhaseLabel(Idle) == "Pomodoro" && PhaseIcon(Idle) == "timer-outline"
  {
  }

  /** A button of the timer. */
  datatype Control = OpenSettings | Start | Stop | Pause | Resume | Skip

  /** The buttons shown, left to right. Idle: settings and start. Otherwise stop, settings,
      the pause/resume toggle and skip (the compact layout puts settings first). */
  function Controls(phase: Phase, isRunning: bool, compact: bool): (r: seq<Control>)
    ensures |r| == if phase == Idle then 2 else 4
    ensures OpenSettings in r
    ensures Start in r <==> phase == Idle
    ensures Stop in r <==> phase != Idle
    ensures Skip in r <==> phase != Idle
    ensures Pause in r <==> phase != Idle && isRunning
    ensures Resume in r <==> phase != Idle && !isRunning
  {
    var toggle := if isRunning then Pause else Resume;
    if phase == Idle then [OpenSettings, Start]
    else if compact then [OpenSettings, Stop, toggle, Skip]
    else [Stop, OpenSettings, toggle, Skip]
  }

  /** What pressing a button does to the session (the start button passes no task). */
  function Press(c: Control, s: PomodoroState, settings: Settings): PomodoroState {
    match c
    case OpenSettings => s
    case Start => PomodoroContext.Started(settings, None)
    case Stop => PomodoroContext.Stopped(settings)
    case Pause => s.(isRunning := false)
    case Resume => s.(isRunning := true)
    case Skip => PomodoroContext.PhaseComplete(s, settings)
  }

  /** The toggle that is shown always flips `isRunning` and leaves the rest of the session
      alone; start is offered only when idle and begins a running work phase. */
  lemma ShownControlsAct(s: PomodoroState, settings: Settings, compact: bool, c: Control)
    requires c in Controls(s.phase, s.isRunning, compact)
    ensures (c == Pause || c == Resume) ==>
      Press(c, s, settings) == s.(isRunning := !s.isRunning)
    ensures c == Start ==>
      s.phase == Idle && Press(c, s, settings).phase == Work && Press(c, s, settings).isRunning
    ensures c == Skip ==> s.phase != Idle
  {
  }
}
