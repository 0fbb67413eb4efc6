/**
 * The Pomodoro settings form: four text fields, a reset to the default texts, and a save
 * that parses each field, falls back to its default when the parse is NaN or 0, clamps
 * durations to at least 1 minute and the session count to at least 2, and hands the
 * result to the controller.
 */
module PomodoroSettingsModal {
  import opened Wrappers
  import opened JsText
  import opened PomodoroTypes
  import PomodoroContext

  /** The `maxLength` of the duration fields and of the session-count field. */
  const DurationMaxLength := 3
  const SessionsMaxLength := 2

  /** `parseInt(text) || fallback`: NaN and 0 are falsy, so both give the fallback. */
  function ParsedOr(text: string, fallback: int): int {
    match ParseInt(text)
    case Some(v) => if v != 0 then v else fallback
    case None => fallback
  }

  function Max(a: int, b: int): int {
    if a >= b then a else b
  }

  /** The settings `handleSave` passes to `updateSettings`. */
  function SanitizeSettings(work: string, shortBreak: string, longBreak: string, sessions: string): (r: Settings)
    ensures ValidSettings(r)
  {
    Settings(
      Max(1, ParsedOr(work, 25)),
      Max(1, ParsedOr(shortBreak, 5)),
      Max(1, ParsedOr(longBreak, 15)),
      Max(2, ParsedOr(sessions, 4)))
  }

  /** Each saved field is its parsed value when that is neither NaN nor 0, else its default,
      and then at least 1 (durations) or 2 (sessions). */
  lemma SanitizeFields(work: string, shortBreak: string, longBreak: string, sessions: string)
    ensures var r := SanitizeSettings(work, shortBreak, longBreak, sessions);
      && (ParseInt(work).None? || ParseInt(work) == Some(0) ==> r.workDuration == 25)
      && (ParseInt(work).Some? && ParseInt(work).value != 0 ==>
            r.workDuration == Max(1, ParseInt(work).value))
      && (ParseInt(shortBreak).None? || ParseInt(shortBreak) == Some(0) ==> r.shortBreakDuration == 5)
      && (ParseInt(shortBreak).Some? && ParseInt(shortBreak).value != 0 ==>
            r.shortBreakDuration == Max(1, ParseInt(shortBreak).value))
      && (ParseInt(longBreak).None? || ParseInt(longBreak) == Some(0) ==> r.longBreakDuration == 15)
      && (ParseInt(longBreak).Some? && ParseInt(longBreak).value != 0 ==>
            r.longBreakDuration == Max(1, ParseInt(longBreak).value))
      && (ParseInt(sessions).None? || ParseInt(sessions) == Some(0) ==> r.sessionsUntilLongBreak == 4)
      && (ParseInt(sessions).Some? && ParseInt(sessions).value != 0 ==>
            r.sessionsUntilLongBreak == Max(2, ParseInt(sessions).value))
  {
  }

  /** A field holding the decimal text of a positive number saves that number (before clamping). */
  lemma ParsedOrOfNatToString(text: string, n: nat, fallback: int)
    requires 0 < n && text == NatToString(n)
    ensures ParsedOr(text, fallback) == n
  {
    ParseIntOfNatToString(n);
  }

  /** The default texts save the default settings. */
  lemma DefaultTextsSave()
    ensures SanitizeSettings("25", "5", "15", "4") == DefaultSettings
  {
    ParsedOrOfNatToString("25", 25, 25);
    ParsedOrOfNatToString("5", 5, 5);
    ParsedOrOfNatToString("15", 15, 15);
    ParsedOrOfNatToString("4", 4, 4);
  }

  /** A field holding "0" is falsy after parsing, so it saves the default, not the minimum. */
  lemma ZeroMeansDefault()
    ensures SanitizeSettings("0", "0", "0", "0") == DefaultSettings
  {
    ParseIntSmall("0", 0);
    assert ParsedOr("0", 25) == 25 && ParsedOr("0", 5) == 5;
    assert ParsedOr("0", 15) == 15 && ParsedOr("0", 4) == 4;
  }

  /** A negative number is truthy, so it is kept and then clamped to the minimum. */
  lemma NegativeMeansMinimum()
    ensures SanitizeSettings("-7", "-7", "-7", "-7") == Settings(1, 1, 1, 2)
  {
    MinusSevenKept(25);
    MinusSevenKept(5);
    MinusSevenKept(15);
    MinusSevenKept(4);
  }

  lemma MinusSevenKept(fallback: int)
    ensures ParsedOr("-7", fallback) == -7
  {
    assert NatToString(7) == "7";
    ParseIntNegative("-7", 7);
  }

  /** Text that does not start with a number saves the default; a saved 1 is kept as a
      duration and raised to 2 as a session count. */
  lemma NotANumberMeansDefault()
    ensures SanitizeSettings("", "abc", "1", "1") == Settings(25, 5, 1, 2)
  {
    EmptyTextIsDefault(25);
    LettersAreDefault(5);
    ParsedOrOfNatToString("1", 1, 15);
    ParsedOrOfNatToString("1", 1, 4);
  }

  lemma EmptyTextIsDefault(fallback: int)
    ensures ParsedOr("", fallback) == fallback
  {
    assert ParseInt("") == None;
  }

  lemma LettersAreDefault(fallback: int)
    ensures ParsedOr("abc", fallback) == fallback
  {
    ParseIntNotANumber("abc");
  }

  /** Leading white space in a field is skipped before the number is read. */
  lemma LeadingBlankSkipped(c: char, text: string, fallback: int)
    requires IsSpace(c)
    ensures ParsedOr([c] + text, fallback) == ParsedOr(text, fallback)
  {
    ParseIntLeadingSpace(c, text);
  }

  /** With digit-only input under the fields' length limits, every duration lies in 1..999
      and the session count in 2..99. */
  lemma DigitInputBounds(work: string, shortBreak: string, longBreak: string, sessions: string)
    requires AllDigits(work) && |work| <= DurationMaxLength
    requires AllDigits(shortBreak) && |shortBreak| <= DurationMaxLength
    requires AllDigits(longBreak) && |longBreak| <= DurationMaxLength
    requires AllDigits(sessions) && |sessions| <= SessionsMaxLength
    ensures var r := SanitizeSettings(work, shortBreak, longBreak, sessions);
      && 1 <= r.workDuration <= 999 && 1 <= r.shortBreakDuration <= 999
      && 1 <= r.longBreakDuration <= 999 && 2 <= r.sessionsUntilLongBreak <= 99
  {
    DigitFieldBound(work, 25);
    DigitFieldBound(shortBreak, 5);
    DigitFieldBound(longBreak, 15);
    DigitFieldBound(sessions, 4);
  }

  lemma DigitFieldBound(text: string, fallback: int)
    requires AllDigits(text) && |text| <= 3 && 0 <= fallback < 100
    ensures 0 <= ParsedOr(text, fallback) < Pow10(|text|) || ParsedOr(text, fallback) == fallback
    ensures Pow10(|text|) <= 1000 && (|text| <= 2 ==> Pow10(|text|) <= 100)
  {
    ParseIntDigitsBound(text);
    Pow10UpTo3(|text|);
  }

  lemma Pow10UpTo3(k: nat)
    requires k <= 3
    ensures Pow10(k) <= 1000 && (k <= 2 ==> Pow10(k) <= 100)
  {
    assert Pow10(0) == 1 && Pow10(1) == 10 && Pow10(2) == 100 && Pow10(3) == 1000;
  }

  /** Saving an untouched form gives back the settings it was opened with, whenever those
      are valid: `toString` then `parseInt` is the identity on positive numbers. */
  lemma SaveUnchangedForm(s: Settings)
    requires ValidSettings(s)
    ensures SanitizeSettings(IntToString(s.workDuration), IntToString(s.shortBreakDuration),
                             IntToString(s.longBreakDuration), IntToString(s.sessionsUntilLongBreak)) == s
  {
    ParseIntOfNatToString(s.workDuration);
    ParseIntOfNatToString(s.shortBreakDuration);
    ParseIntOfNatToString(s.longBreakDuration);
    ParseIntOfNatToString(s.sessionsUntilLongBreak);
  }

  /** The longest prefix of a typed text that a field with this `maxLength` keeps. */
  function Limit(text: string, maxLength: nat): (r: string)
    ensures |r| <= maxLength && r <= text
    ensures |text| <= maxLength ==> r == text
  {
    if |text| <= maxLength then text else text[..maxLength]
  }

  /** The four text fields of the form. */
  class SettingsForm {
    var workDuration: string
    var shortBreakDuration: string
    var longBreakDuration: string
    var sessionsUntilLongBreak: string

    /** The fields start as the current settings' `toString()`. */
    constructor (settings: Settings)
      ensures workDuration == IntToString(settings.workDuration)
      ensures shortBreakDuration == IntToString(settings.shortBreakDuration)
      ensures longBreakDuration == IntToString(settings.longBreakDuration)
      ensures sessionsUntilLongBreak == IntToString(settings.sessionsUntilLongBreak)
    {
      workDuration := IntToString(settings.workDuration);
      shortBreakDuration := IntToString(settings.shortBreakDuration);
      longBreakDuration := IntToString(settings.longBreakDuration);
      sessionsUntilLongBreak := IntToString(settings.sessionsUntilLongBreak);
    }

    /** Typing into a field: the input keeps at most its `maxLength` characters. */
    method EditWork(text: string)
      modifies this`workDuration
      ensures workDuration == Limit(text, DurationMaxLength)
    {
      workDuration := Limit(text, DurationMaxLength);
    }

    method EditShortBreak(text: string)
      modifies this`shortBreakDuration
      ensures shortBreakDuration == Limit(text, DurationMaxLength)
    {
      shortBreakDuration := Limit(text, DurationMaxLength);
    }

    method EditLongBreak(text: string)
      modifies this`longBreakDuration
      ensures longBreakDuration == Limit(text, DurationMaxLength)
    {
      longBreakDuration := Limit(text, DurationMaxLength);
    }

    method EditSessions(text: string)
      modifies this`sessionsUntilLongBreak
      ensures sessionsUntilLongBreak == Limit(text, SessionsMaxLength)
    {
      sessionsUntilLongBreak := Limit(text, SessionsMaxLength);
    }

    /** `handleReset`: the default texts, without touching the controller's settings. */
    method Reset()
      modifies this
      ensures workDuration == "25" && shortBreakDuration == "5"
      ensures longBreakDuration == "15" && sessionsUntilLongBreak == "4"
    {
      workDuration := "25";
      shortBreakDuration := "5";
      longBreakDuration := "15";
      sessionsUntilLongBreak := "4";
    }

    /** `handleSave`: the sanitised settings replace all four settings; the session is untouched. */
    method Save(controller: PomodoroContext.PomodoroController)
      requires controller.Valid()
      modifies controller`settings
      ensures controller.Valid()
      ensures controller.settings ==
        SanitizeSettings(workDuration, shortBreakDuration, longBreakDuration, sessionsUntilLongBreak)
      ensures controller.state == old(controller.state)
    {
      var s := SanitizeSettings(workDuration, shortBreakDuration, longBreakDuration, sessionsUntilLongBreak);
      controller.UpdateSettings(SettingsPatch(Some(s.workDuration), Some(s.shortBreakDuration),
                                              Some(s.longBreakDuration), Some(s.sessionsUntilLongBreak)));
    }
  }
}
