/**
 * The form that edits a todo. Opening it copies the todo into the form; a stored start or
 * end time `HH:MM` is read back into a time of day on today's date (with `Date.setHours`
 * semantics: hours and minutes beyond their range roll over, an unreadable number gives an
 * invalid date). Saving trims the texts and writes the times back as `HH:MM`. Between the
 * two times the form shows a duration.
 *
 * A time of day is the number of minutes since local midnight, `0 <= t < 1440`.
 */
module EditTodoModal {
  import opened Wrappers
  import opened JsText
  import opened TodoContext
  import PomodoroTimer

  const MinutesPerDay := 1440

  /** A picked time: a time of day, or the invalid date `setHours` gives for `NaN`. */
  datatype PickedTime = At(minuteOfDay: nat) | InvalidDate

  /** `HH:MM` of a time of day, as `formatTime` writes it. */
  function ClockText(t: nat): string {
    Pad2(t / 60) + ":" + Pad2(t % 60)
  }

  /** The value of the two-digit numeral `ab`. */
  function TwoDigits(a: char, b: char): nat
    requires IsDigit(a) && IsDigit(b)
  {
    DigitValue(a) * 10 + DigitValue(b)
  }

  /** A stored time as the app writes it: two digits of hours below 24, a colon, and two
      digits of minutes below 60. */
  predicate WellFormedClock(s: string) {
    && |s| == 5 && s[2] == ':'
    && IsDigit(s[0]) && IsDigit(s[1]) && IsDigit(s[3]) && IsDigit(s[4])
    && TwoDigits(s[0], s[1]) < 24 && TwoDigits(s[3], s[4]) < 60
  }

  /** The minute of the day a well-formed clock text names. */
  function ClockValue(s: string): nat
    requires WellFormedClock(s)
  {
    TwoDigits(s[0], s[1]) * 60 + TwoDigits(s[3], s[4])
  }

  /** A two-character numeral's value in terms of its characters. */
  lemma TwoDigitNumeral(x: string)
    requires |x| == 2 && AllDigits(x)
    ensures DecimalValue(x) == TwoDigits(x[0], x[1])
  {
    var y := x[..1];
    assert y[..0] == [] && y[0] == x[0];
    assert DecimalValue(y) == DigitValue(x[0]);
  }

  /** `const [hours, minutes] = text.split(':'); date.setHours(parseInt(hours),
      parseInt(minutes))`: a missing minutes piece or an unreadable number gives an
      invalid date; otherwise the clock is set to that many hours and minutes after
      midnight, rolling over into the neighbouring days. */
  function ParseClock(text: string): (r: PickedTime)
    ensures r.At? ==> r.minuteOfDay < MinutesPerDay
  {
    var parts := Split(text, ':');
    SetHours(ParseInt(parts[0]), if |parts| >= 2 then ParseInt(parts[1]) else None)
  }

  /** `date.setHours(h, m)` read back as a time of day. */
  function SetHours(h: Option<int>, m: Option<int>): (r: PickedTime)
    ensures r.At? ==> r.minuteOfDay < MinutesPerDay
  {
    if h.Some? && m.Some? then At((h.value * 60 + m.value) % MinutesPerDay) else InvalidDate
  }

  /** The load effect for one optional time: nothing stored (or an empty text) leaves the
      picker empty. */
  function LoadTime(stored: Option<string>): (r: Option<PickedTime>)
    ensures r.None? <==> stored.None? || stored.value == ""
  {
    if stored.None? || stored.value == "" then None else Some(ParseClock(stored.value))
  }

  /** `formatTime`: nothing for an empty picker, `HH:MM` for a time of day, and the text
      `NaN:NaN` for an invalid date (its hours and minutes are `NaN`). */
  function FormatTime(p: Option<PickedTime>): (r: Option<string>)
    ensures r.None? <==> p.None?
    ensures p == Some(InvalidDate) ==> r == Some("NaN:NaN")
  {
    match p
    case None => None
    case Some(InvalidDate) => Some("NaN:NaN")
    case Some(At(t)) => Some(ClockText(t))
  }

  /** Every time of day is written as a well-formed clock text, which reads back as the
      same time of day. */
  lemma ClockTextRoundTrip(t: nat)
    requires t < MinutesPerDay
    ensures WellFormedClock(ClockText(t)) && ClockValue(ClockText(t)) == t
    ensures ParseClock(ClockText(t)) == At(t)
  {
    ClockTextShape(t);
    ReadClock(ClockText(t));
  }

  lemma ClockTextShape(t: nat)
    requires t < MinutesPerDay
    ensures WellFormedClock(ClockText(t)) && ClockValue(ClockText(t)) == t
  {
    var h, m := t / 60, t % 60;
    assert h < 24 && m < 60 && h * 60 + m == t by {
      HoursAndMinutes(t);
    }
    JoinedClock(Pad2(h), Pad2(m), t);
  }

  lemma HoursAndMinutes(t: nat)
    requires t < MinutesPerDay
    ensures t / 60 < 24 && t % 60 < 60 && (t / 60) * 60 + t % 60 == t
  {
  }

  /** Two two-digit numerals in range joined by a colon make a well-formed clock text, which
      names the minute of the day they add up to. */
  lemma JoinedClock(hh: string, mm: string, t: nat)
    requires |hh| == 2 && AllDigits(hh) && DecimalValue(hh) < 24
    requires |mm| == 2 && AllDigits(mm) && DecimalValue(mm) < 60
    requires DecimalValue(hh) * 60 + DecimalValue(mm) == t
    ensures WellFormedClock(hh + ":" + mm) && ClockValue(hh + ":" + mm) == t
  {
    TwoDigitNumeral(hh);
    TwoDigitNumeral(mm);
    var s := hh + ":" + mm;
    assert s[0] == hh[0] && s[1] == hh[1] && s[2] == ':' && s[3] == mm[0] && s[4] == mm[1];
  }

  /** A well-formed clock text reads as the minute of the day it names. */
  lemma ReadClock(s: string)
    requires WellFormedClock(s)
    ensures ParseClock(s) == At(ClockValue(s))
  {
    var hh, mm := s[..2], s[3..];
    var h, m := TwoDigits(s[0], s[1]), TwoDigits(s[3], s[4]);
    assert Split(s, ':') == [hh, mm] by {
      ClockPieces(s);
      assert ':' !in hh && ':' !in mm;
      SplitPair(hh, mm, ':');
    }
    assert ParseInt(hh) == Some(h) by {
      ClockPieces(s);
      ParseIntDigits(hh);
    }
    assert ParseInt(mm) == Some(m) by {
      ClockPieces(s);
      ParseIntDigits(mm);
    }
    ParseClockPieces(s, hh, mm);
    SetHoursInDay(ParseInt(hh), ParseInt(mm), h, m, ClockValue(s));
  }

  lemma ParseClockPieces(s: string, hh: string, mm: string)
    requires Split(s, ':') == [hh, mm]
    ensures ParseClock(s) == SetHours(ParseInt(hh), ParseInt(mm))
  {
  }

  /** Hours below 24 and minutes below 60 name that minute of the day, with no roll-over. */
  lemma SetHoursInDay(hours: Option<int>, minutes: Option<int>, h: nat, m: nat, t: nat)
    requires hours == Some(h) && minutes == Some(m)
    requires h < 24 && m < 60 && h * 60 + m == t
    ensures SetHours(hours, minutes) == At(t)
  {
    assert h * 60 <= 23 * 60;
  }

  /** Writing back the minute of the day a well-formed text names restores the text. */
  lemma WriteClock(s: string)
    requires WellFormedClock(s)
    ensures ClockText(ClockValue(s)) == s
  {
    var h, m := TwoDigits(s[0], s[1]), TwoDigits(s[3], s[4]);
    var t := ClockValue(s);
    assert t / 60 == h && t % 60 == m by {
      assert t == h * 60 + m && m < 60;
    }
    ClockPieces(s);
    Pad2Of(s[..2]);
    Pad2Of(s[3..]);
    ClockTextOf(t, s[..2], s[3..], s);
  }

  lemma ClockTextOf(t: nat, hh: string, mm: string, s: string)
    requires Pad2(t / 60) == hh && Pad2(t % 60) == mm && s == hh + ":" + mm
    ensures ClockText(t) == s
  {
  }

  /** The two numerals of a well-formed clock text. */
  lemma ClockPieces(s: string)
    requires WellFormedClock(s)
    ensures s == s[..2] + ":" + s[3..]
    ensures |s[..2]| == 2 && AllDigits(s[..2]) && DecimalValue(s[..2]) == TwoDigits(s[0], s[1])
    ensures |s[3..]| == 2 && AllDigits(s[3..]) && DecimalValue(s[3..]) == TwoDigits(s[3], s[4])
  {
    var hh, mm := s[..2], s[3..];
    assert hh == [s[0], s[1]] && mm == [s[3], s[4]];
    TwoDigitNumeral(hh);
    TwoDigitNumeral(mm);
  }

  /** Padding the value of a two-digit numeral gives the numeral back. */
  lemma Pad2Of(x: string)
    requires |x| == 2 && AllDigits(x)
    ensures Pad2(DecimalValue(x)) == x
  {
    DecimalValueBound(x);
    assert Pow10(2) == 100;
    DecimalValueInjective(Pad2(DecimalValue(x)), x);
  }

  /** A stored time without a colon opens as an invalid date and is saved back as
      `NaN:NaN`. */
  lemma ColonlessTimeSavedAsNaN(stored: string)
    requires stored != [] && ':' !in stored
    ensures FormatTime(LoadTime(Some(stored))) == Some("NaN:NaN")
  {
    assert IndexOf(stored, ':') == -1;
    assert Split(stored, ':') == [stored];
  }

  /** The edit form's state. */
  datatype EditFields = EditFields(
    title: string,
    description: string,
    startTime: Option<PickedTime>,
    endTime: Option<PickedTime>,
    alert: bool,
    priority: Priority)

  /** The load effect: the todo's title, its description or the empty text, its priority,
      its alert flag (off when absent), and its two times read back. */
  function Loaded(todo: Todo): EditFields {
    EditFields(todo.title, todo.description.GetOr(""), LoadTime(todo.startTime),
               LoadTime(todo.endTime), todo.alert.GetOr(false), todo.priority)
  }

  /** The patch `handleSubmit` hands to `updateTodo`: trimmed title, description or
      nothing, both times as text, the alert flag and the priority; nothing else. */
  function EditPatch(f: EditFields): TodoPatch {
    EmptyPatch.(title := Set(Trim(f.title)),
                description := Set(TrimmedOrNone(f.description)),
                startTime := Set(FormatTime(f.startTime)),
                endTime := Set(FormatTime(f.endTime)),
                alert := Set(Some(f.alert)),
                priority := Set(f.priority))
  }

  /** What pressing save yields. */
  datatype EditSubmission = Rejected(message: string) | NoTodo | Patched(id: string, patch: TodoPatch)

  /** `handleSubmit`: a blank title is refused first; without a todo nothing happens;
      otherwise the todo with that id is patched. */
  function Submission(f: EditFields, todo: Option<Todo>): EditSubmission {
    if Trim(f.title) == [] then Rejected("Please enter a title")
    else if todo.None? then NoTodo
    else Patched(todo.value.id, EditPatch(f))
  }

  /** Refused exactly for a blank title; ignored exactly without a todo; otherwise the
      patch for the todo's id. */
  lemma SubmissionChecks(f: EditFields, todo: Option<Todo>)
    ensures var r := Submission(f, todo);
      && (r.Rejected? <==> IsBlank(f.title))
      && (r.NoTodo? <==> !IsBlank(f.title) && todo.None?)
      && (r.Patched? ==> r.id == todo.value.id && r.patch == EditPatch(f))
  {
    TrimFacts(f.title);
  }

  /** A todo as the forms save it: a trimmed, non-blank title, a trimmed non-empty
      description or none, and well-formed times or none. The add form leaves the times
      and the alert flag out; the edit form writes an explicit alert flag. */
  predicate SavedShape(todo: Todo) {
    && (todo.startTime.Some? ==> WellFormedClock(todo.startTime.value))
    && (todo.endTime.Some? ==> WellFormedClock(todo.endTime.value))
    && todo.title != [] && Trim(todo.title) == todo.title
    && (todo.description.Some? ==> todo.description.value != []
                                   && Trim(todo.description.value) == todo.description.value)
  }

  /** Opening a todo the forms saved and saving it without a change writes back what was
      stored: `updatedAt` moves, and a todo without an alert flag (as the add form saves
      it) gets the flag `false`; nothing else changes. A todo the edit form saved already
      has its flag, so for it only `updatedAt` moves. */
  lemma OpenSaveUnchanged(todo: Todo, now: int)
    requires SavedShape(todo)
    ensures var r := Submission(Loaded(todo), Some(todo));
      && r.Patched? && r.id == todo.id
      && Merge(todo, r.patch, now) == todo.(updatedAt := now, alert := Some(todo.alert.GetOr(false)))
      && (todo.alert.Some? ==> Merge(todo, r.patch, now) == todo.(updatedAt := now))
  {
    var f := Loaded(todo);
    assert TrimmedOrNone(f.description) == todo.description by {
      if todo.description.Some? {
        TrimIdempotent(todo.description.value);
      } else {
        assert IsBlank("");
      }
    }
    assert FormatTime(f.startTime) == todo.startTime by {
      TimeSurvives(todo.startTime);
    }
    assert FormatTime(f.endTime) == todo.endTime by {
      TimeSurvives(todo.endTime);
    }
    var saved := todo.(alert := Some(f.alert));
    MergeSaved(todo, saved, f, now);
  }

  /** A form whose save writes every field of `saved` turns `todo` into `saved`, with
      `updatedAt` moved, provided the two agree on the fields the form does not write;
      when `saved` is `todo` itself, only `updatedAt` moves. */
  lemma MergeSaved(todo: Todo, saved: Todo, f: EditFields, now: int)
    requires saved.id == todo.id && saved.completed == todo.completed && saved.date == todo.date
    requires saved.time == todo.time && saved.createdAt == todo.createdAt
    requires Trim(f.title) == saved.title && TrimmedOrNone(f.description) == saved.description
    requires FormatTime(f.startTime) == saved.startTime && FormatTime(f.endTime) == saved.endTime
    requires Some(f.alert) == saved.alert && f.priority == saved.priority
    ensures Merge(todo, EditPatch(f), now) == saved.(updatedAt := now)
  {
  }

  /** A well-formed stored time (or none) is saved back unchanged. */
  lemma TimeSurvives(stored: Option<string>)
    requires stored.Some? ==> WellFormedClock(stored.value)
    ensures FormatTime(LoadTime(stored)) == stored
  {
    if stored.Some? {
      ReadClock(stored.value);
      WriteClock(stored.value);
    }
  }

  /** A duration as shown: hours and minutes. */
  datatype Span = Span(hours: nat, minutes: nat)

  /** The duration shown between two picked times, as written: the distance between the
      hour fields and, separately, between the minute fields. */
  function ShownDuration(start: nat, end: nat): Span
    requires start < MinutesPerDay && end < MinutesPerDay
  {
    Span(Abs(end / 60 - start / 60), Abs(end % 60 - start % 60))
  }

  function Abs(x: int): nat {
    if x < 0 then -x else x
  }

  /** From 09:50 to 10:10 twenty minutes pass, but the display shows 1 hour 40 minutes. */
  lemma ShownDurationWrong()
    ensures ShownDuration(9 * 60 + 50, 10 * 60 + 10) == Span(1, 40)
    ensures Abs(10 * 60 + 10 - (9 * 60 + 50)) == 20
  {
  }

  /** The duration the display evidently means: the distance between the two times, in
      whole hours and the minutes left over. */
  function Duration(start: nat, end: nat): (r: Span)
    requires start < MinutesPerDay && end < MinutesPerDay
    ensures r.hours * 60 + r.minutes == Abs(end - start) && r.minutes < 60
  {
    Span(Abs(end - start) / 60, Abs(end - start) % 60)
  }

  /** The two agree when the end is not earlier and its minute field is at least that of
      the start (no hour boundary is borrowed across). */
  lemma ShownDurationAgrees(start: nat, end: nat)
    requires start < MinutesPerDay && end < MinutesPerDay
    requires start <= end && start % 60 <= end % 60
    ensures ShownDuration(start, end) == Duration(start, end)
  {
    var d := end - start;
    assert d == (end / 60 - start / 60) * 60 + (end % 60 - start % 60);
  }

  /** What the duration line shows: the two distances, or `NaN hours NaN minutes` when
      either time is an invalid date. */
  datatype DurationLine = Shows(span: Span) | NotANumber

  /** The line under the two time pickers. An invalid date is a (truthy) object, so the
      line appears as soon as both pickers hold something, and it shows `NaN` when either
      holds an invalid date. Otherwise it shows the distances between the hour fields and
      between the minute fields, each a field's worth (below 24 and below 60): the true
      distance only when no hour is borrowed, and 1 hour 40 minutes for 09:50 to 10:10. */
  function DurationText(start: Option<PickedTime>, end: Option<PickedTime>): (r: Option<DurationLine>)
    ensures r.None? <==> start.None? || end.None?
    ensures r == Some(NotANumber) <==>
      start.Some? && end.Some? && (start.value.InvalidDate? || end.value.InvalidDate?)
    ensures r.Some? && r.value.Shows? ==>
      && start.value.At? && end.value.At?
      && r.value.span == ShownDuration(start.value.minuteOfDay % MinutesPerDay,
                                       end.value.minuteOfDay % MinutesPerDay)
      && r.value.span.hours < 24 && r.value.span.minutes < 60
    ensures start == Some(At(9 * 60 + 50)) && end == Some(At(10 * 60 + 10)) ==>
      r == Some(Shows(Span(1, 40)))
  {
    match (start, end)
    case (Some(At(s)), Some(At(e))) => Some(Shows(ShownDuration(s % MinutesPerDay, e % MinutesPerDay)))
    case (Some(_), Some(_)) => Some(NotANumber)
    case _ => None
  }

  /** The edit form: the fields of `EditFields`, as component state. */
  class EditTodoForm {
    var title: string
    var description: string
    var startTime: Option<PickedTime>
    var endTime: Option<PickedTime>
    var alert: bool
    var priority: Priority

    function Fields(): EditFields
      reads this
    {
      EditFields(title, description, startTime, endTime, alert, priority)
    }

    constructor ()
      ensures Fields() == EditFields("", "", None, None, false, Medium)
    {
      title, description, startTime, endTime, alert, priority := "", "", None, None, false, Medium;
    }

    /** The load effect: runs only while the form is visible and has a todo. */
    method Open(visible: bool, todo: Option<Todo>)
      modifies this
      ensures Fields() == if visible && todo.Some? then Loaded(todo.value) else old(Fields())
    {
      if visible && todo.Some? {
        var f := Loaded(todo.value);
        title, description, startTime, endTime, alert, priority :=
          f.title, f.description, f.startTime, f.endTime, f.alert, f.priority;
      }
    }

    /** A picker change: a picked time replaces the start time, a dismissal keeps it. */
    method PickStart(selected: Option<nat>)
      modifies this`startTime
      requires selected.Some? ==> selected.value < MinutesPerDay
      ensures startTime == if selected.Some? then Some(At(selected.value)) else old(startTime)
    {
      if selected.Some? {
        startTime := Some(At(selected.value));
      }
    }

    method PickEnd(selected: Option<nat>)
      modifies this`endTime
      requires selected.Some? ==> selected.value < MinutesPerDay
      ensures endTime == if selected.Some? then Some(At(selected.value)) else old(endTime)
    {
      if selected.Some? {
        endTime := Some(At(selected.value));
      }
    }

    /** `handleSubmit`: the store changes only for a non-blank title and a present todo,
        and then only if the write succeeds; the form itself is left as it is. */
    method Submit(store: TodoStore, todo: Option<Todo>, now: int, writeOk: bool)
      returns (r: EditSubmission)
      modifies store`todos
      ensures r == Submission(Fields(), todo)
      ensures store.todos == if r.Patched? && writeOk then Updated(old(store.todos), r.id, r.patch, now)
                             else old(store.todos)
    {
      r := Submission(Fields(), todo);
      if r.Patched? {
        store.UpdateTodo(r.id, r.patch, now, writeOk);
      }
    }
  }
}
