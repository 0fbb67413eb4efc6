/**
 * The calendar screen: the month shown (a date whose month and year the grid uses), the
 * selected day key, the previous/next/today buttons, and the day panel that lists the todos
 * and dreams of the selected day. The buttons step the month with `setMonth`, which keeps the
 * day of the month, so a day the target month does not have runs on into the month after it.
 * Today's date is a parameter.
 */
module CalendarScreen {
  import opened JsDate
  import TodoContext
  import DreamContext
  import CalendarGrid

  /** A month counted from year 0: consecutive months differ by one. */
  function MonthIndex(d: Date): int {
    d.year * 12 + d.month
  }

  /** The date the "next" button shows: the following month, the same day when that month has
      it, else the overflow into the month after. */
  lemma NextMonthStep(d: Date)
    requires ValidDate(d)
    ensures var n := NextMonth(d.year, d.month);
      var r := SetMonth(d, d.month + 1);
      && (d.day <= DaysInMonth(n.year, n.month) ==> r == Date(n.year, n.month, d.day))
      && (d.day > DaysInMonth(n.year, n.month) ==>
            var o := NextMonth(n.year, n.month);
            r == Date(o.year, o.month, d.day - DaysInMonth(n.year, n.month)))
  {
    if d.month == 11 {
      assert (d.month + 1) / 12 == 1 && (d.month + 1) % 12 == 0;
    } else {
      assert (d.month + 1) / 12 == 0 && (d.month + 1) % 12 == d.month + 1;
    }
  }

  /** The date the "previous" button shows: the preceding month, the same day when that month
      has it, else the overflow into the month after it (the month shown before). */
  lemma PrevMonthStep(d: Date)
    requires ValidDate(d)
    ensures var p := PrevMonth(d.year, d.month);
      var r := SetMonth(d, d.month - 1);
      && (d.day <= DaysInMonth(p.year, p.month) ==> r == Date(p.year, p.month, d.day))
      && (d.day > DaysInMonth(p.year, p.month) ==>
            var o := NextMonth(p.year, p.month);
            r == Date(o.year, o.month, d.day - DaysInMonth(p.year, p.month)))
  {
    if d.month == 0 {
      assert (d.month - 1) / 12 == -1 && (d.month - 1) % 12 == 11;
    } else {
      assert (d.month - 1) / 12 == 0 && (d.month - 1) % 12 == d.month - 1;
    }
  }

  /** On a day every month has (the 28th or earlier) the buttons move the shown month by
      exactly one, rolling the year over, keep the day, and undo each other. */
  lemma StepsOnEarlyDays(d: Date)
    requires ValidDate(d) && d.day <= 28
    ensures MonthIndex(SetMonth(d, d.month + 1)) == MonthIndex(d) + 1
    ensures MonthIndex(SetMonth(d, d.month - 1)) == MonthIndex(d) - 1
    ensures SetMonth(d, d.month + 1).day == d.day && SetMonth(d, d.month - 1).day == d.day
    ensures d.month == 11 ==> SetMonth(d, d.month + 1) == Date(d.year + 1, 0, d.day)
    ensures d.month == 0 ==> SetMonth(d, d.month - 1) == Date(d.year - 1, 11, d.day)
    ensures var n := SetMonth(d, d.month + 1); SetMonth(n, n.month - 1) == d
    ensures var p := SetMonth(d, d.month - 1); SetMonth(p, p.month + 1) == d
  {
    NextMonthStep(d);
    PrevMonthStep(d);
    MonthStepsInverse(d.year, d.month);
    var n := SetMonth(d, d.month + 1);
    var p := SetMonth(d, d.month - 1);
    PrevMonthStep(n);
    NextMonthStep(p);
  }

  /** On a later day the step lands one month on when the target month has the day and two
      months on otherwise; the shown month never stays put and never skips more than one. */
  lemma NextStepOverflow(d: Date)
    requires ValidDate(d)
    ensures var n := NextMonth(d.year, d.month);
      && (d.day <= DaysInMonth(n.year, n.month) <==> MonthIndex(SetMonth(d, d.month + 1)) == MonthIndex(d) + 1)
      && (d.day > DaysInMonth(n.year, n.month) <==> MonthIndex(SetMonth(d, d.month + 1)) == MonthIndex(d) + 2)
  {
    NextMonthStep(d);
    var n := NextMonth(d.year, d.month);
    MonthStepsInverse(d.year, d.month);
    MonthStepsInverse(n.year, n.month);
  }

  /** The same for the "previous" button: back one month, or not at all when the previous
      month is too short, since the overflow runs into the month that was shown. */
  lemma PrevStepOverflow(d: Date)
    requires ValidDate(d)
    ensures var p := PrevMonth(d.year, d.month);
      && (d.day <= DaysInMonth(p.year, p.month) <==> MonthIndex(SetMonth(d, d.month - 1)) == MonthIndex(d) - 1)
      && (d.day > DaysInMonth(p.year, p.month) <==> MonthIndex(SetMonth(d, d.month - 1)) == MonthIndex(d))
  {
    PrevMonthStep(d);
    var p := PrevMonth(d.year, d.month);
    MonthStepsInverse(d.year, d.month);
    MonthStepsInverse(p.year, p.month);
  }

  /** From 31 January 2025 "next" shows 3 March, and from 31 March "previous" shows 3 March. */
  lemma MonthEndExamples()
    ensures SetMonth(Date(2025, 0, 31), 1) == Date(2025, 2, 3)
    ensures SetMonth(Date(2025, 2, 31), 1) == Date(2025, 2, 3)
    ensures SetMonth(Date(2024, 0, 31), 1) == Date(2024, 2, 2)
  {
  }

  /** The todos and the dreams the day panel lists: those dated on the selected day. */
  function DayTodos(todos: seq<TodoContext.Todo>, selectedDate: string): seq<TodoContext.Todo> {
    TodoContext.ByDate(todos, selectedDate)
  }

  function DayDreams(dreams: seq<DreamContext.Dream>, selectedDate: string): seq<DreamContext.Dream> {
    DreamContext.ByDate(dreams, selectedDate)
  }

  /** The panel holds exactly the items of the selected day, in list order, and it is empty
      exactly when the grid shows no todo (no dream) mark on that day. */
  lemma DayPanelExact(todos: seq<TodoContext.Todo>, dreams: seq<DreamContext.Dream>, selectedDate: string,
                      moreTodos: seq<TodoContext.Todo>, moreDreams: seq<DreamContext.Dream>)
    ensures forall t :: t in DayTodos(todos, selectedDate) <==> t in todos && t.date == selectedDate
    ensures forall d :: d in DayDreams(dreams, selectedDate) <==> d in dreams && d.date == selectedDate
    ensures DayTodos(todos + moreTodos, selectedDate) == DayTodos(todos, selectedDate) + DayTodos(moreTodos, selectedDate)
    ensures DayDreams(dreams + moreDreams, selectedDate) == DayDreams(dreams, selectedDate) + DayDreams(moreDreams, selectedDate)
    ensures |DayTodos(todos, selectedDate)| > 0 <==> CalendarGrid.HasTodoOn(todos, selectedDate)
    ensures |DayDreams(dreams, selectedDate)| > 0 <==> CalendarGrid.HasDreamOn(dreams, selectedDate)
  {
    TodoContext.ByDateExact(todos, selectedDate, moreTodos);
    DreamContext.ByDateExact(dreams, selectedDate, moreDreams);
    var ts := DayTodos(todos, selectedDate);
    var ds := DayDreams(dreams, selectedDate);
    if CalendarGrid.HasTodoOn(todos, selectedDate) {
      var k :| 0 <= k < |todos| && todos[k].date == selectedDate;
      assert todos[k] in ts;
    }
    if |ts| > 0 {
      assert ts[0] in todos;
    }
    if CalendarGrid.HasDreamOn(dreams, selectedDate) {
      var k :| 0 <= k < |dreams| && dreams[k].date == selectedDate;
      assert dreams[k] in ds;
    }
    if |ds| > 0 {
      assert ds[0] in dreams;
    }
  }

  /** The screen's state: the date whose month is shown, and the selected day's key. */
  class CalendarView {
    var currentMonth: Date
    var selectedDate: string

    predicate Valid()
      reads this
    {
      ValidDate(currentMonth)
    }

    /** Both start at today. */
    constructor (today: Date)
      requires 0 <= today.month < 12
      ensures currentMonth == today && selectedDate == DateKey(today)
    {
      currentMonth := today;
      selectedDate := DateKey(today);
    }

    /** `goToPreviousMonth`: `setMonth(getMonth() - 1)` on a copy; the selection stays. */
    method GoToPreviousMonth()
      requires Valid()
      modifies this`currentMonth
      ensures Valid()
      ensures currentMonth == SetMonth(old(currentMonth), old(currentMonth).month - 1)
      ensures selectedDate == old(selectedDate)
    {
      var newDate := currentMonth;
      newDate := SetMonth(newDate, newDate.month - 1);
      currentMonth := newDate;
    }

    /** `goToNextMonth`: `setMonth(getMonth() + 1)` on a copy; the selection stays. */
    method GoToNextMonth()
      requires Valid()
      modifies this`currentMonth
      ensures Valid()
      ensures currentMonth == SetMonth(old(currentMonth), old(currentMonth).month + 1)
      ensures selectedDate == old(selectedDate)
    {
      var newDate := currentMonth;
      newDate := SetMonth(newDate, newDate.month + 1);
      currentMonth := newDate;
    }

    /** `goToToday`: today's month is shown and today is selected. */
    method GoToToday(today: Date)
      requires 0 <= today.month < 12
      modifies this`currentMonth, this`selectedDate
      ensures currentMonth == today && selectedDate == DateKey(today)
    {
      currentMonth := today;
      selectedDate := DateKey(today);
    }

    /** The grid's `onSelectDate`: the pressed day's key becomes the selection; the shown
        month stays. */
    method SelectDate(key: string)
      modifies this`selectedDate
      ensures selectedDate == key && currentMonth == old(currentMonth)
    {
      selectedDate := key;
    }
  }
}
