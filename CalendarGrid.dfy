/**
 * The month grid of the calendar: six weeks of seven days, starting on the Sunday on or before
 * the first of the shown month. Each cell carries its date, its `YYYY-MM-DD` key and flags:
 * whether it lies in the shown month (only those cells can be pressed), is today, is the
 * selected date, and has todos or dreams on its date. Today's key is a parameter.
 */
module CalendarGrid {
  import opened JsText
  import opened JsDate
  import TodoContext
  import DreamContext

  const GridSize := 42

  /** One cell of `generateCalendarDays`. */
  datatype DayInfo = DayInfo(
    date: Date,
    dateStr: string,
    day: int,
    isCurrentMonth: bool,
    isToday: bool,
    isSelected: bool,
    hasTodos: bool,
    hasDreams: bool)

  /** `todos.some(t => t.date === key)`. */
  predicate HasTodoOn(todos: seq<TodoContext.Todo>, key: string) {
    exists k :: 0 <= k < |todos| && todos[k].date == key
  }

  /** `dreams.some(d => d.date === key)`. */
  predicate HasDreamOn(dreams: seq<DreamContext.Dream>, key: string) {
    exists k :: 0 <= k < |dreams| && dreams[k].date == key
  }

  /** The weekday of the first of the month: how many cells of the previous month lead. */
  function Lead(y: int, m: int): (w: int)
    requires 0 <= m < 12
    ensures 0 <= w < 7
  {
    Weekday(Date(y, m, 1))
  }

  /** `startDate.setDate(startDate.getDate() - startDate.getDay())` on the first of the month:
      day `1 - w`, which for `w > 0` is a day at the end of the previous month. */
  function GridStart(y: int, m: int, w: int): Date
    requires 0 <= m < 12
  {
    if w == 0 then Date(y, m, 1)
    else
      var p := PrevMonth(y, m);
      Date(p.year, p.month, DaysInMonth(p.year, p.month) + 1 - w)
  }

  /** The date in cell `i`: the tail of the previous month, the month's days 1 .. n, then the
      head of the next month; `w` is the number of leading cells. */
  function CellDate(y: int, m: int, w: int, i: int): Date
    requires 0 <= m < 12
  {
    var n := DaysInMonth(y, m);
    if i < w then
      var p := PrevMonth(y, m);
      Date(p.year, p.month, DaysInMonth(p.year, p.month) - w + 1 + i)
    else if i < w + n then Date(y, m, i - w + 1)
    else
      var q := NextMonth(y, m);
      Date(q.year, q.month, i - w - n + 1)
  }

  /** The cell for `date` in the grid of month `m`. */
  function Cell(m: int, date: Date, selectedDate: string, today: string,
                todos: seq<TodoContext.Todo>, dreams: seq<DreamContext.Dream>): DayInfo
    requires 0 <= date.month < 12
  {
    var key := DateKey(date);
    DayInfo(date, key, date.day, date.month == m, key == today, key == selectedDate,
            HasTodoOn(todos, key), HasDreamOn(dreams, key))
  }

  /** The grid as a whole. */
  function Grid(y: int, m: int, selectedDate: string, today: string,
                todos: seq<TodoContext.Todo>, dreams: seq<DreamContext.Dream>): seq<DayInfo>
    requires 0 <= m < 12
  {
    GridWith(y, m, Lead(y, m), selectedDate, today, todos, dreams)
  }

  /** The grid for `w` leading cells. */
  function GridWith(y: int, m: int, w: int, selectedDate: string, today: string,
                    todos: seq<TodoContext.Todo>, dreams: seq<DreamContext.Dream>): seq<DayInfo>
    requires 0 <= m < 12 && 0 <= w < 7
  {
    seq(GridSize, i requires 0 <= i < GridSize => CellAt(y, m, w, i, selectedDate, today, todos, dreams))
  }

  /** A cell can be pressed only when it lies in the shown month (`disabled={!isCurrentMonth}`). */
  predicate Pressable(cell: DayInfo) {
    cell.isCurrentMonth
  }

  lemma CellValid(y: int, m: int, w: int, i: int)
    requires 0 <= m < 12 && 0 <= w < 7 && 0 <= i < GridSize
    ensures ValidDate(CellDate(y, m, w, i))
  {
  }

  /** The grid starts where `setDate` puts the start date. */
  lemma StartIsFirstCell(y: int, m: int, w: int)
    requires 0 <= m < 12 && 0 <= w < 7
    ensures GridStart(y, m, w) == CellDate(y, m, w, 0)
  {
  }

  /** Stepping `currentDate` one day forward moves to the next cell. */
  lemma NextCell(y: int, m: int, w: int, i: int)
    requires 0 <= m < 12 && 0 <= w < 7 && 0 <= i < GridSize - 1
    ensures ValidDate(CellDate(y, m, w, i))
    ensures NextDay(CellDate(y, m, w, i)) == CellDate(y, m, w, i + 1)
  {
    if i + 1 == w {
      MonthStepsInverse(y, m);
    }
  }

  /** The first cell is numbered `w` days before the first of the month. */
  lemma StartNumber(y: int, m: int, w: int)
    requires 0 <= m < 12 && 0 <= w < 7
    ensures DayNumber(Date(y, m, 1)) == DayNumber(CellDate(y, m, w, 0)) + w
  {
    if w > 0 {
      var p := PrevMonth(y, m);
      var last := Date(p.year, p.month, DaysInMonth(p.year, p.month));
      MonthStepsInverse(y, m);
      assert NextDay(last) == Date(y, m, 1);
      NextDayNumber(last);
      SameMonthNumbers(last, CellDate(y, m, w, 0));
    }
  }

  lemma SameMonthNumbers(d: Date, e: Date)
    requires 0 <= d.month < 12 && d.year == e.year && d.month == e.month
    ensures DayNumber(d) == DayNumber(e) + d.day - e.day
  {
  }

  /** `generateCalendarDays`: the start date is the first of the month moved back by its
      weekday, and the cells are then filled one day at a time. */
  method GenerateCalendarDays(currentMonth: Date, selectedDate: string, today: string,
                              todos: seq<TodoContext.Todo>, dreams: seq<DreamContext.Dream>)
    returns (days: seq<DayInfo>)
    requires ValidDate(currentMonth)
    ensures days == Grid(currentMonth.year, currentMonth.month, selectedDate, today, todos, dreams)
  {
    var year, month := currentMonth.year, currentMonth.month;
    var w := Weekday(Date(year, month, 1));
    var startDate := GridStart(year, month, w);
    days := FillDays(year, month, w, startDate, selectedDate, today, todos, dreams);
  }

  /** The `for` loop of `generateCalendarDays`: 42 steps, each recording the cell of
      `currentDate` and then moving it one day on. */
  method FillDays(year: int, month: int, w: int, startDate: Date, selectedDate: string,
                  today: string, todos: seq<TodoContext.Todo>, dreams: seq<DreamContext.Dream>)
    returns (days: seq<DayInfo>)
    requires 0 <= month < 12 && 0 <= w < 7 && startDate == GridStart(year, month, w)
    ensures days == GridWith(year, month, w, selectedDate, today, todos, dreams)
  {
    var currentDate := startDate;
    StartIsFirstCell(year, month, w);
    days := [];
    var i := 0;
    while i < GridSize
      invariant 0 <= i <= GridSize && |days| == i
      invariant i < GridSize ==> currentDate == CellDate(year, month, w, i)
      invariant days == GridWith(year, month, w, selectedDate, today, todos, dreams)[..i]
    {
      CellValid(year, month, w, i);
      var dateStr := DateKey(currentDate);
      var isCurrentMonth := currentDate.month == month;
      var isToday := dateStr == today;
      var isSelected := dateStr == selectedDate;
      var hasTodos := HasTodoOn(todos, dateStr);
      var hasDreams := HasDreamOn(dreams, dateStr);
      var cell := DayInfo(currentDate, dateStr, currentDate.day, isCurrentMonth, isToday,
                          isSelected, hasTodos, hasDreams);
      assert cell == Cell(month, currentDate, selectedDate, today, todos, dreams);
      GridCellIs(year, month, w, i, currentDate, selectedDate, today, todos, dreams);
      PrefixStep(GridWith(year, month, w, selectedDate, today, todos, dreams), i);
      days := days + [cell];
      if i < GridSize - 1 {
        NextCell(year, month, w, i);
      }
      currentDate := NextDay(currentDate);
      i := i + 1;
    }
  }

  lemma GridCellIs(y: int, m: int, w: int, i: int, date: Date, selectedDate: string, today: string,
                   todos: seq<TodoContext.Todo>, dreams: seq<DreamContext.Dream>)
    requires 0 <= m < 12 && 0 <= w < 7 && 0 <= i < GridSize && date == CellDate(y, m, w, i)
    ensures 0 <= date.month < 12
    ensures GridWith(y, m, w, selectedDate, today, todos, dreams)[i]
         == Cell(m, date, selectedDate, today, todos, dreams)
  {
    CellValid(y, m, w, i);
  }

  lemma PrefixStep<T>(s: seq<T>, i: int)
    requires 0 <= i < |s|
    ensures s[..i + 1] == s[..i] + [s[i]]
  {
  }

  /** The first cell is the Sunday on or before the first of the month. */
  lemma GridStartsOnSunday(y: int, m: int, selectedDate: string, today: string,
                           todos: seq<TodoContext.Todo>, dreams: seq<DreamContext.Dream>)
    requires 0 <= m < 12
    ensures var g := Grid(y, m, selectedDate, today, todos, dreams);
      && |g| == GridSize && 0 <= g[0].date.month < 12
      && Weekday(g[0].date) == 0
      && DayNumber(Date(y, m, 1)) - 6 <= DayNumber(g[0].date) <= DayNumber(Date(y, m, 1))
  {
    var w := Lead(y, m);
    GridDates(y, m, w, selectedDate, today, todos, dreams);
    var start := CellDate(y, m, w, 0);
    CellValid(y, m, w, 0);
    StartNumber(y, m, w);
    SundayBefore(Date(y, m, 1), start, w);
  }

  lemma SundayBefore(first: Date, start: Date, w: int)
    requires 0 <= first.month < 12 && 0 <= start.month < 12
    requires w == Weekday(first) && DayNumber(first) == DayNumber(start) + w
    ensures Weekday(start) == 0
  {
    FirstSunday(DayNumber(first), DayNumber(start), w);
  }

  /** Each cell is the day after the one before it. */
  lemma GridConsecutive(y: int, m: int, selectedDate: string, today: string,
                        todos: seq<TodoContext.Todo>, dreams: seq<DreamContext.Dream>)
    requires 0 <= m < 12
    ensures var g := Grid(y, m, selectedDate, today, todos, dreams);
      && |g| == GridSize
      && (forall i :: 0 <= i < GridSize ==> ValidDate(g[i].date))
      && (forall i :: 0 <= i < GridSize - 1 ==> g[i + 1].date == NextDay(g[i].date))
  {
    var w := Lead(y, m);
    GridDates(y, m, w, selectedDate, today, todos, dreams);
    forall i | 0 <= i < GridSize
      ensures ValidDate(CellDate(y, m, w, i))
      ensures i < GridSize - 1 ==> CellDate(y, m, w, i + 1) == NextDay(CellDate(y, m, w, i))
    {
      CellValid(y, m, w, i);
      if i < GridSize - 1 {
        NextCell(y, m, w, i);
      }
    }
  }

  /** The cell of the grid at `i`, for a given lead. */
  function CellAt(y: int, m: int, w: int, i: int, selectedDate: string, today: string,
                  todos: seq<TodoContext.Todo>, dreams: seq<DreamContext.Dream>): DayInfo
    requires 0 <= m < 12 && 0 <= w < 7 && 0 <= i < GridSize
  {
    CellValid(y, m, w, i);
    Cell(m, CellDate(y, m, w, i), selectedDate, today, todos, dreams)
  }

  lemma GridDates(y: int, m: int, w: int, selectedDate: string, today: string,
                  todos: seq<TodoContext.Todo>, dreams: seq<DreamContext.Dream>)
    requires 0 <= m < 12 && w == Lead(y, m)
    ensures var g := Grid(y, m, selectedDate, today, todos, dreams);
      |g| == GridSize && forall i :: 0 <= i < GridSize ==>
        g[i] == CellAt(y, m, w, i, selectedDate, today, todos, dreams) && g[i].date == CellDate(y, m, w, i)
  {
  }

  lemma FirstSunday(first: int, start: int, w: int)
    requires w == WeekdayOf(first) && first == start + w
    ensures WeekdayOf(start) == 0
  {
  }

  /** The month's days 1 .. n fill the cells from the first's weekday on, in order; the flag
      `isCurrentMonth`, and with it being pressable, holds on exactly that run. */
  lemma GridMonthRun(y: int, m: int, selectedDate: string, today: string,
                     todos: seq<TodoContext.Todo>, dreams: seq<DreamContext.Dream>)
    requires 0 <= m < 12
    ensures var g := Grid(y, m, selectedDate, today, todos, dreams);
      var w, n := Weekday(Date(y, m, 1)), DaysInMonth(y, m);
      && w + n <= GridSize
      && (forall i :: 0 <= i < GridSize ==>
            (g[i].isCurrentMonth <==> w <= i < w + n) && (Pressable(g[i]) <==> w <= i < w + n))
      && (forall i :: w <= i < w + n ==> g[i].date == Date(y, m, i - w + 1) && g[i].day == i - w + 1)
  {
    var w := Lead(y, m);
    GridDates(y, m, w, selectedDate, today, todos, dreams);
    forall i | 0 <= i < GridSize
      ensures var c := CellAt(y, m, w, i, selectedDate, today, todos, dreams);
        (c.isCurrentMonth <==> w <= i < w + DaysInMonth(y, m))
        && (w <= i < w + DaysInMonth(y, m) ==> c.date == Date(y, m, i - w + 1) && c.day == i - w + 1)
    {
      RunCell(y, m, w, i, selectedDate, today, todos, dreams);
    }
  }

  lemma RunCell(y: int, m: int, w: int, i: int, selectedDate: string, today: string,
                todos: seq<TodoContext.Todo>, dreams: seq<DreamContext.Dream>)
    requires 0 <= m < 12 && 0 <= w < 7 && 0 <= i < GridSize
    ensures var c := CellAt(y, m, w, i, selectedDate, today, todos, dreams);
      (c.isCurrentMonth <==> w <= i < w + DaysInMonth(y, m))
      && (w <= i < w + DaysInMonth(y, m) ==> c.date == Date(y, m, i - w + 1) && c.day == i - w + 1)
  {
    RunDate(y, m, w, i);
    CellFields(m, CellDate(y, m, w, i), selectedDate, today, todos, dreams);
  }

  /** A cell's date is in month `m` exactly on the run of the month's days. */
  lemma RunDate(y: int, m: int, w: int, i: int)
    requires 0 <= m < 12 && 0 <= w < 7 && 0 <= i < GridSize
    ensures var d := CellDate(y, m, w, i);
      (d.month == m <==> w <= i < w + DaysInMonth(y, m))
      && (w <= i < w + DaysInMonth(y, m) ==> d == Date(y, m, i - w + 1))
  {
  }

  lemma CellFields(m: int, date: Date, selectedDate: string, today: string,
                   todos: seq<TodoContext.Todo>, dreams: seq<DreamContext.Dream>)
    requires 0 <= date.month < 12
    ensures var c := Cell(m, date, selectedDate, today, todos, dreams);
      c.date == date && c.day == date.day && (c.isCurrentMonth <==> date.month == m)
  {
  }

  /** The flags of each cell: the day shown is the date's day, and today, the selection and
      the todo and dream marks hold exactly when the cell's key is today's key, the selected
      key, or the date of some todo or dream. */
  lemma GridFlags(y: int, m: int, selectedDate: string, today: string,
                  todos: seq<TodoContext.Todo>, dreams: seq<DreamContext.Dream>, i: int)
    requires 0 <= m < 12 && 0 <= i < GridSize
    ensures var c := Grid(y, m, selectedDate, today, todos, dreams)[i];
      && c.date == CellDate(y, m, Lead(y, m), i) && c.dateStr == DateKey(c.date) && c.day == c.date.day
      && (c.isToday <==> c.dateStr == today)
      && (c.isSelected <==> c.dateStr == selectedDate)
      && (c.hasTodos <==> exists k :: 0 <= k < |todos| && todos[k].date == c.dateStr)
      && (c.hasDreams <==> exists k :: 0 <= k < |dreams| && dreams[k].date == c.dateStr)
  {
    GridDates(y, m, Lead(y, m), selectedDate, today, todos, dreams);
  }
}
