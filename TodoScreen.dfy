/**
 * The today screen: the todos dated today, in list order, with a header counting the pending
 * and the completed ones. Each row's toggle and delete buttons call the store with that row's
 * id. Today's `YYYY-MM-DD` key is a parameter.
 */
module TodoScreen {
  import opened Lists
  import opened JsText
  import opened TodoContext

  /** `todos.filter(todo => todo.date === today)`. */
  function TodayTodos(todos: seq<Todo>, today: string): seq<Todo> {
    ByDate(todos, today)
  }

  /** `todayTodos.filter(t => !t.completed)`. */
  function Pending(shown: seq<Todo>): seq<Todo> {
    Filter((t: Todo) => !t.completed, shown)
  }

  /** `todayTodos.filter(t => t.completed)`. */
  function Completed(shown: seq<Todo>): seq<Todo> {
    Filter((t: Todo) => t.completed, shown)
  }

  /** The header, `{pending} pending, {completed} completed`. */
  function Header(shown: seq<Todo>): string {
    NatToString(|Pending(shown)|) + " pending, " + NatToString(|Completed(shown)|) + " completed"
  }

  /** Pending and completed split today's todos: together they hold each of them exactly as
      often, so the two counts add up to the number shown. */
  lemma PendingCompleted(shown: seq<Todo>)
    ensures multiset(Pending(shown)) + multiset(Completed(shown)) == multiset(shown)
    ensures |Pending(shown)| + |Completed(shown)| == |shown|
  {
    FilterPartition((t: Todo) => !t.completed, (t: Todo) => t.completed, shown);
  }

  /** A todo is pending exactly when it is shown and not completed, completed exactly when
      it is shown and completed, and each part keeps list order. */
  lemma PendingCompletedMembers(shown: seq<Todo>, more: seq<Todo>)
    ensures forall t :: t in Pending(shown) <==> t in shown && !t.completed
    ensures forall t :: t in Completed(shown) <==> t in shown && t.completed
    ensures Pending(shown + more) == Pending(shown) + Pending(more)
    ensures Completed(shown + more) == Completed(shown) + Completed(more)
  {
    FilterAppend((t: Todo) => !t.completed, shown, more);
    FilterAppend((t: Todo) => t.completed, shown, more);
  }

  /** The screen shows exactly today's todos, in list order. */
  lemma TodayExact(todos: seq<Todo>, today: string, more: seq<Todo>)
    ensures forall t :: t in TodayTodos(todos, today) <==> t in todos && t.date == today
    ensures TodayTodos(todos + more, today) == TodayTodos(todos, today) + TodayTodos(more, today)
  {
    ByDateExact(todos, today, more);
  }

  /** A row's delete removes every todo with its id from the screen and leaves the other rows
      in order: deleting and then showing today is showing today and then deleting. */
  lemma DeleteRow(todos: seq<Todo>, today: string, row: Todo)
    ensures TodayTodos(Without(todos, row.id), today) == Without(TodayTodos(todos, today), row.id)
    ensures !HasId(TodayTodos(Without(todos, row.id), today), row.id)
  {
    FilterCommute((t: Todo) => t.date == today, (t: Todo) => t.id != row.id, todos);
    DeleteRemovesOnlyMatching(TodayTodos(todos, today), row.id, []);
  }

  /** A row's toggle flips the todos with its id where they are shown: a toggle never moves a
      todo on or off today's list, and the other rows stay as they were. */
  lemma ToggleRow(todos: seq<Todo>, today: string, row: Todo, now: int)
    ensures TodayTodos(Toggled(todos, row.id, now), today) == Toggled(TodayTodos(todos, today), row.id, now)
    ensures var shown := TodayTodos(todos, today);
      var after := TodayTodos(Toggled(todos, row.id, now), today);
      && |after| == |shown|
      && (forall i :: 0 <= i < |shown| && shown[i].id == row.id ==> after[i].completed == !shown[i].completed)
      && (forall i :: 0 <= i < |shown| && shown[i].id != row.id ==> after[i] == shown[i])
  {
    var flip := (t: Todo) => if t.id == row.id then t.(completed := !t.completed, updatedAt := now) else t;
    FilterMap((t: Todo) => t.date == today, flip, todos);
    ToggleOnlyMatching(TodayTodos(todos, today), row.id, now);
  }
}
