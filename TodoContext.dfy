/**
 * The todo store: the in-memory list of todos, the pure list builders behind add, update,
 * delete and toggle, and the provider whose list is replaced only after a successful
 * storage write. Storage is abstract: a load yields the stored list or nothing, a write
 * succeeds or fails. Ids and timestamps (milliseconds) are supplied by the caller.
 */
module TodoContext {
  import opened Wrappers
  import opened Lists

  datatype Priority = Low | Medium | High

  /** A todo. `startTime`, `endTime` (`HH:MM`) and `alert` are written by the edit form. */
  datatype Todo = Todo(
    id: string,
    title: string,
    description: Option<string>,
    completed: bool,
    date: string,                // YYYY-MM-DD
    time: Option<string>,
    priority: Priority,
    createdAt: int,
    updatedAt: int,
    startTime: Option<string>,
    endTime: Option<string>,
    alert: Option<bool>)

  /** What the add form submits. */
  datatype TodoFormData = TodoFormData(
    title: string,
    description: Option<string>,
    date: string,
    time: Option<string>,
    priority: Priority)

  /** `Partial<Todo>`: one optional key per field. */
  datatype TodoPatch = TodoPatch(
    id: Field<string>,
    title: Field<string>,
    description: Field<Option<string>>,
    completed: Field<bool>,
    date: Field<string>,
    time: Field<Option<string>>,
    priority: Field<Priority>,
    createdAt: Field<int>,
    updatedAt: Field<int>,
    startTime: Field<Option<string>>,
    endTime: Field<Option<string>>,
    alert: Field<Option<bool>>)

  /** The todo `addTodo` builds: the form's fields, not completed, created and updated now. */
  function NewTodo(id: string, data: TodoFormData, now: int): Todo {
    Todo(id, data.title, data.description, false, data.date, data.time, data.priority,
         now, now, None, None, None)
  }

  /** `{ ...todo, ...data, updatedAt: now }`: every key present in the patch wins, and
      `updatedAt` is the current time whatever the patch says. */
  function Merge(todo: Todo, patch: TodoPatch, now: int): (r: Todo)
    ensures r.updatedAt == now
    ensures (patch.id.Set? ==> r.id == patch.id.value) && (patch.id.Keep? ==> r.id == todo.id)
    ensures (patch.title.Set? ==> r.title == patch.title.value) && (patch.title.Keep? ==> r.title == todo.title)
    ensures (patch.description.Set? ==> r.description == patch.description.value) && (patch.description.Keep? ==> r.description == todo.description)
    ensures (patch.completed.Set? ==> r.completed == patch.completed.value) && (patch.completed.Keep? ==> r.completed == todo.completed)
    ensures (patch.date.Set? ==> r.date == patch.date.value) && (patch.date.Keep? ==> r.date == todo.date)
    ensures (patch.time.Set? ==> r.time == patch.time.value) && (patch.time.Keep? ==> r.time == todo.time)
    ensures (patch.priority.Set? ==> r.priority == patch.priority.value) && (patch.priority.Keep? ==> r.priority == todo.priority)
    ensures (patch.createdAt.Set? ==> r.createdAt == patch.createdAt.value) && (patch.createdAt.Keep? ==> r.createdAt == todo.createdAt)
    ensures (patch.startTime.Set? ==> r.startTime == patch.startTime.value) && (patch.startTime.Keep? ==> r.startTime == todo.startTime)
    ensures (patch.endTime.Set? ==> r.endTime == patch.endTime.value) && (patch.endTime.Keep? ==> r.endTime == todo.endTime)
    ensures (patch.alert.Set? ==> r.alert == patch.alert.value) && (patch.alert.Keep? ==> r.alert == todo.alert)
  {
    Todo(patch.id.Apply(todo.id), patch.title.Apply(todo.title),
         patch.description.Apply(todo.description), patch.completed.Apply(todo.completed),
         patch.date.Apply(todo.date), patch.time.Apply(todo.time),
         patch.priority.Apply(todo.priority), patch.createdAt.Apply(todo.createdAt), now,
         patch.startTime.Apply(todo.startTime), patch.endTime.Apply(todo.endTime),
         patch.alert.Apply(todo.alert))
  }

  /** The patch that changes nothing. */
  const EmptyPatch := TodoPatch(Keep, Keep, Keep, Keep, Keep, Keep, Keep, Keep, Keep, Keep, Keep, Keep)

  /** An empty patch only refreshes `updatedAt`. */
  lemma MergeEmptyPatch(todo: Todo, now: int)
    ensures Merge(todo, EmptyPatch, now) == todo.(updatedAt := now)
  {
  }

  /** The list `updateTodo(id, patch)` saves: each todo with that id merged with the patch. */
  function Updated(todos: seq<Todo>, id: string, patch: TodoPatch, now: int): seq<Todo> {
    Map((t: Todo) => if t.id == id then Merge(t, patch, now) else t, todos)
  }

  /** The list `toggleTodo(id)` saves: each todo with that id flipped and touched. */
  function Toggled(todos: seq<Todo>, id: string, now: int): seq<Todo> {
    Map((t: Todo) => if t.id == id then t.(completed := !t.completed, updatedAt := now) else t, todos)
  }

  /** The list `deleteTodo(id)` saves. */
  function Without(todos: seq<Todo>, id: string): seq<Todo> {
    Filter((t: Todo) => t.id != id, todos)
  }

  /** `getTodosByDate(date)`. */
  function ByDate(todos: seq<Todo>, date: string): seq<Todo> {
    Filter((t: Todo) => t.date == date, todos)
  }

  predicate HasId(todos: seq<Todo>, id: string) {
    exists i :: 0 <= i < |todos| && todos[i].id == id
  }

  /** An update keeps the length, replaces each todo with the id by its merge with the patch
      (touched now), and leaves every other todo where and as it was. */
  lemma UpdateOnlyMatching(todos: seq<Todo>, id: string, patch: TodoPatch, now: int)
    ensures var r := Updated(todos, id, patch, now);
      && |r| == |todos|
      && (forall i :: 0 <= i < |todos| && todos[i].id == id ==>
            r[i] == Merge(todos[i], patch, now) && r[i].updatedAt == now)
      && (forall i :: 0 <= i < |todos| && todos[i].id != id ==> r[i] == todos[i])
  {
  }

  /** A toggle flips `completed` of exactly the todos with the id, touches them, and leaves
      every other todo alone. */
  lemma ToggleOnlyMatching(todos: seq<Todo>, id: string, now: int)
    ensures var r := Toggled(todos, id, now);
      && |r| == |todos|
      && (forall i :: 0 <= i < |todos| && todos[i].id == id ==>
            r[i] == todos[i].(completed := !todos[i].completed, updatedAt := now))
      && (forall i :: 0 <= i < |todos| && todos[i].id != id ==> r[i] == todos[i])
  {
  }

  /** Toggling the same id twice restores every `completed` flag; only the `updatedAt` of
      the toggled todos differs. */
  lemma ToggleTwice(todos: seq<Todo>, id: string, now1: int, now2: int)
    ensures var r := Toggled(Toggled(todos, id, now1), id, now2);
      && |r| == |todos|
      && (forall i :: 0 <= i < |todos| ==> r[i].completed == todos[i].completed)
      && (forall i :: 0 <= i < |todos| ==>
            r[i] == if todos[i].id == id then todos[i].(updatedAt := now2) else todos[i])
  {
    var once := Toggled(todos, id, now1);
    var r := Toggled(once, id, now2);
    forall i | 0 <= i < |todos|
      ensures r[i] == if todos[i].id == id then todos[i].(updatedAt := now2) else todos[i]
    {
      assert once[i].id == todos[i].id;
    }
  }

  /** Updating or toggling an id no todo has leaves the list as it was. */
  lemma AbsentIdUnchanged(todos: seq<Todo>, id: string, patch: TodoPatch, now: int)
    requires !HasId(todos, id)
    ensures Updated(todos, id, patch, now) == todos
    ensures Toggled(todos, id, now) == todos
    ensures Without(todos, id) == todos
  {
    MapFixed((t: Todo) => if t.id == id then Merge(t, patch, now) else t, todos);
    MapFixed((t: Todo) => if t.id == id then t.(completed := !t.completed, updatedAt := now) else t, todos);
    FilterAll((t: Todo) => t.id != id, todos);
  }

  /** A delete removes every todo with the id and keeps every other one; it commutes with
      concatenation, so the survivors keep their order. */
  lemma DeleteRemovesOnlyMatching(todos: seq<Todo>, id: string, more: seq<Todo>)
    ensures !HasId(Without(todos, id), id)
    ensures forall i :: 0 <= i < |todos| && todos[i].id != id ==> todos[i] in Without(todos, id)
    ensures Without(todos + more, id) == Without(todos, id) + Without(more, id)
  {
    FilterAppend((t: Todo) => t.id != id, todos, more);
  }

  /** The todos of a date are exactly those with that date, in list order. */
  lemma ByDateExact(todos: seq<Todo>, date: string, more: seq<Todo>)
    ensures forall t :: t in ByDate(todos, date) <==> t in todos && t.date == date
    ensures ByDate(todos + more, date) == ByDate(todos, date) + ByDate(more, date)
  {
    FilterAppend((t: Todo) => t.date == date, todos, more);
  }

  /** The provider: the list, and whether the first load is still pending. */
  class TodoStore {
    var todos: seq<Todo>
    var loading: bool

    constructor ()
      ensures todos == [] && loading
    {
      todos := [];
      loading := true;
    }

    /** `loadTodos`: the stored list replaces the list only when there is one (`None` stands
        for no data, an empty string, or a failed read or parse); loading ends either way. */
    method LoadTodos(stored: Option<seq<Todo>>)
      modifies this
      ensures !loading
      ensures todos == if stored.Some? then stored.value else old(todos)
    {
      if stored.Some? {
        todos := stored.value;
      }
      loading := false;
    }

    /** `saveTodos`: the new list is kept only once the storage write has succeeded. */
    method SaveTodos(newTodos: seq<Todo>, writeOk: bool)
      modifies this`todos
      ensures todos == if writeOk then newTodos else old(todos)
    {
      if writeOk {
        todos := newTodos;
      }
    }

    /** `addTodo`: one new, not completed todo at the end; the others unchanged and in order. */
    method AddTodo(data: TodoFormData, id: string, now: int, writeOk: bool)
      modifies this`todos
      ensures todos == if writeOk then old(todos) + [NewTodo(id, data, now)] else old(todos)
      ensures writeOk ==>
        (|todos| == |old(todos)| + 1 && todos[..|old(todos)|] == old(todos)
         && !todos[|old(todos)|].completed && todos[|old(todos)|].title == data.title)
    {
      SaveTodos(todos + [NewTodo(id, data, now)], writeOk);
    }

    method UpdateTodo(id: string, patch: TodoPatch, now: int, writeOk: bool)
      modifies this`todos
      ensures todos == if writeOk then Updated(old(todos), id, patch, now) else old(todos)
    {
      SaveTodos(Updated(todos, id, patch, now), writeOk);
    }

    method DeleteTodo(id: string, writeOk: bool)
      modifies this`todos
      ensures todos == if writeOk then Without(old(todos), id) else old(todos)
    {
      SaveTodos(Without(todos, id), writeOk);
    }

    method ToggleTodo(id: string, now: int, writeOk: bool)
      modifies this`todos
      ensures todos == if writeOk then Toggled(old(todos), id, now) else old(todos)
    {
      SaveTodos(Toggled(todos, id, now), writeOk);
    }

    /** `getTodosByDate(date)`: the todos of that date, in list order. */
    function GetTodosByDate(date: string): (r: seq<Todo>)
      reads this
      ensures forall i :: 0 <= i < |r| ==> r[i] in todos && r[i].date == date
      ensures forall i :: 0 <= i < |todos| && todos[i].date == date ==> todos[i] in r
    {
      ByDate(todos, date)
    }
  }
}
