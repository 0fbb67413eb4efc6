/**
 * The form that adds a todo: a title that must not be blank, an optional description and
 * time, and a priority that starts at medium. Submitting trims the texts, turns blank
 * optional texts into absent ones, dates the todo today, adds it to the store and clears
 * the form.
 */
module AddTodoModal {
  import opened Wrappers
  import opened JsText
  import opened TodoContext

  const TitleRequired := "Please enter a title"

  /** What pressing the add button yields: an alert, or the data handed to the store. */
  datatype Submission = Rejected(message: string) | Accepted(data: TodoFormData)

  /** The check and the form data of `handleSubmit`. */
  function FormData(title: string, description: string, time: string, priority: Priority,
                    today: string): Submission {
    if Trim(title) == [] then Rejected(TitleRequired)
    else Accepted(TodoFormData(Trim(title), TrimmedOrNone(description), today,
                               TrimmedOrNone(time), priority))
  }

  /** A blank title is refused with the alert; otherwise the title is trimmed (not empty,
      no white space at either end), a blank description or time is left out, the date is
      today and the priority is the one picked. */
  lemma FormDataChecks(title: string, description: string, time: string, priority: Priority,
                       today: string)
    ensures var r := FormData(title, description, time, priority, today);
      && (r.Rejected? <==> IsBlank(title))
      && (r.Rejected? ==> r.message == TitleRequired)
      && (r.Accepted? ==>
        && r.data.title == Trim(title) && r.data.title != []
        && !IsSpace(r.data.title[0]) && !IsSpace(r.data.title[|r.data.title| - 1])
        && (r.data.description.None? <==> IsBlank(description))
        && (r.data.time.None? <==> IsBlank(time))
        && r.data.date == today && r.data.priority == priority)
  {
    TrimFacts(title);
    TrimmedOrNoneFacts(description);
    TrimmedOrNoneFacts(time);
  }

  /** The form data is already in its final shape: entering it again yields the same data. */
  lemma FormDataStable(title: string, description: string, time: string, priority: Priority,
                       today: string)
    requires FormData(title, description, time, priority, today).Accepted?
    ensures var d := FormData(title, description, time, priority, today).data;
      FormData(d.title, d.description.GetOr(""), d.time.GetOr(""), d.priority, today)
        == Accepted(d)
  {
    var d := FormData(title, description, time, priority, today).data;
    TrimFacts(title);
    TrimIdempotent(title);
    TrimIdempotent(description);
    TrimIdempotent(time);
    assert IsBlank("");
    assert Trim("") == [];
  }

  /** The add form's fields. */
  class AddTodoForm {
    var title: string
    var description: string
    var time: string
    var priority: Priority

    /** Empty texts and medium priority. */
    constructor ()
      ensures title == "" && description == "" && time == "" && priority == Medium
    {
      title, description, time, priority := "", "", "", Medium;
    }

    /** `handleSubmit`: a blank title changes nothing and yields the alert. Otherwise the
        todo goes to the store (kept there only if the write succeeds) and the form is
        cleared back to its initial values whatever the write did. */
    method Submit(store: TodoStore, id: string, today: string, now: int, writeOk: bool)
      returns (r: Submission)
      modifies this, store`todos
      ensures r == FormData(old(title), old(description), old(time), old(priority), today)
      ensures r.Rejected? ==>
        && unchanged(this)
        && store.todos == old(store.todos)
      ensures r.Accepted? ==>
        && store.todos == (if writeOk then old(store.todos) + [NewTodo(id, r.data, now)]
                           else old(store.todos))
        && title == "" && description == "" && time == "" && priority == Medium
    {
      r := FormData(title, description, time, priority, today);
      if r.Rejected? {
        return;
      }
      store.AddTodo(r.data, id, now, writeOk);
      title, description, time, priority := "", "", "", Medium;
    }
  }
}
