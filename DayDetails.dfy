/**
 * The day panel under the calendar: a summary line counting the day's tasks and dreams, and
 * either a note that the day is empty or one section per non-empty list. A task card shows
 * the title (struck through when completed), a time badge and the description when present,
 * on an accent that follows the priority; a dream card shows the title, the mood's emoji
 * (neutral when the mood is missing or unknown), the content and the tags. The long date
 * heading comes from the locale library and is not part of this model.
 */
module DayDetails {
  import opened Wrappers
  import opened JsText
  import TodoContext
  import DreamContext

  const HighColor := "#F44336"
  const MediumColor := "#FF9800"
  const LowColor := "#4CAF50"

  /** The accent of a task card: red for high, orange for medium, green otherwise. */
  function PriorityColor(p: TodoContext.Priority): (c: string)
    ensures c == HighColor <==> p.High?
    ensures c == MediumColor <==> p.Medium?
    ensures c == LowColor <==> p.Low?
  {
    assert HighColor[2] != MediumColor[2] && MediumColor[2] != LowColor[2] && HighColor[2] != LowColor[2];
    match p
    case High => HighColor
    case Medium => MediumColor
    case Low => LowColor
  }

  const NeutralFace := "\U{1F610}"

  /** The emoji of each known mood name. */
  const MoodEmojis: map<string, string> := map[
    "happy" := "\U{1F60A}",
    "sad" := "\U{1F622}",
    "neutral" := NeutralFace,
    "scary" := "\U{1F628}",
    "exciting" := "\U{1F929}"]

  /** `dream.mood ? moodEmojiMap[dream.mood] || '😐' : '😐'`: a missing or empty mood and a
      name the table does not hold all fall back to the neutral face. */
  function MoodEmoji(mood: Option<string>): string {
    if mood.Some? && mood.value != "" && mood.value in MoodEmojis then MoodEmojis[mood.value]
    else NeutralFace
  }

  /** The neutral face is shown exactly for a missing or unknown mood and for `neutral`; the
      five known moods have five different faces. */
  lemma MoodEmojiFallback(mood: Option<string>)
    ensures MoodEmoji(mood) == NeutralFace <==>
      mood.None? || mood.value !in MoodEmojis || mood.value == "neutral"
    ensures mood.Some? && mood.value in MoodEmojis ==> MoodEmoji(mood) == MoodEmojis[mood.value]
    ensures forall a, b :: a in MoodEmojis && b in MoodEmojis && MoodEmojis[a] == MoodEmojis[b] ==> a == b
  {
  }

  /** A count followed by its noun: `{n} {n === 1 ? one : many}`. */
  function Counted(n: nat, one: string, many: string): string {
    NatToString(n) + ([' '] + (if n == 1 then one else many))
  }

  /** The summary line, `3 tasks · 1 dream`. */
  function Summary(tasks: nat, dreams: nat): string {
    Counted(tasks, "task", "tasks") + (" · " + Counted(dreams, "dream", "dreams"))
  }

  /** Each count is followed by its noun, which ends in `s` exactly when the count is not
      one. */
  lemma PluralUnlessOne(n: nat)
    ensures var c := Counted(n, "task", "tasks"); c[|c| - 1] == 's' <==> n != 1
    ensures var c := Counted(n, "dream", "dreams"); c[|c| - 1] == 's' <==> n != 1
  {
  }

  /** The summary line gives back both counts: different counts never read the same. */
  lemma SummaryDeterminesCounts(t1: nat, d1: nat, t2: nat, d2: nat)
    requires Summary(t1, d1) == Summary(t2, d2)
    ensures t1 == t2 && d1 == d2
  {
    var n1, n2 := (if t1 == 1 then "task" else "tasks"), (if t2 == 1 then "task" else "tasks");
    var c1, c2 := Counted(d1, "dream", "dreams"), Counted(d2, "dream", "dreams");
    var a1, a2 := NatToString(t1), NatToString(t2);
    var r1, r2 := n1 + (" · " + c1), n2 + (" · " + c2);
    Regroup(a1, n1, " · " + c1);
    Regroup(a2, n2, " · " + c2);
    NumeralThenSpace(a1, r1, a2, r2);
    DecimalValueOfNatToString(t1);
    DecimalValueOfNatToString(t2);
    assert n1 == n2;
    DropPrefix(n1, " · " + c1, " · " + c2);
    DropPrefix(" · ", c1, c2);
    var m1, m2 := (if d1 == 1 then "dream" else "dreams"), (if d2 == 1 then "dream" else "dreams");
    NumeralThenSpace(NatToString(d1), m1, NatToString(d2), m2);
    DecimalValueOfNatToString(d1);
    DecimalValueOfNatToString(d2);
  }

  lemma Regroup(a: string, n: string, rest: string)
    ensures (a + ([' '] + n)) + rest == a + ([' '] + (n + rest))
  {
  }

  lemma DropPrefix(p: string, x: string, y: string)
    requires p + x == p + y
    ensures x == y
  {
    assert x == (p + x)[|p|..];
  }

  /** Two numerals each followed by a space split a text at the same place. */
  lemma NumeralThenSpace(a: string, x: string, b: string, y: string)
    requires AllDigits(a) && AllDigits(b)
    requires a + ([' '] + x) == b + ([' '] + y)
    ensures a == b && x == y
  {
    FirstSpace(a, x);
    FirstSpace(b, y);
    var s := a + ([' '] + x);
    assert a == s[..|a|] == b;
    assert x == s[|a| + 1..] == y;
  }

  /** The first space after a numeral is the one right after it. */
  lemma FirstSpace(a: string, x: string)
    requires AllDigits(a)
    ensures IndexOf(a + ([' '] + x), ' ') == |a|
  {
    var s := a + ([' '] + x);
    assert s[|a|] == ' ';
    assert s[..|a|] == a;
  }

  /** What a task card shows. `time` and `description` are shown only when present and not
      empty, as `{todo.time && …}` renders nothing for an empty text. */
  datatype TaskCard = TaskCard(title: string, struck: bool, timeBadge: Option<string>,
                               description: Option<string>, accent: string)

  function Shown(text: Option<string>): Option<string> {
    if text.Some? && text.value != "" then text else None
  }

  function TaskCardOf(t: TodoContext.Todo): TaskCard {
    TaskCard(t.title, t.completed, Shown(t.time), Shown(t.description), PriorityColor(t.priority))
  }

  /** What a dream card shows: tags are written `#tag`, in order. */
  datatype DreamCard = DreamCard(title: string, emoji: string, content: Option<string>,
                                 tags: seq<string>)

  function HashTags(tags: seq<string>): (r: seq<string>)
    ensures |r| == |tags|
    ensures forall i :: 0 <= i < |tags| ==> r[i] == "#" + tags[i]
  {
    if tags == [] then [] else ["#" + tags[0]] + HashTags(tags[1..])
  }

  function DreamCardOf(d: DreamContext.Dream): DreamCard {
    DreamCard(d.title, MoodEmoji(d.mood), Shown(Some(d.content)),
              if d.tags.Some? then HashTags(d.tags.value) else [])
  }

  /** A section: its heading, `Tasks (n)` or `Dreams (n)`, and its cards. */
  datatype Section<C> = Section(heading: string, cards: seq<C>)

  /** The panel below the date heading. */
  datatype Body = NoEvents
                | Events(tasks: Option<Section<TaskCard>>, dreams: Option<Section<DreamCard>>)

  datatype Panel = Panel(summary: Option<string>, body: Body)

  predicate HasEvents(todos: seq<TodoContext.Todo>, dreams: seq<DreamContext.Dream>) {
    |todos| > 0 || |dreams| > 0
  }

  function TaskCards(todos: seq<TodoContext.Todo>): (r: seq<TaskCard>)
    ensures |r| == |todos|
    ensures forall i :: 0 <= i < |todos| ==> r[i] == TaskCardOf(todos[i])
  {
    if todos == [] then [] else [TaskCardOf(todos[0])] + TaskCards(todos[1..])
  }

  function DreamCards(dreams: seq<DreamContext.Dream>): (r: seq<DreamCard>)
    ensures |r| == |dreams|
    ensures forall i :: 0 <= i < |dreams| ==> r[i] == DreamCardOf(dreams[i])
  {
    if dreams == [] then [] else [DreamCardOf(dreams[0])] + DreamCards(dreams[1..])
  }

  /** The panel for the day's todos and dreams. */
  function DayPanel(todos: seq<TodoContext.Todo>, dreams: seq<DreamContext.Dream>): Panel {
    if !HasEvents(todos, dreams) then Panel(None, NoEvents)
    else
      Panel(Some(Summary(|todos|, |dreams|)),
            Events(if |todos| > 0 then Some(Section("Tasks (" + NatToString(|todos|) + ")", TaskCards(todos))) else None,
                   if |dreams| > 0 then Some(Section("Dreams (" + NatToString(|dreams|) + ")", DreamCards(dreams))) else None))
  }

  /** The empty note shows exactly when both lists are empty, and then there is no summary;
      otherwise each section is there exactly when its list is not empty, with one card per
      item in list order, so there is always at least one section. */
  lemma PanelShape(todos: seq<TodoContext.Todo>, dreams: seq<DreamContext.Dream>)
    ensures var p := DayPanel(todos, dreams);
      && (p.body.NoEvents? <==> |todos| == 0 && |dreams| == 0)
      && (p.summary.Some? <==> HasEvents(todos, dreams))
      && (p.summary.Some? ==> p.summary.value == Summary(|todos|, |dreams|))
      && (p.body.Events? ==>
            && (p.body.tasks.Some? <==> |todos| > 0)
            && (p.body.dreams.Some? <==> |dreams| > 0)
            && (p.body.tasks.Some? || p.body.dreams.Some?)
            && (p.body.tasks.Some? ==>
                  |p.body.tasks.value.cards| == |todos|
                  && forall i :: 0 <= i < |todos| ==> p.body.tasks.value.cards[i] == TaskCardOf(todos[i]))
            && (p.body.dreams.Some? ==>
                  |p.body.dreams.value.cards| == |dreams|
                  && forall i :: 0 <= i < |dreams| ==> p.body.dreams.value.cards[i] == DreamCardOf(dreams[i])))
  {
  }

  /** A task card is struck through exactly when the todo is completed, shows a time or a
      description only when it has a non-empty one, and carries the priority's accent. */
  lemma TaskCardFacts(t: TodoContext.Todo)
    ensures var c := TaskCardOf(t);
      && c.title == t.title
      && (c.struck <==> t.completed)
      && (c.timeBadge.Some? <==> t.time.Some? && t.time.value != "")
      && (c.timeBadge.Some? ==> c.timeBadge == t.time)
      && (c.description.Some? <==> t.description.Some? && t.description.value != "")
      && (c.description.Some? ==> c.description == t.description)
      && (c.accent == HighColor <==> t.priority == TodoContext.High)
  {
  }

  /** A dream card shows the mood's face, the content when not empty, and one `#tag` per tag
      in order (none when the dream has no tags). */
  lemma DreamCardFacts(d: DreamContext.Dream)
    ensures var c := DreamCardOf(d);
      && c.title == d.title
      && c.emoji == MoodEmoji(d.mood)
      && (c.content.Some? <==> d.content != "")
      && (c.content.Some? ==> c.content.value == d.content)
      && (d.tags.None? ==> c.tags == [])
      && (d.tags.Some? ==>
            |c.tags| == |d.tags.value| && forall i :: 0 <= i < |c.tags| ==> c.tags[i] == "#" + d.tags.value[i])
  {
  }
}
