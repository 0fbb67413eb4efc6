/**
 * The dream journal store: the in-memory list of dreams, the pure list builders behind add,
 * update and delete, and the provider whose list is replaced only after a successful storage
 * write. As for todos, storage is abstract, and ids, today's date and timestamps are
 * supplied by the caller.
 */
module DreamContext {
  import opened Wrappers
  import opened Lists

  /** A dream. `mood` holds the mood's name (`happy`, `sad`, `neutral`, `scary`, `exciting`)
      as stored; `createdAt` and `updatedAt` are instants in milliseconds. */
  datatype Dream = Dream(
    id: string,
    title: string,
    content: string,
    mood: Option<string>,
    tags: Option<seq<string>>,
    date: string,                // YYYY-MM-DD
    createdAt: int,
    updatedAt: int)

  /** What the editor submits. */
  datatype DreamFormData = DreamFormData(
    title: string,
    content: string,
    mood: Option<string>,
    tags: Option<seq<string>>)

  /** `Partial<Dream>`. */
  datatype DreamPatch = DreamPatch(
    id: Field<string>,
    title: Field<string>,
    content: Field<string>,
    mood: Field<Option<string>>,
    tags: Field<Option<seq<string>>>,
    date: Field<string>,
    createdAt: Field<int>,
    updatedAt: Field<int>)

  /** The dream `addDream` builds: the form's fields, dated today, created and updated now. */
  function NewDream(id: string, data: DreamFormData, today: string, now: int): Dream {
    Dream(id, data.title, data.content, data.mood, data.tags, today, now, now)
  }

  /** `{ ...dream, ...data, updatedAt: now }`: every key present in the patch wins, and
      `updatedAt` is the current time whatever the patch says. */
  function Merge(dream: Dream, patch: DreamPatch, now: int): (r: Dream)
    ensures r.updatedAt == now
    ensures (patch.id.Set? ==> r.id == patch.id.value) && (patch.id.Keep? ==> r.id == dream.id)
    ensures (patch.title.Set? ==> r.title == patch.title.value) && (patch.title.Keep? ==> r.title == dream.title)
    ensures (patch.content.Set? ==> r.content == patch.content.value) && (patch.content.Keep? ==> r.content == dream.content)
    ensures (patch.mood.Set? ==> r.mood == patch.mood.value) && (patch.mood.Keep? ==> r.mood == dream.mood)
    ensures (patch.tags.Set? ==> r.tags == patch.tags.value) && (patch.tags.Keep? ==> r.tags == dream.tags)
    ensures (patch.date.Set? ==> r.date == patch.date.value) && (patch.date.Keep? ==> r.date == dream.date)
    ensures (patch.createdAt.Set? ==> r.createdAt == patch.createdAt.value) && (patch.createdAt.Keep? ==> r.createdAt == dream.createdAt)
  {
    Dream(patch.id.Apply(dream.id), patch.title.Apply(dream.title),
          patch.content.Apply(dream.content), patch.mood.Apply(dream.mood),
          patch.tags.Apply(dream.tags), patch.date.Apply(dream.date),
          patch.createdAt.Apply(dream.createdAt), now)
  }

  /** The list `updateDream(id, patch)` saves. */
  function Updated(dreams: seq<Dream>, id: string, patch: DreamPatch, now: int): seq<Dream> {
    Map((d: Dream) => if d.id == id then Merge(d, patch, now) else d, dreams)
  }

  /** The list `deleteDream(id)` saves. */
  function Without(dreams: seq<Dream>, id: string): seq<Dream> {
    Filter((d: Dream) => d.id != id, dreams)
  }

  /** `getDreamsByDate(date)`. */
  function ByDate(dreams: seq<Dream>, date: string): seq<Dream> {
    Filter((d: Dream) => d.date == date, dreams)
  }

  predicate HasId(dreams: seq<Dream>, id: string) {
    exists i :: 0 <= i < |dreams| && dreams[i].id == id
  }

  /** A new dream is always dated today, whatever the form held, and has the form's text. */
  lemma NewDreamDatedToday(id: string, data: DreamFormData, today: string, now: int)
    ensures var d := NewDream(id, data, today, now);
      d.date == today && d.title == data.title && d.content == data.content
      && d.mood == data.mood && d.tags == data.tags && d.createdAt == d.updatedAt == now
  {
  }

  /** An update replaces each dream with the id by its merge with the patch and leaves every
      other dream in place; an id no dream has changes nothing. */
  lemma UpdateOnlyMatching(dreams: seq<Dream>, id: string, patch: DreamPatch, now: int)
    ensures var r := Updated(dreams, id, patch, now);
      && |r| == |dreams|
      && (forall i :: 0 <= i < |dreams| && dreams[i].id == id ==> r[i] == Merge(dreams[i], patch, now))
      && (forall i :: 0 <= i < |dreams| && dreams[i].id != id ==> r[i] == dreams[i])
    ensures !HasId(dreams, id) ==> Updated(dreams, id, patch, now) == dreams
  {
    if !HasId(dreams, id) {
      MapFixed((d: Dream) => if d.id == id then Merge(d, patch, now) else d, dreams);
    }
  }

  /** A delete drops exactly the dreams with the id, keeps the order of the rest, and changes
      nothing for an absent id. */
  lemma DeleteRemovesOnlyMatching(dreams: seq<Dream>, id: string, more: seq<Dream>)
    ensures !HasId(Without(dreams, id), id)
    ensures forall i :: 0 <= i < |dreams| && dreams[i].id != id ==> dreams[i] in Without(dreams, id)
    ensures Without(dreams + more, id) == Without(dreams, id) + Without(more, id)
    ensures !HasId(dreams, id) ==> Without(dreams, id) == dreams
  {
    FilterAppend((d: Dream) => d.id != id, dreams, more);
    if !HasId(dreams, id) {
      FilterAll((d: Dream) => d.id != id, dreams);
    }
  }

  /** The dreams of a date are exactly those with that date, in list order; a dream just
      added shows up under today's date. */
  lemma ByDateExact(dreams: seq<Dream>, date: string, more: seq<Dream>)
    ensures forall d :: d in ByDate(dreams, date) <==> d in dreams && d.date == date
    ensures ByDate(dreams + more, date) == ByDate(dreams, date) + ByDate(more, date)
  {
    FilterAppend((d: Dream) => d.date == date, dreams, more);
  }

  lemma AddedDreamIsToday(dreams: seq<Dream>, id: string, data: DreamFormData, today: string, now: int)
    ensures ByDate(dreams + [NewDream(id, data, today, now)], today)
         == ByDate(dreams, today) + [NewDream(id, data, today, now)]
  {
    var nd := NewDream(id, data, today, now);
    FilterAppend((d: Dream) => d.date == today, dreams, [nd]);
    FilterAll((d: Dream) => d.date == today, [nd]);
  }

  /** The provider: the list, and whether the first load is still pending. */
  class DreamStore {
    var dreams: seq<Dream>
    var loading: bool

    constructor ()
      ensures dreams == [] && loading
    {
      dreams := [];
      loading := true;
    }

    /** `loadDreams`: a stored list replaces the list; loading ends either way. */
    method LoadDreams(stored: Option<seq<Dream>>)
      modifies this
      ensures !loading
      ensures dreams == if stored.Some? then stored.value else old(dreams)
    {
      if stored.Some? {
        dreams := stored.value;
      }
      loading := false;
    }

    /** `saveDreams`: the new list is kept only once the storage write has succeeded. */
    method SaveDreams(newDreams: seq<Dream>, writeOk: bool)
      modifies this`dreams
      ensures dreams == if writeOk then newDreams else old(dreams)
    {
      if writeOk {
        dreams := newDreams;
      }
    }

    method AddDream(data: DreamFormData, id: string, today: string, now: int, writeOk: bool)
      modifies this`dreams
      ensures dreams == if writeOk then old(dreams) + [NewDream(id, data, today, now)] else old(dreams)
    {
      SaveDreams(dreams + [NewDream(id, data, today, now)], writeOk);
    }

    method UpdateDream(id: string, patch: DreamPatch, now: int, writeOk: bool)
      modifies this`dreams
      ensures dreams == if writeOk then Updated(old(dreams), id, patch, now) else old(dreams)
    {
      SaveDreams(Updated(dreams, id, patch, now), writeOk);
    }

    method DeleteDream(id: string, writeOk: bool)
      modifies this`dreams
      ensures dreams == if writeOk then Without(old(dreams), id) else old(dreams)
    {
      SaveDreams(Without(dreams, id), writeOk);
    }

    /** `getDreamsByDate(date)`: the dreams of that date, in list order. */
    function GetDreamsByDate(date: string): (r: seq<Dream>)
      reads this
      ensures forall i :: 0 <= i < |r| ==> r[i] in dreams && r[i].date == date
      ensures forall i :: 0 <= i < |dreams| && dreams[i].date == date ==> dreams[i] in r
    {
      ByDate(dreams, date)
    }
  }
}
