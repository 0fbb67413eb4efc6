/**
 * The form that records a dream: a title and a content that must not be blank, an optional
 * mood, and a free-text list of tags separated by commas. Submitting trims the texts, turns
 * the tag text into a list of clean tags (absent when there are none), adds the dream to the
 * store dated today and clears the form.
 */
module DreamEditor {
  import opened Wrappers
  import opened JsText
  import opened Lists
  import opened DreamContext

  const TitleAndContentRequired := "Please enter title and content"

  /** `tags.split(',').map(t => t.trim()).filter(t => t.length > 0)`. */
  function Tags(text: string): seq<string> {
    Filter(NonEmpty, Map(Trim, Split(text, ',')))
  }

  predicate NonEmpty(t: string) {
    |t| > 0
  }

  /** A tag as the pipeline leaves it: not empty, no comma, no white space at either end. */
  predicate CleanTag(t: string) {
    t != [] && ',' !in t && Trim(t) == t
  }

  /** Trimming keeps a comma-free piece comma-free, and a trimmed piece that is not empty is
      a clean tag. */
  lemma CleanPiece(p: string)
    requires ',' !in p
    ensures Trim(p) == [] || CleanTag(Trim(p))
  {
    var t := TrimStart(p);
    TrimStartFacts(p);
    assert ',' !in t by {
      assert t == p[|p| - |t|..];
    }
    var r := TrimEnd(t);
    TrimEndFacts(t);
    TrimFacts(p);
    assert ',' !in r by {
      assert r == t[..|r|];
    }
    TrimIdempotent(p);
  }

  /** Every tag the pipeline yields is clean. */
  lemma TagsClean(text: string)
    ensures forall i :: 0 <= i < |Tags(text)| ==> CleanTag(Tags(text)[i])
  {
    var pieces := Split(text, ',');
    var trimmed := Map(Trim, pieces);
    forall i | 0 <= i < |trimmed| ensures trimmed[i] == [] || CleanTag(trimmed[i]) {
      CleanPiece(pieces[i]);
    }
    KeptPiecesClean(trimmed);
  }

  /** Dropping the empty pieces of pieces that are empty or clean leaves clean tags. */
  lemma KeptPiecesClean(pieces: seq<string>)
    requires forall i :: 0 <= i < |pieces| ==> pieces[i] == [] || CleanTag(pieces[i])
    ensures forall i :: 0 <= i < |Filter(NonEmpty, pieces)| ==> CleanTag(Filter(NonEmpty, pieces)[i])
  {
    var kept := Filter(NonEmpty, pieces);
    forall i | 0 <= i < |kept| ensures CleanTag(kept[i]) {
      assert kept[i] in pieces && NonEmpty(kept[i]);
    }
  }

  /** A comma separates tags: the tags of `a,b` are the tags of `a` followed by those of `b`. */
  lemma TagsConcat(a: string, b: string)
    ensures Tags(a + "," + b) == Tags(a) + Tags(b)
  {
    SplitConcat(a, b, ',');
    MapAppend(Trim, Split(a, ','), Split(b, ','));
    FilterAppend(NonEmpty, Map(Trim, Split(a, ',')), Map(Trim, Split(b, ',')));
  }

  /** Clean tags written out with commas are read back as the same tags. */
  lemma TagsOfJoin(tags: seq<string>)
    requires tags != []
    requires forall i :: 0 <= i < |tags| ==> CleanTag(tags[i])
    ensures Tags(Join(tags, ',')) == tags
  {
    SplitJoin(tags, ',');
    MapFixed(Trim, tags);
    FilterAll(NonEmpty, tags);
  }

  /** What pressing save yields. */
  datatype Submission = Rejected(message: string) | Accepted(data: DreamFormData)

  /** `handleSubmit`: a blank title or a blank content is refused with an alert; otherwise
      both are trimmed, the mood is passed on, and the tags are left out when none remain. */
  function FormData(title: string, content: string, mood: Option<string>, tags: string): Submission {
    if Trim(title) == [] || Trim(content) == [] then Rejected(TitleAndContentRequired)
    else
      var tagArray := Tags(tags);
      Accepted(DreamFormData(Trim(title), Trim(content), mood,
                             if |tagArray| > 0 then Some(tagArray) else None))
  }

  /** What the form data is: refused exactly when the title or the content is blank, and
      otherwise made of the trimmed, non-empty texts, the mood, and the clean tags, which
      are absent exactly when there are none. */
  lemma FormDataChecks(title: string, content: string, mood: Option<string>, tags: string)
    ensures var r := FormData(title, content, mood, tags);
      && (r.Rejected? <==> IsBlank(title) || IsBlank(content))
      && (r.Rejected? ==> r.message == TitleAndContentRequired)
      && (r.Accepted? ==>
        && r.data.title == Trim(title) && r.data.title != []
        && r.data.content == Trim(content) && r.data.content != []
        && r.data.mood == mood
        && (r.data.tags.None? <==> Tags(tags) == [])
        && (r.data.tags.Some? ==> r.data.tags.value == Tags(tags)
                                  && forall i :: 0 <= i < |Tags(tags)| ==> CleanTag(Tags(tags)[i])))
  {
    TrimFacts(title);
    TrimFacts(content);
    TagsClean(tags);
  }

  /** The editor's fields. */
  class DreamEditorForm {
    var title: string
    var content: string
    var mood: Option<string>
    var tags: string

    constructor ()
      ensures title == "" && content == "" && mood == None && tags == ""
    {
      title, content, mood, tags := "", "", None, "";
    }

    /** A mood button selects its mood. */
    method SelectMood(m: string)
      modifies this`mood
      ensures mood == Some(m)
    {
      mood := Some(m);
    }

    /** `handleSubmit`: a refusal changes nothing; otherwise the dream goes to the store
        (kept there only if the write succeeds) and the form is cleared either way. */
    method Submit(store: DreamStore, id: string, today: string, now: int, writeOk: bool)
      returns (r: Submission)
      modifies this, store`dreams
      ensures r == FormData(old(title), old(content), old(mood), old(tags))
      ensures r.Rejected? ==> unchanged(this) && store.dreams == old(store.dreams)
      ensures r.Accepted? ==>
        && store.dreams == (if writeOk then old(store.dreams) + [NewDream(id, r.data, today, now)]
                            else old(store.dreams))
        && title == "" && content == "" && mood == None && tags == ""
    {
      r := FormData(title, content, mood, tags);
      if r.Rejected? {
        return;
      }
      store.AddDream(r.data, id, today, now, writeOk);
      title, content, mood, tags := "", "", None, "";
    }
  }
}
