/**
 * The dream journal screen: a header counting the dreams, and the list of dreams sorted on a
 * copy, newest first by creation time. `Array.prototype.sort` is stable, so the sort is
 * modelled as a stable insertion sort on `createdAt` (milliseconds), descending. The store's
 * own list is an input and is never reordered.
 */
module DreamScreen {
  import opened JsText
  import opened Lists
  import DreamContext

  type Dream = DreamContext.Dream

  /** Newest first: no dream is older than one after it. */
  predicate NewestFirst(s: seq<Dream>) {
    forall i, j :: 0 <= i < j < |s| ==> s[i].createdAt >= s[j].createdAt
  }

  /** Inserts `x` into a list sorted newest first, ahead of every dream no newer than it. */
  function Insert(x: Dream, s: seq<Dream>): (r: seq<Dream>)
    ensures |r| == |s| + 1
  {
    if s == [] || s[0].createdAt <= x.createdAt then [x] + s
    else [s[0]] + Insert(x, s[1..])
  }

  /** `[...dreams].sort((a, b) => b.createdAt - a.createdAt)`. */
  function SortedDreams(dreams: seq<Dream>): (r: seq<Dream>)
    ensures |r| == |dreams|
  {
    if dreams == [] then [] else Insert(dreams[0], SortedDreams(dreams[1..]))
  }

  /** Inserting keeps every dream and adds `x`. */
  lemma {:induction false} InsertPerm(x: Dream, s: seq<Dream>)
    ensures multiset(Insert(x, s)) == multiset(s) + multiset{x}
  {
    if s != [] && s[0].createdAt > x.createdAt {
      InsertPerm(x, s[1..]);
      assert s == [s[0]] + s[1..];
    }
  }

  /** Inserting into a list sorted newest first keeps it sorted. */
  lemma {:induction false} InsertOrder(x: Dream, s: seq<Dream>)
    requires NewestFirst(s)
    ensures NewestFirst(Insert(x, s))
  {
    if s == [] || s[0].createdAt <= x.createdAt {
      HeadOnTop(x, s);
    } else {
      var t := s[1..];
      assert NewestFirst(t) && NoNewerThan(t, s[0].createdAt) by {
        forall i, j | 0 <= i < j < |t| ensures t[i].createdAt >= t[j].createdAt {
          assert t[i] == s[i + 1] && t[j] == s[j + 1];
        }
        forall k | 0 <= k < |t| ensures t[k].createdAt <= s[0].createdAt {
          assert t[k] == s[k + 1];
        }
      }
      InsertOrder(x, t);
      InsertNoNewer(x, t, s[0].createdAt);
      HeadOnTop(s[0], Insert(x, t));
    }
  }

  predicate NoNewerThan(s: seq<Dream>, v: int) {
    forall k :: 0 <= k < |s| ==> s[k].createdAt <= v
  }

  /** Inserting a dream no newer than a bound into dreams no newer than it keeps the bound. */
  lemma {:induction false} InsertNoNewer(x: Dream, s: seq<Dream>, v: int)
    requires NoNewerThan(s, v) && x.createdAt <= v
    ensures NoNewerThan(Insert(x, s), v)
  {
    if s != [] && s[0].createdAt > x.createdAt {
      var t := s[1..];
      assert NoNewerThan(t, v) by {
        forall k | 0 <= k < |t| ensures t[k].createdAt <= v {
          assert t[k] == s[k + 1];
        }
      }
      InsertNoNewer(x, t, v);
      var r := Insert(x, s);
      assert r == [s[0]] + Insert(x, t);
      forall k | 0 <= k < |r| ensures r[k].createdAt <= v {
        if k > 0 {
          assert r[k] == Insert(x, t)[k - 1];
        }
      }
    }
  }

  lemma HeadOnTop(h: Dream, t: seq<Dream>)
    requires NewestFirst(t) && NoNewerThan(t, h.createdAt)
    ensures NewestFirst([h] + t)
  {
    var s := [h] + t;
    forall i, j | 0 <= i < j < |s| ensures s[i].createdAt >= s[j].createdAt {
      if i > 0 {
        assert s[i] == t[i - 1] && s[j] == t[j - 1];
      } else {
        assert s[j] == t[j - 1];
      }
    }
  }

  /** The shown list is the store's list rearranged: the same dreams, each as often. */
  lemma {:induction false} SortedDreamsPerm(dreams: seq<Dream>)
    ensures multiset(SortedDreams(dreams)) == multiset(dreams)
    ensures |SortedDreams(dreams)| == |dreams|
  {
    if dreams != [] {
      SortedDreamsPerm(dreams[1..]);
      InsertPerm(dreams[0], SortedDreams(dreams[1..]));
      assert dreams == [dreams[0]] + dreams[1..];
    }
  }

  /** The shown list is newest first. */
  lemma {:induction false} SortedDreamsOrder(dreams: seq<Dream>)
    ensures NewestFirst(SortedDreams(dreams))
  {
    if dreams != [] {
      SortedDreamsOrder(dreams[1..]);
      InsertOrder(dreams[0], SortedDreams(dreams[1..]));
    }
  }

  /** A list already newest first is shown as it is. */
  lemma {:induction false} SortedKeepsSorted(dreams: seq<Dream>)
    requires NewestFirst(dreams)
    ensures SortedDreams(dreams) == dreams
  {
    if dreams != [] {
      var t := dreams[1..];
      assert NewestFirst(t) by {
        forall i, j | 0 <= i < j < |t| ensures t[i].createdAt >= t[j].createdAt {
          assert t[i] == dreams[i + 1] && t[j] == dreams[j + 1];
        }
      }
      SortedKeepsSorted(t);
      if t != [] {
        assert t[0] == dreams[1];
      }
    }
  }

  /** The dreams created at instant `v`. */
  function CreatedAt(v: int): Dream -> bool {
    (d: Dream) => d.createdAt == v
  }

  /** Inserting `x` passes over only newer dreams, so among the dreams created at any one
      instant it lands where it would at the front. */
  lemma {:induction false} InsertStable(x: Dream, s: seq<Dream>, v: int)
    ensures Filter(CreatedAt(v), Insert(x, s)) == Filter(CreatedAt(v), [x] + s)
  {
    if s != [] && s[0].createdAt > x.createdAt {
      var p, t := CreatedAt(v), s[1..];
      FilterOne(p, x);
      FilterOne(p, s[0]);
      assert Insert(x, s) == [s[0]] + Insert(x, t);
      assert s == [s[0]] + t;
      FilterAppend(p, [s[0]], Insert(x, t));
      InsertStable(x, t, v);
      FilterAppend(p, [x], t);
      FilterAppend(p, [s[0]], t);
      FilterAppend(p, [x], s);
      if p(x) {
        assert Filter(p, [s[0]]) == [];
      } else {
        assert Filter(p, [x]) == [];
      }
    }
  }

  lemma FilterOne(p: Dream -> bool, a: Dream)
    ensures Filter(p, [a]) == if p(a) then [a] else []
  {
    assert [a][1..] == [];
  }

  /** The sort is stable: the dreams created at any one instant are shown in their order in
      the store. */
  lemma {:induction false} SortedDreamsStable(dreams: seq<Dream>, v: int)
    ensures Filter(CreatedAt(v), SortedDreams(dreams)) == Filter(CreatedAt(v), dreams)
  {
    if dreams != [] {
      var t := dreams[1..];
      SortedDreamsStable(t, v);
      InsertStable(dreams[0], SortedDreams(t), v);
      FilterAppend(CreatedAt(v), [dreams[0]], SortedDreams(t));
      FilterAppend(CreatedAt(v), [dreams[0]], t);
      assert dreams == [dreams[0]] + t;
    }
  }

  const Recorded := " dreams recorded"

  /** The header, `{dreams.length} dreams recorded`. */
  function Header(dreams: seq<Dream>): string {
    NatToString(|dreams|) + Recorded
  }

  /** The header counts the store's dreams, which is also the number of cards shown. */
  lemma HeaderCounts(dreams: seq<Dream>)
    ensures var h := Header(dreams);
      && |h| > |Recorded| && h[|h| - |Recorded|..] == Recorded
      && AllDigits(h[..|h| - |Recorded|]) && DecimalValue(h[..|h| - |Recorded|]) == |dreams|
      && DecimalValue(h[..|h| - |Recorded|]) == |SortedDreams(dreams)|
  {
    var h := Header(dreams);
    assert h[..|h| - |Recorded|] == NatToString(|dreams|);
    DecimalValueOfNatToString(|dreams|);
  }
}
