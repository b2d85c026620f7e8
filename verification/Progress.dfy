/** The learner's progress: which tutorials were viewed and completed, and
    which daily tips were seen. The id lists behave like JavaScript `Set`s
    spread back into arrays: duplicates are dropped and first occurrences
    keep their order. */
module Progress {
  import opened Wrappers

  datatype UserProgress = UserProgress(
    completedTutorials: seq<string>,
    viewedTutorials: seq<string>,
    dailyTips: map<string, bool>)

  /** The progress of a learner with nothing saved. */
  const Default := UserProgress([], [], map[])

  // ---------------------------------------------------------------------
  // De-duplicated id lists

  predicate NoDup(s: seq<string>) {
    forall i, j :: 0 <= i < j < |s| ==> s[i] != s[j]
  }

  /** The position of the first occurrence of `x` in `s`. */
  function FirstIndex(s: seq<string>, x: string): (i: nat)
    requires x in s
    ensures i < |s| && s[i] == x
    ensures forall j :: 0 <= j < i ==> s[j] != x
    decreases |s|
  {
    if s[0] == x then 0 else 1 + FirstIndex(s[1..], x)
  }

  /** Appending an element does not move the first occurrence of anything
      already present, and a new element's first occurrence is the end. */
  lemma FirstIndexAppend(init: seq<string>, x: string, y: string)
    requires y in init + [x]
    ensures y in init ==> FirstIndex(init + [x], y) == FirstIndex(init, y)
    ensures y !in init ==> FirstIndex(init + [x], y) == |init|
  {
    if y in init {
      var b := FirstIndex(init, y);
      assert (init + [x])[b] == y;
    }
  }

  /** `[...new Set(s)]`: the elements inserted one by one, each kept only
      if it is not already there. The result has the same elements as `s`,
      no duplicates, and lists them in the order of their first occurrences
      in `s`. */
  function Dedup(s: seq<string>): (r: seq<string>)
    ensures NoDup(r)
    ensures forall x :: x in r <==> x in s
    ensures forall i, j :: 0 <= i < j < |r| ==> FirstIndex(s, r[i]) < FirstIndex(s, r[j])
    decreases |s|
  {
    if s == [] then []
    else
      var init := s[..|s| - 1];
      var r' := Dedup(init);
      var x := s[|s| - 1];
      assert s == init + [x];
      DedupStepOrder(init, x, r');
      if x in r' then r' else r' + [x]
  }

  /** One step of `Dedup`: the order of first occurrences survives
      appending an element to the input, and to the output when it is
      new. */
  lemma DedupStepOrder(init: seq<string>, x: string, r': seq<string>)
    requires forall y :: y in r' <==> y in init
    requires forall i, j :: 0 <= i < j < |r'| ==> FirstIndex(init, r'[i]) < FirstIndex(init, r'[j])
    ensures var r := if x in r' then r' else r' + [x];
      forall i, j :: 0 <= i < j < |r| ==> FirstIndex(init + [x], r[i]) < FirstIndex(init + [x], r[j])
  {
    var s := init + [x];
    var r := if x in r' then r' else r' + [x];
    forall i, j | 0 <= i < j < |r| ensures FirstIndex(s, r[i]) < FirstIndex(s, r[j]) {
      assert r[i] == r'[i] && r[i] in init;
      FirstIndexAppend(init, x, r[i]);
      if j < |r'| {
        assert r[j] == r'[j] && r[j] in init;
        FirstIndexAppend(init, x, r[j]);
      } else {
        assert r[j] == x && x !in init;
        FirstIndexAppend(init, x, x);
      }
    }
  }

  /** A list without duplicates is left as it is. */
  lemma {:induction false} DedupOfNoDup(s: seq<string>)
    requires NoDup(s)
    ensures Dedup(s) == s
    decreases |s|
  {
    if s != [] {
      var init := s[..|s| - 1];
      var x := s[|s| - 1];
      assert init + [x] == s;
      assert NoDup(init);
      DedupOfNoDup(init);
      assert x !in init by {
        forall i | 0 <= i < |init| ensures init[i] != x {
          assert init[i] == s[i];
        }
      }
      AddIdAppendsNewId(init, x);
    }
  }

  /** Adding one id to a list: `[...new Set([...l, id])]`. The id is in the
      result, no id is repeated, and nothing else is added or lost. */
  function AddId(l: seq<string>, id: string): (r: seq<string>)
    ensures id in r && NoDup(r)
    ensures forall x :: x in r <==> x in l || x == id
  {
    Dedup(l + [id])
  }

  /** The first occurrences of the old list keep their order, and the id is
      appended last when it is new. */
  lemma AddIdAppendsNewId(l: seq<string>, id: string)
    ensures AddId(l, id) == Dedup(l) + (if id in l then [] else [id])
  {
    assert (l + [id])[..|l + [id]| - 1] == l;
  }

  /** Adding an id twice is the same as adding it once. */
  lemma AddIdIdempotent(l: seq<string>, id: string)
    ensures AddId(AddId(l, id), id) == AddId(l, id)
  {
    var d := AddId(l, id);
    AddIdAppendsNewId(d, id);
    DedupOfNoDup(d);
  }

  // ---------------------------------------------------------------------
  // The three updates

  /** `markTutorialViewed`. */
  function MarkViewed(p: UserProgress, id: string): (r: UserProgress)
    ensures id in r.viewedTutorials && NoDup(r.viewedTutorials)
    ensures forall x :: x in r.viewedTutorials <==> x in p.viewedTutorials || x == id
    ensures r.completedTutorials == p.completedTutorials && r.dailyTips == p.dailyTips
  {
    p.(viewedTutorials := AddId(p.viewedTutorials, id))
  }

  /** `markTutorialCompleted`: the id joins both lists. */
  function MarkCompleted(p: UserProgress, id: string): (r: UserProgress)
    ensures id in r.completedTutorials && NoDup(r.completedTutorials)
    ensures id in r.viewedTutorials && NoDup(r.viewedTutorials)
    ensures forall x :: x in r.completedTutorials <==> x in p.completedTutorials || x == id
    ensures forall x :: x in r.viewedTutorials <==> x in p.viewedTutorials || x == id
    ensures r.dailyTips == p.dailyTips
  {
    p.(completedTutorials := AddId(p.completedTutorials, id),
       viewedTutorials := AddId(p.viewedTutorials, id))
  }

  /** `markDailyTipSeen`: the date maps to true; every other date and both
      lists are untouched. */
  function MarkTipSeen(p: UserProgress, date: string): (r: UserProgress)
    ensures date in r.dailyTips && r.dailyTips[date]
    ensures forall d :: d != date ==> (d in r.dailyTips <==> d in p.dailyTips)
    ensures forall d :: d != date && d in p.dailyTips ==> r.dailyTips[d] == p.dailyTips[d]
    ensures r.completedTutorials == p.completedTutorials && r.viewedTutorials == p.viewedTutorials
  {
    p.(dailyTips := p.dailyTips[date := true])
  }

  /** Every completed tutorial has been viewed. */
  predicate CompletedWereViewed(p: UserProgress) {
    forall x :: x in p.completedTutorials ==> x in p.viewedTutorials
  }

  lemma UpdatesKeepCompletedWereViewed(p: UserProgress, id: string, date: string)
    requires CompletedWereViewed(p)
    ensures CompletedWereViewed(MarkViewed(p, id))
    ensures CompletedWereViewed(MarkCompleted(p, id))
    ensures CompletedWereViewed(MarkTipSeen(p, date))
  {
  }

  /** Each update applied twice equals the update applied once. */
  lemma UpdatesIdempotent(p: UserProgress, id: string, date: string)
    ensures MarkViewed(MarkViewed(p, id), id) == MarkViewed(p, id)
    ensures MarkCompleted(MarkCompleted(p, id), id) == MarkCompleted(p, id)
    ensures MarkTipSeen(MarkTipSeen(p, date), date) == MarkTipSeen(p, date)
  {
    AddIdIdempotent(p.viewedTutorials, id);
    AddIdIdempotent(p.completedTutorials, id);
  }

  // ---------------------------------------------------------------------
  // The store

  class ProgressStore {
    var progress: UserProgress

    /** The saved progress if there is one, otherwise empty lists and no
        tips seen. */
    constructor(saved: Option<UserProgress>)
      ensures saved.None? ==> progress == Default
      ensures saved.Some? ==> progress == saved.value
    {
      progress := saved.GetOr(Default);
    }

    method MarkTutorialViewed(id: string)
      modifies this
      ensures progress == MarkViewed(old(progress), id)
    {
      progress := MarkViewed(progress, id);
    }

    method MarkTutorialCompleted(id: string)
      modifies this
      ensures progress == MarkCompleted(old(progress), id)
    {
      progress := MarkCompleted(progress, id);
    }

    method MarkDailyTipSeen(date: string)
      modifies this
      ensures progress == MarkTipSeen(old(progress), date)
    {
      progress := MarkTipSeen(progress, date);
    }
  }
}
