/** Set arithmetic for loops that take keys from a worklist and count the ones they treat. */
module Counting {

  /** Progress of a loop over `todo` that treats the keys in `marked`. */
  lemma Progress(marked: set<string>, todo: set<string>, k: string)
    requires k in todo
    ensures marked - (todo - {k}) == if k in marked then (marked - todo) + {k} else marked - todo
    ensures |marked - (todo - {k})| == |marked - todo| + if k in marked then 1 else 0
  {
    if k in marked {
      assert marked - (todo - {k}) == (marked - todo) + {k};
    } else {
      assert marked - (todo - {k}) == marked - todo;
    }
  }

  lemma ProgressEnds(marked: set<string>)
    ensures marked - {} == marked
  {
  }

  lemma ProgressStarts(marked: set<string>, all: set<string>)
    requires marked <= all
    ensures marked - all == {}
  {
  }
}
