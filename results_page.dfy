/**
 * The results page of src/app/ikigai/results/page.tsx: without a stored
 * result it navigates home and renders nothing; with one it marks
 * "Review summary" done.
 */
module ResultsPage {
  import opened Wrappers
  import opened Checklist
  import opened Ikigai
  import opened AppState

  const HomePath := "/"

  /** The page's `useEffect` on the combined state. */
  function Visit(s: State): (t: Transition)
    ensures t.state.result == s.result
    ensures t.navigateTo.Some? <==> s.result.None?
    ensures s.result.None? ==> t.state == s && t.navigateTo == Some(HomePath)
    ensures |t.state.checklist| == |s.checklist|
    ensures s.result.Some? ==> forall i :: 0 <= i < |s.checklist| ==>
              t.state.checklist[i] == (if s.checklist[i].task == ReviewSummary
                                       then s.checklist[i].(status := Done) else s.checklist[i])
  {
    if s.result.None? then Transition(s, Some(HomePath))
    else Transition(MarkDone(s, ReviewSummary), None)
  }

  /** `if (!result) return null`: the page renders nothing exactly when its effect navigates away. */
  predicate RendersNothing(s: State)
    ensures RendersNothing(s) <==> Visit(s).navigateTo.Some?
  {
    s.result.None?
  }

  /** A second visit changes the stores no further. */
  lemma VisitTwiceIsVisitOnce(s: State)
    ensures Visit(Visit(s).state) == Visit(s)
  {
    if s.result.Some? {
      MarkDoneIdempotent(s, ReviewSummary);
    }
  }

  /** The page's `useEffect`, run against the two stores; `result` is never written. */
  method Effect(results: IkigaiStore, list: ChecklistStore) returns (navigateTo: Option<string>)
    modifies list
    ensures Transition(Snapshot(results, list), navigateTo) == Visit(old(Snapshot(results, list)))
  {
    if results.result.None? {
      navigateTo := Some(HomePath);
    } else {
      list.UpdateChecklistStatus(ReviewSummary, Done);
      navigateTo := None;
    }
  }
}
