/**
 * The client-side state the pages share: the content of the result store and
 * of the checklist store, and what one page event does to it.
 */
module AppState {
  import opened Wrappers
  import opened Checklist
  import opened Ikigai

  datatype State = State(result: Option<IkigaiResult>, checklist: seq<ChecklistItem>)

  /** Both stores as they are created. */
  const Initial := State(None, Seeded)

  /** The new store state and the route the event navigates to, if any. */
  datatype Transition = Transition(state: State, navigateTo: Option<string>)

  /** The `updateChecklistStatus` action seen on the combined state. */
  function MarkDone(s: State, task: string): (r: State)
    ensures r.result == s.result
    ensures |r.checklist| == |s.checklist|
    ensures Tasks(r.checklist) == Tasks(s.checklist) && Links(r.checklist) == Links(s.checklist)
    ensures forall i :: 0 <= i < |s.checklist| && s.checklist[i].task == task ==>
              r.checklist[i] == s.checklist[i].(status := Done)
    ensures forall i :: 0 <= i < |s.checklist| && s.checklist[i].task != task ==>
              r.checklist[i] == s.checklist[i]
  {
    UpdateStatusKeepsTasksAndLinks(s.checklist, task, Done);
    forall i | 0 <= i < |s.checklist|
      ensures UpdateStatus(s.checklist, task, Done)[i] == UpdateItem(s.checklist[i], task, Done)
    {
      UpdateStatusAt(s.checklist, task, Done, i);
    }
    s.(checklist := UpdateStatus(s.checklist, task, Done))
  }

  /** Marking a task done twice is marking it done once. */
  lemma MarkDoneIdempotent(s: State, task: string)
    ensures MarkDone(MarkDone(s, task), task) == MarkDone(s, task)
  {
    UpdateStatusIdempotent(s.checklist, task, Done);
  }

  /** Reads both store objects as one state value. */
  function Snapshot(results: IkigaiStore, list: ChecklistStore): State
    reads results, list
  {
    State(results.result, list.checklist)
  }
}
