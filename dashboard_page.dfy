/**
 * The dashboard of src/app/dashboard/page.tsx: an effect that marks a task
 * done once a result exists, and per checklist item the rule that decides
 * whether its action button is rendered, whether it is disabled, and its label.
 */
module DashboardPage {
  import opened Wrappers
  import opened Checklist
  import opened Ikigai
  import opened AppState

  /** The label the dashboard looks up and marks done. */
  const FindYourIkigai := "Find your Ikigai"

  /** `items.findIndex(t => t.task === task)`, `None` for -1. */
  function FindIndex(items: seq<ChecklistItem>, task: string): (r: Option<nat>)
    ensures r.None? ==> forall j :: 0 <= j < |items| ==> items[j].task != task
    ensures r.Some? ==> r.value < |items| && items[r.value].task == task
    ensures r.Some? ==> forall j :: 0 <= j < r.value ==> items[j].task != task
  {
    if items == [] then None
    else if items[0].task == task then Some(0)
    else match FindIndex(items[1..], task)
      case None => None
      case Some(k) => Some(k + 1)
  }

  /** `items.find(t => t.task === task)?.status`. */
  function FoundStatus(items: seq<ChecklistItem>, task: string): (r: Option<string>)
    ensures r.None? <==> task !in Tasks(items)
    ensures r.Some? ==> exists j :: FirstWithLabel(items, j, task) && items[j].status == r.value
  {
    match FindIndex(items, task)
    case None =>
      assert forall j :: 0 <= j < |items| ==> Tasks(items)[j] != task;
      None
    case Some(i) =>
      assert Tasks(items)[i] == task;
      Some(items[i].status)
  }

  /** The condition in both the `disabled` attribute and the `pointer-events-none` class. */
  predicate Disabled(item: ChecklistItem, items: seq<ChecklistItem>, result: Option<IkigaiResult>)
    ensures Disabled(item, items, result) ==> item.task == ReviewSummary || item.task == ExploreRoles
  {
    || (item.task == ReviewSummary && FoundStatus(items, FindYourIkigai) != Some(Done))
    || (item.task == ExploreRoles && result.None?)
  }

  /** The action link and its button are rendered only for a navigable item. */
  predicate ActionShown(item: ChecklistItem)
    ensures item in Seeded ==> (ActionShown(item) <==> item.task != ExploreRoles)
  {
    item.link != NoLink
  }

  function ButtonLabel(item: ChecklistItem): (r: string)
    ensures r == "View" <==> item.status == Done
    ensures r != "View" ==> r == "Start"
  {
    if item.status == Done then "View" else "Start"
  }

  /** `j` is the position of the first item labelled `task`. */
  predicate FirstWithLabel(items: seq<ChecklistItem>, j: int, task: string)
  {
    0 <= j < |items| && items[j].task == task && forall k :: 0 <= k < j ==> items[k].task != task
  }

  /** Only the two gated tasks can ever be disabled, each under its own condition. */
  lemma DisabledCases(item: ChecklistItem, items: seq<ChecklistItem>, result: Option<IkigaiResult>)
    ensures Disabled(item, items, result) ==> item.task == ReviewSummary || item.task == ExploreRoles
    ensures item.task == ExploreRoles ==> (Disabled(item, items, result) <==> result.None?)
    ensures item.task == ReviewSummary ==>
              (!Disabled(item, items, result) <==> exists j :: FirstWithLabel(items, j, FindYourIkigai) && items[j].status == Done)
  {
    if item.task == ReviewSummary {
      var found := FindIndex(items, FindYourIkigai);
      if found.Some? {
        assert FirstWithLabel(items, found.value, FindYourIkigai);
      }
      forall j | FirstWithLabel(items, j, FindYourIkigai)
        ensures found == Some(j)
      {
      }
    }
  }

  /** The effect: with a result, mark "Find your Ikigai" done; without one, nothing. */
  function Visit(s: State): (r: State)
    ensures r.result == s.result
    ensures s.result.None? ==> r == s
    ensures |r.checklist| == |s.checklist|
    ensures s.result.Some? ==> forall i :: 0 <= i < |s.checklist| ==>
              r.checklist[i] == (if s.checklist[i].task == FindYourIkigai
                                 then s.checklist[i].(status := Done) else s.checklist[i])
    ensures Tasks(r.checklist) == Tasks(s.checklist) && Links(r.checklist) == Links(s.checklist)
  {
    if s.result.Some? then MarkDone(s, FindYourIkigai) else s
  }

  /** Where no item carries the label it looks up, the effect changes nothing. */
  lemma VisitWithoutLabelIsNoOp(s: State)
    requires FindYourIkigai !in Tasks(s.checklist)
    ensures Visit(s) == s
  {
    UpdateUnknownTask(s.checklist, FindYourIkigai, Done);
  }

  /** Where no item carries the label, the "Review summary" button is disabled whatever the statuses. */
  lemma ReviewDisabledWithoutLabel(item: ChecklistItem, items: seq<ChecklistItem>, result: Option<IkigaiResult>)
    requires item.task == ReviewSummary
    requires FindYourIkigai !in Tasks(items)
    ensures Disabled(item, items, result)
  {
    forall j | 0 <= j < |items|
      ensures items[j].task != FindYourIkigai
    {
      assert Tasks(items)[j] == items[j].task;
    }
  }

  /** The page's `useEffect`, run against the two stores. */
  method Effect(results: IkigaiStore, list: ChecklistStore)
    modifies list
    ensures Snapshot(results, list) == Visit(old(Snapshot(results, list)))
  {
    if results.result.Some? {
      list.UpdateChecklistStatus(FindYourIkigai, Done);
    }
  }
}
