/**
 * The persisted progress checklist of src/store/checklistStore.ts: a seeded
 * three-item list of `{task, status, link}` records whose status is rewritten
 * by task label, or which is replaced wholesale.
 */
module Checklist {

  datatype ChecklistItem = ChecklistItem(task: string, status: string, link: string)

  /** A `(task, newStatus)` pair, the arguments of one `updateChecklistStatus` call. */
  datatype StatusUpdate = StatusUpdate(task: string, newStatus: string)

  const NotStarted := "Not Started"
  const Done := "Done"

  const AnswerQuestions := "Answer Ikigai questions"
  const ReviewSummary := "Review summary"
  const ExploreRoles := "Explore roles"

  /** The link value that means "not navigable yet". */
  const NoLink := "#"

  /** The list the store is created with. */
  const Seeded: seq<ChecklistItem> := [
    ChecklistItem(AnswerQuestions, NotStarted, "/ikigai"),
    ChecklistItem(ReviewSummary, NotStarted, "/ikigai/results"),
    ChecklistItem(ExploreRoles, NotStarted, NoLink)
  ]

  /** The task labels of a list, in order. */
  function Tasks(items: seq<ChecklistItem>): (r: seq<string>)
    ensures |r| == |items|
  {
    seq(|items|, i requires 0 <= i < |items| => items[i].task)
  }

  /** The links of a list, in order. */
  function Links(items: seq<ChecklistItem>): (r: seq<string>)
    ensures |r| == |items|
  {
    seq(|items|, i requires 0 <= i < |items| => items[i].link)
  }

  /** One item as the `map` callback of `updateChecklistStatus` leaves it. */
  function UpdateItem(item: ChecklistItem, task: string, newStatus: string): (r: ChecklistItem)
    ensures r.task == item.task && r.link == item.link
    ensures item.task == task ==> r.status == newStatus
    ensures item.task != task ==> r == item
  {
    if item.task == task then item.(status := newStatus) else item
  }

  /** The new list `updateChecklistStatus(task, newStatus)` computes from the old one. */
  function UpdateStatus(items: seq<ChecklistItem>, task: string, newStatus: string): (r: seq<ChecklistItem>)
    ensures |r| == |items|
  {
    if items == [] then []
    else [UpdateItem(items[0], task, newStatus)] + UpdateStatus(items[1..], task, newStatus)
  }

  /** The list after a series of `updateChecklistStatus` calls, applied in order. */
  function UpdateAll(items: seq<ChecklistItem>, updates: seq<StatusUpdate>): (r: seq<ChecklistItem>)
    ensures |r| == |items|
    decreases updates
  {
    if updates == [] then items
    else UpdateAll(UpdateStatus(items, updates[0].task, updates[0].newStatus), updates[1..])
  }

  /**
   * Position by position: an item labelled `task` gets status `newStatus` and
   * keeps its label and link; every other item is left exactly as it was.
   */
  lemma {:induction false} UpdateStatusAt(items: seq<ChecklistItem>, task: string, newStatus: string, i: nat)
    requires i < |items|
    ensures UpdateStatus(items, task, newStatus)[i].task == items[i].task
    ensures UpdateStatus(items, task, newStatus)[i].link == items[i].link
    ensures items[i].task == task ==> UpdateStatus(items, task, newStatus)[i].status == newStatus
    ensures items[i].task != task ==> UpdateStatus(items, task, newStatus)[i] == items[i]
  {
    if i > 0 {
      UpdateStatusAt(items[1..], task, newStatus, i - 1);
    }
  }

  /** An update keyed by a label no item carries leaves the list unchanged. */
  lemma {:induction false} UpdateUnknownTask(items: seq<ChecklistItem>, task: string, newStatus: string)
    requires task !in Tasks(items)
    ensures UpdateStatus(items, task, newStatus) == items
  {
    if items != [] {
      assert Tasks(items)[0] == items[0].task;
      assert Tasks(items[1..]) == Tasks(items)[1..];
      UpdateUnknownTask(items[1..], task, newStatus);
    }
  }

  /** Applying the same update twice is the same as applying it once. */
  lemma {:induction false} UpdateStatusIdempotent(items: seq<ChecklistItem>, task: string, newStatus: string)
    ensures UpdateStatus(UpdateStatus(items, task, newStatus), task, newStatus)
         == UpdateStatus(items, task, newStatus)
  {
    if items != [] {
      var once := UpdateStatus(items, task, newStatus);
      assert once[1..] == UpdateStatus(items[1..], task, newStatus);
      UpdateStatusIdempotent(items[1..], task, newStatus);
    }
  }

  /** An update never changes the sequence of labels or the sequence of links. */
  lemma UpdateStatusKeepsTasksAndLinks(items: seq<ChecklistItem>, task: string, newStatus: string)
    ensures Tasks(UpdateStatus(items, task, newStatus)) == Tasks(items)
    ensures Links(UpdateStatus(items, task, newStatus)) == Links(items)
  {
    forall i | 0 <= i < |items|
      ensures UpdateStatus(items, task, newStatus)[i].task == items[i].task
      ensures UpdateStatus(items, task, newStatus)[i].link == items[i].link
    {
      UpdateStatusAt(items, task, newStatus, i);
    }
  }

  /** Labels and links are invariant under any number of updates. */
  lemma {:induction false} UpdateAllKeepsTasksAndLinks(items: seq<ChecklistItem>, updates: seq<StatusUpdate>)
    ensures Tasks(UpdateAll(items, updates)) == Tasks(items)
    ensures Links(UpdateAll(items, updates)) == Links(items)
    decreases updates
  {
    if updates != [] {
      var next := UpdateStatus(items, updates[0].task, updates[0].newStatus);
      UpdateStatusKeepsTasksAndLinks(items, updates[0].task, updates[0].newStatus);
      UpdateAllKeepsTasksAndLinks(next, updates[1..]);
    }
  }

  /** The zustand store: one `checklist` field, replaced by its two actions. */
  class ChecklistStore {
    var checklist: seq<ChecklistItem>

    constructor ()
      ensures checklist == Seeded
    {
      checklist := Seeded;
    }

    method UpdateChecklistStatus(task: string, newStatus: string)
      modifies this
      ensures checklist == UpdateStatus(old(checklist), task, newStatus)
    {
      checklist := UpdateStatus(checklist, task, newStatus);
    }

    method SetChecklist(items: seq<ChecklistItem>)
      modifies this
      ensures checklist == items
    {
      checklist := items;
    }
  }
}
