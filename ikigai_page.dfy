/**
 * The questionnaire page of src/app/ikigai/page.tsx: it reveals the wizard on
 * start and, on submission, posts the answers, stores the reply, marks the
 * questions answered and goes home; a failed post changes no store.
 */
module IkigaiPage {
  import opened Wrappers
  import opened Checklist
  import opened Ikigai
  import opened AppState

  const HomePath := "/"

  /** The page's own category labels, which differ from the wizard's. */
  datatype PageCategory = Love | Good | Needs | Paid

  /** What `axios.post("/api/summarize", formData)` came back with. */
  datatype PostOutcome = Succeeded(data: IkigaiResult) | Failed

  /** The store changes and navigation that follow the post. */
  function Submit(s: State, outcome: PostOutcome): (t: Transition)
    ensures outcome.Failed? ==> t.state == s && t.navigateTo.None?
    ensures outcome.Succeeded? ==> t.state.result == Some(outcome.data) && t.navigateTo == Some(HomePath)
    ensures |t.state.checklist| == |s.checklist|
    ensures outcome.Succeeded? ==> forall i :: 0 <= i < |s.checklist| ==>
              t.state.checklist[i] == (if s.checklist[i].task == AnswerQuestions
                                       then s.checklist[i].(status := Done) else s.checklist[i])
  {
    match outcome
    case Failed => Transition(s, None)
    case Succeeded(data) => Transition(MarkDone(s.(result := Some(data)), AnswerQuestions), Some(HomePath))
  }

  /** The page component: its three `useState` fields. */
  class Page {
    var showForm: bool
    var currentCategory: Option<PageCategory>
    var loading: bool

    /** The form is shown exactly when a category is highlighted. */
    ghost predicate Valid()
      reads this
    {
      showForm <==> currentCategory.Some?
    }

    constructor ()
      ensures Valid()
      ensures !showForm && currentCategory == None && !loading
    {
      showForm := false;
      currentCategory := None;
      loading := false;
    }

    /** The wizard is mounted only once the form is shown. */
    predicate WizardShown()
      reads this
      requires Valid()
      ensures WizardShown() <==> currentCategory.Some?
    {
      showForm
    }

    method HandleStart()
      modifies this
      ensures Valid()
      ensures showForm && currentCategory == Some(Love)
      ensures loading == old(loading)
    {
      showForm := true;
      currentCategory := Some(Love);
    }

    /** `handleSubmit` up to the `await`: the page is loading while the post is in flight. */
    method BeginSubmit()
      requires Valid()
      modifies this
      ensures Valid()
      ensures loading
      ensures showForm == old(showForm) && currentCategory == old(currentCategory)
    {
      loading := true;
    }

    /** `handleSubmit` after the `await`: apply the outcome to the stores, then stop loading. */
    method FinishSubmit(outcome: PostOutcome, results: IkigaiStore, list: ChecklistStore)
      returns (navigateTo: Option<string>)
      requires Valid()
      modifies this, results, list
      ensures Valid()
      ensures !loading
      ensures showForm == old(showForm) && currentCategory == old(currentCategory)
      ensures Transition(Snapshot(results, list), navigateTo) == Submit(old(Snapshot(results, list)), outcome)
    {
      match outcome {
        case Succeeded(data) =>
          results.SetResult(data);
          list.UpdateChecklistStatus(AnswerQuestions, Done);
          navigateTo := Some(HomePath);
        case Failed =>
          navigateTo := None;
      }
      loading := false;
    }
  }
}
