/**
 * The page events that drive the two stores, composed: what holds of every
 * store state the application can reach from the stores' initial contents.
 */
module AppFlow {
  import opened Wrappers
  import opened Checklist
  import opened Ikigai
  import opened AppState
  import DashboardPage
  import ResultsPage
  import ExplorePage
  import IkigaiPage

  datatype Event =
    | SubmitSucceeded(data: IkigaiResult)
    | SubmitFailed
    | VisitResults
    | VisitExplore
    | VisitDashboard

  /** The store state after one event. */
  function Apply(s: State, e: Event): State
  {
    match e
    case SubmitSucceeded(data) => IkigaiPage.Submit(s, IkigaiPage.Succeeded(data)).state
    case SubmitFailed => IkigaiPage.Submit(s, IkigaiPage.Failed).state
    case VisitResults => ResultsPage.Visit(s).state
    case VisitExplore => ExplorePage.Visit(s).state
    case VisitDashboard => DashboardPage.Visit(s)
  }

  /** The store state after a series of events, in order. */
  function ApplyAll(s: State, events: seq<Event>): State
    decreases events
  {
    if events == [] then s else ApplyAll(Apply(s, events[0]), events[1..])
  }

  /**
   * The invariant of reachable states: the seeded labels and links in their
   * order, every status "Not Started" or "Done", the questions answered
   * exactly when a result is stored, and the later tasks done only after that.
   */
  ghost predicate Progress(s: State)
  {
    && Tasks(s.checklist) == Tasks(Seeded)
    && Links(s.checklist) == Links(Seeded)
    && (forall i :: 0 <= i < |s.checklist| ==>
          s.checklist[i].status == NotStarted || s.checklist[i].status == Done)
    && (s.checklist[0].status == Done <==> s.result.Some?)
    && (s.checklist[1].status == Done ==> s.result.Some?)
    && (s.checklist[2].status == Done ==> s.result.Some?)
  }

  lemma SeededLabels()
    ensures Tasks(Seeded) == [AnswerQuestions, ReviewSummary, ExploreRoles]
    ensures Links(Seeded) == ["/ikigai", "/ikigai/results", NoLink]
  {
  }

  lemma InitialProgress()
    ensures Progress(Initial)
  {
    SeededLabels();
  }

  /** Every event keeps the invariant. */
  lemma ApplyKeepsProgress(s: State, e: Event)
    requires Progress(s)
    ensures Progress(Apply(s, e))
  {
    SeededLabels();
    assert |s.checklist| == 3;
    assert s.checklist[0].task == AnswerQuestions by { assert Tasks(s.checklist)[0] == s.checklist[0].task; }
    assert s.checklist[1].task == ReviewSummary by { assert Tasks(s.checklist)[1] == s.checklist[1].task; }
    assert s.checklist[2].task == ExploreRoles by { assert Tasks(s.checklist)[2] == s.checklist[2].task; }
    match e {
      case SubmitSucceeded(data) =>
      case SubmitFailed =>
      case VisitResults =>
      case VisitExplore =>
      case VisitDashboard =>
        DashboardPage.VisitWithoutLabelIsNoOp(s);
    }
  }

  /** Every reachable state satisfies the invariant. */
  lemma {:induction false} ReachableProgress(s: State, events: seq<Event>)
    requires Progress(s)
    ensures Progress(ApplyAll(s, events))
    decreases events
  {
    if events != [] {
      ApplyKeepsProgress(s, events[0]);
      ReachableProgress(Apply(s, events[0]), events[1..]);
    }
  }

  /** No reachable checklist has an item labelled "Find your Ikigai". */
  lemma FindYourIkigaiNeverPresent(events: seq<Event>)
    ensures DashboardPage.FindYourIkigai !in Tasks(ApplyAll(Initial, events).checklist)
  {
    InitialProgress();
    ReachableProgress(Initial, events);
    SeededLabels();
  }

  /**
   * Whatever the user does, the dashboard's "Review summary" button stays
   * disabled: the label its gate looks up never occurs.
   */
  lemma ReviewSummaryAlwaysDisabled(events: seq<Event>)
    ensures var s := ApplyAll(Initial, events);
            |s.checklist| == 3 && s.checklist[1].task == ReviewSummary
            && DashboardPage.Disabled(s.checklist[1], s.checklist, s.result)
  {
    var s := ApplyAll(Initial, events);
    InitialProgress();
    ReachableProgress(Initial, events);
    SeededLabels();
    assert Tasks(s.checklist)[1] == s.checklist[1].task;
    FindYourIkigaiNeverPresent(events);
    DashboardPage.ReviewDisabledWithoutLabel(s.checklist[1], s.checklist, s.result);
  }

  /** Whatever the user does, opening the dashboard changes no store. */
  lemma DashboardVisitIsNoOp(events: seq<Event>)
    ensures Apply(ApplyAll(Initial, events), VisitDashboard) == ApplyAll(Initial, events)
  {
    FindYourIkigaiNeverPresent(events);
    DashboardPage.VisitWithoutLabelIsNoOp(ApplyAll(Initial, events));
  }

  /**
   * Whatever the user does, the dashboard renders no action for "Explore
   * roles": its link stays the non-navigable "#".
   */
  lemma ExploreRolesNeverLinked(events: seq<Event>)
    ensures var s := ApplyAll(Initial, events);
            |s.checklist| == 3 && s.checklist[2].task == ExploreRoles
            && !DashboardPage.ActionShown(s.checklist[2])
  {
    var s := ApplyAll(Initial, events);
    InitialProgress();
    ReachableProgress(Initial, events);
    SeededLabels();
    assert Tasks(s.checklist)[2] == s.checklist[2].task;
    assert Links(s.checklist)[2] == s.checklist[2].link;
  }

  /** A task once done stays done, and a stored result is never removed. */
  lemma EventsOnlyAdvance(s: State, e: Event, i: nat)
    requires i < |s.checklist|
    ensures |Apply(s, e).checklist| == |s.checklist|
    ensures s.checklist[i].status == Done ==> Apply(s, e).checklist[i].status == Done
    ensures s.result.Some? ==> Apply(s, e).result.Some?
  {
  }

  /** Visiting results or explore twice in a row does what visiting once does. */
  lemma VisitsIdempotent(s: State)
    ensures Apply(Apply(s, VisitResults), VisitResults) == Apply(s, VisitResults)
    ensures Apply(Apply(s, VisitExplore), VisitExplore) == Apply(s, VisitExplore)
  {
    ResultsPage.VisitTwiceIsVisitOnce(s);
    ExplorePage.VisitTwiceIsVisitOnce(s);
  }
}
