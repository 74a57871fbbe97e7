/**
 * The four-step questionnaire of src/app/components/IkigaiWizard.tsx: a step
 * index moved by Next and Back, and per-category answers changed by checkbox
 * toggles and summary edits.
 */
module IkigaiWizard {

  datatype Category = Love | GoodAt | WorldNeeds | PaidFor

  datatype StepInfo = StepInfo(id: Category, title: string)

  /** The steps in the order the wizard visits them. */
  const Steps: seq<StepInfo> := [
    StepInfo(Love, "What do you love?"),
    StepInfo(GoodAt, "What are you good at?"),
    StepInfo(WorldNeeds, "What does the world need?"),
    StepInfo(PaidFor, "What can you be paid for?")
  ]

  /** `steps.length - 1`, the index of the step that offers Submit. */
  const LastStep: nat := |Steps| - 1

  /** The checkbox options each category shows. */
  function DefaultOptions(c: Category): (options: seq<string>)
    ensures |options| == 5 && NoDuplicates(options)
  {
    match c
    case Love => ["Working with technology", "Helping others", "Creative problem-solving",
                  "Learning new things", "Teaching and mentoring"]
    case GoodAt => ["Technical skills", "Communication", "Problem-solving",
                    "Project management", "Team collaboration"]
    case WorldNeeds => ["Better technology solutions", "Environmental sustainability",
                        "Education and learning", "Healthcare improvements", "Social impact"]
    case PaidFor => ["Technical expertise", "Management skills", "Creative services",
                     "Consulting", "Specialized knowledge"]
  }

  /** The answer to one category. */
  datatype IkigaiResponse = IkigaiResponse(selected: seq<string>, summary: string)

  const EmptyResponse := IkigaiResponse([], "")

  /** The answers to all four categories. */
  datatype IkigaiData = IkigaiData(
    love: IkigaiResponse,
    goodAt: IkigaiResponse,
    worldNeeds: IkigaiResponse,
    paidFor: IkigaiResponse)
  {
    function Get(c: Category): IkigaiResponse
    {
      match c
      case Love => love
      case GoodAt => goodAt
      case WorldNeeds => worldNeeds
      case PaidFor => paidFor
    }

    /** The answers with category `c` replaced by `r`, as the spread `{...prev, [c]: r}` builds. */
    function With(c: Category, r: IkigaiResponse): (d: IkigaiData)
      ensures d.Get(c) == r
      ensures forall other :: other != c ==> d.Get(other) == Get(other)
    {
      match c
      case Love => this.(love := r)
      case GoodAt => this.(goodAt := r)
      case WorldNeeds => this.(worldNeeds := r)
      case PaidFor => this.(paidFor := r)
    }
  }

  const InitialData := IkigaiData(EmptyResponse, EmptyResponse, EmptyResponse, EmptyResponse)

  // ---------------------------------------------------------------------------
  // Answers

  /** `xs.filter(item => item !== x)`. */
  function Without(xs: seq<string>, x: string): (r: seq<string>)
    ensures |r| <= |xs|
    ensures forall y :: y in r <==> y in xs && y != x
  {
    if xs == [] then []
    else if xs[0] == x then Without(xs[1..], x)
    else [xs[0]] + Without(xs[1..], x)
  }

  /** The checkbox handler's new selection: drop the option if present, else append it. */
  function Toggle(selected: seq<string>, option: string): (r: seq<string>)
    ensures option in r <==> option !in selected
    ensures forall y :: y != option ==> (y in r <==> y in selected)
  {
    if option in selected then Without(selected, option) else selected + [option]
  }

  predicate NoDuplicates(xs: seq<string>)
  {
    forall i, j :: 0 <= i < j < |xs| ==> xs[i] != xs[j]
  }

  /** Filtering removes exactly the occurrences of `x`: every other value keeps its count. */
  lemma {:induction false} WithoutCounts(xs: seq<string>, x: string)
    ensures multiset(Without(xs, x)) == multiset(xs)[x := 0]
  {
    if xs != [] {
      WithoutCounts(xs[1..], x);
      assert xs == [xs[0]] + xs[1..];
    }
  }

  /** Filtering keeps the order of what remains: it distributes over concatenation. */
  lemma {:induction false} WithoutAppend(a: seq<string>, b: seq<string>, x: string)
    ensures Without(a + b, x) == Without(a, x) + Without(b, x)
  {
    if a != [] {
      assert (a + b)[1..] == a[1..] + b;
      WithoutAppend(a[1..], b, x);
    } else {
      assert a + b == b;
    }
  }

  /** Filtering out a value that is absent changes nothing. */
  lemma {:induction false} WithoutAbsent(xs: seq<string>, x: string)
    requires x !in xs
    ensures Without(xs, x) == xs
  {
    if xs != [] {
      WithoutAbsent(xs[1..], x);
    }
  }

  /** Filtering keeps a duplicate-free list duplicate-free. */
  lemma {:induction false} WithoutNoDuplicates(xs: seq<string>, x: string)
    requires NoDuplicates(xs)
    ensures NoDuplicates(Without(xs, x))
  {
    if xs != [] {
      WithoutNoDuplicates(xs[1..], x);
      if xs[0] != x {
        var rest := Without(xs[1..], x);
        assert xs[0] !in rest by {
          assert xs[0] !in xs[1..];
        }
      }
    }
  }

  /** Toggling an option that was absent twice restores the original selection. */
  lemma ToggleTwiceRestores(selected: seq<string>, option: string)
    requires option !in selected
    ensures Toggle(Toggle(selected, option), option) == selected
  {
    WithoutAppend(selected, [option], option);
    WithoutAbsent(selected, option);
    assert Without([option], option) == [];
  }

  /**
   * The result of a toggle: the option is selected exactly when it was not
   * before, other options are untouched, and no duplicates are introduced.
   */
  lemma ToggleSpec(selected: seq<string>, option: string)
    ensures option in Toggle(selected, option) <==> option !in selected
    ensures forall y :: y != option ==> (y in Toggle(selected, option) <==> y in selected)
    ensures NoDuplicates(selected) ==> NoDuplicates(Toggle(selected, option))
  {
    if option in selected {
      if NoDuplicates(selected) {
        WithoutNoDuplicates(selected, option);
      }
    }
  }

  /** Toggling offered options keeps the selection within the offered options. */
  lemma ToggleKeepsOffered(c: Category, selected: seq<string>, option: string)
    requires forall y :: y in selected ==> y in DefaultOptions(c)
    requires option in DefaultOptions(c)
    ensures forall y :: y in Toggle(selected, option) ==> y in DefaultOptions(c)
  {
  }

  // ---------------------------------------------------------------------------
  // Steps

  datatype Move = Next | Back

  /** The step after pressing Next or Back on step `s`. */
  function Step(s: nat, m: Move): (r: nat)
    ensures s <= LastStep ==> r <= LastStep
    ensures r == s <==> (m == Next && s >= LastStep) || (m == Back && s == 0)
  {
    match m
    case Next => if s < LastStep then s + 1 else s
    case Back => if s > 0 then s - 1 else s
  }

  /** The step after a series of presses. */
  function Run(s: nat, moves: seq<Move>): nat
    decreases moves
  {
    if moves == [] then s else Run(Step(s, moves[0]), moves[1..])
  }

  function CountNext(moves: seq<Move>): nat
  {
    if moves == [] then 0 else (if moves[0] == Next then 1 else 0) + CountNext(moves[1..])
  }

  /** No series of presses leaves the range of valid steps. */
  lemma {:induction false} RunStaysInRange(s: nat, moves: seq<Move>)
    requires s <= LastStep
    ensures Run(s, moves) <= LastStep
    decreases moves
  {
    if moves != [] {
      RunStaysInRange(Step(s, moves[0]), moves[1..]);
    }
  }

  /** Each press moves the step by at most one, and only Next moves it forward. */
  lemma {:induction false} RunBoundedByNexts(s: nat, moves: seq<Move>)
    ensures Run(s, moves) <= s + CountNext(moves)
    decreases moves
  {
    if moves != [] {
      RunBoundedByNexts(Step(s, moves[0]), moves[1..]);
    }
  }

  /** From the first step, Submit appears only after at least `LastStep` presses of Next. */
  lemma SubmitNeedsEnoughNexts(moves: seq<Move>)
    requires Run(0, moves) == LastStep
    ensures CountNext(moves) >= LastStep
  {
    RunBoundedByNexts(0, moves);
  }

  /** `n` presses of Next from step `s` reach step `min(s + n, LastStep)`, with no answer check. */
  lemma {:induction false} NextsReach(s: nat, n: nat)
    requires s <= LastStep
    ensures Run(s, seq(n, _ => Next)) == if s + n <= LastStep then s + n else LastStep
    decreases n
  {
    var moves := seq(n, _ => Next);
    if n > 0 {
      assert moves[0] == Next;
      assert moves[1..] == seq(n - 1, _ => Next);
      NextsReach(Step(s, Next), n - 1);
    }
  }

  // ---------------------------------------------------------------------------
  // The component's state

  /** The wizard component: its two `useState` fields. */
  class Wizard {
    var currentStep: nat
    var formData: IkigaiData

    /** The step is a valid index of `Steps` and no category lists an option twice. */
    ghost predicate Valid()
      reads this
    {
      && currentStep <= LastStep
      && forall c :: NoDuplicates(formData.Get(c).selected)
    }

    constructor ()
      ensures Valid()
      ensures currentStep == 0 && formData == InitialData
    {
      currentStep := 0;
      formData := InitialData;
    }

    /** `steps[currentStep].id`. */
    function CurrentCategory(): Category
      reads this
      requires Valid()
    {
      Steps[currentStep].id
    }

    /** Submit is rendered in place of Next exactly on the last step. */
    predicate SubmitOffered()
      reads this
      requires Valid()
      ensures SubmitOffered() <==> Step(currentStep, Next) == currentStep
      ensures SubmitOffered() ==> CurrentCategory() == PaidFor
    {
      currentStep == LastStep
    }

    predicate BackDisabled()
      reads this
      ensures BackDisabled() <==> Step(currentStep, Back) == currentStep
    {
      currentStep == 0
    }

    method HandleCheckboxChange(option: string)
      requires Valid()
      modifies this
      ensures Valid()
      ensures currentStep == old(currentStep)
      ensures var c := old(CurrentCategory());
              formData == old(formData).With(c, old(formData).Get(c).(selected := Toggle(old(formData).Get(c).selected, option)))
    {
      var c := CurrentCategory();
      var prev := formData.Get(c);
      ToggleSpec(prev.selected, option);
      formData := formData.With(c, prev.(selected := Toggle(prev.selected, option)));
    }

    method HandleSummaryChange(value: string)
      requires Valid()
      modifies this
      ensures Valid()
      ensures currentStep == old(currentStep)
      ensures var c := old(CurrentCategory());
              formData == old(formData).With(c, old(formData).Get(c).(summary := value))
    {
      var c := CurrentCategory();
      formData := formData.With(c, formData.Get(c).(summary := value));
    }

    method HandleNext()
      requires Valid()
      modifies this
      ensures Valid()
      ensures currentStep == Step(old(currentStep), Next)
      ensures formData == old(formData)
    {
      if currentStep < |Steps| - 1 {
        currentStep := currentStep + 1;
      }
    }

    method HandleBack()
      requires Valid()
      modifies this
      ensures Valid()
      ensures currentStep == Step(old(currentStep), Back)
      ensures formData == old(formData)
    {
      if currentStep > 0 {
        currentStep := currentStep - 1;
      }
    }

    /** The Submit button hands the answers, as they stand, to `onSubmit`. */
    method HandleSubmit() returns (data: IkigaiData)
      requires Valid() && SubmitOffered()
      ensures data == formData
      ensures forall c :: NoDuplicates(data.Get(c).selected)
    {
      data := formData;
    }
  }
}
