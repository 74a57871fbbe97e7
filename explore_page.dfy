/**
 * The explore page of src/app/ikigai/explore/page.tsx: without a stored
 * result it navigates to the dashboard and renders nothing; with one it marks
 * "Explore roles" done and shows one LinkedIn search card per suggested role.
 */
module ExplorePage {
  import opened Wrappers
  import opened Checklist
  import opened Ikigai
  import opened AppState
  import opened UriEncoding

  const DashboardPath := "/dashboard"

  const SearchPrefix := "https://www.linkedin.com/jobs/search/?keywords="

  /** `getLinkedInSearchUrl(role)`. */
  function LinkedInSearchUrl(role: string): (url: string)
    ensures |url| >= |SearchPrefix| + |role|
  {
    SearchPrefix + Encode(role)
  }

  /** The keywords parameter of a search URL decodes back to the role. */
  lemma SearchUrlKeepsRole(role: string)
    ensures |SearchPrefix| <= |LinkedInSearchUrl(role)|
    ensures LinkedInSearchUrl(role)[..|SearchPrefix|] == SearchPrefix
    ensures Decode(LinkedInSearchUrl(role)[|SearchPrefix|..]) == Some(role)
  {
    assert LinkedInSearchUrl(role)[|SearchPrefix|..] == Encode(role);
    RoundTrip(role);
  }

  /** The role cannot escape the keywords parameter: no `&`, `#`, `=` or space follows the prefix. */
  lemma SearchUrlStaysInParameter(role: string)
    ensures forall i :: |SearchPrefix| <= i < |LinkedInSearchUrl(role)| ==> UrlSafe(LinkedInSearchUrl(role)[i])
  {
    EncodeSafe(role);
    var url := LinkedInSearchUrl(role);
    forall i | |SearchPrefix| <= i < |url|
      ensures UrlSafe(url[i])
    {
      assert url[i] == Encode(role)[i - |SearchPrefix|];
    }
  }

  /** Different roles get different search URLs. */
  lemma SearchUrlInjective(a: string, b: string)
    requires LinkedInSearchUrl(a) == LinkedInSearchUrl(b)
    ensures a == b
  {
    SearchUrlKeepsRole(a);
    SearchUrlKeepsRole(b);
  }

  datatype RoleCard = RoleCard(role: string, searchUrl: string)

  /** `suggestions.map(...)`: one card per role, in order. */
  function Cards(roles: seq<string>): (cards: seq<RoleCard>)
    ensures |cards| == |roles|
    ensures forall i :: 0 <= i < |roles| ==>
              cards[i] == RoleCard(roles[i], LinkedInSearchUrl(roles[i]))
  {
    if roles == [] then []
    else [RoleCard(roles[0], LinkedInSearchUrl(roles[0]))] + Cards(roles[1..])
  }

  /** What the page renders: nothing without a result, otherwise the role cards. */
  function Render(result: Option<IkigaiResult>): (view: Option<seq<RoleCard>>)
    ensures view.None? <==> result.None?
    ensures view.Some? ==> |view.value| == |result.value.suggestions|
  {
    match result
    case None => None
    case Some(r) => Some(Cards(r.suggestions))
  }

  /** The page's `useEffect` on the combined state. */
  function Visit(s: State): (t: Transition)
    ensures t.state.result == s.result
    ensures t.navigateTo.Some? <==> s.result.None?
    ensures s.result.None? ==> t.state == s && t.navigateTo == Some(DashboardPath)
    ensures |t.state.checklist| == |s.checklist|
    ensures s.result.Some? ==> forall i :: 0 <= i < |s.checklist| ==>
              t.state.checklist[i] == (if s.checklist[i].task == ExploreRoles
                                       then s.checklist[i].(status := Done) else s.checklist[i])
  {
    if s.result.None? then Transition(s, Some(DashboardPath))
    else Transition(MarkDone(s, ExploreRoles), None)
  }

  /** A second visit changes the stores no further. */
  lemma VisitTwiceIsVisitOnce(s: State)
    ensures Visit(Visit(s).state) == Visit(s)
  {
    if s.result.Some? {
      MarkDoneIdempotent(s, ExploreRoles);
    }
  }

  /** The page's `useEffect`, run against the two stores; `result` is never written. */
  method Effect(results: IkigaiStore, list: ChecklistStore) returns (navigateTo: Option<string>)
    modifies list
    ensures Transition(Snapshot(results, list), navigateTo) == Visit(old(Snapshot(results, list)))
  {
    if results.result.None? {
      navigateTo := Some(DashboardPath);
    } else {
      list.UpdateChecklistStatus(ExploreRoles, Done);
      navigateTo := None;
    }
  }
}
