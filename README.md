# CareerAI client state, modelled in Dafny

CareerAI walks a signed-in user through a four-category Ikigai questionnaire
(what they love, what they are good at, what the world needs, what they can be
paid for), posts the answers to a summarisation endpoint, stores the reply and
tracks progress in a three-item checklist. This project models the client-side
state of that flow and the small decision rules around it:

- the checklist store (`Checklist`, a class over a `seq` of items) and the
  result store (`Ikigai`, a class over one nullable record);
- the questionnaire wizard (`IkigaiWizard`): the step index moved by Next and
  Back, and the per-category answers changed by checkbox toggles and summary
  edits;
- the page effects that write the stores, each as a pure transition on the
  combined `(result, checklist)` state (`AppState`) and as a method over the
  two store objects whose postcondition is that transition: the questionnaire
  page's submission (`IkigaiPage`), the results page (`ResultsPage`), the
  explore page (`ExplorePage`) and the dashboard (`DashboardPage`);
- the dashboard's per-item rules (button shown, disabled, label);
- the route guard (`Middleware`);
- the LinkedIn search link of the explore page, with `encodeURIComponent` of
  ECMA-262 written out over Unicode scalar values (`UriEncoding`) and a
  decoder proved to invert it.

`AppFlow` composes the page events and proves what holds in every store state
reachable from the initial stores. The seeded labels and links never change,
and every status is "Not Started" or "Done". "Answer Ikigai questions" is done
exactly when a result is stored. The dashboard's "Review summary" gate looks up
the label "Find your Ikigai", which no reachable checklist contains. So that
button is disabled in every reachable state, and the dashboard's effect never
changes a store. The "Explore roles" item keeps the link "#", so the dashboard
never renders a button for it, and its "disabled without a result" rule never
shows.

The wizard has no category validator: Next checks nothing. There is no
formatter, and no "other" field is stored. Statuses are free strings. A status
update rewrites every item that carries the label.

## Model

| member | source | states |
|---|---|---|
| Checklist.ChecklistStore.constructor | src/store/checklistStore.ts:19-31 | the store starts with exactly the three seeded items, in order, all "Not Started", with links "/ikigai", "/ikigai/results" and "#" |
| Checklist.ChecklistStore.UpdateChecklistStatus | src/store/checklistStore.ts:32-37 | the new list is the old one with the keyed update applied (`UpdateStatus`) |
| Checklist.ChecklistStore.SetChecklist | src/store/checklistStore.ts:38 | the list becomes exactly the argument |
| Checklist.UpdateItem | src/store/checklistStore.ts:35 | an item with the key gets the new status; its label and link are kept; an item with another label is unchanged |
| Checklist.UpdateStatus | src/store/checklistStore.ts:33-36 | the keyed update keeps the length of the list |
| Checklist.UpdateAll | src/store/checklistStore.ts:32-37 | any series of updates keeps the length of the list |
| Checklist.UpdateStatusAt | src/store/checklistStore.ts:35 | at every position, an item with the key gets the new status and keeps its label and link; any other item is unchanged |
| Checklist.UpdateUnknownTask | src/store/checklistStore.ts:34-36 | with a label no item carries, the list is unchanged |
| Checklist.UpdateStatusIdempotent | src/store/checklistStore.ts:34-36 | applying the same update twice equals applying it once |
| Checklist.UpdateStatusKeepsTasksAndLinks | src/store/checklistStore.ts:35 | one update keeps the sequence of labels and the sequence of links |
| Checklist.UpdateAllKeepsTasksAndLinks | src/store/checklistStore.ts:34-36 | any number of updates keeps the sequences of labels and links |
| Ikigai.IkigaiStore.constructor | src/store/ikigaiStore.ts:21 | the result starts null |
| Ikigai.IkigaiStore.SetResult | src/store/ikigaiStore.ts:22 | the result is the argument whatever it was, so the last write wins |
| Ikigai.IkigaiStore.ClearResult | src/store/ikigaiStore.ts:23 | the result is null whatever it was, so clearing is idempotent |
| AppState.MarkDone | src/store/checklistStore.ts:34-36 | marking a task "Done" keeps the result, labels and links, sets every item with that label to "Done" and leaves the rest unchanged |
| AppState.MarkDoneIdempotent | src/store/checklistStore.ts:34-36 | marking a task done twice equals marking it once |
| IkigaiWizard.DefaultOptions | src/app/components/IkigaiWizard.tsx:20-49 | every category offers five distinct options |
| IkigaiWizard.IkigaiData.With | src/app/components/IkigaiWizard.tsx:81-87 | replacing one category's answer changes that category only |
| IkigaiWizard.Without | src/app/components/IkigaiWizard.tsx:78 | the filter removes every occurrence of the option and keeps every other value that was there |
| IkigaiWizard.WithoutCounts | src/app/components/IkigaiWizard.tsx:78 | the filter keeps the number of occurrences of every other value |
| IkigaiWizard.WithoutAppend | src/app/components/IkigaiWizard.tsx:78 | the filter distributes over concatenation, so the remaining options keep their order |
| IkigaiWizard.WithoutAbsent | src/app/components/IkigaiWizard.tsx:78 | filtering out an absent option changes nothing |
| IkigaiWizard.WithoutNoDuplicates | src/app/components/IkigaiWizard.tsx:78 | the filter keeps a duplicate-free list duplicate-free |
| IkigaiWizard.Toggle | src/app/components/IkigaiWizard.tsx:76-79 | after a toggle the option is selected exactly when it was not before, and every other value is selected exactly when it was |
| IkigaiWizard.ToggleSpec | src/app/components/IkigaiWizard.tsx:76-79 | after a toggle the option is selected exactly when it was not before; other options keep their selection; no duplicate is introduced |
| IkigaiWizard.ToggleTwiceRestores | src/app/components/IkigaiWizard.tsx:76-79 | toggling an absent option twice restores the original selection |
| IkigaiWizard.ToggleKeepsOffered | src/app/components/IkigaiWizard.tsx:128-133 | toggling only the rendered options keeps the selection within the category's options |
| IkigaiWizard.Step | src/app/components/IkigaiWizard.tsx:101-111 | a press keeps a step within 0 to 3, and leaves it where it is exactly for Next on the last step or Back on the first |
| IkigaiWizard.RunStaysInRange | src/app/components/IkigaiWizard.tsx:101-111 | no series of Next and Back presses leaves steps 0 to 3 |
| IkigaiWizard.RunBoundedByNexts | src/app/components/IkigaiWizard.tsx:101-111 | a series of presses raises the step by at most its number of Next presses |
| IkigaiWizard.SubmitNeedsEnoughNexts | src/app/components/IkigaiWizard.tsx:178-182 | from the first step, the Submit step needs at least three Next presses |
| IkigaiWizard.NextsReach | src/app/components/IkigaiWizard.tsx:101-105 | n presses of Next reach step min(s + n, 3), with no check on the answers |
| IkigaiWizard.Wizard.SubmitOffered | src/app/components/IkigaiWizard.tsx:178-182 | Submit replaces Next exactly where Next would not move the step, and only on the "paid for" category |
| IkigaiWizard.Wizard.BackDisabled | src/app/components/IkigaiWizard.tsx:170-176 | Back is disabled exactly where it would not move the step |
| IkigaiWizard.Wizard.constructor | src/app/components/IkigaiWizard.tsx:63-69 | the wizard starts at step 0 with every category's selection and summary empty |
| IkigaiWizard.Wizard.HandleCheckboxChange | src/app/components/IkigaiWizard.tsx:74-89 | only the current category's selection changes, by the toggle; the step and the summaries are unchanged; selections stay duplicate-free |
| IkigaiWizard.Wizard.HandleSummaryChange | src/app/components/IkigaiWizard.tsx:91-99 | only the current category's summary changes, to the value |
| IkigaiWizard.Wizard.HandleNext | src/app/components/IkigaiWizard.tsx:101-105 | the step rises by one below the last step and stays otherwise; the answers are unchanged; the step stays within 0 to 3 |
| IkigaiWizard.Wizard.HandleBack | src/app/components/IkigaiWizard.tsx:107-111 | the step falls by one above 0 and stays otherwise; the answers are unchanged |
| IkigaiWizard.Wizard.HandleSubmit | src/app/components/IkigaiWizard.tsx:113-115 | on the last step, `onSubmit` receives the answers as they stand |
| Middleware.Matches | src/middleware.ts:28-30 | a matched path starts with "/", and every matched path other than "/" lies under "/dashboard" or "/ikigai" |
| Middleware.Decide | src/middleware.ts:14-25 | a request passes exactly when a signed-in user asks for a page other than "/" or a signed-out user asks for "/"; a redirect goes to "/dashboard" with a session and to "/" without one, and never to the requested path |
| Middleware.Handle | src/middleware.ts:28-30 | paths outside the matcher always pass; a signed-out request for a matched path other than "/" is sent to "/" |
| Middleware.NoRedirectChain | src/middleware.ts:14-23 | the target of a redirect is matched and passes the guard, so no redirect is followed by another |
| UriEncoding.Encode | src/app/ikigai/explore/page.tsx:32 | the encoding is never shorter than the string, and has the same length exactly when every character is unreserved |
| UriEncoding.RoundTrip | src/app/ikigai/explore/page.tsx:32 | decoding the encoding of a string gives back the string |
| UriEncoding.EncodeInjective | src/app/ikigai/explore/page.tsx:32 | distinct strings have distinct encodings |
| UriEncoding.EncodeSafe | src/app/ikigai/explore/page.tsx:32 | an encoding holds only unreserved characters and `%` |
| UriEncoding.EncodeUnreserved | src/app/ikigai/explore/page.tsx:32 | a string of unreserved characters is its own encoding |
| ExplorePage.LinkedInSearchUrl | src/app/ikigai/explore/page.tsx:31-34 | the search URL is at least as long as the prefix and the role together |
| ExplorePage.SearchUrlKeepsRole | src/app/ikigai/explore/page.tsx:31-34 | the search URL is the fixed LinkedIn prefix followed by text that decodes to the role |
| ExplorePage.SearchUrlStaysInParameter | src/app/ikigai/explore/page.tsx:31-34 | after the prefix, every character is unreserved or `%`, so the role cannot leave the `keywords` parameter |
| ExplorePage.SearchUrlInjective | src/app/ikigai/explore/page.tsx:31-34 | different roles get different search URLs |
| ExplorePage.Cards | src/app/ikigai/explore/page.tsx:58-80 | one card per suggested role, in the stored order, each with that role's search URL |
| ExplorePage.Render | src/app/ikigai/explore/page.tsx:27-29 | the page renders nothing exactly when there is no result, and otherwise one card per suggestion |
| ExplorePage.Visit | src/app/ikigai/explore/page.tsx:17-25 | without a result the stores are unchanged and the page goes to "/dashboard"; with one, items labelled "Explore roles" become "Done" and every other item is unchanged; the result is never changed |
| ExplorePage.VisitTwiceIsVisitOnce | src/app/ikigai/explore/page.tsx:23 | a second visit changes nothing more |
| ExplorePage.Effect | src/app/ikigai/explore/page.tsx:17-25 | the effect on the two store objects is the transition `Visit`, and it may write the checklist only |
| ResultsPage.Visit | src/app/ikigai/results/page.tsx:16-24 | without a result the stores are unchanged and the page goes to "/"; with one, items labelled "Review summary" become "Done" and every other item is unchanged; the result is never changed |
| ResultsPage.RendersNothing | src/app/ikigai/results/page.tsx:16-28 | the page renders nothing exactly when its effect navigates away |
| ResultsPage.VisitTwiceIsVisitOnce | src/app/ikigai/results/page.tsx:22 | a second visit changes nothing more |
| ResultsPage.Effect | src/app/ikigai/results/page.tsx:16-24 | the effect on the two store objects is the transition `Visit`, and it may write the checklist only |
| DashboardPage.FindIndex | src/app/dashboard/page.tsx:62-64 | the lookup finds the first item with the label, or reports that none has it |
| DashboardPage.FoundStatus | src/app/dashboard/page.tsx:62-64 | a status is found exactly when some item has the label, and it is the status of the first such item |
| DashboardPage.Disabled | src/app/dashboard/page.tsx:73-78 | only an item labelled "Review summary" or "Explore roles" can be disabled |
| DashboardPage.ActionShown | src/app/dashboard/page.tsx:57 | of the seeded items, the action is rendered for every one except "Explore roles" |
| DashboardPage.DisabledCases | src/app/dashboard/page.tsx:60-79 | only "Review summary" and "Explore roles" can be disabled; "Explore roles" exactly when there is no result; "Review summary" is enabled exactly when the first item labelled "Find your Ikigai" exists and is "Done" |
| DashboardPage.ButtonLabel | src/app/dashboard/page.tsx:81 | the label is "View" exactly for a "Done" item and "Start" otherwise |
| DashboardPage.Visit | src/app/dashboard/page.tsx:16-21 | the effect never changes the result, labels or links, and does nothing without a result; with one, items labelled "Find your Ikigai" become "Done" and every other item is unchanged |
| DashboardPage.VisitWithoutLabelIsNoOp | src/app/dashboard/page.tsx:16-21 | when no item is labelled "Find your Ikigai", the effect changes nothing |
| DashboardPage.ReviewDisabledWithoutLabel | src/app/dashboard/page.tsx:74-77 | when no item is labelled "Find your Ikigai", the "Review summary" button is disabled |
| DashboardPage.Effect | src/app/dashboard/page.tsx:16-21 | the effect on the two store objects is the transition `Visit`, and it may write the checklist only |
| IkigaiPage.Submit | src/app/ikigai/page.tsx:23-41 | a failed post changes no store and does not navigate; a successful one stores the reply, marks "Answer Ikigai questions" done, leaves every other item unchanged and goes to "/" |
| IkigaiPage.Page.constructor | src/app/ikigai/page.tsx:15-19 | the form starts hidden, with no category and not loading |
| IkigaiPage.Page.WizardShown | src/app/ikigai/page.tsx:59 | the wizard is rendered exactly when a category is highlighted |
| IkigaiPage.Page.HandleStart | src/app/ikigai/page.tsx:43-46 | the form is shown and the category is "love"; loading is unchanged |
| IkigaiPage.Page.BeginSubmit | src/app/ikigai/page.tsx:23-24 | the page is loading while the post is in flight |
| IkigaiPage.Page.FinishSubmit | src/app/ikigai/page.tsx:25-41 | after either outcome the page is not loading, and the stores and navigation are those of `Submit` |
| AppFlow.ReachableProgress | src/app/ikigai/page.tsx:26-31 | in every reachable state the labels and links are the seeded ones, every status is "Not Started" or "Done", "Answer Ikigai questions" is done exactly when a result is stored, and the two later tasks are done only when one is |
| AppFlow.ApplyKeepsProgress | src/store/checklistStore.ts:32-37 | every page event keeps that invariant |
| AppFlow.FindYourIkigaiNeverPresent | src/app/dashboard/page.tsx:63 | no reachable checklist has an item labelled "Find your Ikigai" |
| AppFlow.ReviewSummaryAlwaysDisabled | src/app/dashboard/page.tsx:74-77 | in every reachable state the "Review summary" button is disabled |
| AppFlow.DashboardVisitIsNoOp | src/app/dashboard/page.tsx:16-21 | in every reachable state, opening the dashboard changes no store |
| AppFlow.ExploreRolesNeverLinked | src/app/dashboard/page.tsx:57 | in every reachable state the dashboard renders no button for "Explore roles" |
| AppFlow.EventsOnlyAdvance | src/store/checklistStore.ts:32-37 | no page event undoes a "Done" status or removes a stored result |
| AppFlow.VisitsIdempotent | src/app/ikigai/results/page.tsx:22 | visiting results, or explore, twice in a row does what visiting once does |

## Left out

- The summarisation route (src/app/api/summarize/route.ts) and the system prompt: a call into a language-model SDK and `JSON.parse`. The post's reply is a parameter of the submission (`PostOutcome`), so the answers sent do not determine the reply in the model.
- Authentication (sign-in, sign-up, sign-out, the home page): external calls. The route guard takes the session as a boolean.
- The guard's URL construction: `new URL("/", req.url)` keeps the request's origin. A redirect is modelled by its path only.
- The matcher's `:path*` patterns: modelled as the path itself or any path below it. The framework's own path normalisation is not modelled.
- Persistence of both stores to local storage: only the in-memory state is modelled.
- Rendering and effect scheduling, `router.push`, `alert` and `console`: effects are atomic events and navigation is an output value.
- The wizard's "Other things..." text box: it is uncontrolled and never stored.
- The progress bar percentage and every other piece of styling, animation and circle colouring (src/app/components/IkigaiCircles.tsx).
- The fields the results page displays (summary, sentiment, roles, themes, paths): a plain display of the stored record. Only its null-render guard is modelled.
- `onCategoryChange`: the questionnaire page passes it, but the wizard does not accept it. The page's category is therefore only ever set by `HandleStart`.
- `setChecklist` and `clearResult` are modelled on the stores. No page calls them, so they are not events in `AppFlow`; its reachable-state lemmas hold for the flows the pages allow.
- `loading` is written but never read by the page's rendering. The model records its value only.
- The lone-surrogate `URIError` of `encodeURIComponent`: a Dafny `char` is a Unicode scalar value, so that input cannot be expressed.
- Decode: accepts overlong UTF-8 forms that `decodeURIComponent` rejects, and rejects characters outside ASCII that are not escaped (`Decode("é") == None`), which `decodeURIComponent` copies through. It serves only as the inverse of `Encode` in the proofs, and `Encode` never produces either.
- ResultsPage.Visit, ExplorePage.Visit, ExplorePage.Render, IkigaiPage.Submit: the post's reply is taken to be a well-formed `IkigaiResult` with every list present. A reply missing a list makes the page's `.map` throw during rendering; that crash, and the effect that then never marks the item done, are not modelled.
