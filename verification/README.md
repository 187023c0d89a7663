# A model of Penny's live run log, deploy changelog and smaller protocols

This project models, in Dafny 4.11, the parts of Penny whose correctness is a matter of
order, recursion or parsing, and proves what they keep over all inputs and all runs.

* **The Prompts tab's live run log** (`browser/src/page/prompts.ts`,
  `browser/src/page/draw_nesting.ts`). Logged rows arrive in any order. A row without a
  parent is an own prompt of its run; a row with one is a draw, shown under the run at the
  top of its parent chain once its parent and the tool call it was made for are on screen,
  and held until then. Every arrival drains what waited for it, recursively.
  `RunLog.dfy` has the handlers as functions of the state, with the recursion unrolled into
  an agenda; `LogStructure.dfy`, `LogInvariant.dfy` and `Keeping.dfy` the invariant between
  any two nested calls, and `Conservation.dfy` that no copy is lost or doubled;
  `LeastClosure.dfy`, `OrderIndependence.dfy`, `OrderExactly.dfy`, `SameFigures.dfy`,
  `ShellHeaders.dfy`, `Outcomes.dfy` and `SameLists.dfy` what the screen, its headers and its lists are and exactly when the order of the messages does not
  matter, and `FirstPage.dfy` that it does not matter either what was fetched first; `Copies.dfy`,
  `NewestCopy.dfy`, `RootDraws.dfy` and `NewestShown.dfy` which copy of a row the screen has,
  and `Places.dfy` where each row is; `TouchOrder.dfy` and `Recency.dfy` what one message moves and the
  order that runs are in; `Shells.dfy` and `ShellDraws.dfy` where a run's start placeholder
  makes a difference; `RunningForest.dfy` the running placeholders; `Reconcile.dfy`,
  `HeldOrder.dfy`, `FetchKeeps.dfy` and `FetchedCopies.dfy` what fetched runs absorb.
  `PromptsTab.dfy` has the module state as a class over mutable `Run` objects and nested hold
  maps, every handler proved to compute the function, and `Replay.dfy` puts whole streams through it.
* **The deploy changelog** (`penny/penny/changelog.py`,
  `penny/penny/changelog_commits.py`). The log is its own cursor: each boot reads back which
  numbers are recorded and appends what its window has after them. `Changelog.dfy` has
  the rule, the log as a class and whole runs of boots; `CommitLog.dfy` the dump parser
  and the text of an entry, `CommitTexts.dfy` what it makes of each kind of text; `Decimal.dfy` and
  `Text.dfy` numbers and Python's string methods.
* **Parsers**: Roman numerals and key identity (`similarity/identity.py`: `Roman.dfy`,
  `Identity.dfy`), srcset lists (`browser/src/content/link_thumbnails.ts`: `Srcset.dfy`),
  schedule presets (`browser/src/page/schedule_picker.ts`: `Schedule.dfy`, `ScheduleTexts.dfy`,
  with JavaScript's trimming in `JsText.dfy`).
* **Step protocols**: the reconnecting socket (`browser/src/background/background.ts`:
  `Background.dfy`) and the single-flight image generator (`image_server/server.py`:
  `ImageServer.dfy`).

`Filters.dfy` says once what it means to filter a list: what stays keeps its order and comes as
often as before.

## What the server is taken to guarantee

`Rows.World` states it: the rows of one run agree on their parent run, and every copy of one
row id differs at most in its discard field. A run that starts has no parent. Running calls
agree with the logged parents where the climb is compared with the fixpoint (`CallsFollow`).
`findHostFor` is asked only for ids from which it ends: it ends exactly when it meets no id
twice on its way up (`RunningForest.ClimbEndsExactly`). The agent filter is off. A first page
that messages follow is complete: every draw in it comes with its parent and its step
(`FirstPage.Loaded`).

## Where the code does less than its comments say

* A shell is put on screen without draining what was held for its run
  (`browser/src/page/prompts.ts:570-602`). So a draw shows or waits depending on whether it
  came before or after the shell (`Shells.ShellOrderMatters`): the order of the messages does
  not matter exactly when no received draw names a run that has started and not logged
  (`OrderExactly.OrderMattersExactly`), and the screen is the least closure exactly when no
  draw without an anchor came to such a run after its start (`ShellDraws.LeastClosureExactly`).
* For the same reason a logged row can be in two places at once. It is in exactly one, except
  exactly for a draw of a run without an own prompt of which one copy came before the run's
  first start and one after it (`Places.OnePlaceExactly`): that one is held for the run, and
  also shown (`Shells.ShellLosesRevision`) or, if it has an anchor, held for its step
  (`Shells.ShellSplitsDraw`).
* For the same reason an older held copy can come back over a newer one
  (`Shells.ShellLosesRevision`). The copy on screen is the newest one logged, except exactly
  for a draw of which one copy came before its run's shell and a different one between the
  shell and the run's first own prompt, when that prompt did not dispatch the draw's step and
  no copy came later (`NewestShown.NewestOnScreen`).
* A fetched run that did not list a held draw takes it in its oldest held copy, since the first
  copy of an id is kept (`browser/src/page/prompts.ts:407-425`), so a revision that came while
  the draw was held is lost (`FetchedCopies.FetchLosesRevision`); `FetchedCopies.FirstHeldJoins`
  says exactly when it is not.
* A page without runs empties the list even when runs are on screen
  (`browser/src/page/prompts.ts:137-142`, `PromptsTab.Tab.ApplyPromptLogsResponse`).
* The sweep on a run's outcome is rooted at the run id alone
  (`browser/src/page/prompts.ts:688-701`), so a running call under a logged draw survives it
  (`RunningForest.StraySurvives`); `RunningForest.SweepExact` says exactly what is left, and
  `RunningForest.NothingLeftExactly` from what was running before exactly when nothing is.
* A sentence is not clipped at the last word boundary at or before the limit when that boundary
  is at the limit itself and after more than one word: the space after the word is cut away
  before the search (`penny/penny/changelog_commits.py:142-149`, `CommitLog.WordAtLimitDropped`).
  `CommitLog.BodyBoundary` says exactly when it is. And a sentence is clipped in the middle of
  a word exactly when its first word is longer than the limit (`CommitLog.BodyWholeWords`).
* `entries[-fresh_cap:]` bounds a selection exactly when the cap is positive, or zero on an
  empty window (`Changelog.CapBoundsExactly`).
* A socket's close event stops the heartbeat whichever socket it belongs to, so a late one
  silences the socket that has opened since (`Background.LateCloseSilences`).
* SAME is not transitive between keys with and without a numbered parenthetical
  (`Identity.SameIsNotTransitive`).
* A main part that begins with `(` loses its split, since the key is then taken to be
  bracketed as a whole (`similarity/identity.py:50-70`, `Identity.SplitPrinted`).

## Model

| member | source | states |
|---|---|---|
| OrderIndependence.OrderDoesNotMatter | browser/src/page/prompts.ts:233-257 | any two streams bringing the same rows, in any order and with repetitions, and leaving the same runs unlogged, end with the same runs, the same rows under the same runs, and the same draws held for the same reasons, when no draw names an unlogged run |
| OrderExactly.OrderMattersExactly | browser/src/page/prompts.ts:570-602 | every order of what a stream brings ends with the same screen if and only if no received draw names a run that has started and not logged |
| OrderIndependence.ScreenOfStream | browser/src/page/prompts.ts:434-484 | what such a stream leaves on screen is the least set with every own prompt and every draw whose parent run and anchoring call it has |
| SameFigures.HeadersDoNotDependOnOrder | browser/src/page/prompts.ts:264-334 | two such streams also show every run with the same prompt count, model time and tokens, and, once it has a row, the same start, end and wall time |
| SameFigures.HeaderExactly | browser/src/page/draw_nesting.ts:57-82 | after any messages a run's header has the number of its own prompts, the sums of their durations and tokens, and, once it has a row, a start that no row's time stamp less its duration precedes and one row has, an end likewise, and the time between the two |
| ShellHeaders.ShellHeader | browser/src/page/prompts.ts:570-602 | until then, whatever came, the header has no count and no total, and its window is the moment at which the run was first started |
| ShellHeaders.ShellBecomesRun | browser/src/page/prompts.ts:564-569 | the first prompt of a shell makes it the very run that the prompt alone would have made |
| Outcomes.OutcomeExactly | browser/src/page/prompts.ts:688-693 | after any messages a run shows the last outcome and reason sent for it since it came on screen; what was sent before is lost |
| SameLists.BodiesDoNotDependOnOrder | browser/src/page/draw_nesting.ts:291-321 | and the same list in every run's body, where only entries that start together can change places |
| FirstPage.FetchedOrLive | browser/src/page/prompts.ts:124-145 | however the rows are divided between a complete first page and the messages after it, the tab ends with the same screen and headers, when no draw names an unlogged run |
| LeastClosure.ScreenIsLeastClosure | browser/src/page/prompts.ts:434-484 | in every reachable state the screen is the least set with every own prompt and every draw whose parent and step it has, if and only if no draw hangs on a run that has not logged |
| ShellDraws.ShellsBareExactly | browser/src/page/prompts.ts:570-602 | a stream leaves a draw under a run without prompts if and only if one without an anchor came after the start of a run that never logs |
| ShellDraws.LeastClosureExactly | browser/src/page/prompts.ts:434-484 | the screen is that least set if and only if no such draw came |
| LeastClosure.PlayKeeps | browser/src/page/prompts.ts:233-257 | after any messages every row received is on screen or held, nothing else is, and every held draw lacks what it is held for |
| OrderIndependence.HeldExactly | browser/src/page/prompts.ts:377-389 | a received row whose own parent is not an unlogged run is on screen or held, never both, and held under the one key that names what it lacks |
| Places.OnePlaceExactly | browser/src/page/prompts.ts:377-389 | after any messages a logged row is in exactly one place (an own prompt of one run, a draw of one host, or held under one key), and in two if and only if it is a draw of a run without an own prompt of which one copy came before the run's first start and one after it |
| Places.UnloggedPlaces | browser/src/page/prompts.ts:377-389 | which places: held for the run what came before its start, and among its draws or held for the step what came after |
| OrderIndependence.ShownOnce | browser/src/page/prompts.ts:434-464 | a row on screen is in one run only, in one of its two lists only, and once |
| OrderIndependence.HostsOfPlay | browser/src/page/prompts.ts:304-334 | the runs on screen are exactly those that started or logged an own prompt |
| OrderIndependence.NoShellsExactly | browser/src/page/prompts.ts:570-602 | no unlogged run is left on screen if and only if every run that started has logged a prompt of its own |
| LogInvariant.HandleRowKeeps | browser/src/page/prompts.ts:233-257 | every logged row keeps the invariant (distinct runs and ids, exact totals and windows, parent chains that reach the host, held for a reason) and is accounted for |
| LogInvariant.WorkKeeps | browser/src/page/prompts.ts:434-484 | the invariant holds between any two nested calls, with the draws in flight counted |
| LogInvariant.StartRunKeeps | browser/src/page/prompts.ts:570-602 | a shell adds an empty run and breaks no part of the invariant although it drains nothing |
| LogInvariant.FinishKeeps | browser/src/page/prompts.ts:688-701 | an outcome keeps the invariant, the runs and the rows on screen |
| LogInvariant.WaitsExactly | browser/src/page/draw_nesting.ts:29-45 | looking for the anchor in the container's rows is the same as asking whether any row on screen of that run dispatched it |
| Rows.ToolCallIdsAreAll | browser/src/page/draw_nesting.ts:14-21 | a response's readable tool-call ids are all that it dispatched but the empty ones, in order and as often |
| LogStructure.FindContainerSome | browser/src/page/prompts.ts:348-355 | a container is found exactly for a run that is on screen itself or has a row on screen |
| LogStructure.ContainerHoldsAll | browser/src/page/prompts.ts:348-355 | the first container found has every row of the run on the whole screen |
| LogStructure.WithPromptTotalled | browser/src/page/prompts.ts:271-302 | counts and totals stay the sums over distinct own prompts: a revision adds nothing |
| LogStructure.WithDrawKeeps | browser/src/page/prompts.ts:434-464 | a draw joining its host keeps the totals, makes the window exact over prompts and draws, and stays linked to the host |
| RunLog.DoProgress | browser/src/page/prompts.ts:434-484 | one step of the recursion never leaves more draws held and in flight together, and placing one leaves strictly fewer |
| Conservation.DoConserves | browser/src/page/prompts.ts:434-484 | one step neither loses nor invents a copy: it holds, releases or places what was held or in flight, as often as before |
| Conservation.WorkConserves | browser/src/page/prompts.ts:434-484 | so the whole recursion ends with every copy that was held or in flight either held or placed, as often as before |
| RunLog.WorkConcat | browser/src/page/prompts.ts:469-484 | a nested call that returns before its caller goes on does the same as one agenda |
| RunLog.FindContainerFirst | browser/src/page/prompts.ts:348-355 | the search returns the first run of the list that has rows for the id |
| TouchOrder.DrawTouches | browser/src/page/prompts.ts:434-464 | a draw that must wait changes nothing on screen; one that need not changes only the run at the top of its chain, which comes to the front while all others keep place and contents |
| TouchOrder.PromptTouches | browser/src/page/prompts.ts:271-334 | an own prompt with everything it drains touches its own run only, which comes to the front |
| TouchOrder.StartTouches | browser/src/page/prompts.ts:505-532 | a run's own call puts the run in front, unchanged when it is on screen already and as a shell otherwise, and moves no other run |
| TouchOrder.FinishTouches | browser/src/page/prompts.ts:688-691 | an outcome puts its run in front with the same rows, totals and window, and does nothing for a run not on screen |
| Recency.MostRecentFirst | browser/src/page/prompts.ts:233-257 | after any messages, of two runs on screen the one further up was touched by a later message |
| TouchOrder.WorkStaysInFront | browser/src/page/prompts.ts:469-484 | nested drains never move or change any run but the one in front |
| TouchOrder.PromptRevision | browser/src/page/prompts.ts:271-302 | a later copy of an own prompt takes the place of the earlier, releases nothing and moves no total |
| TouchOrder.DrawRevision | browser/src/page/prompts.ts:434-464 | a later copy of a draw on screen takes the place of the earlier under its host and releases nothing |
| Shells.ShellOrderMatters | browser/src/page/prompts.ts:570-602 | the same draw waits when it comes before its parent's shell and shows when it comes after |
| Shells.ShellLosesRevision | browser/src/page/prompts.ts:570-602 | a concrete stream in which an older held copy overwrites the revision on screen |
| Shells.ShellSplitsDraw | browser/src/page/prompts.ts:570-602 | a concrete stream in which a draw is held for its run and for its step at once |
| Shells.TwoPlacesOnlyUnderShell | browser/src/page/prompts.ts:377-389 | a draw both on screen and held is held for a run that is on screen without an own prompt; the exact condition, and the draws held twice, are in Places.OnePlaceExactly |
| NewestCopy.StreamNewest | browser/src/page/prompts.ts:434-484 | for an own prompt or a draw under another draw, all held copies are under one key, and the newest copy logged is the last one held, or the one on screen when none is held |
| RootDraws.StreamAspect | browser/src/page/prompts.ts:434-484 | for a draw of a top-level run, the copy on screen and the newest copies held by parent and by step are, after any messages, what a small state machine over the messages says |
| NewestShown.NewestOnScreen | browser/src/page/prompts.ts:233-257 | the copy of a row on screen is the newest one logged if and only if the row is not a draw overtaken at its run's shell: one copy before the shell, a different one before the first own prompt, which does not dispatch its step, and none later |
| NewestShown.NewestWithoutShell | browser/src/page/prompts.ts:233-257 | so the newest copy is on screen whenever no copy came while the draw's run was an unlogged shell |
| RunningForest.ClimbIsClosure | browser/src/page/prompts.ts:367-375 | climbing from an id ends at host i exactly when the id is in host i's fixpoint, whatever circles the running calls have; fixpoints of different hosts are disjoint |
| RunningForest.ClimbEndsExactly | browser/src/page/prompts.ts:367-375 | the climb ends if and only if it meets no id twice, and then within as many steps as there are running calls |
| RunningForest.CloseOver | browser/src/page/draw_nesting.ts:213-226 | the loop ends with the least set that has the roots and every running call whose parent it has |
| RunningForest.DropCallsFilters | browser/src/page/draw_nesting.ts:228-232 | dropping placeholders keeps every call of another run, in order and as often |
| RunningForest.DropToolsFilters | browser/src/page/draw_nesting.ts:235-239 | and every tool of another run |
| RunningForest.SweepExact | browser/src/page/draw_nesting.ts:213-239 | after the sweep no reachable placeholder is left, and the run still lists exactly those that hang off a logged draw outside the swept closure |
| RunningForest.NothingLeftExactly | browser/src/page/prompts.ts:688-701 | the sweep leaves nothing spinning in the run's body if and only if, before it, no running call outside the closure of the run's id was a child of a logged draw outside it, and no running tool was such a draw's |
| RunningForest.StraySurvives | browser/src/page/draw_nesting.ts:207-226 | a call under a logged draw is still listed after its run's outcome |
| RunningForest.FlatRunEntries | browser/src/page/draw_nesting.ts:291-321 | the list is in start order, a logged row starting at its time stamp less its duration; it has every row of the run as often as the run has it, every running call and tool as often as it runs if it is admitted and not at all otherwise, and entries that start together are rows before calls before tools, each in their own order |
| RunningForest.EveryRowOnce | browser/src/page/draw_nesting.ts:291-321 | every own prompt and draw of the run is in the list exactly once |
| DrawNesting.AttachmentIndex | browser/src/page/draw_nesting.ts:29-45 | the first row whose response dispatched the anchor as a readable id, at any place among its tool calls, and none exactly when no row did |
| DrawNesting.UpsertRows | browser/src/page/draw_nesting.ts:118-127 | a later copy replaces its row at the same position, a new row comes last, ids stay distinct and every other row keeps its place |
| DrawNesting.DedupeKeepsFirst | browser/src/page/draw_nesting.ts:101-110 | every id is kept once, as its first copy |
| DrawNesting.DedupeOrder | browser/src/page/draw_nesting.ts:101-110 | the rows kept are at rising positions of the list |
| DrawNesting.DedupeDraws | browser/src/page/draw_nesting.ts:101-110 | the loop over a growing set of ids computes that list |
| Reconcile.ReachedIsLeast | browser/src/page/prompts.ts:400-428 | the absorbed runs are the least set with the run, its fetched draws and whatever is held under one of them |
| Reconcile.OutsideSelect | browser/src/page/prompts.ts:400-428 | no key naming an absorbed run is left, and every other key holds the same draws in the same order |
| HeldOrder.ReleaseExactly | browser/src/page/prompts.ts:469-484 | a release takes every copy held under its key, as often and in the order it was held, and leaves all others as they were |
| Reconcile.AbsorbedIsKept | browser/src/page/prompts.ts:400-428 | every absorbed draw is on the run afterwards under its id, and the fetched copy wins |
| FetchKeeps.JoinKeeps | browser/src/page/prompts.ts:400-428 | a fetched run that absorbs what is held for it keeps the whole invariant: every row brought or received before is on screen or held for its reason |
| FetchKeeps.PageKeeps | browser/src/page/prompts.ts:124-141 | a fetched page of new runs keeps the invariant: every row it brings and every row received before is on screen or held for its reason |
| FetchedCopies.FirstHeldJoins | browser/src/page/prompts.ts:400-428 | a held draw that the fetch did not list joins the run in the first copy held for the run, or else for its step, and in the last one held if and only if the two are the same |
| FetchedCopies.FetchLosesRevision | browser/src/page/prompts.ts:400-428 | a draw revised while it was held is on its fetched run unrevised |
| PromptsTab.Tab.HandlePromptUpdate | browser/src/page/prompts.ts:233-257 | the objects and maps end as the function says, and the placeholders of the row's run are gone |
| PromptsTab.Tab.AttachDraw | browser/src/page/prompts.ts:434-464 | the mutually recursive method ends, computes the agenda's result, and leaves the inner maps its callers are draining registered |
| PromptsTab.Tab.DrainWaitingOn | browser/src/page/prompts.ts:469-484 | first the draws held for the run, then those held for each tool call of the row, in order |
| PromptsTab.Tab.DrainBySteps | browser/src/page/prompts.ts:475-484 | the inner map captured before the nested calls is still the registered one when it is found empty and dropped |
| PromptsTab.Tab.HoldByStep | browser/src/page/prompts.ts:383-389 | the draw is held last under its container and tool call, with the inner map made when missing |
| PromptsTab.Tab.UpdateExistingRun | browser/src/page/prompts.ts:271-302 | the run object is changed in place as the function says and comes to the front |
| PromptsTab.Tab.HandleCallStarted | browser/src/page/prompts.ts:505-532 | a run's own call brings it to the front or puts a shell there; any other call is listed and its host found by climbing, when the climb from it ends |
| PromptsTab.Tab.FindHostFor | browser/src/page/prompts.ts:367-375 | whenever the climb up running parents ends it returns the host that the specification names |
| PromptsTab.Tab.HandleToolFinished | browser/src/page/prompts.ts:557-563 | only the finished call of that run is dropped |
| PromptsTab.Tab.HandleToolStarted | browser/src/page/prompts.ts:537-548 | the tool is listed last |
| RunningForest.WithoutToolConcat | browser/src/page/prompts.ts:557-560 | the tools that stay keep their order |
| RunningForest.FinishUndoesStart | browser/src/page/prompts.ts:537-560 | a tool that starts and finishes leaves the list as it was, with whatever started after it |
| PromptsTab.Tab.HandleRunOutcome | browser/src/page/prompts.ts:688-701 | the run is marked and moved to the front and exactly the placeholders in the closure of its id go, so that its body is quiet if and only if no stray entry was running before; nothing happens for a run not on screen |
| PromptsTab.Tab.ReconcilePendingDraws | browser/src/page/prompts.ts:400-428 | the worklist ends, absorbs exactly the draws held under reached runs, the copies of each row in the order they were held in, leaves every other held draw, and merges with the fetched copies first |
| PromptsTab.Tab.ApplyPromptLogsResponse | browser/src/page/prompts.ts:124-145 | the runs of a page absorb in turn what is held for them and come behind the runs on screen, or empty the list when there are none, and exactly the placeholders of the fetched runs and draws go |
| PromptsTab.Tab.AbsorbHeld | browser/src/page/prompts.ts:407-422 | each further round has taken a held draw, and the loop stops at the least closure |
| Keeping.InvIsKept | browser/src/page/prompts.ts:434-484 | what the methods require of the state is part of the invariant that every run keeps |
| Replay.Replayed | browser/src/page/prompts.ts:233-257 | a new tab that is handed any consistent messages, one handler call each, ends in the state that the messages play to, so every theorem about streams is one about the objects |
| Replay.ReplayedAfterPage | browser/src/page/prompts.ts:124-145 | a new tab that is given a complete page and then messages ends in the state that the messages lead to from the page |
| Replay.ReplayedTwice | browser/src/page/prompts.ts:233-257 | two tabs handed such streams in different orders show the same rows and headers |
| Changelog.Lossless | penny/penny/changelog.py:73-119 | when each window that is not empty still has the last recorded entry, everything announced is the unbroken history from at most ten entries before the first head up to the current one |
| Changelog.AnnouncedExactly | penny/penny/changelog.py:73-119 | over any boots whose heads advance, gaps and empty windows included, the announcements are boot by boot the history from where the boot starts to record up to its head |
| Changelog.EmptyBootsAddNothing | penny/penny/changelog_commits.py:214-223 | boots without a dump record and announce nothing, and the others announce what they would without them |
| Changelog.AnnouncedInOrder | penny/penny/changelog.py:73-96 | with any gaps, the announcements are a strictly increasing selection of the history that ends at the head |
| Changelog.AnnouncedIsRecorded | penny/penny/changelog.py:99-119 | the log has one row for every entry announced, in order, with the entry's number in decimal and then its whole text |
| Changelog.NeverTwice | penny/penny/changelog.py:99-119 | under any windows with distinct numbers, overlapping, repeated or rolled back, no number is recorded twice or again |
| Changelog.RecordTwice | penny/penny/changelog.py:108-119 | recording the same window again appends nothing |
| Changelog.RecordedPrOfRender | penny/penny/changelog.py:55-70 | a rendered row is read back to its own number whatever its text |
| Changelog.CarriesOne | penny/penny/changelog_commits.py:121-125 | a row carries one entry only: its number and its text can both be read off it |
| Changelog.RecordedPrExactly | penny/penny/changelog.py:55-70 | a row of any text has a number if and only if it begins with "PR #", digits, a colon and a space, and then it is those digits' value |
| Changelog.SelectExactly | penny/penny/changelog.py:73-96 | the selection is the longest unrecorded tail of the window, cut by the cap only when nothing in it is recorded |
| Changelog.SelectNewEntries | penny/penny/changelog.py:93-96 | the backward loop computes that selection |
| Changelog.Memory.RecordedPrs | penny/penny/changelog.py:62-70 | the loop collects exactly the numbers that rows of the log carry |
| Changelog.Memory.RecordNewEntries | penny/penny/changelog.py:99-119 | what is returned to be announced is exactly what was appended, row by row its number in decimal and its whole text |
| Changelog.CapBoundsExactly | penny/penny/changelog.py:96-96 | when nothing in the window is recorded the cap bounds the selection if and only if it is positive, or zero on an empty window; zero keeps everything, and a negative cap drops that many of the oldest |
| CommitLog.ParseDump | penny/penny/changelog_commits.py:177-211 | parsing the printed dump of any commits gives, in order, one entry per commit with a number and text to announce |
| CommitLog.SuffixOfSubject | penny/penny/changelog_commits.py:77-77 | the number is the subject's last suffix, even when the title itself ends in one |
| CommitTexts.SuffixExactly | penny/penny/changelog_commits.py:77-77 | a subject has a number if and only if it is a title on one line, a space and the digits in "(#" and ")", with at most one newline after |
| CommitTexts.PrefixExactly | penny/penny/changelog_commits.py:82-82 | a title loses a prefix if and only if it is lower-case letters, an optional scope without ")" in parentheses, a colon, a space and a rest, and the rest is what is left |
| CommitTexts.BareCommit | penny/penny/changelog_commits.py:202-210 | a conventional title without a body is announced as its rest: "fix: x (#3)" as "x" under number 3 |
| CommitTexts.BareTitle | penny/penny/changelog_commits.py:202-210 | a title without a prefix is announced whole, and a blank one not at all |
| CommitTexts.BodyFirst | penny/penny/changelog_commits.py:202-210 | a body with a real line is announced instead of the title |
| CommitTexts.FieldsExactly | penny/penny/changelog_commits.py:198-201 | a record without a separator is skipped, one with a single separator has an empty body, and further separators belong to the body |
| CommitTexts.LeadingNewlines | penny/penny/changelog_commits.py:195-195 | any newlines in front of a record are ignored |
| CommitTexts.PresentExactly | penny/penny/changelog_commits.py:191-211 | exactly the records with an entry give one, in order |
| CommitLog.ParseCommitLog | penny/penny/changelog_commits.py:177-211 | the loop over records yields the entries of the records that have one, in order |
| CommitLog.BodySentence | penny/penny/changelog_commits.py:152-174 | the text is non-empty, single-spaced, at most 300 characters, and its words are a prefix of the sentence's words unless the first word alone reaches the limit; none exactly when the body has no real line |
| CommitLog.ClipWords | penny/penny/changelog_commits.py:142-149 | clipping keeps exactly the words that end, with a space after them, within the limit |
| CommitLog.BodyBoundary | penny/penny/changelog_commits.py:142-174 | the entry of a longer sentence ends at the last word boundary at or before the limit if and only if that boundary is before the limit or after the first word |
| CommitLog.BodyWholeWords | penny/penny/changelog_commits.py:142-174 | an entry from a body has whole words only, if and only if the first word fits |
| CommitLog.WordAtLimitDropped | penny/penny/changelog_commits.py:142-149 | the entry of a body whose second word ends exactly at character 300 has the first word only |
| CommitLog.SkipLabelLines | penny/penny/changelog_commits.py:128-139 | the longest suffix that starts at a line that is neither blank nor a label |
| CommitTexts.LinesExactly | penny/penny/changelog_commits.py:161-161 | every kind of line break ends a line, a carriage return and a newline are one break, and the last line needs none |
| CommitTexts.LineBreaks | penny/penny/changelog_commits.py:161-161 | exactly ten characters break a line |
| CommitTexts.EchoExactly | penny/penny/changelog_commits.py:89-89 | a bullet echoes a commit if and only if it has one of the seven kinds, a scope in parentheses, a colon and white space |
| CommitTexts.LabelExactly | penny/penny/changelog_commits.py:128-139 | a line is skipped if and only if it is blank, such a bullet, or starts with "Because:" in any letter case |
| CommitLog.SentenceEnd | penny/penny/changelog_commits.py:96-96 | the cut is at the earliest closing mark or blank line, and none is passed over |
| CommitTexts.MarkEnds | penny/penny/changelog_commits.py:96-96 | the first closing mark ends the sentence if and only if white space or nothing follows it |
| CommitTexts.BlankLineEnds | penny/penny/changelog_commits.py:96-96 | a line break ends it if and only if the next line has only spaces and tabs |
| CommitTexts.FirstSentence | penny/penny/changelog_commits.py:152-174 | the entry of a one-line body has the words up to its first mark, the mark included |
| CommitTexts.FirstParagraph | penny/penny/changelog_commits.py:152-174 | and of a body without marks those before the first blank line |
| Roman.AcceptsExactlyNumerals | similarity/identity.py:121-139 | the acceptor takes exactly the numerals, of numbers of any size |
| Roman.GreedyOfCanonical | similarity/identity.py:121-130 | greedy reading of a number's spelling takes all of it and gives the number back |
| Roman.NumeralsDiffer | similarity/identity.py:121-139 | two numerals are the same text only for the same number |
| Roman.CanonicalIsNumeral | similarity/identity.py:104-118 | spelling by the table is the schoolbook spelling by decimal digits |
| Roman.IsRomanNumeral | similarity/identity.py:121-139 | both loops over the table together decide that test |
| Identity.RomanWordIsNumeral | similarity/identity.py:142-155 | a word counts as a numeral exactly when it spells a positive number |
| Identity.TokensExactly | similarity/identity.py:142-155 | the tokens of any text are its digit runs and those of its words that spell a positive number, each as often as it occurs |
| Identity.NumeralsDecide | similarity/identity.py:168-198 | keys with one stem that end in numerals are the same for the same number and different otherwise: "henry iv" is not "henry v" |
| Identity.DatesDecide | similarity/identity.py:168-198 | two dates are different if and only if their numbers differ as multisets |
| Identity.NumberlessNeverDecides | similarity/identity.py:168-198 | a parenthetical without digits and numerals never makes two keys differ |
| Identity.SplitPrinted | similarity/identity.py:50-70 | a key printed as a main part with a parenthetical is split into the two if and only if the main part does not begin with an opening parenthesis |
| Identity.UnwrapExactly | similarity/identity.py:50-57 | one layer of brackets comes off if and only if one pair of them surrounds the stripped key and something is inside |
| Identity.SplitExactly | similarity/identity.py:60-70 | what is left has a parenthetical if and only if it ends in one without a parenthesis inside and with more than white space in front; otherwise all of it is the main part |
| Identity.WholeParenIsMain | similarity/identity.py:50-70 | a key that is bracketed as a whole, in brackets of any of the three kinds, is its inner text, and one in parentheses has no parenthetical |
| Identity.SplitBracketed | similarity/identity.py:50-70 | inside square or curly brackets a key splits as without them, and any white space or none may stand before the parenthesis |
| Identity.KeyPartsOf | similarity/identity.py:92-99 | both parts of a key are normalised, and a key without a parenthetical has one part |
| Identity.YearDecides | similarity/identity.py:168-198 | keys with years are the same exactly for the same year and different otherwise, and the key without one is the same as either, from the text of the keys on |
| Identity.VerdictExactly | similarity/identity.py:168-198 | the verdict is symmetric, SAME on a key with itself, SAME exactly for equal main parts without a numbered conflict, DIFFERENT exactly for differing numbers |
| Identity.SameChain | similarity/identity.py:168-198 | SAME passes along a chain exactly when the two ends do not conflict |
| Identity.SameIsTransitive | similarity/identity.py:168-198 | SAME is transitive among keys of one kind, numbered or not |
| Identity.SameIsNotTransitive | similarity/identity.py:168-198 | "dune (1984)" and "dune (2021)" are different and "dune" is the same as either, as the parser reads them |
| Srcset.ScanPrint | browser/src/content/link_thumbnails.ts:174-199 | scanning a printed candidate list gives it back unchanged |
| Srcset.ScanSeparators | browser/src/content/link_thumbnails.ts:178-178 | any blanks and commas before a candidate are skipped |
| Srcset.NextBare | browser/src/content/link_thumbnails.ts:180-188 | any number of commas right after a URL ends its candidate without descriptors |
| Srcset.NextDescribed | browser/src/content/link_thumbnails.ts:189-193 | after a URL and any blanks the words up to the next comma are its descriptors |
| Srcset.DescriptorFirst | browser/src/content/link_thumbnails.ts:192-192 | any blanks separate two descriptors |
| Srcset.SrcsetCandidates | browser/src/content/link_thumbnails.ts:174-199 | the cursor loop always moves on and reads what the scan reads |
| Srcset.Next | browser/src/content/link_thumbnails.ts:180-197 | the URL is never empty once its trailing commas are dropped, and text is always used up |
| Srcset.ScoreExactly | browser/src/content/link_thumbnails.ts:201-208 | the score is 1 without a descriptor, otherwise the positive number written before the w or x of the first one, and there is none exactly when there is no such number |
| Srcset.LargestOfTwo | browser/src/content/link_thumbnails.ts:158-172 | of two written candidates the second is the largest exactly when its number is larger, and a bare one counts as 1 |
| Srcset.LargestSrcsetCandidate | browser/src/content/link_thumbnails.ts:158-172 | the first candidate of the largest score, and none exactly when no candidate has a score |
| Schedule.PresetRoundTrip | browser/src/page/schedule_picker.ts:49-61 | every preset is recovered from its own rule, with hour, minute and day wherever it carries them, for all integers and all seven days |
| ScheduleTexts.MatchesExactly | browser/src/page/schedule_picker.ts:80-127 | a text reads as a preset with a time and a day if and only if it is one rule line with exactly the parts of the preset's own rule: the same names, the same values, and for hour and minute the same integers |
| ScheduleTexts.RuleLineExactly | browser/src/page/schedule_picker.ts:89-94 | one line that is no start line gives the rule; a second line matters exactly when it is not blank |
| ScheduleTexts.NewlineSplits | browser/src/page/schedule_picker.ts:89-90 | a newline and a written backslash-n both end a line |
| ScheduleTexts.TaggedRule | browser/src/page/schedule_picker.ts:96-96 | a rule tagged "RRULE:", in any letter case, reads as the untagged one |
| ScheduleTexts.TaggedHourly | browser/src/page/schedule_picker.ts:96-101 | the tagged hourly rule reads as hourly |
| ScheduleTexts.PartRead | browser/src/page/schedule_picker.ts:63-71 | white space around name and value is dropped, the name is read in any letter case, and everything after the first equals sign is the value |
| ScheduleTexts.WrittenExactly | browser/src/page/schedule_picker.ts:49-61 | a number in a rule is written in decimal, with a minus sign when it is negative |
| Schedule.ReadIsStable | browser/src/page/schedule_picker.ts:85-127 | a stored rule read as a preset, rebuilt and read again, gives the same preset and fields |
| Schedule.ReadDefaults | browser/src/page/schedule_picker.ts:73-127 | fields a preset does not carry are nine o'clock and Monday, and the day is always one of the seven |
| Schedule.CustomIsNotRebuilt | browser/src/page/schedule_picker.ts:49-61 | the custom preset builds no rule and reads back as no schedule |
| Schedule.RuleParts | browser/src/page/schedule_picker.ts:63-71 | the record has exactly the names that some piece gives a value, each with the value of the last piece that names it |
| Schedule.LastValueWins | browser/src/page/schedule_picker.ts:63-71 | of several pieces with one name, the last one counts |
| Background.EveryRun | browser/src/background/background.ts:64-73 | in every reachable state at most one socket is live and it is the current one, at most one reconnect and one heartbeat run, and with a label there is a live socket, an owed close event or a pending reconnect |
| Background.HeartbeatExactly | browser/src/background/background.ts:359-390 | an open socket beats unless a close event was delivered after it opened |
| Background.LateCloseSilences | browser/src/background/background.ts:359-364 | a run in which the old socket's close event leaves the new open socket without a heartbeat |
| Background.Worker.Handle | browser/src/background/background.ts:219-390 | each event's handler changes the module variables as its step says and keeps the invariant |
| ImageServer.EveryInterleaving | image_server/server.py:194-223 | for any interleaving of any number of requests one at most is between acquiring and releasing the lock, each has a prefix of its section behind it, and sections never overlap |
| ImageServer.FinishedExactly | image_server/server.py:202-223 | a finished generation was followed by exactly one cache release before its response and before unlocking; it was answered with 200 exactly for an image whose cache was freed, not at all exactly when the release crashed or the generation did under a release that went well, and with 500 otherwise |
| ImageServer.BusyExactly | image_server/server.py:194-198 | a request is turned away exactly when another one is inside at that moment |
| ImageServer.RefusedExactly | image_server/server.py:194-198 | all that a refused request sees is the answer 503 |
| ImageServer.NeverLeftLocked | image_server/server.py:199-200 | however generations end, the lock is free once no request is inside |

## Left out

- FirstPage.FetchedOrLive: is about the screen and the headers; which copy of a row is shown, where each row is and which run is on top are stated of streams into an empty list (NewestShown.NewestOnScreen, Places.OnePlaceExactly, Recency.MostRecentFirst).
- FetchKeeps.PageKeeps: is about runs that are not on screen yet; a fetch that races with live messages and lists a run twice is followed by the method but breaks the invariant.
- PromptsTab.Tab.ReconcilePendingDraws: takes the tool calls of one run in any order, since a JavaScript map's iteration order is not modelled; the copies of one draw are all under one tool call, so only the order of different draws is open, which the page sorts by time.
- OrderIndependence.OrderDoesNotMatter: compares rows up to the discard field, in which copies may differ, since the newest copy is another one when the order is.
- Identity.VerdictExactly: normalisation of case, accents and punctuation is a parameter, and number tokens are compared as multisets, which is what comparing the sorted lists decides.
- Srcset.LargestSrcsetCandidate: how a number is read from a descriptor is a parameter, with exact values.
- Schedule.PresetRoundTrip: how an integer is read from text is a parameter that undoes writing it.
- Background.EveryRun: storing a label, opening, closing and timers are the only events; messages, registering, permissions and the connection state shown in the sidebar are not modelled.
- ImageServer.EveryInterleaving: parsing a request, which comes before the lock, and unknown paths are not modelled.
- Building and updating the page: rendering, scrolling, expanding, ticking, and the spinner of the active run.
- The agent, search and flag filters of the Prompts tab, and paging.
- Time stamps as ISO text: times are integers and order as numbers do.
- Characters outside those listed in `Text.dfy`, `JsText.dfy` and `Decimal.dfy` for white space, digits and word characters; case folding beyond ASCII.
- The changelog log's author and clock, and the announcement's wording.
- Candidate shortlists by embedding similarity, and the resolution of relative picture addresses.
