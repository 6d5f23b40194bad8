# CloudHub: verified models of its local logic

A Dafny model of the parts of the desktop and mobile client whose correctness does not follow from
reading one function: the scanners and printers of `src-tauri/src/lib.rs`, its cancellable retry
loop, the two concurrent schedulers of the mobile client, the order lists and the terminal
workspace of `src/App.tsx`, the latest-wins guards, and the arithmetic of paging, certificate names
and paths. `dafny verify dfyconfig.toml` checks everything.

Code that changes state step by step is modelled twice over. A function `Step` on a value of type
`State` says what one piece of code does between two awaits; a class holds the same fields, and each
of its methods makes the assignments of one handler and is proved to do exactly that step. The main
results are then statements about every run: `Run(Init(...), events)` for an arbitrary sequence of
events, that is, for every interleaving of user actions, timers, renders and completed promises. Each
of these classes also has its event loop, a method that hands one event to its handler and keeps the
object on such a run, so that every result about runs holds of the object.
Fields called history record what happened and decide nothing.

Each operation is also described from outside, by lemmas that speak of fields, ids, positions and literal
constants and not of the functions that compute it: when exactly it happens, and what it then changes.

| file | models |
|---|---|
| `Text`, `Sequences`, `StableSort` | string searching and splitting; filters, splices and permutations; the stable `Array.prototype.sort` |
| `OciPrivateKey`, `OciKeyForms`, `XmlBlocks`, `Retry` | `src-tauri/src/lib.rs` |
| `PanelRefresh`, `PanelOutcomes`, `PanelRefreshHook` | `src/mobile/useMobilePanelRefresh.ts` |
| `PullRefresh`, `PullGesture` | `src/mobile/MobilePullRefresh.tsx` |
| `ItemOrder`, `ManagedHosts`, `TerminalWorkspace`, `BoundedHistory`, `Paths` | `src/App.tsx` |
| `ResourceReads`, `Pagination` | `src/mobile/MobileApp.tsx`, `src/shared/PaginationBar.tsx`, `src/shared/useGridPageSize.ts` |
| `SecretField`, `CertificateRequest` | `src/shared/SecretField.tsx`, `src/mobile/certificate-request.ts` |

## Where the code does less than one would expect

Each of these is a property that fails. The model keeps the code as it is, shows a case that fails,
and states when exactly the property holds.

- **Panel refresh can stop.** When the page becomes visible while a round of an earlier effect
  instance is still running, `visibilityChanged` clears the timer and does not set a new one, and the
  end of that round schedules for the disposed instance only. A live, visible instance then has
  neither a timer nor a round, until the next change of visibility or of the effect's dependencies.
  `GoesOnUnlessStarved` gives the condition, `StarvedStaysIdle` that nothing else helps,
  `StarvationHappens` a run that gets there.
- **A guarded read can cross a change of scope.** A read begun for a scope other than the one on
  screen is applied if the screen turns to its scope and it completes between the render (which
  writes the scope) and the effect (which bumps the number). `StaleOnlyIfBegunElsewhere` shows that
  this is the only way, `BegunElsewhereApplies` that it happens.
- **Closing tabs works on a copy.** The close handlers and the closing of the connect dialog read
  `terminalTabsRef`, which an effect copies after each render. Before that effect has run, closing a
  tab can lose a session that has just connected and leave an active tab that is not open
  (`StaleRefLosesSession`), and closing the dialog of a duplicate can make a closed tab active whose
  session is disconnected (`StaleReturnTab`). Each of these handlers has an exact guard on the copy,
  the tabs and the session, and a run obeys the law of the workspace from beginning to end if and only
  if every event met its guard (`SessionsConservedIff`). A copy that is up to date meets every guard
  (`UpToDateMeetsGuard`).
- **A pull can stick.** A locked drag that is brought back to within 8 pixels and released leaves the
  phase at "pulling" with distance 0, and no later touch starts; only a change of scope helps
  (`SticksIff`, `StuckUntilReset`, `StuckHappens`).
- **Certificate names ending in two dots.** `certificateDomains` drops one final dot, so its own
  output reads back exactly when no typed name ends with two dots (`ReparseTypedIff`, `ReparseFails`).
  Accepted requests always read back.
- **An ellipsis that hides nothing.** Beside page 3 from either end of more than five pages, the page
  bar shows an ellipsis between two adjacent numbers (`EllipsesHideIff`).
- **The jump field keeps four digits**, so no page beyond 9999 can be reached by typing
  (`JumpReachesIff`).
- **The parent of a bare name.** `parentSshPath("abc")` is `"ab"`, because `lastIndexOf` gives -1 and
  `slice(0, -1)` cuts one character. The file browser starts at `/`, and on absolute paths
  the law holds (`ParentDropsSegmentIff`, `UpReachesRoot`).

## What the models take for granted

- JavaScript runs one piece of code at a time; React runs the effects of one render before the next
  render; a state update is visible to the next handler.
- Ids of hosts, panels and assets are unique, and lists are shorter than `Number.MAX_SAFE_INTEGER`,
  which the code uses as the rank of what is not in an order list.
- The client runs in its desktop shell, and the backend gives each SSH connection a new session id.
- `localeCompare` is an arbitrary comparison, and the resistance curve of the pull gesture is any
  monotone value from 0 up to 104 pixels that is 0 exactly up to 8 pixels.
- In a controlled `SecretField` the parent takes over each edit, and the button cannot be pressed
  while it is disabled.
- Time in the retry loop is a count of milliseconds; a request answers after any number of them or
  never, and when it answers in the same millisecond as a timer either may be served first.

## Model

| member | source | states |
|---|---|---|
| XmlBlocks.BlocksIffLayout | src-tauri/src/lib.rs:639-643 | For a tag without `<`, the scanner returns a list exactly when the body is that list printed in tags with gaps free of the opening tag and contents free of the closing tag: scanning and printing are inverse. |
| XmlBlocks.TextReadsBack | src-tauri/src/lib.rs:634-637 | A field written after text that does not open its tag reads back unchanged, whatever follows. |
| XmlBlocks.TextIsFirstBlock | src-tauri/src/lib.rs:634-643 | For every body and tag, reading a field gives the first block, or nothing when there is none. |
| XmlBlocks.ScanBlocks | src-tauri/src/lib.rs:639-643 | The scanning loop ends and returns the blocks of the recursive definition. |
| OciPrivateKey.NormalizeRoundTrip | src-tauri/src/lib.rs:645-679 | For every input that holds a PEM block, normalising the stored form gives the normal form of the input, and normalising twice changes nothing. |
| OciPrivateKey.SerializedIsOneLine | src-tauri/src/lib.rs:677-679 | The stored form has no line break. |
| OciPrivateKey.NormalFormLines | src-tauri/src/lib.rs:663-673 | Where a block decides and its body is Base64, the normal form is that block alone, whatever stands before and after it: its begin fence, lines of 64 characters (the last one of 1 to 64) and its end fence; the lines concatenate to the text between the two positions without its white space. |
| OciPrivateKey.ReachesPemIff | src-tauri/src/lib.rs:663-671 | By positions: a key is recognised exactly if there is an opening fence, at its first place, and a first closing fence after it, of the plain kind or, where no plain block is, of the RSA kind, with non-empty Base64 between them, white space apart. |
| OciPrivateKey.ReadAt | src-tauri/src/lib.rs:663-671 | The block that decides gives its kind and body, and an invalid body gives no key, even if a block of the other kind follows. |
| OciPrivateKey.FencedIff | src-tauri/src/lib.rs:664-669 | A block of a kind is found exactly if its first opening fence has a closing fence somewhere after it. |
| OciPrivateKey.UnreadableStays | src-tauri/src/lib.rs:663-675 | Without such a block the text stays as it is after unwrapping. |
| OciPrivateKey.NormalizeOciPrivateKey | src-tauri/src/lib.rs:645-675 | The step-by-step rewriting and the loop over the two fence kinds compute the normal form. |
| OciKeyForms.NormalizeForgetsForm | src-tauri/src/lib.rs:645-675 | However a key is written (between any lines of text that hold no opening fence of its kind before it, cut into lines of any width, empty ones too, with white space inside them, each line with a break of its own, real or escaped, quotes, blanks around the text and around the sign of `OCI_API_KEY=`, escaped fences), its normal form depends on its kind and its body without white space alone. |
| OciKeyForms.AssignmentIff | src-tauri/src/lib.rs:647-651 | By positions: the text after the sign is taken, trimmed, exactly when the text begins with the name, in either case, then blanks, then the sign; any other text stays. |
| OciKeyForms.CleanLineIff | src-tauri/src/lib.rs:656-661 | A backslash, with the blanks before it, is taken from a fence of a private key and from no other line. |
| OciKeyForms.OtherTextStays | src-tauri/src/lib.rs:645-675 | A text without blanks, quotes or an assignment around it, without escapes and without a block of either kind is its own normal form. |
| OciKeyForms.UpperEach | src-tauri/src/lib.rs:647-650 | Names are compared with each lower-case letter made upper-case and nothing else changed. |
| OciKeyForms.WhiteIff | src-tauri/src/lib.rs:670 | The characters that are removed from a body, given one by one. |
| OciKeyForms.Base64Iff | src-tauri/src/lib.rs:671 | The characters that a body may have, given one by one. |
| Retry.FetchOnceWithCancellation | src-tauri/src/lib.rs:763-778 | The polling loop ends with the answer exactly when it is served before the first timer that finds the flag set, and otherwise with cancellation at that timer; nothing is polled when the flag is set at the start. |
| Retry.NextRound | src-tauri/src/lib.rs:787-793 | What follows an answer: a final one is returned even under a set flag, otherwise a set flag cancels, otherwise the next request is due after the pause, and the last answer is returned. |
| Retry.FetchResourceWithRetry | src-tauri/src/lib.rs:780-794 | At most three requests; each later one follows an answer with no items and at least one error, each of which holds one of the eleven transient words, lower-cased, and no mark of partial regions, after a pause of 250 and then 750 ms; any other answer to one of the first two requests is returned after that request; and what is returned is the answer of the last request. |
| Retry.FetchRounds | src-tauri/src/lib.rs:780-794 | The retry loop yields the run defined by its rounds: result, time and first poll of each request. |
| Retry.NeedsRetryIff | src-tauri/src/lib.rs:756-761 | The retry test holds exactly for an answer without items and with nothing but transient errors, the words and the mark given literally. |
| Retry.NoticedIsFirstTick | src-tauri/src/lib.rs:770-777 | A set flag is noticed at the first of the moments 100, 200, 300 ... ms after the start of the request at which it is set. |
| Retry.ContinuedIsRun | src-tauri/src/lib.rs:780-794 | Collecting the requests on the way gives the recursively defined run. |
| Retry.RequestsJustified | src-tauri/src/lib.rs:756-794 | For any retry test and flag: at most three requests, none begun under a set flag, each later one only after an answer the test rejects and after the full pause. |
| Retry.ResultIsLastAnswer | src-tauri/src/lib.rs:780-794 | An answer that is returned is the answer of the last request polled, at the time it came, and it is final or the third. |
| Retry.UncancelledRunSettles | src-tauri/src/lib.rs:780-794 | Without cancellation the result is the first answer that is not to be repeated, or the third, after exactly as many requests. |
| Retry.CancelledIff | src-tauri/src/lib.rs:763-794 | A run is cancelled exactly when the flag is set by the time of the last look that the uncancelled run takes at it. |
| Retry.CancelledSoon | src-tauri/src/lib.rs:763-794 | A cancelled run ends at once if the flag was set from the start, and otherwise less than 750 ms after it is set, never before. |
| Retry.RequestGivenUp | src-tauri/src/lib.rs:770-777 | A request in flight when the flag is set is over less than 100 ms later. |
| PanelRefresh.RunKeeps | src/mobile/useMobilePanelRefresh.ts:26-81 | The invariant of every run: rounds and the shared flag agree, claims count up, timers belong to the instance that set them and a disposed instance has none. |
| PanelRefresh.NeverOverlaps | src/mobile/useMobilePanelRefresh.ts:34-68 | In every run at most one round is in flight over all effect instances, each instance has at most one timer and none beside its own round or after disposal, and the claimed positions are 0, 1, 2 ... of the queue. |
| PanelRefresh.ValidRoundIsComplete | src/mobile/useMobilePanelRefresh.ts:47-59 | A round whose two workers have stopped while it is still valid has refreshed every panel with a saved key exactly once, and each refresh has come back. |
| PanelRefresh.FailedMeans | src/mobile/useMobilePanelRefresh.ts:41-65 | A round that ends valid has one outcome for each panel of its queue and leaves the mark of failure exactly if one of them failed or came back not online; a round that ends invalid leaves the mark as it is. |
| PanelRefresh.ValidityIsLost | src/mobile/useMobilePanelRefresh.ts:40 | No step makes an invalid round valid again. |
| PanelRefresh.ReplacedKeepsIds | src/mobile/useMobilePanelRefresh.ts:54 | An updated panel replaces the one with its id; ids, their order and all other panels stay. |
| PanelRefresh.IdsKept | src/mobile/useMobilePanelRefresh.ts:47-59 | Over any run in which only outcomes of refreshes write the list, whatever rounds are valid, the ids and their order stay. |
| PanelRefresh.OutcomeShown | src/mobile/useMobilePanelRefresh.ts:53-54 | A panel that comes back to a round that is still valid is in the list from then on, until the same panel is refreshed again. |
| PanelRefresh.GoesOnUnlessStarved | src/mobile/useMobilePanelRefresh.ts:31-73 | While an instance is live and visible it has a timer or its own round, never both, exactly unless its last visibility change fell into another instance's round. |
| PanelRefresh.StarvedStaysIdle | src/mobile/useMobilePanelRefresh.ts:31-73 | From the moment an instance is starved, through the end of the other round and any other events but a change of visibility or of the dependencies, the visible page has no timer and no own round, and no round starts. |
| PanelRefresh.StarvationHappens | src/mobile/useMobilePanelRefresh.ts:69-73 | A run that ends starved. |
| PanelOutcomes.LateOutcomeUnwritten | src/mobile/useMobilePanelRefresh.ts:38-80 | In every run: once a change of visibility or a cleanup has hit the owner of a round, nothing that comes back to that round changes the list, whatever happens in between, also on a page that is visible again; nor does anything that comes back while the page is hidden or paused. |
| PanelOutcomes.OutcomeWrittenIff | src/mobile/useMobilePanelRefresh.ts:40-54 | An outcome is written exactly if its instance is not cleaned up and at the generation of the round, and the page is neither hidden nor paused; it then replaces the panels with its id in their places and no others. |
| PanelOutcomes.CachedListWrittenIff | src/mobile/useMobilePanelRefresh.ts:43-45 | The list read outside the app is written under the same condition, and not otherwise. |
| PanelOutcomes.ListWrittenBy | src/mobile/useMobilePanelRefresh.ts:26-81 | No other event of the hook writes the list. |
| PanelOutcomes.RoundBeginsIff | src/mobile/useMobilePanelRefresh.ts:34-39 | In every run a round begins exactly when a timer fires on a page that is not paused, with no round in flight and at least one panel. |
| PanelOutcomes.FiringMeans | src/mobile/useMobilePanelRefresh.ts:31-59 | A fired timer of a live and visible instance starts a round or is set anew; a round has the panels with a saved key in its queue, and its two workers have claimed the first two. |
| PanelOutcomes.WorkerGoesOn | src/mobile/useMobilePanelRefresh.ts:49-58 | A worker claims the next panel of the queue if its round may still write, and stops otherwise or at the end; the round has an error once a refresh failed or a panel came back not online. |
| PanelOutcomes.EndingMeans | src/mobile/useMobilePanelRefresh.ts:61-67 | A cached read ends its round, and so do two stopped workers, and nothing else: nothing is in flight then, a live owner on a visible page gets a timer, and the mark of failure is written if the round may still write. |
| PanelOutcomes.VisibilityMeans | src/mobile/useMobilePanelRefresh.ts:69-73 | A change of visibility puts the instance in force a generation further, clears its timer, and sets a new one exactly if the page is visible with nothing in flight; disposed instances stay. |
| PanelOutcomes.EffectsMean | src/mobile/useMobilePanelRefresh.ts:26-80 | Running the effect disposes the old instance and its timer, and sets up a new one exactly if the page is active, not paused and the interval positive. |
| PanelOutcomes.RenderMeans | src/mobile/useMobilePanelRefresh.ts:19-20 | A render writes the latest props, and changed dependencies make the effect run again. |
| PanelOutcomes.LiveIffWanted | src/mobile/useMobilePanelRefresh.ts:26-27 | In every run, once the effects have run, an instance is live exactly if the page is active, not paused and the interval positive. |
| PanelRefreshHook.RefreshHook.ScheduleRefresh | src/mobile/useMobilePanelRefresh.ts:31-33 | The assignments are the scheduling step. |
| PanelRefreshHook.RefreshHook.RefreshPanels | src/mobile/useMobilePanelRefresh.ts:34-60 | Up to the first await, the assignments are the step that reschedules or starts a round with two claims. |
| PanelRefreshHook.RefreshHook.WorkerResumed | src/mobile/useMobilePanelRefresh.ts:50-58 | From an awaited refresh to the next one, the assignments are the worker's step. |
| PanelRefreshHook.RefreshHook.CacheResumed | src/mobile/useMobilePanelRefresh.ts:43-45 | The same for the cached read outside the app. |
| PanelRefreshHook.RefreshHook.FinishRound | src/mobile/useMobilePanelRefresh.ts:62-67 | The `finally` block is the finishing step. |
| PanelRefreshHook.RefreshHook.VisibilityChange | src/mobile/useMobilePanelRefresh.ts:69-73 | The visibility handlers of all live instances are the visibility step. |
| PanelRefreshHook.RefreshHook.RunEffects | src/mobile/useMobilePanelRefresh.ts:26-81 | Cleaning up the old instance and setting up the new one is the effect step. |
| PanelRefreshHook.RefreshHook.Handle | src/mobile/useMobilePanelRefresh.ts:26-81 | The event loop keeps the object on a run from its start, extended by the event, so that the results about every run hold after any sequence of events. |
| PanelRefreshHook.RefreshHook.Safe | src/mobile/useMobilePanelRefresh.ts:26-81 | An object that is on a run satisfies the invariant, and its rounds and timers are separate. |
| PullRefresh.RunKeeps | src/mobile/MobilePullRefresh.tsx:57-160 | The invariant of every run of the gesture. |
| PullRefresh.PhasesOwned | src/mobile/MobilePullRefresh.tsx:57-160 | Refreshing is owned by one promise of the current version or by the finish timer, never both; settling holds exactly while the settle timer is pending; a tracked touch is idle until it locks, then ready from 64 pixels on and pulling below; flights of one version never pile up and began at 64 pixels or more. |
| PullRefresh.StuckOnlyAtZero | src/mobile/MobilePullRefresh.tsx:103-119 | With nothing tracked, pending or running the phase is idle, except "pulling" at distance 0. |
| PullRefresh.ReleaseSticks | src/mobile/MobilePullRefresh.tsx:114-119 | A release gets stuck exactly when the drag was locked and back at distance 0. |
| PullRefresh.SticksIff | src/mobile/MobilePullRefresh.tsx:57-160 | Of all events only a release makes the gesture stick, and exactly such a release. |
| PullRefresh.StuckUntilReset | src/mobile/MobilePullRefresh.tsx:70-92 | Once stuck, no event but a change of scope or unmounting changes that. |
| PullRefresh.StuckHappens | src/mobile/MobilePullRefresh.tsx:96-119 | A run that gets stuck. |
| PullRefresh.StaleResolvesChangeNothing | src/mobile/MobilePullRefresh.tsx:125-131 | The completion of a refresh of an older version, or after unmounting, changes nothing. |
| PullRefresh.RefreshBegins | src/mobile/MobilePullRefresh.tsx:114-125 | A refresh of the current version starts exactly at a release, with an action, of a locked drag at 64 pixels or more; the phase is then refreshing at 48 pixels, and no other event starts one. |
| PullRefresh.RefreshingOnlyBegins | src/mobile/MobilePullRefresh.tsx:114-125 | The refreshing phase begins in no other way. |
| PullRefresh.RefreshEnds | src/mobile/MobilePullRefresh.tsx:61-69 | The completion of a current refresh leads through the finish timer to settling and through the settle timer to rest. |
| PullRefresh.ReportedIff | src/mobile/MobilePullRefresh.tsx:125-127 | A failure is reported exactly if it is of a refresh of the current version while mounted. |
| PullRefresh.TrackingBegins | src/mobile/MobilePullRefresh.tsx:90-95 | Tracking begins exactly with a single free touch at rest, while mounted and not disabled. |
| PullRefresh.DragLocksIff | src/mobile/MobilePullRefresh.tsx:96-113 | A drag locks exactly when it leaves the 8-pixel square downwards, not more sideways than down, and can be claimed; within the square nothing happens, and otherwise the touch is let go. |
| PullRefresh.LockedDragShows | src/mobile/MobilePullRefresh.tsx:103-113 | A locked drag shows its eased distance wherever it goes, ready from 64 pixels on and pulling below. |
| PullRefresh.DistanceBounded | src/mobile/MobilePullRefresh.tsx:111 | In every run the list is pulled by at least 0 and less than 104 pixels. |
| PullRefresh.GivingUpSettles | src/mobile/MobilePullRefresh.tsx:90-133 | A second touch, a move of another touch or in a wrong place, a cancellation, and a release that has pulled and refreshes nothing all settle, and the settle timer then leads to rest. |
| PullRefresh.ScopeChangeResets | src/mobile/MobilePullRefresh.tsx:157-160 | A change of scope outdates every open refresh and brings the gesture to rest, without timers. |
| PullRefresh.UnmountEnds | src/mobile/MobilePullRefresh.tsx:141-155 | Unmounting clears both timers and leaves open refreshes outdated. |
| PullGesture.Gesture.SettleDown | src/mobile/MobilePullRefresh.tsx:61-69 | The assignments are the settling step. |
| PullGesture.Gesture.Started | src/mobile/MobilePullRefresh.tsx:90-95 | The touch-start handler is its step. |
| PullGesture.Gesture.Dragged | src/mobile/MobilePullRefresh.tsx:96-113 | The touch-move handler is its step. |
| PullGesture.Gesture.Ended | src/mobile/MobilePullRefresh.tsx:114-124 | The touch-end handler is its step. |
| PullGesture.Gesture.PromiseSettled | src/mobile/MobilePullRefresh.tsx:125-131 | The continuation of the refresh is its step. |
| PullGesture.Gesture.ScopeChanged | src/mobile/MobilePullRefresh.tsx:70-77 | Bumping the version and resetting the interaction is the scope step. |
| PullGesture.Gesture.Handle | src/mobile/MobilePullRefresh.tsx:57-160 | The event loop keeps the object on a run from its start, extended by the event. |
| StableSort.SortSorts | src/App.tsx:3786 | The sort used for every displayed list puts it in order, for an order that is total and transitive on its members. |
| StableSort.SortIsStable | src/App.tsx:3786 | Members that tie keep the order they had. |
| StableSort.StableSortIsUnique | src/App.tsx:3786 | Any sorted permutation that keeps the order of tied members is the result of this sort, whatever algorithm produced it. |
| StableSort.FilterSort | src/App.tsx:3812-3818 | Filtering before or after sorting gives the same list, order included. |
| ItemOrder.MoveBeforeMoves | src/App.tsx:1964-1976 | The spliced list is a permutation in which the source stands at the target's old index and all others keep their relative order. |
| ItemOrder.ShownAfterMove | src/App.tsx:1964-1976 | After a drag of an asset or favourite, filtering and sorting again by the written order list shows exactly the spliced list. |
| ItemOrder.ShownByPlace | src/App.tsx:3786 | A list shows exactly the matching items, those of the order list first and by their place in it. |
| ItemOrder.ListedFirstMeans | src/App.tsx:1999-2011 | The order list a drag writes begins with the moved keys and holds all other keys after them in the order of the items, each once. |
| ItemOrder.ItemList.MoveItemBefore | src/App.tsx:1999-2011 | A drag writes the spliced visible keys followed by the others, and does nothing when source and target are the same or not visible. |
| ItemOrder.PanelsMoved | src/App.tsx:1156-1168 | After a panel drag the shown panels are the spliced list, hidden ones keep their relative order, no panel is lost or altered in anything but its sort number, and the sort numbers are 0, 1, 2 ... |
| ItemOrder.PanelList.ReorderPanels | src/App.tsx:1156-1168 | The drag handler computes that list. |
| ManagedHosts.PlacedNextTo | src/App.tsx:1516-1519 | The source stands right before or right after the target and nothing else has moved. |
| ManagedHosts.DraggedGroup | src/App.tsx:1506-1522 | The dragged group, sorted anew by the written order, is the old one with the source next to the target, hosts missing from the order list included. |
| ManagedHosts.OtherGroupsKept | src/App.tsx:1506-1522 | Every other group shows what it showed. |
| ManagedHosts.DisplayFiltersGroup | src/App.tsx:3811-3818 | Filtering all hosts and sorting them at once shows each group in its own order. |
| ManagedHosts.HostDrag | src/App.tsx:1506-1522 | The three together, for whatever the sidebar shows under any text filter. |
| ManagedHosts.DragAcceptedIff | src/App.tsx:1506-1512 | A drag is accepted exactly between two different hosts of the same group. |
| ManagedHosts.OtherDragIgnored | src/App.tsx:1506-1512 | Any other drag, of ids that are not listed too, leaves the order list as it is. |
| ManagedHosts.HostOrder.ReorderManagedHosts | src/App.tsx:1506-1522 | The drag handler writes that order list. |
| ManagedHosts.GroupEdit | src/App.tsx:1458-1461 | Editing a group writes the shown groups without the old and new name, the new name inserted at position min(number - 1, length); after all hosts are renamed the groups shown are exactly that list, merges included. |
| ManagedHosts.GroupDrag | src/App.tsx:1586-1592 | After dragging a group, the groups recomputed from the hosts are exactly the moved list. |
| ManagedHosts.GroupsByPlace | src/App.tsx:3806-3810 | The groups shown are ordered by their place in the order list, and those it does not hold come last, by name. |
| ManagedHosts.OtherGroupDragIgnored | src/App.tsx:1586-1587 | Dragging no group, or one onto itself, leaves the order list as it is. |
| ManagedHosts.GroupOrder.ReorderManagedHostGroups | src/App.tsx:1586-1592 | The drag handler writes that list. |
| ManagedHosts.GroupOrder.SaveManagedHostGroupEdit | src/App.tsx:1458-1461 | The edit handler writes that list. |
| TerminalWorkspace.SessionsConservedIff | src/App.tsx:1733-1860 | A run obeys the law at every moment exactly when each of its events met its guard. The law: each connected session is in exactly one of open tabs and disconnected ones, tab ids are distinct, and the active tab is none with no session, or an open tab whose session is the current one. |
| TerminalWorkspace.UpToDateMeetsGuard | src/App.tsx:754 | A copy of the tabs that is up to date meets every guard, for a client closed in the servers section or without a session. |
| TerminalWorkspace.CacheHoldsLiveSessions | src/App.tsx:913-923 | In every run, unless an eviction is due, the cache holds sessions of open tabs or the current one only. |
| TerminalWorkspace.CloseConservesIff | src/App.tsx:1748-1767 | Closing a tab conserves the sessions exactly when the copy lists the same sessions as the state, apart from the closed one; under the same condition, and no other, the active tab is right too. |
| TerminalWorkspace.CloseOthersConservesIff | src/App.tsx:1768-1776 | The same for closing the others, exactly when the kept tab is still open and the copy misses no open tab. |
| TerminalWorkspace.CloseAllConservesIff | src/App.tsx:1777-1788 | The same for closing all, exactly when the copy misses no open tab. |
| TerminalWorkspace.ClientKeptIff | src/App.tsx:2055-2076 | Closing the client keeps the law exactly when, in the servers section, its active tab may be closed, and otherwise the tab to return to is still open, or there is none to return to and no session. |
| TerminalWorkspace.StaleRefLosesSession | src/App.tsx:1748-1767 | A run in which a session that has just connected is lost while its tab stays active. |
| TerminalWorkspace.StaleReturnTab | src/App.tsx:2060-2064 | A run in which closing the dialog makes a closed tab active, with a disconnected session. |
| TerminalWorkspace.ActivateSelects | src/App.tsx:1733-1747 | Selecting an open tab makes it active and its session current, and changes no tab. |
| TerminalWorkspace.OpeningDetaches | src/App.tsx:1814-1822 | Opening a host leaves no tab active and no session, until it is connected. |
| TerminalWorkspace.CloseSelects | src/App.tsx:1748-1767 | Closing a tab leaves the others in their order; if it was active, the last of them is, or none if there is none; if it was not, the active tab and the session stay. |
| TerminalWorkspace.CloseOthersSelects | src/App.tsx:1768-1776 | Closing the others leaves the kept tab, active with its session. |
| TerminalWorkspace.CloseAllSelects | src/App.tsx:1777-1788 | Closing all leaves no tab and no session. |
| TerminalWorkspace.ConnectingSelects | src/App.tsx:2164-2183 | A new connection has the last tab, which is active with its session; the other tabs keep their order, and a connection from the dialog ends a duplicate. |
| TerminalWorkspace.DuplicateSelects | src/App.tsx:1789-1823 | A duplicate made in the dialog remembers the active tab and detaches; a Linux host detaches, and any other managed tab changes nothing. |
| TerminalWorkspace.ClientSelects | src/App.tsx:2055-2076 | Closing the client closes the active tab, or returns to the remembered tab with its session, or ends the session. |
| TerminalWorkspace.DuplicateReturns | src/App.tsx:1789-2064 | Making a duplicate and closing its dialog leads back to the tab and the session one had. |
| TerminalWorkspace.CopyAndCache | src/App.tsx:754-923 | The copy takes the tabs; a terminal is cached under the current session; an eviction keeps exactly the sessions of open tabs and the current one. |
| TerminalWorkspace.EvictionDueIff | src/App.tsx:913-923 | An eviction is due exactly after a change of the tabs or the session, until it runs. |
| TerminalWorkspace.Workspace.ActivateTab | src/App.tsx:1733-1747 | The assignments are the activation step. |
| TerminalWorkspace.Workspace.SessionConnected | src/App.tsx:2164-2183 | A completed connection is its step, from the dialog or for a managed host. |
| TerminalWorkspace.Workspace.CloseTerminalTab | src/App.tsx:1748-1767 | The handler is the closing step. |
| TerminalWorkspace.Workspace.CloseOtherTerminalTabs | src/App.tsx:1768-1776 | The handler is its step. |
| TerminalWorkspace.Workspace.CloseAllTerminalTabs | src/App.tsx:1777-1788 | The handler is its step. |
| TerminalWorkspace.Workspace.DuplicateTerminalTab | src/App.tsx:1789-1823 | The handler is its step: a Linux host is opened anew, a Windows host or an unlisted one leaves the workspace alone, any other tab goes back to the dialog. |
| TerminalWorkspace.Workspace.CloseSshClient | src/App.tsx:2055-2076 | In the servers section the active tab is closed; otherwise the tab of a duplicate is returned to, or the session ends. |
| TerminalWorkspace.Workspace.EvictTerminals | src/App.tsx:913-923 | The eviction effect takes its step when it is due. |
| TerminalWorkspace.Evicted | src/App.tsx:916-922 | The loop over the cached terminals keeps exactly those of live sessions. |
| TerminalWorkspace.Workspace.Handle | src/App.tsx:1733-1860 | The event loop keeps the object on a run from its start, extended by the event, and makes the eviction due when the tabs or the session have changed. |
| TerminalWorkspace.Workspace.Safe | src/App.tsx:1733-1860 | An object whose events have all met their guards obeys the law. |
| BoundedHistory.RecentRefinesHistory | src/App.tsx:1861-1863 | From an empty list, after any opens the recent list is the first ten of the history read backwards without repetition. |
| BoundedHistory.RecentMeans | src/App.tsx:1861-1863 | The recent hosts are listed once each, the latest opened first, and a host that was opened but is missing was last opened before all of a full list. |
| BoundedHistory.RecentHosts.RememberManagedHost | src/App.tsx:1861-1863 | One open keeps the list equal to that. |
| BoundedHistory.TailRefinesStream | src/App.tsx:819-821 | The output buffer is, position by position, the end of the whole stream, however the stream was cut into chunks: all of it while it fits, and its last part of the limit otherwise. |
| BoundedHistory.OutputBuffer.Append | src/mobile/MobileApp.tsx:743 | One chunk keeps the buffer equal to that, for the limits of 160000 and 80000 characters. |
| ResourceReads.RunKeeps | src/mobile/MobileApp.tsx:413-446 | The invariant of every run of begins, completions, renders and effects. |
| ResourceReads.LatestWins | src/mobile/MobileApp.tsx:417-422 | At most one open read is current, and the numbers of applied reads strictly increase. |
| ResourceReads.StaleOnlyIfBegunElsewhere | src/mobile/MobileApp.tsx:413-446 | An applied read was begun before a scope change exactly when it was begun for a scope that was not on screen. |
| ResourceReads.BegunElsewhereApplies | src/mobile/MobileApp.tsx:413-446 | A run in which that happens. |
| ResourceReads.AppliedIff | src/mobile/MobileApp.tsx:417-422 | A completed read is written exactly if its number is the newest one and the screen shows its tab and its account. |
| ResourceReads.UndisturbedReadIsWritten | src/mobile/MobileApp.tsx:413-446 | A read begun for the scope on screen is written when it comes back, unless another read is begun, the scope changes or a due effect runs in between. |
| ResourceReads.GuardMoves | src/mobile/MobileApp.tsx:413-446 | The number grows by one with each read begun and each due effect, and by nothing else; a render that changes the scope makes an effect due. |
| ResourceReads.ReadGuard.BeginResourceRead | src/mobile/MobileApp.tsx:417-422 | Beginning a read is its step. |
| ResourceReads.ReadGuard.ReadCompleted | src/mobile/MobileApp.tsx:462-477 | A completed read writes its result only while it is current. |
| ResourceReads.ReadGuard.Handle | src/mobile/MobileApp.tsx:413-446 | The event loop keeps the object on a run from its start, extended by the event. |
| SecretField.RunKeeps | src/shared/SecretField.tsx:15-54 | The invariant of every run of edits, toggles, reveals and unmounting. |
| SecretField.SavedValueApart | src/shared/SecretField.tsx:25-54 | A shown saved value implies visible, an empty edit value and not busy; busy holds exactly while a reveal of the current generation is outstanding, and then the field is hidden and empty. |
| SecretField.FormValueFromEdits | src/shared/SecretField.tsx:25-32 | After any run the form value is that of the last edit, or the one the field began with. |
| SecretField.SupersededChangesNothing | src/shared/SecretField.tsx:42-53 | A superseded reveal changes nothing. |
| SecretField.CurrentRevealShows | src/shared/SecretField.tsx:44-53 | A reveal that is current shows the secret it got, or the message that it got none, and ends being busy; the form value stays. |
| SecretField.ButtonMeans | src/shared/SecretField.tsx:33-43 | The button hides a visible field and takes the saved value away, shows one that has text or nothing to reveal, asks for the saved value of another, and does nothing while disabled. |
| SecretField.EditMeans | src/shared/SecretField.tsx:25-32 | An edit is the form value from then on and takes the saved value and the message away. |
| SecretField.RevealAndHide | src/shared/SecretField.tsx:33-54 | Revealing and hiding again shows the secret in between and leaves the field as it was. |
| SecretField.OvertakenRevealChangesNothing | src/shared/SecretField.tsx:23-53 | In every run: once an edit, hiding or unmounting has overtaken a reveal, its outcome changes nothing, whenever it comes. |
| SecretField.Field.Change | src/shared/SecretField.tsx:25-32 | The edit handler is its step. |
| SecretField.Field.ToggleVisibility | src/shared/SecretField.tsx:33-45 | The button handler up to its await is its step. |
| SecretField.Field.RevealSettled | src/shared/SecretField.tsx:46-53 | The rest of the handler, its `finally` included, is its step. |
| SecretField.Field.Handle | src/shared/SecretField.tsx:15-54 | The event loop keeps the object on a run from its start, extended by the event. |
| CertificateRequest.PiecesOfWritten | src/mobile/certificate-request.ts:4 | Names spaced out by any runs of commas and white space are the pieces of the split. |
| CertificateRequest.NamesOfText | src/mobile/certificate-request.ts:4 | With gaps before, between and after them, the names of a text are its non-empty pieces, in order. |
| CertificateRequest.GapIff | src/mobile/certificate-request.ts:4 | The characters between names, given one by one. |
| CertificateRequest.DomainsAreCleanedPieces | src/mobile/certificate-request.ts:3-5 | The list holds each non-empty trimmed, lower-cased, undotted piece exactly once and nothing else. |
| CertificateRequest.DomainsInOrder | src/mobile/certificate-request.ts:4 | The names stand in the order in which they were first typed. |
| CertificateRequest.ReparseIff | src/mobile/certificate-request.ts:3-5 | A parsed list, written out with any gaps and parsed again, comes back exactly when none of its names ends with a dot. |
| CertificateRequest.ReparseLinesIff | src/mobile/certificate-request.ts:3-5 | The same for one name per line, an empty list included. |
| CertificateRequest.ReparseTypedIff | src/mobile/certificate-request.ts:3-5 | The same condition on the typed text: the list comes back exactly when none of its pieces ends with two dots. |
| CertificateRequest.ReparseFails | src/mobile/certificate-request.ts:4 | Any name typed with two final dots is a case that does not come back. |
| CertificateRequest.AcceptedReparses | src/mobile/certificate-request.ts:3-18 | The names of an accepted request always come back. |
| CertificateRequest.ValidIffHostName | src/mobile/certificate-request.ts:10-13 | The pattern accepts exactly the names of at least two labels and at most 253 characters, each label of 1 to 63 letters, digits and inner hyphens (section 2.3.1 of RFC 1035, section 2.1 of RFC 1123). |
| CertificateRequest.InZoneIffLabels | src/mobile/certificate-request.ts:15 | For all strings, the suffix test on text holds exactly when the labels of the zone end the labels of the name. |
| CertificateRequest.VerdictIff | src/mobile/certificate-request.ts:7-18 | A request is accepted exactly when account, zone, names by their labels, membership in the zone and credentials are right, and a refusal names the first of these that is not. |
| CertificateRequest.SafeIntegerIff | src/mobile/certificate-request.ts:8 | Account ids are whole numbers below 2 to the power of 53 in size. |
| CertificateRequest.WildcardIff | src/mobile/certificate-request.ts:11 | A wildcard is judged by the name after it, and no other name is cut. |
| CertificateRequest.Base64UrlIff | src/mobile/certificate-request.ts:16 | The key pattern accepts exactly one or more characters of Base64 for URLs with at most two equals signs after them. |
| CertificateRequest.CharactersIff | src/mobile/certificate-request.ts:12-16 | The characters of labels and of keys, given one by one. |
| Pagination.AlignedIsLeast | src/shared/useGridPageSize.ts:3-6 | The aligned size is the least size from the requested one on that fills whole rows together with the leading items, less than one row above it. |
| Pagination.PagesMakeList | src/mobile/MobileApp.tsx:1212-1214 | The pages from 1 to the last one concatenate to the list. |
| Pagination.SafePageShows | src/mobile/MobileApp.tsx:1308-1311 | The safe page is the requested one, or the last one if that is beyond it; all pages but the last are full, and the page shown is empty only when the list is. |
| Pagination.NumbersInOrder | src/shared/PaginationBar.tsx:34-40 | For any page the bar starts at 1 and ends at the last page, adjacent numbers follow on directly, every larger gap holds an ellipsis, and no item repeats. |
| Pagination.NeighboursShown | src/shared/PaginationBar.tsx:34-40 | The current page and the pages next to it are always offered. |
| Pagination.EllipsesHideIff | src/shared/PaginationBar.tsx:34-40 | Every ellipsis hides a page exactly unless there are more than five pages and the current one is the third from an end. |
| Pagination.JumpIsNearest | src/shared/PaginationBar.tsx:41-48 | A jump leads to the page in range nearest to the number asked for. |
| Pagination.NoNumberStays | src/shared/PaginationBar.tsx:43-44 | A draft that does not begin with a digit leads nowhere else. |
| Pagination.TypedIsFirstFour | src/shared/PaginationBar.tsx:65 | Typing keeps the first four digits in their order and nothing else. |
| Pagination.UntouchedJumpStays | src/shared/PaginationBar.tsx:29-48 | A jump with the draft that shows the current page stays there exactly when that page is in range: reading a number undoes writing it. |
| Pagination.JumpReachesIff | src/shared/PaginationBar.tsx:41-65 | Another page in range can be reached by typing exactly when it is below 10000. |
| Pagination.Bar.ApplyJump | src/shared/PaginationBar.tsx:41-48 | The handler changes the page to where the jump leads and shows it in the draft, and does nothing when the total is unknown. |
| Pagination.Bar.Type | src/shared/PaginationBar.tsx:65 | The draft keeps the first four digits of what is typed. |
| Paths.ParentUndoesJoin | src/App.tsx:2212-2220 | The parent of a joined path is the directory without trailing slashes, or the root, for every directory and every non-empty name without a slash. |
| Paths.JoinAddsSegment | src/App.tsx:2212-2214 | Entering a directory adds its name to the names on the path. |
| Paths.ParentDropsSegmentIff | src/App.tsx:2215-2220 | Going up takes away the last name exactly when the path without trailing slashes holds a slash or at most one character. |
| Paths.UpReachesRoot | src/App.tsx:2215-2220 | From any absolute path each step up takes one name, and the step after the last name reaches the root for good. |
| Paths.BrowseBack | src/mobile/MobileApp.tsx:1397-1400 | Splitting, popping and joining gives the prefix up to the last slash before the last name. |
| Paths.AboveUndoesEnter | src/mobile/MobileApp.tsx:1397-1400 | Backing out of prefix + name + "/" restores the prefix. |
| Paths.BackOutOfFolders | src/mobile/MobileApp.tsx:1397-1400 | Backing out of any chain of folders restores the prefix it began with. |

## Left out

- The provider, SSH, database and proxy clients, cryptography, signing, storage and all Tauri plumbing: their modules are not part of this model.
- Rendering, focus, menus and pixel geometry, including the measuring of grid columns.
- Normalising a text without a readable PEM block twice: `normalize_oci_private_key` returns it unwrapped (`OciPrivateKey.UnreadableStays`), and what is left can be unwrapped again.
- `src/mobile/certificate-health.ts`: a chain of comparisons with two roundings, which would only add easy members.
- `refreshAccounts`, `refreshManagedHosts` and the shared loading flag, which no sequence number guards; and the busy flags and messages shown beside the modelled state.
- The relative order of hidden assets and favourites after a drag: the code rebuilds it from the raw list and does not keep it.
- Closing the client after launching RDP acts on state captured before an await; the model has the closing of the client as one step on the current state.
- Connecting outside the servers section, which opens no tab: the dialog is only shown inside it.
- The server's part of renaming a group: `ManagedHosts.GroupEdit` takes it that all hosts of the group are renamed, as the handler does after its reload.
- Non-ASCII names: case folding is that of ASCII letters. Account ids that are not finite numbers are left out too.
- Floating-point rounding in paging and in the pull gesture.
