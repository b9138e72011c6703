# react-railway tour engine, modelled in Dafny

This project models the core of `react-railway`, a guided product-tour
("railway") overlay library. A tour is a sequence of stations. Each station may
target a page element and may define `beforeArrival` and `afterDeparture` hooks.
The model has three parts:

- **Coordinator** (`Coordinator.dfy`, `Provider.dfy`), from
  `packages/react-railway/src/hooks/useRailway.tsx`.
  - The pure reducer over `{runningId, isCompletedSet, isViewedSet, railwayOrder, registered}`.
  - The persistent store, with keys `railway:<id>:completed|viewed`.
  - The provider's actions: last-caller-wins `startEngine`, guarded
    `stopEngine`, write-through `setCompleted`/`setViewed`, and `setRailwayOrder`.
- **Step engine** (`StepEngine.dfy`), from `packages/react-railway/src/Railway.tsx`.
  - The auto-start rule.
  - The running and render guards.
  - The step-change effect: hook order, measure, scroll once, re-measure, placement.
  - The resize/scroll listener.
  - The next, previous and close handlers.

  These are methods of the class `Railway`. Its fields are `currentStep`,
  `rect`, `placement` and `prevStep`. A further field, `effects`, logs the hook
  calls and scrolls in order.
- **Geometry** (`Geometry.dfy`), from `packages/react-railway/src/Railway.utils.ts`.
  - `isFullyInView` and the viewport size fallback.
  - `measureOnce`, as a first-match lookup in an abstract document.

Environment inputs are parameters:
- the store is `Available(map)` (reads and writes succeed), `ReadOnly(map)`
  (reads succeed, `setItem` throws, as with a full store) or `Unavailable`
  (no `window`, or `getItem` throws);
- the document is a sequence of elements, each possibly tagged with a station id;
- the viewport is the window's and the document element's reported sizes;
- the layout is given twice: before and after the scroll has settled;
- `cancelled` says whether the effect's cleanup ran before its asynchronous part finished.

The step-change effect is asynchronous, and the button handlers can run while
it awaits a hook or the settle delay. It is therefore modelled in two halves:
a begin, which fires the hooks, and an end, which measures, scrolls and shows
the result. A handler that lands while the effect is in flight is a call
between the two halves. The effect as the component writes it is
`BeginStepAsWritten` followed by `FinishStepAsWritten`: the previous step is
recorded only at the end. The corrected pair is `BeginStep` followed by
`ResolveGeometry`, which records the step at the begin; `OnStepChange` runs
that pair with nothing in between (see Findings).

Where the comments and the code disagree, the model follows the code:
- The comment on SET_ORDER (`useRailway.tsx:111`) says the action keeps only
  registered ids. The code only removes duplicates.
  `Coordinator.SetOrderKeepsUnregistered` shows an unregistered id being kept.
- The first REGISTER of an id seeds its flags from the store. So does a
  REGISTER after an UNREGISTER, because UNREGISTER removes the id from `registered`.
- `Station.id` is declared as a required string, but targeting is decided by
  `Boolean(station?.id)`. An empty id therefore means "centered, no target"
  (`StepEngine.TargetOf`).

## Model

| member | source | states |
|---|---|---|
| `Geometry.ViewWidth` | packages/react-railway/src/Railway.utils.ts:2 | width is the window's inner width unless that is 0, else the client width; 0 only when both are 0 |
| `Geometry.ViewHeight` | packages/react-railway/src/Railway.utils.ts:3-4 | same fallback for the height |
| `Geometry.IsFullyInView` | packages/react-railway/src/Railway.utils.ts:1-11 | a well-formed rectangle that passes fits in the viewport shrunk by `pad` on every side, in height and in width |
| `Geometry.FullyInViewIffContained` | packages/react-railway/src/Railway.utils.ts:5-10 | for a well-formed rectangle, the four edge tests hold iff every point of it lies in the viewport shrunk by `pad` on each side |
| `Geometry.DefaultPaddingIsWholeViewport` | packages/react-railway/src/Railway.utils.ts:1 | with the padding omitted (default 0), in view means contained in the whole viewport |
| `Geometry.FullyInViewAntitoneInPadding` | packages/react-railway/src/Railway.utils.ts:6-9 | lowering the padding never turns a true result false |
| `Geometry.QuerySelector` | packages/react-railway/src/Railway.utils.ts:19-22 | none iff no element carries the station id; otherwise the first carrier in document order |
| `Geometry.MeasureOnce` | packages/react-railway/src/Railway.utils.ts:16-25 | none iff no element carries the id; otherwise the rectangle of the first element that does |
| `Coordinator.InitialState` | packages/react-railway/src/hooks/useRailway.tsx:47-53 | nothing running, registered, completed or viewed; the order is empty (so free of duplicates) |
| `Coordinator.StorageKey` | packages/react-railway/src/hooks/useRailway.tsx:28-29 | key is `railway:`, the id, `:`, then the flag name, at those positions; its length is the sum of the parts |
| `Coordinator.SafeReadBool` | packages/react-railway/src/hooks/useRailway.tsx:32-39 | never fails: an unreachable store or a missing key reads false; true only when the stored string is exactly "true" |
| `Coordinator.SafeWriteBool` | packages/react-railway/src/hooks/useRailway.tsx:40-45 | never fails: a store that rejects the write (read-only or unavailable) is left exactly as it was; a writable store gains the key, holding `String(val)`, and every other key keeps its value |
| `Coordinator.RewriteIsNoOp` | packages/react-railway/src/hooks/useRailway.tsx:40-45 | writing the same value twice under one key is writing it once |
| `Coordinator.RejectedWriteChangesNoRead` | packages/react-railway/src/hooks/useRailway.tsx:32-45 | after a rejected write every key reads as before |
| `Coordinator.StorageKeyInjective` | packages/react-railway/src/hooks/useRailway.tsx:28-29 | two (id, flag) pairs share a key only if they are equal |
| `Coordinator.PersistRoundTrip` | packages/react-railway/src/hooks/useRailway.tsx:32-45 | reading the key just written returns the value written when the store accepts writes, and what it returned before when the store rejects them (read-only or unavailable); every other tour's or flag's key reads as before |
| `Coordinator.Dedup` | packages/react-railway/src/hooks/useRailway.tsx:112 | `Array.from(new Set(ids))` has no duplicates, exactly the input's ids, and is no longer than the input |
| `Coordinator.DedupKeepsFirstOccurrenceOrder` | packages/react-railway/src/hooks/useRailway.tsx:112 | the deduplicated order lists ids by their first occurrence in the input |
| `Coordinator.DedupSnoc` | packages/react-railway/src/hooks/useRailway.tsx:112 | an id appended to the input is kept iff it is not already in the deduplicated prefix |
| `Coordinator.DedupExample` | packages/react-railway/src/hooks/useRailway.tsx:112 | `Array.from(new Set([a,b,a,c]))` is `[a,b,c]` |
| `Coordinator.DedupOfUnique` | packages/react-railway/src/hooks/useRailway.tsx:112 | an input without duplicates is stored unchanged |
| `Coordinator.DedupIdempotent` | packages/react-railway/src/hooks/useRailway.tsx:112 | deduplicating twice equals deduplicating once |
| `Coordinator.Without` | packages/react-railway/src/hooks/useRailway.tsx:86 | the filter keeps exactly the ids other than the removed one and keeps the order duplicate-free |
| `Coordinator.WithoutConcat` | packages/react-railway/src/hooks/useRailway.tsx:86 | filtering distributes over concatenation, so kept ids stay in their order |
| `Coordinator.WithoutKeepsOrder` | packages/react-railway/src/hooks/useRailway.tsx:86 | for a duplicate-free order, the kept ids appear in the order they had before |
| `Coordinator.WithoutAbsent` | packages/react-railway/src/hooks/useRailway.tsx:86 | filtering out an absent id changes nothing |
| `Coordinator.Reduce` | packages/react-railway/src/hooks/useRailway.tsx:55-116 | each action changes only its own fields: only SET_RUNNING and UNREGISTER touch `runningId`; only REGISTER and UNREGISTER `registered`; only REGISTER and SET_COMPLETED/SET_VIEWED the flag sets, which shrink only on an explicit false; only REGISTER, UNREGISTER and SET_ORDER the order |
| `Coordinator.RegisterIdempotent` | packages/react-railway/src/hooks/useRailway.tsx:58 | REGISTER of a registered id returns the state unchanged; registering twice equals once, whatever the store holds at the second call |
| `Coordinator.RegisterNew` | packages/react-railway/src/hooks/useRailway.tsx:57-81 | a new id is added to `registered`, appended to the order only if absent (no duplicate created), `runningId` unchanged |
| `Coordinator.RegisterSeedsFlags` | packages/react-railway/src/hooks/useRailway.tsx:61-68 | completed/viewed sets only grow, only by the id, and gain it iff the id was new and the store holds exactly "true" under its key |
| `Coordinator.UnregisterSpec` | packages/react-railway/src/hooks/useRailway.tsx:82-95 | id leaves `registered` and every place in the order; the order is the filter of the old one, so other ids keep their relative order; `runningId` becomes null iff it was the id, and is otherwise unchanged; flag sets untouched |
| `Coordinator.SetFlagSpec` | packages/react-railway/src/hooks/useRailway.tsx:98-109 | SET_COMPLETED/SET_VIEWED put the id in the set iff the value is true; no other id and no other field changes |
| `Coordinator.SetOrderSpec` | packages/react-railway/src/hooks/useRailway.tsx:110-112 | stored order: duplicate-free, same ids as input, first-occurrence order; nothing else changes |
| `Coordinator.SetOrderExample` | packages/react-railway/src/hooks/useRailway.tsx:110-112 | `[a,b,a,c]` is stored as `[a,b,c]` |
| `Coordinator.SetOrderKeepsUnregistered` | packages/react-railway/src/hooks/useRailway.tsx:110-112 | an id that was never registered is kept by SET_ORDER |
| `Coordinator.ReducePreservesUniqueOrder` | packages/react-railway/src/hooks/useRailway.tsx:55-116 | every action keeps `railwayOrder` free of duplicates |
| `Coordinator.LastRunnerWins` | packages/react-railway/src/hooks/useRailway.tsx:96-97 | of two SET_RUNNING dispatches, the later id holds the slot |
| `Coordinator.ReloadRestoresCompleted` | packages/react-railway/src/hooks/useRailway.tsx:62-68 | after persisting completed = v, a fresh coordinator's first REGISTER has the id completed iff v when the store accepted the write, and iff the store already held "true" when it rejected it; the viewed flag is read as before |
| `Provider.Stop` | packages/react-railway/src/hooks/useRailway.tsx:154-163 | stop clears the slot iff the caller is the runner; otherwise the state is unchanged; no other field changes |
| `Provider.StaleStopIsNoOp` | packages/react-railway/src/hooks/useRailway.tsx:149-163 | after `startEngine(b)`, `stopEngine(a)` with a ≠ b leaves b running; `stopEngine(b)` empties the slot |
| `Provider.RailwayProvider.constructor` | packages/react-railway/src/hooks/useRailway.tsx:47-53 | a provider starts from the empty initial state |
| `Provider.RailwayProvider.IsRunning` | packages/react-railway/src/hooks/useRailway.tsx:182 | `isRunning` is exactly `runningId != null` |
| `Provider.RailwayProvider.RegisterRailway` | packages/react-railway/src/hooks/useRailway.tsx:141-143 | dispatches REGISTER against the current store; store unchanged |
| `Provider.RailwayProvider.UnregisterRailway` | packages/react-railway/src/hooks/useRailway.tsx:145-147 | dispatches UNREGISTER; store unchanged |
| `Provider.RailwayProvider.StartEngine` | packages/react-railway/src/hooks/useRailway.tsx:149-152 | sets `runningId` to the id whatever was running; nothing else changes |
| `Provider.RailwayProvider.StopEngine` | packages/react-railway/src/hooks/useRailway.tsx:154-163 | new state is `Stop` of the old; the runner's own stop leaves nothing running, anyone else's is a no-op |
| `Provider.RailwayProvider.SetCompleted` | packages/react-railway/src/hooks/useRailway.tsx:165-168 | writes `String(value)` (default true) under `railway:<id>:completed`, then dispatches; a later read of the key returns the value when the store accepts writes; a rejecting store is left unchanged while the in-memory flag is still set |
| `Provider.RailwayProvider.SetViewed` | packages/react-railway/src/hooks/useRailway.tsx:170-173 | the same for `railway:<id>:viewed`, including the rejected write |
| `Provider.RailwayProvider.SetRailwayOrder` | packages/react-railway/src/hooks/useRailway.tsx:175-177 | dispatches SET_ORDER; store unchanged |
| `Provider.PreemptionScenario` | packages/react-railway/src/hooks/useRailway.tsx:149-163 | `start(a); start(b); stop(a)` on a live provider leaves b running |
| `Provider.ReloadScenario` | packages/react-railway/src/hooks/useRailway.tsx:165-168 | `setCompleted(id)`, then a new provider over the same store registers id and has it completed |
| `Provider.RejectedWriteReloadScenario` | packages/react-railway/src/hooks/useRailway.tsx:165-168 | over a store that rejects writes, `setCompleted(id)` sets the flag for the session, but a new provider registering id seeds it only from what the store held before |
| `StepEngine.TargetOf` | packages/react-railway/src/Railway.tsx:68 | a station is centered iff its id is empty, otherwise it targets its id |
| `StepEngine.IsOffscreenVertically` | packages/react-railway/src/Railway.tsx:45-48 | an off-screen rectangle has no pixel row inside the viewport |
| `StepEngine.OffscreenIffNoVisibleRow` | packages/react-railway/src/Railway.tsx:45-48 | for positive heights, `bottom <= 0 \|\| top >= vh` holds iff no pixel row of the rectangle is inside the viewport |
| `StepEngine.FullyInViewIsOnscreen` | packages/react-railway/src/Railway.tsx:45-48 | a rectangle of positive height that is fully in view (any padding >= 0) is not off-screen |
| `StepEngine.PlacementFor` | packages/react-railway/src/Railway.tsx:114 | a measured target is never `auto`; it goes `bottom` iff it is off-screen |
| `StepEngine.Resolve` | packages/react-railway/src/Railway.tsx:86-110 | the step's geometry is unmeasured iff the station has no target |
| `StepEngine.UntargetedSkipsMeasurement` | packages/react-railway/src/Railway.tsx:86-94 | an untargeted station is resolved without looking at either layout or the viewport |
| `StepEngine.ScrollPolicy` | packages/react-railway/src/Railway.tsx:96-110 | scroll happens iff the first measurement exists and is off-screen; the rectangle used is then the re-measurement, else the first one |
| `StepEngine.PlacementRule` | packages/react-railway/src/Railway.tsx:112-115 | `bottom` iff the target was scrolled to and is still off-screen; a target found on-screen goes `top` |
| `StepEngine.Displayed` | packages/react-railway/src/Railway.tsx:86-115 | untargeted: no highlight and `auto`; measured: that rectangle, placed by `PlacementFor`; not found: the previous highlight and side |
| `StepEngine.HookCalls` | packages/react-railway/src/Railway.tsx:76-84 | `afterDeparture(k)` is fired iff k is the previous step, differs from the new one and has the hook; `beforeArrival` only for the new step; departure always first |
| `StepEngine.ScrollCalls` | packages/react-railway/src/Railway.tsx:97-109 | at most one scroll per resolution, issued iff it scrolled a targeted station |
| `StepEngine.AtMostOneScrollPerStep` | packages/react-railway/src/Railway.tsx:76-110 | in one step change nothing follows a scroll: at most one scroll, after both hooks |
| `StepEngine.FirstEligible` | packages/react-railway/src/Railway.tsx:52-54 | none iff every order entry is completed or viewed; otherwise an eligible entry with no eligible entry before its first occurrence |
| `StepEngine.ShouldAutoStart` | packages/react-railway/src/Railway.tsx:50-55 | holds only with autoStart on, nothing running, and the id in the order and neither completed nor viewed |
| `StepEngine.AutoStartIff` | packages/react-railway/src/Railway.tsx:50-55 | auto-start fires iff autoStart, nothing running, and the id is the first order entry that is neither completed nor viewed; the locally-blocked test is implied |
| `StepEngine.AtMostOneAutoStarter` | packages/react-railway/src/Railway.tsx:50-55 | on one state at most one tour's auto-start condition holds |
| `StepEngine.NextStepIndex` | packages/react-railway/src/Railway.tsx:164 | the advanced index stays below the station count, rises by at most one, by exactly one below the last index, and is the last index otherwise |
| `StepEngine.PrevStepIndex` | packages/react-railway/src/Railway.tsx:168 | the index never goes up or below 0, and drops by one when positive |
| `StepEngine.Railway.constructor` | packages/react-railway/src/Railway.tsx:34-39 | step 0, no highlight, placement `bottom`, no previous step; the tour is registered with the coordinator |
| `StepEngine.Railway.Unmount` | packages/react-railway/src/Railway.tsx:34 | unmounting dispatches UNREGISTER for the tour |
| `StepEngine.Railway.IsRunning` | packages/react-railway/src/Railway.tsx:42 | the tour is running iff `runningId` equals its id |
| `StepEngine.Railway.Renders` | packages/react-railway/src/Railway.tsx:140 | shown iff running and the station list is non-empty |
| `StepEngine.Railway.AutoStartEffect` | packages/react-railway/src/Railway.tsx:50-65 | starts the engine for the tour exactly when `ShouldAutoStart` holds, otherwise changes nothing |
| `StepEngine.Railway.OnStepChange` | packages/react-railway/src/Railway.tsx:70-118 | the effect run with nothing in between (begin, then end): inactive: nothing; active: hooks then at most one scroll logged, `prevStep` set to the step, highlight and side per `Displayed` unless cancelled |
| `StepEngine.Railway.BeginStep` | packages/react-railway/src/Railway.tsx:75-85 | fires `HookCalls` against the previous step and records the current step at once; returns the step and target the end works on; inactive: nothing |
| `StepEngine.Railway.BeginStepAsWritten` | packages/react-railway/src/Railway.tsx:75-85 | fires `HookCalls` against `prevStepRef` but leaves it as it is |
| `StepEngine.Railway.FinishStepAsWritten` | packages/react-railway/src/Railway.tsx:86-117 | the geometry as `ResolveGeometry`, then `prevStepRef` set to the run's step, even when cancelled |
| `StepEngine.Railway.FireHooks` | packages/react-railway/src/Railway.tsx:76-84 | appends exactly `HookCalls` to the effect log |
| `StepEngine.Railway.ResolveGeometry` | packages/react-railway/src/Railway.tsx:86-115 | appends the scroll if one happened; cancelled: highlight and side unchanged; else as `Displayed` |
| `StepEngine.Railway.OnViewportChange` | packages/react-railway/src/Railway.tsx:120-129 | a found target is re-measured with no scroll and placed by `PlacementFor`; untargeted or missing: nothing changes |
| `StepEngine.Railway.HandleClose` | packages/react-railway/src/Railway.tsx:144-157 | fires the current `afterDeparture`, clears `prevStep`, frees the slot, completed iff on the last step, always viewed (both persisted), clears the highlight, step 0; the tour is no longer shown |
| `StepEngine.Railway.HandleNext` | packages/react-railway/src/Railway.tsx:159-166 | on the last step: the current `afterDeparture` fired, completed and viewed (the store holding both writes), slot freed, highlight cleared, step 0; otherwise step + 1, clamped, nothing else changes |
| `StepEngine.Railway.HandlePrev` | packages/react-railway/src/Railway.tsx:168 | step becomes max(step − 1, 0): no-op at 0, never negative |
| `StepEngine.Railway.HandleCloseAsWritten` | packages/react-railway/src/Railway.tsx:144-157 | the station's `afterDeparture` is logged in either case; a synchronous throw ends the handler: the tour stays running and shown, state and storage unchanged; otherwise it closes as `HandleClose` does (slot released, viewed and, on the last step, completed, in memory and in storage) |
| `StepEngine.Railway.HandleNextAsWritten` | packages/react-railway/src/Railway.tsx:159-166 | on the last step the `afterDeparture` is logged; if it throws, the tour is marked completed (in memory and in storage) but stays running and shown at the same step; if not, it ends as `HandleNext` does (slot released, completed and viewed, storage written); before the last step it only advances |
| `StepEngine.ThrowingDepartureKeepsTourOpen` | packages/react-railway/src/Railway.tsx:145 | concrete case: one station with a throwing `afterDeparture`; after the close it is still shown |
| `StepEngine.AutoStartScenario` | packages/react-railway/src/Railway.tsx:50-55 | a 3-station auto-start tour alone in the order, fresh and idle, starts itself |
| `StepEngine.FinishScenario` | packages/react-railway/src/Railway.tsx:159-166 | `next` through a 2-station tour leaves it completed and viewed with nothing running |
| `StepEngine.CloseInFlightAsWritten` | packages/react-railway/src/Railway.tsx:92-117 | close during step 1's effect, then a restart: step 1's `afterDeparture` fires twice |
| `StepEngine.CloseInFlight` | packages/react-railway/src/Railway.tsx:76-117 | the same with the step recorded at the begin: each `afterDeparture` fires once |
| `StepEngine.NextInFlightAsWritten` | packages/react-railway/src/Railway.tsx:76-117 | `next` during step 1's effect: step 0's `afterDeparture` fires twice, step 1's never |
| `StepEngine.NextInFlight` | packages/react-railway/src/Railway.tsx:76-117 | the same with the step recorded at the begin: steps 0 and 1 each depart once |

## Findings

| source | as written | input that shows it | evidently intended | confidence | as-written member | corrected member |
|---|---|---|---|---|---|---|
| packages/react-railway/src/Railway.tsx:145 | `handleClose` calls the current station's `afterDeparture` without a `try`. A synchronous throw ends the handler before `stopEngine`, `setCompleted` and `setViewed` run. | a running tour whose current station's `afterDeparture` throws; the user presses close (or next on the last station) | hook failures are swallowed (as in the step effect, `Railway.tsx:78-84`); close always releases the slot and marks viewed | medium; not executed | `StepEngine.Railway.HandleCloseAsWritten` | `StepEngine.Railway.HandleClose` |
| packages/react-railway/src/Railway.tsx:159-162 | `handleNext` on the last station calls `setCompleted` and then the unguarded `handleClose`. | the same throwing `afterDeparture`; the user presses next on the last station | the tour is completed, closed and marked viewed | medium; not executed | `StepEngine.Railway.HandleNextAsWritten` | `StepEngine.Railway.HandleNext` |
| packages/react-railway/src/Railway.tsx:92 | The step effect writes `prevStepRef.current = currentStep` only after its awaits (here and at line 117), and even when it was cancelled. A close in between resets it to null, and the late write undoes that. | a two-station tour whose stations have an asynchronous `afterDeparture`: next, then close while step 1's effect awaits its hooks, then start the tour again | a restarted tour fires no departure for a step it already left | medium; not executed | `StepEngine.CloseInFlightAsWritten` | `StepEngine.CloseInFlight` |
| packages/react-railway/src/Railway.tsx:76 | The step effect reads `prevStepRef` when it begins, but the previous effect writes it only when it ends. A step change that lands before that end starts an effect that still sees the older step. | a three-station tour whose stations have an asynchronous `afterDeparture`: next twice, the second while step 1's effect awaits its hooks | each step's `afterDeparture` fires once, when that step is left | medium; not executed | `StepEngine.NextInFlightAsWritten` | `StepEngine.NextInFlight` |

`StepEngine.ThrowingDepartureKeepsTourOpen` is a concrete case of the
unguarded close. `HandleNext` uses the corrected close.

For the late `prevStepRef` write, the as-written effect is
`BeginStepAsWritten` followed by `FinishStepAsWritten`. The corrected effect
records the step when it begins (`BeginStep`), so a handler or a later step
effect sees it; its end (`ResolveGeometry`) no longer writes it.
`OnStepChange` and the rest of the model use the corrected pair.

## Left out

- React scheduling is not modelled. `stopEngine` actually reads the
  `runningId` of the last render. Two dispatches in one tick may also be
  batched. The model applies each action to the current state immediately.
- Asynchronous timing is not modelled: the `requestAnimationFrame` before a
  measurement and the 350 ms settle delay. They become the two layout
  parameters `before` and `after`.
- The `el?.scrollIntoView` lookup is assumed to find the element that the first
  measurement found. `scrollIntoView` itself is assumed to be present.
- Hooks are recorded as calls in `effects`. Their asynchronous completion and
  their results are not modelled. In the step effect their failures are
  swallowed and cannot change the state.
- `BeginStep` and `BeginStepAsWritten` fire both hooks of a step at once. A
  handler that runs between the `afterDeparture` and the `beforeArrival` of
  one step is not modelled; a handler between the begin and the end is.
- An asynchronous rejection of the `afterDeparture` fired by `handleClose` is
  not modelled (it does not stop the handler). Only a synchronous throw is
  modelled (see Findings).
- Attaching and detaching the resize/scroll listeners is not modelled.
  `OnViewportChange` requires the tour to be shown, which is when the listener
  is attached.
- DOMRect coordinates are floating point in the source; the model uses integers.
  They are only compared.
- Station ids are assumed to be valid inside the CSS attribute selector. An id
  containing `"` would make `querySelector` throw.
- `stations` is fixed for a component's lifetime. A stations prop that changes
  while mounted is not modelled. The step effect depends on `stations` by
  identity (`Railway.tsx:138`), so a new array with the same content counts as
  a change: it re-runs the effect, which fires the current station's
  `beforeArrival` again. The demo (`apps/consumer/src/App.tsx:54-108`) builds
  its stations array anew on every render, so each re-render of a shown tour
  does this; the model does not capture those repeated calls.
- The context's `isCompleted`/`isViewed` arrays (`Array.from` of the sets) are
  represented by the sets. The arrays' order is not modelled.
- `centerAnchor` and `centerOffset` are not part of this model: they are not
  defined in the `Railway.utils.ts` the model follows.
- Presentation is left out as rendering, not logic: the backdrop, the Popper
  engine and its modifiers, header and footer labels, styles and `paperSx`.
- The `config.trigger` and `config.isViewed` options are declared in
  `Railway.types.ts` but never read by the library, so they have no behaviour
  to model.
- The error thrown by `useRailway` outside a provider is left out. It is a
  misuse check, not state logic.
- The `clickElement` utility is left out. It is DOM event dispatch and timing.
- The demo application is left out.
