/**
 * The per-tour step engine (packages/react-railway/src/Railway.tsx).
 *
 * The pure parts (target resolution, the off-screen test, the auto-start
 * choice, which hooks a step change fires, how a measurement becomes a
 * highlight and a placement) are functions; the component's state
 * (`currentStep`, `rect`, `placement`, `prevStepRef`) is the class `Railway`,
 * whose methods are the effects and the button handlers. Calls into user hooks
 * and scrolling are recorded, in order, in the field `effects`.
 */
module StepEngine {
  import opened Wrappers
  import opened Geometry
  import opened Coordinator
  import opened Provider

  /**
   * A station: its target id (the empty string targets nothing) and which of
   * the two lifecycle hooks it defines. Title and description are content the
   * engine never inspects.
   */
  datatype Station = Station(id: string, hasBeforeArrival: bool, hasAfterDeparture: bool)

  /** A station either highlights the element carrying its id or is shown centered. */
  datatype Target = Targeted(stationId: string) | Centered

  /** `Boolean(station?.id)`: an empty id means the station has no target. */
  function TargetOf(s: Station): (t: Target)
    ensures t.Centered? <==> s.id == ""
    ensures t.Targeted? ==> t.stationId == s.id
  {
    if s.id == "" then Centered else Targeted(s.id)
  }

  /** The popover side handed to the positioning engine. */
  datatype Placement = Top | Bottom | Auto

  /** Side effects the engine triggers, in the order it triggers them. */
  datatype Effect =
    | AfterDeparture(step: nat)
    | BeforeArrival(step: nat)
    | ScrollIntoView(stationId: string)

  // ---------------------------------------------------------------------------
  // Vertical visibility

  /**
   * `isOffscreenVertically(r)`: entirely above or entirely below the viewport,
   * so that no pixel row of it is visible.
   */
  function IsOffscreenVertically(r: Rect, vp: Viewport): (off: bool)
    ensures off ==> forall y :: !RowVisible(r, vp, y)
  {
    r.bottom <= 0 || r.top >= ViewHeight(vp)
  }

  /** Pixel row `y` belongs both to the rectangle and to the viewport. */
  predicate RowVisible(r: Rect, vp: Viewport, y: int) {
    r.top <= y < r.bottom && 0 <= y < ViewHeight(vp)
  }

  /**
   * For a rectangle of positive height in a viewport of positive height, being
   * off-screen vertically means that not a single pixel row of it is visible.
   */
  lemma OffscreenIffNoVisibleRow(r: Rect, vp: Viewport)
    requires r.top < r.bottom && ViewHeight(vp) > 0
    ensures IsOffscreenVertically(r, vp) <==> forall y :: !RowVisible(r, vp, y)
  {
    if !IsOffscreenVertically(r, vp) {
      var y := if r.top < 0 then 0 else r.top;
      assert RowVisible(r, vp, y);
    }
  }

  /** A rectangle of positive height that is fully in view is never off-screen. */
  lemma FullyInViewIsOnscreen(r: Rect, vp: Viewport, pad: int)
    requires r.top < r.bottom && pad >= 0
    requires IsFullyInView(r, vp, pad)
    ensures !IsOffscreenVertically(r, vp)
  {
  }

  /** The side chosen for a measured target: below when still off-screen, else above. */
  function PlacementFor(r: Rect, vp: Viewport): (p: Placement)
    ensures p != Auto
    ensures p == Bottom <==> IsOffscreenVertically(r, vp)
  {
    if IsOffscreenVertically(r, vp) then Bottom else Top
  }

  // ---------------------------------------------------------------------------
  // Geometry resolution of one step

  /**
   * What resolving a step's geometry yields: nothing to measure (untargeted),
   * or a measurement, possibly taken after one scroll-into-view.
   */
  datatype Resolution = Untargeted | Measured(scrolled: bool, rect: Option<Rect>)

  /**
   * Measure the target in the layout `before`; if it is there and off-screen,
   * scroll once and measure again in the layout `after` the settle delay.
   */
  function Resolve(t: Target, before: Document, after: Document, vp: Viewport): (res: Resolution)
    ensures res.Untargeted? <==> t.Centered?
  {
    match t
    case Centered => Untargeted
    case Targeted(sid) =>
      var first := MeasureOnce(before, sid);
      if first.Some? && IsOffscreenVertically(first.value, vp) then Measured(true, MeasureOnce(after, sid))
      else Measured(false, first)
  }

  /**
   * An untargeted station is resolved without any measurement: the layouts and
   * the viewport do not matter.
   */
  lemma UntargetedSkipsMeasurement(b1: Document, a1: Document, vp1: Viewport, b2: Document, a2: Document, vp2: Viewport)
    ensures Resolve(Centered, b1, a1, vp1) == Resolve(Centered, b2, a2, vp2) == Untargeted
  {
  }

  /**
   * Scroll policy: the engine scrolls exactly when the first measurement exists
   * and is off-screen, and then uses the second measurement; otherwise it keeps
   * the first.
   */
  lemma ScrollPolicy(sid: string, before: Document, after: Document, vp: Viewport)
    ensures var res := Resolve(Targeted(sid), before, after, vp);
      var first := MeasureOnce(before, sid);
      && res.Measured?
      && (res.scrolled <==> first.Some? && IsOffscreenVertically(first.value, vp))
      && res.rect == (if res.scrolled then MeasureOnce(after, sid) else first)
  {
  }

  /**
   * Placement rule: a measured target is placed below only when it is still
   * off-screen after the scroll attempt; a target found on-screen is placed
   * above without scrolling.
   */
  lemma PlacementRule(sid: string, before: Document, after: Document, vp: Viewport)
    ensures var res := Resolve(Targeted(sid), before, after, vp);
      res.rect.Some? ==>
        && (PlacementFor(res.rect.value, vp) == Bottom <==> res.scrolled && IsOffscreenVertically(res.rect.value, vp))
        && (!res.scrolled ==> PlacementFor(res.rect.value, vp) == Top)
  {
  }

  /**
   * The highlight and placement shown after a resolution: none and `auto` for an
   * untargeted station; the measured rectangle and its side when a measurement
   * came back; the previous ones when the target was not found.
   */
  function Displayed(res: Resolution, oldRect: Option<Rect>, oldPlacement: Placement, vp: Viewport): (d: (Option<Rect>, Placement))
    ensures res.Untargeted? ==> d == (None, Auto)
    ensures res.Measured? && res.rect.None? ==> d == (oldRect, oldPlacement)
    ensures res.Measured? && res.rect.Some? ==> d == (res.rect, PlacementFor(res.rect.value, vp))
  {
    match res
    case Untargeted => (None, Auto)
    case Measured(_, r) => if r.Some? then (r, PlacementFor(r.value, vp)) else (oldRect, oldPlacement)
  }

  /**
   * The hooks a change to step `step` fires: the previous station's
   * `afterDeparture` when there was a previous step and it differs, then the new
   * station's `beforeArrival`; each only when the station defines it.
   */
  function HookCalls(stations: seq<Station>, prev: Option<nat>, step: nat): (r: seq<Effect>)
    ensures |r| <= 2
    ensures forall k: nat :: (AfterDeparture(k) in r
      <==> prev == Some(k) && k != step && k < |stations| && stations[k].hasAfterDeparture)
    ensures forall k: nat :: (BeforeArrival(k) in r
      <==> k == step && step < |stations| && stations[step].hasBeforeArrival)
    ensures forall i, j :: 0 <= i < j < |r| ==> r[i].AfterDeparture? && r[j].BeforeArrival?
    ensures forall e :: e in r ==> !e.ScrollIntoView?
  {
    var departure :=
      if prev.Some? && prev.value != step && prev.value < |stations| && stations[prev.value].hasAfterDeparture
      then [AfterDeparture(prev.value)] else [];
    var arrival :=
      if step < |stations| && stations[step].hasBeforeArrival then [BeforeArrival(step)] else [];
    departure + arrival
  }

  /** The scroll a resolution performed, if any. */
  function ScrollCalls(t: Target, res: Resolution): (r: seq<Effect>)
    ensures |r| <= 1
    ensures forall e :: e in r ==> e.ScrollIntoView?
    ensures |r| == 1 <==> t.Targeted? && res.Measured? && res.scrolled
  {
    if t.Targeted? && res.Measured? && res.scrolled then [ScrollIntoView(t.stationId)] else []
  }

  /**
   * One step change scrolls at most once, and only after both hooks: no effect
   * follows a scroll.
   */
  lemma AtMostOneScrollPerStep(stations: seq<Station>, prev: Option<nat>, step: nat, t: Target, res: Resolution)
    ensures var added := HookCalls(stations, prev, step) + ScrollCalls(t, res);
      forall i :: 0 <= i < |added| - 1 ==> !added[i].ScrollIntoView?
  {
    var hooks := HookCalls(stations, prev, step);
    var added := hooks + ScrollCalls(t, res);
    forall i | 0 <= i < |added| - 1 ensures !added[i].ScrollIntoView? {
      assert i < |hooks|;
      assert added[i] == hooks[i] && hooks[i] in hooks;
    }
  }

  // ---------------------------------------------------------------------------
  // Auto-start

  /** Neither completed nor viewed. */
  predicate Eligible(x: RailwayId, completed: set<RailwayId>, viewed: set<RailwayId>) {
    x !in completed && x !in viewed
  }

  /** `railwayOrder.find(...)`: the first id of the order that is neither completed nor viewed. */
  function FirstEligible(order: seq<RailwayId>, completed: set<RailwayId>, viewed: set<RailwayId>): (r: Option<RailwayId>)
    ensures r.None? <==> forall k :: 0 <= k < |order| ==> !Eligible(order[k], completed, viewed)
    ensures r.Some? ==>
      && r.value in order
      && Eligible(r.value, completed, viewed)
      && forall j :: 0 <= j < FirstIndex(order, r.value) ==> !Eligible(order[j], completed, viewed)
  {
    if |order| == 0 then None
    else if Eligible(order[0], completed, viewed) then Some(order[0])
    else
      var r := FirstEligible(order[1..], completed, viewed);
      assert forall k :: 1 <= k < |order| ==> order[k] == order[1..][k - 1];
      r
  }

  /**
   * The auto-start effect's condition for tour `id` to call `startEngine(id)`.
   * It never holds for a tour that is off, blocked, absent from the order, or
   * while another tour runs.
   */
  function ShouldAutoStart(autoStart: bool, id: RailwayId, s: State): (go: bool)
    ensures go ==> autoStart && s.runningId.None? && id in s.railwayOrder
    ensures go ==> Eligible(id, s.isCompletedSet, s.isViewedSet)
  {
    var locallyBlocked := id in s.isCompletedSet || id in s.isViewedSet;
    && autoStart
    && !locallyBlocked
    && s.runningId.None?
    && FirstEligible(s.railwayOrder, s.isCompletedSet, s.isViewedSet) == Some(id)
  }

  /**
   * A tour auto-starts exactly when auto-start is on, nothing is running, and it
   * is the first entry of the order that is neither completed nor viewed. The
   * tour's own "locally blocked" test is implied by the last condition.
   */
  lemma AutoStartIff(autoStart: bool, id: RailwayId, s: State)
    ensures ShouldAutoStart(autoStart, id, s)
        <==> && autoStart && s.runningId == None
             && id in s.railwayOrder
             && Eligible(id, s.isCompletedSet, s.isViewedSet)
             && forall j :: 0 <= j < FirstIndex(s.railwayOrder, id) ==>
                  !Eligible(s.railwayOrder[j], s.isCompletedSet, s.isViewedSet)
    ensures ShouldAutoStart(autoStart, id, s)
        <==> autoStart && s.runningId == None
             && FirstEligible(s.railwayOrder, s.isCompletedSet, s.isViewedSet) == Some(id)
  {
    var order, c, v := s.railwayOrder, s.isCompletedSet, s.isViewedSet;
    if && autoStart && s.runningId == None && id in order && Eligible(id, c, v)
       && forall j :: 0 <= j < FirstIndex(order, id) ==> !Eligible(order[j], c, v)
    {
      var i := FirstIndex(order, id);
      var first := FirstEligible(order, c, v);
      assert first.Some?;
      var k := FirstIndex(order, first.value);
      assert !(k < i);
      assert !(i < k);
    }
  }

  /** On one state, at most one tour's auto-start condition holds. */
  lemma AtMostOneAutoStarter(s: State, a: RailwayId, autoA: bool, b: RailwayId, autoB: bool)
    requires ShouldAutoStart(autoA, a, s) && ShouldAutoStart(autoB, b, s)
    ensures a == b
  {
  }

  // ---------------------------------------------------------------------------
  // Step navigation

  /** `(prev) => Math.min(prev + 1, totalStations - 1)` */
  function NextStepIndex(prev: nat, total: nat): (r: nat)
    requires total > 0
    ensures r < total
    ensures r <= prev + 1
    ensures prev + 1 < total ==> r == prev + 1
    ensures prev + 1 >= total ==> r == total - 1
  {
    if prev + 1 <= total - 1 then prev + 1 else total - 1
  }

  /** `(prev) => Math.max(prev - 1, 0)` */
  function PrevStepIndex(prev: nat): (r: nat)
    ensures r <= prev
    ensures prev > 0 ==> r == prev - 1
  {
    if prev - 1 >= 0 then prev - 1 else 0
  }

  // ---------------------------------------------------------------------------
  // The component

  /** What one run of the step effect works on: the step it began for and that step's target. */
  datatype StepRun = StepRun(step: nat, target: Target)

  class Railway {
    const id: RailwayId
    const stations: seq<Station>
    /** `config.autoStart ?? false` */
    const autoStart: bool
    const provider: RailwayProvider

    var currentStep: nat
    var rect: Option<Rect>
    var placement: Placement
    /** `prevStepRef.current` */
    var prevStep: Option<nat>
    var effects: seq<Effect>

    /** The step index stays within the stations (0 when there are none). */
    ghost predicate Valid()
      reads this
    {
      if |stations| == 0 then currentStep == 0 else currentStep < |stations|
    }

    /** Mounting: the initial component state, and `useRegisterRailway(id)` registers the tour. */
    constructor (provider: RailwayProvider, id: RailwayId, stations: seq<Station>, autoStart: bool)
      modifies provider
      ensures Valid()
      ensures this.provider == provider && this.id == id && this.stations == stations && this.autoStart == autoStart
      ensures currentStep == 0 && rect == None && placement == Bottom && prevStep == None && effects == []
      ensures provider.state == Reduce(old(provider.state), Register(id), old(provider.storage))
      ensures provider.storage == old(provider.storage)
    {
      this.provider := provider;
      this.id := id;
      this.stations := stations;
      this.autoStart := autoStart;
      currentStep := 0;
      rect := None;
      placement := Bottom;
      prevStep := None;
      effects := [];
      new;
      provider.RegisterRailway(id);
    }

    /** Unmounting unregisters the tour. */
    method Unmount()
      modifies provider
      ensures provider.state == Reduce(old(provider.state), Unregister(id), old(provider.storage))
      ensures provider.storage == old(provider.storage)
    {
      provider.UnregisterRailway(id);
    }

    /** `engineRunning && runningId === id`: the engine flag adds nothing to the id test. */
    function IsRunning(): (r: bool)
      reads this, provider
      ensures r <==> provider.state.runningId == Some(id)
    {
      provider.IsRunning() && provider.state.runningId == Some(id)
    }

    /** The render guard: the tour is shown only while it runs and has stations. */
    function Renders(): (r: bool)
      reads this, provider
      ensures r <==> provider.state.runningId == Some(id) && |stations| > 0
    {
      IsRunning() && |stations| != 0
    }

    /** The auto-start effect. */
    method AutoStartEffect()
      modifies provider
      ensures provider.state ==
        if ShouldAutoStart(autoStart, id, old(provider.state)) then old(provider.state).(runningId := Some(id))
        else old(provider.state)
      ensures provider.storage == old(provider.storage)
    {
      var s := provider.state;
      var locallyBlocked := id in s.isCompletedSet || id in s.isViewedSet;
      if !autoStart || locallyBlocked || provider.IsRunning() {
        return;
      }
      var firstEligible := FirstEligible(s.railwayOrder, s.isCompletedSet, s.isViewedSet);
      if firstEligible == Some(id) {
        provider.StartEngine(id);
      }
    }

    /**
     * The step-change effect, run to completion with nothing in between: begin
     * (fire the hooks, record the step), then resolve the new station's
     * geometry. `before` is the layout at the first measurement, `after` the
     * layout once the scroll has settled; `cancelled` says whether the effect was
     * cleaned up before its asynchronous part finished. Hook failures are
     * swallowed, so their outcome does not enter the model. This is the
     * corrected effect, which records the step when it begins. The effect as
     * the component writes it is `BeginStepAsWritten` followed by
     * `FinishStepAsWritten`, which records the step only when it ends; a
     * handler that runs while that effect is still awaiting goes between the
     * two calls. `BeginStep` and `ResolveGeometry` are the corrected halves.
     */
    method OnStepChange(before: Document, after: Document, vp: Viewport, cancelled: bool)
      requires Valid()
      modifies this`rect, this`placement, this`prevStep, this`effects
      ensures Valid()
      ensures !Renders() ==>
        rect == old(rect) && placement == old(placement) && prevStep == old(prevStep) && effects == old(effects)
      ensures Renders() ==>
        var t := TargetOf(stations[currentStep]);
        var res := Resolve(t, before, after, vp);
        && prevStep == Some(currentStep)
        && effects == old(effects) + HookCalls(stations, old(prevStep), currentStep) + ScrollCalls(t, res)
        && (cancelled ==> rect == old(rect) && placement == old(placement))
        && (!cancelled ==> (rect, placement) == Displayed(res, old(rect), old(placement), vp))
    {
      if !Renders() {
        return;
      }
      var run := BeginStep();
      ResolveGeometry(run.value.target, before, after, vp, cancelled);
    }

    /**
     * The synchronous start of the step effect: fire the hooks against the
     * previous step, and record the current step as the previous one at once,
     * so that a handler or a later step effect that runs while this one is
     * still awaiting sees it. Returns the step and target the rest of the
     * effect works on (none when the tour is not shown).
     */
    method BeginStep() returns (run: Option<StepRun>)
      requires Valid()
      modifies this`prevStep, this`effects
      ensures !Renders() ==> run == None && prevStep == old(prevStep) && effects == old(effects)
      ensures Renders() ==>
        && run == Some(StepRun(currentStep, TargetOf(stations[currentStep])))
        && effects == old(effects) + HookCalls(stations, old(prevStep), currentStep)
        && prevStep == Some(currentStep)
    {
      if !Renders() {
        return None;
      }
      FireHooks();
      prevStep := Some(currentStep);
      run := Some(StepRun(currentStep, TargetOf(stations[currentStep])));
    }

    /**
     * The start of the step effect as written: the hooks fire against
     * `prevStepRef`, but the step is recorded only when the effect finishes.
     */
    method BeginStepAsWritten() returns (run: Option<StepRun>)
      requires Valid()
      modifies this`effects
      ensures !Renders() ==> run == None && effects == old(effects)
      ensures Renders() ==>
        && run == Some(StepRun(currentStep, TargetOf(stations[currentStep])))
        && effects == old(effects) + HookCalls(stations, prevStep, currentStep)
    {
      if !Renders() {
        return None;
      }
      FireHooks();
      run := Some(StepRun(currentStep, TargetOf(stations[currentStep])));
    }

    /**
     * The end of the step effect as written: resolve the geometry, then write
     * the run's step into `prevStepRef` whether or not the effect was cancelled
     * and whatever a handler wrote there in the meantime.
     */
    method FinishStepAsWritten(run: StepRun, before: Document, after: Document, vp: Viewport, cancelled: bool)
      modifies this`rect, this`placement, this`prevStep, this`effects
      ensures effects == old(effects) + ScrollCalls(run.target, Resolve(run.target, before, after, vp))
      ensures cancelled ==> rect == old(rect) && placement == old(placement)
      ensures !cancelled ==> (rect, placement) == Displayed(Resolve(run.target, before, after, vp), old(rect), old(placement), vp)
      ensures prevStep == Some(run.step)
    {
      ResolveGeometry(run.target, before, after, vp, cancelled);
      prevStep := Some(run.step);
    }

    /** The hooks of the step effect: the departure hook, then the arrival hook. */
    method FireHooks()
      requires Valid() && |stations| > 0
      modifies this`effects
      ensures effects == old(effects) + HookCalls(stations, prevStep, currentStep)
    {
      var prev := prevStep;
      if prev.Some? && prev.value != currentStep && prev.value < |stations| && stations[prev.value].hasAfterDeparture {
        effects := effects + [AfterDeparture(prev.value)];
      }
      if stations[currentStep].hasBeforeArrival {
        effects := effects + [BeforeArrival(currentStep)];
      }
    }

    /**
     * The end of the step effect: measure, scroll and re-measure once if
     * off-screen, then show the result unless the effect was cancelled.
     */
    method ResolveGeometry(target: Target, before: Document, after: Document, vp: Viewport, cancelled: bool)
      modifies this`rect, this`placement, this`effects
      ensures effects == old(effects) + ScrollCalls(target, Resolve(target, before, after, vp))
      ensures cancelled ==> rect == old(rect) && placement == old(placement)
      ensures !cancelled ==> (rect, placement) == Displayed(Resolve(target, before, after, vp), old(rect), old(placement), vp)
    {
      if target.Centered? {
        if !cancelled {
          rect := None;
          placement := Auto;
        }
        return;
      }
      var r := MeasureOnce(before, target.stationId);
      if r.Some? && IsOffscreenVertically(r.value, vp) {
        effects := effects + [ScrollIntoView(target.stationId)];
        r := MeasureOnce(after, target.stationId);
      }
      if !cancelled && r.Some? {
        rect := r;
        placement := PlacementFor(r.value, vp);
      }
    }

    /**
     * The resize/scroll listener, attached while the tour is shown: re-measure
     * the target synchronously, with no scrolling, and update highlight and side.
     */
    method OnViewportChange(doc: Document, vp: Viewport)
      requires Valid() && Renders()
      modifies this`rect, this`placement
      ensures var t := TargetOf(stations[currentStep]);
        if t.Targeted? && MeasureOnce(doc, t.stationId).Some? then
          var r := MeasureOnce(doc, t.stationId).value;
          rect == Some(r) && placement == PlacementFor(r, vp)
        else
          rect == old(rect) && placement == old(placement)
    {
      var target := TargetOf(stations[currentStep]);
      if target.Centered? {
        return;
      }
      var r := MeasureOnce(doc, target.stationId);
      if r.None? {
        return;
      }
      rect := r;
      placement := PlacementFor(r.value, vp);
    }

    /**
     * The close button: fire the current station's `afterDeparture`, forget the
     * previous step, release the run slot, mark completed when on the last
     * station, always mark viewed, clear the highlight and go back to step 0.
     * The hook is fire-and-forget: its failure does not stop the close.
     */
    method HandleClose()
      requires Valid() && Renders()
      modifies this`effects, this`prevStep, this`rect, this`currentStep, provider
      ensures Valid() && !Renders()
      ensures effects == old(effects) + (if stations[old(currentStep)].hasAfterDeparture then [AfterDeparture(old(currentStep))] else [])
      ensures prevStep == None && rect == None && currentStep == 0 && placement == old(placement)
      ensures var last := old(currentStep) == |stations| - 1;
        provider.state == old(provider.state).(
          runningId := None,
          isCompletedSet := if last then old(provider.state.isCompletedSet) + {id} else old(provider.state.isCompletedSet),
          isViewedSet := old(provider.state.isViewedSet) + {id})
      ensures var last := old(currentStep) == |stations| - 1;
        provider.storage == SafeWriteBool(
          if last then SafeWriteBool(old(provider.storage), StorageKey(id, Completed), true) else old(provider.storage),
          StorageKey(id, Viewed), true)
      ensures old(provider.storage).Available? ==>
        SafeReadBool(provider.storage, StorageKey(id, Viewed))
        && (old(currentStep) == |stations| - 1 ==> SafeReadBool(provider.storage, StorageKey(id, Completed)))
    {
      if stations[currentStep].hasAfterDeparture {
        effects := effects + [AfterDeparture(currentStep)];
      }
      prevStep := None;
      provider.StopEngine(id);
      if currentStep == |stations| - 1 {
        provider.SetCompleted(id, true);
        PersistRoundTrip(provider.storage, id, Viewed, true, id, Completed);
      }
      provider.SetViewed(id, true);
      rect := None;
      currentStep := 0;
    }

    /**
     * The next button: on the last station, mark completed and close; otherwise
     * advance by one, clamped to the last station.
     */
    method HandleNext()
      requires Valid() && Renders()
      modifies this`effects, this`prevStep, this`rect, this`currentStep, provider
      ensures Valid()
      ensures old(currentStep) == |stations| - 1 ==>
        && !Renders()
        && currentStep == 0 && rect == None && prevStep == None
        && provider.state == old(provider.state).(
             runningId := None,
             isCompletedSet := old(provider.state.isCompletedSet) + {id},
             isViewedSet := old(provider.state.isViewedSet) + {id})
        && effects == old(effects) + (if stations[old(currentStep)].hasAfterDeparture then [AfterDeparture(old(currentStep))] else [])
        && placement == old(placement)
        && provider.storage == SafeWriteBool(
             SafeWriteBool(old(provider.storage), StorageKey(id, Completed), true),
             StorageKey(id, Viewed), true)
        && (old(provider.storage).Available? ==>
             SafeReadBool(provider.storage, StorageKey(id, Completed))
             && SafeReadBool(provider.storage, StorageKey(id, Viewed)))
      ensures old(currentStep) < |stations| - 1 ==>
        && currentStep == NextStepIndex(old(currentStep), |stations|) == old(currentStep) + 1
        && rect == old(rect) && prevStep == old(prevStep) && effects == old(effects)
        && provider.state == old(provider.state) && provider.storage == old(provider.storage)
    {
      if currentStep == |stations| - 1 {
        provider.SetCompleted(id, true);
        HandleClose();
        // The second write under the completed key stores the same value.
        PersistRoundTrip(old(provider.storage), id, Completed, true, id, Completed);
        RewriteIsNoOp(old(provider.storage), StorageKey(id, Completed), true);
      } else {
        currentStep := NextStepIndex(currentStep, |stations|);
      }
    }

    /** The previous button: step back by one, never below 0. */
    method HandlePrev()
      requires Valid() && Renders()
      modifies this`currentStep
      ensures Valid()
      ensures currentStep == PrevStepIndex(old(currentStep))
      ensures old(currentStep) == 0 ==> currentStep == 0
      ensures old(currentStep) > 0 ==> currentStep == old(currentStep) - 1
    {
      currentStep := PrevStepIndex(currentStep);
    }

    /**
     * `handleClose` as written: the `afterDeparture` call is not guarded, so a
     * hook that throws synchronously ends the handler there, before the run
     * slot is released or anything is marked.
     */
    method HandleCloseAsWritten(departureThrows: bool) returns (threw: bool)
      requires Valid() && Renders()
      modifies this`effects, this`prevStep, this`rect, this`currentStep, provider
      ensures Valid()
      ensures threw <==> departureThrows && stations[old(currentStep)].hasAfterDeparture
      ensures effects == old(effects) +
        (if stations[old(currentStep)].hasAfterDeparture then [AfterDeparture(old(currentStep))] else [])
      ensures threw ==>
        && Renders()
        && provider.state == old(provider.state) && provider.storage == old(provider.storage)
        && currentStep == old(currentStep) && prevStep == old(prevStep) && rect == old(rect)
      ensures !threw ==> !Renders() && currentStep == 0 && rect == None && prevStep == None
      ensures !threw ==>
        var last := old(currentStep) == |stations| - 1;
        provider.state == old(provider.state).(
          runningId := None,
          isCompletedSet := if last then old(provider.state.isCompletedSet) + {id} else old(provider.state.isCompletedSet),
          isViewedSet := old(provider.state.isViewedSet) + {id})
      ensures !threw ==>
        var last := old(currentStep) == |stations| - 1;
        provider.storage == SafeWriteBool(
          if last then SafeWriteBool(old(provider.storage), StorageKey(id, Completed), true) else old(provider.storage),
          StorageKey(id, Viewed), true)
    {
      threw := false;
      if stations[currentStep].hasAfterDeparture {
        effects := effects + [AfterDeparture(currentStep)];
        if departureThrows {
          threw := true;
          return;
        }
      }
      prevStep := None;
      provider.StopEngine(id);
      if currentStep == |stations| - 1 {
        provider.SetCompleted(id, true);
      }
      provider.SetViewed(id, true);
      rect := None;
      currentStep := 0;
    }

    /**
     * `handleNext` as written: on the last station it marks the tour completed
     * and then calls the unguarded close, so a throwing `afterDeparture` leaves
     * a tour that is completed but still running and shown.
     */
    method HandleNextAsWritten(departureThrows: bool) returns (threw: bool)
      requires Valid() && Renders()
      modifies this`effects, this`prevStep, this`rect, this`currentStep, provider
      ensures Valid()
      ensures threw <==>
        old(currentStep) == |stations| - 1 && departureThrows && stations[old(currentStep)].hasAfterDeparture
      ensures old(currentStep) == |stations| - 1 ==> id in provider.state.isCompletedSet
      ensures old(currentStep) == |stations| - 1 ==>
        effects == old(effects) +
          (if stations[old(currentStep)].hasAfterDeparture then [AfterDeparture(old(currentStep))] else [])
      ensures threw ==>
        && Renders() && currentStep == old(currentStep) && prevStep == old(prevStep) && rect == old(rect)
        && provider.state == old(provider.state).(isCompletedSet := old(provider.state.isCompletedSet) + {id})
        && provider.storage == SafeWriteBool(old(provider.storage), StorageKey(id, Completed), true)
      ensures old(currentStep) == |stations| - 1 && !threw ==>
        && !Renders() && currentStep == 0 && rect == None && prevStep == None
        && provider.state == old(provider.state).(
          runningId := None,
          isCompletedSet := old(provider.state.isCompletedSet) + {id},
          isViewedSet := old(provider.state.isViewedSet) + {id})
        && provider.storage == SafeWriteBool(
          SafeWriteBool(old(provider.storage), StorageKey(id, Completed), true), StorageKey(id, Viewed), true)
      ensures old(currentStep) < |stations| - 1 ==>
        && !threw && currentStep == old(currentStep) + 1
        && rect == old(rect) && prevStep == old(prevStep) && effects == old(effects)
        && provider.state == old(provider.state) && provider.storage == old(provider.storage)
    {
      threw := false;
      if currentStep == |stations| - 1 {
        provider.SetCompleted(id, true);
        threw := HandleCloseAsWritten(departureThrows);
        RewriteIsNoOp(old(provider.storage), StorageKey(id, Completed), true);
      } else {
        currentStep := NextStepIndex(currentStep, |stations|);
      }
    }
  }

  /**
   * A tour whose only station's `afterDeparture` throws cannot be closed by the
   * handler as written: after the close it is still running and shown.
   */
  method ThrowingDepartureKeepsTourOpen() returns (stillShown: bool)
    ensures stillShown
  {
    var p := new RailwayProvider(Unavailable);
    var tour := new Railway(p, "tour", [Station("", false, true)], false);
    p.StartEngine("tour");
    var threw := tour.HandleCloseAsWritten(true);
    stillShown := tour.Renders();
  }

  /**
   * A tour with three stations and auto-start, alone in the order, neither
   * completed nor viewed and with nothing running, starts itself.
   */
  method AutoStartScenario() returns (running: Option<RailwayId>)
    ensures running == Some("T")
  {
    var p := new RailwayProvider(Available(map[]));
    var stations := [Station("first", false, false), Station("", false, false), Station("third", false, false)];
    var tour := new Railway(p, "T", stations, true);
    assert p.state.railwayOrder == ["T"];
    tour.AutoStartEffect();
    running := p.state.runningId;
  }

  /**
   * Finishing a tour: `next` on the last station marks it completed and viewed
   * and frees the run slot.
   */
  method FinishScenario() returns (completed: bool, viewed: bool, running: Option<RailwayId>)
    ensures completed && viewed && running == None
  {
    var p := new RailwayProvider(Available(map[]));
    var tour := new Railway(p, "T", [Station("a", true, true), Station("b", true, true)], false);
    p.StartEngine("T");
    tour.HandleNext();
    tour.HandleNext();
    completed := "T" in p.state.isCompletedSet;
    viewed := "T" in p.state.isViewedSet;
    running := p.state.runningId;
  }

  /** A freshly mounted tour over `stations`, started by hand, with nothing fired yet. */
  method MountAndStart(stations: seq<Station>) returns (tour: Railway)
    requires |stations| > 0
    ensures fresh(tour) && fresh(tour.provider)
    ensures tour.Valid() && tour.Renders() && tour.stations == stations
    ensures tour.currentStep == 0 && tour.prevStep == None && tour.effects == []
  {
    var p := new RailwayProvider(Unavailable);
    tour := new Railway(p, "T", stations, false);
    p.StartEngine("T");
  }

  /** A station with no target whose only hook is `afterDeparture`. */
  function DepartingStation(): Station {
    Station("", false, true)
  }

  /** Every station of the tour has no target and only an `afterDeparture` hook. */
  predicate AllDeparting(tour: Railway)
    reads tour
  {
    forall i :: 0 <= i < |tour.stations| ==> tour.stations[i] == DepartingStation()
  }

  /**
   * On a started tour of at least two such stations: step 0's effect runs to
   * the end, `next`, and step 1's effect begins and is left awaiting.
   */
  method ToStepOneInFlight(tour: Railway, asWritten: bool, vp: Viewport) returns (run1: StepRun)
    requires tour.Valid() && tour.Renders() && AllDeparting(tour) && |tour.stations| >= 2
    requires tour.currentStep == 0 && tour.prevStep == None && tour.effects == []
    modifies tour, tour.provider
    ensures tour.Valid() && tour.Renders() && tour.currentStep == 1
    ensures run1 == StepRun(1, Centered)
    ensures tour.effects == [AfterDeparture(0)]
    ensures tour.prevStep == if asWritten then Some(0) else Some(1)
  {
    var run0 := BeginRun(tour, asWritten);
    assert HookCalls(tour.stations, None, 0) == [];
    FinishRun(tour, asWritten, run0.value, vp, false);
    tour.HandleNext();
    assert HookCalls(tour.stations, Some(0), 1) == [AfterDeparture(0)];
    var run := BeginRun(tour, asWritten);
    run1 := run.value;
  }

  /**
   * On a started two-station tour: step 0's effect runs to the end, `next`,
   * step 1's effect begins, `close` lands while it awaits, the effect ends
   * (cancelled), and the tour is started again.
   */
  method CloseInFlightRun(tour: Railway, asWritten: bool, vp: Viewport)
    requires tour.Valid() && tour.Renders() && AllDeparting(tour) && |tour.stations| == 2
    requires tour.currentStep == 0 && tour.prevStep == None && tour.effects == []
    modifies tour, tour.provider
    ensures asWritten ==> tour.effects == [AfterDeparture(0), AfterDeparture(1), AfterDeparture(1)]
    ensures !asWritten ==> tour.effects == [AfterDeparture(0), AfterDeparture(1)]
  {
    var run1 := ToStepOneInFlight(tour, asWritten, vp);
    CloseDuringRun(tour, asWritten, run1, vp);
    RestartRun(tour, asWritten);
  }

  /** `close` while step 1's effect awaits, then the effect's (cancelled) end. */
  method CloseDuringRun(tour: Railway, asWritten: bool, run1: StepRun, vp: Viewport)
    requires tour.Valid() && tour.Renders() && AllDeparting(tour) && |tour.stations| == 2
    requires tour.currentStep == 1 && run1 == StepRun(1, Centered) && tour.effects == [AfterDeparture(0)]
    modifies tour, tour.provider
    ensures tour.Valid() && tour.currentStep == 0
    ensures tour.effects == [AfterDeparture(0), AfterDeparture(1)]
    ensures tour.prevStep == if asWritten then Some(1) else None
  {
    tour.HandleClose();
    FinishRun(tour, asWritten, run1, vp, true);
  }

  /** The tour is started again and its step 0 effect begins. */
  method RestartRun(tour: Railway, asWritten: bool)
    requires tour.Valid() && AllDeparting(tour) && |tour.stations| == 2 && tour.currentStep == 0
    requires tour.effects == [AfterDeparture(0), AfterDeparture(1)]
    requires tour.prevStep == if asWritten then Some(1) else None
    modifies tour, tour.provider
    ensures asWritten ==> tour.effects == [AfterDeparture(0), AfterDeparture(1), AfterDeparture(1)]
    ensures !asWritten ==> tour.effects == [AfterDeparture(0), AfterDeparture(1)]
  {
    tour.provider.StartEngine(tour.id);
    var departed := if asWritten then [AfterDeparture(1)] else [];
    assert HookCalls(tour.stations, tour.prevStep, 0) == departed;
    var restart := BeginRun(tour, asWritten);
  }

  /**
   * On a started three-station tour: step 0's effect runs to the end, `next`,
   * step 1's effect begins, `next` again while it awaits, step 2's effect
   * begins, and both effects end, the cancelled one first.
   */
  method NextInFlightRun(tour: Railway, asWritten: bool, vp: Viewport)
    requires tour.Valid() && tour.Renders() && AllDeparting(tour) && |tour.stations| == 3
    requires tour.currentStep == 0 && tour.prevStep == None && tour.effects == []
    modifies tour, tour.provider
    ensures asWritten ==> tour.effects == [AfterDeparture(0), AfterDeparture(0)]
    ensures !asWritten ==> tour.effects == [AfterDeparture(0), AfterDeparture(1)]
  {
    var run1 := ToStepOneInFlight(tour, asWritten, vp);
    NextAndSettle(tour, asWritten, run1, vp);
  }

  /** `next` while step 1's effect awaits, step 2's effect, and both effects' ends. */
  method NextAndSettle(tour: Railway, asWritten: bool, run1: StepRun, vp: Viewport)
    requires tour.Valid() && tour.Renders() && AllDeparting(tour) && |tour.stations| == 3
    requires tour.currentStep == 1 && run1 == StepRun(1, Centered) && tour.effects == [AfterDeparture(0)]
    requires tour.prevStep == if asWritten then Some(0) else Some(1)
    modifies tour, tour.provider
    ensures asWritten ==> tour.effects == [AfterDeparture(0), AfterDeparture(0)]
    ensures !asWritten ==> tour.effects == [AfterDeparture(0), AfterDeparture(1)]
  {
    tour.HandleNext();
    var departed := if asWritten then AfterDeparture(0) else AfterDeparture(1);
    assert HookCalls(tour.stations, tour.prevStep, 2) == [departed];
    var run2 := BeginRun(tour, asWritten);
    FinishRun(tour, asWritten, run1, vp, true);
    FinishRun(tour, asWritten, run2.value, vp, false);
  }

  /** The start of a step effect, as written or corrected. */
  method BeginRun(tour: Railway, asWritten: bool) returns (run: Option<StepRun>)
    requires tour.Valid() && tour.Renders()
    modifies tour`prevStep, tour`effects
    ensures run == Some(StepRun(tour.currentStep, TargetOf(tour.stations[tour.currentStep])))
    ensures tour.effects == old(tour.effects) + HookCalls(tour.stations, old(tour.prevStep), tour.currentStep)
    ensures tour.prevStep == if asWritten then old(tour.prevStep) else Some(tour.currentStep)
  {
    if asWritten {
      run := tour.BeginStepAsWritten();
    } else {
      run := tour.BeginStep();
    }
  }

  /** The end of a step effect for an untargeted station, as written or corrected. */
  method FinishRun(tour: Railway, asWritten: bool, run: StepRun, vp: Viewport, cancelled: bool)
    requires run.target == Centered
    modifies tour`rect, tour`placement, tour`prevStep, tour`effects
    ensures tour.effects == old(tour.effects)
    ensures tour.prevStep == if asWritten then Some(run.step) else old(tour.prevStep)
  {
    if asWritten {
      tour.FinishStepAsWritten(run, [], [], vp, cancelled);
    } else {
      tour.ResolveGeometry(run.target, [], [], vp, cancelled);
    }
  }

  /**
   * Closing while the step effect for step 1 is still awaiting, with the
   * effect as written: the effect's late write of `prevStepRef` undoes the
   * close's reset, so when the tour is started again its first step fires
   * step 1's `afterDeparture` a second time.
   */
  method CloseInFlightAsWritten(vp: Viewport) returns (fired: seq<Effect>)
    ensures fired == [AfterDeparture(0), AfterDeparture(1), AfterDeparture(1)]
  {
    var tour := MountAndStart([DepartingStation(), DepartingStation()]);
    assert AllDeparting(tour);
    CloseInFlightRun(tour, true, vp);
    fired := tour.effects;
  }

  /** The same sequence with the step recorded when the effect begins: no repeat. */
  method CloseInFlight(vp: Viewport) returns (fired: seq<Effect>)
    ensures fired == [AfterDeparture(0), AfterDeparture(1)]
  {
    var tour := MountAndStart([DepartingStation(), DepartingStation()]);
    assert AllDeparting(tour);
    CloseInFlightRun(tour, false, vp);
    fired := tour.effects;
  }

  /**
   * Pressing next twice while step 1's effect is still awaiting, with the
   * effect as written: step 2's effect still sees step 0 as the previous step,
   * so step 0 departs twice and step 1 never departs.
   */
  method NextInFlightAsWritten(vp: Viewport) returns (fired: seq<Effect>)
    ensures fired == [AfterDeparture(0), AfterDeparture(0)]
  {
    var tour := MountAndStart([DepartingStation(), DepartingStation(), DepartingStation()]);
    assert AllDeparting(tour);
    NextInFlightRun(tour, true, vp);
    fired := tour.effects;
  }

  /** The same sequence with the step recorded when the effect begins: each step departs once. */
  method NextInFlight(vp: Viewport) returns (fired: seq<Effect>)
    ensures fired == [AfterDeparture(0), AfterDeparture(1)]
  {
    var tour := MountAndStart([DepartingStation(), DepartingStation(), DepartingStation()]);
    assert AllDeparting(tour);
    NextInFlightRun(tour, false, vp);
    fired := tour.effects;
  }
}
