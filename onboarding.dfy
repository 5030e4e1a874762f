/**
 * The Lumina onboarding tour (src/components/common/OnboardingTour.jsx):
 * five steps shown one at a time, a second after the page first opens,
 * unless the browser remembers that the tour was already seen.
 */
module Onboarding {

  /** The number of steps of the tour. */
  const StepCount: int := 5

  /**
   * The tour's state: the step shown, whether the overlay is visible,
   * the remembered `hasSeenTour` flag, and whether the one-second timer that
   * shows the overlay is still to fire.
   */
  datatype Tour = Tour(currentStep: int, isVisible: bool, hasSeenTour: bool, timerPending: bool)

  /**
   * The step is one of the five; once the tour has been seen it is neither
   * visible nor about to become visible.
   */
  predicate Valid(t: Tour)
  {
    && 0 <= t.currentStep < StepCount
    && (t.hasSeenTour ==> !t.isVisible && !t.timerPending)
    && !(t.isVisible && t.timerPending)
  }

  /** The first render: step 0, hidden, the timer set only when the tour was not seen before. */
  function Mount(hasSeenTour: bool): (r: Tour)
    ensures Valid(r) && r.currentStep == 0 && !r.isVisible
    ensures r.timerPending <==> !hasSeenTour
    ensures r.hasSeenTour == hasSeenTour
  {
    Tour(0, false, hasSeenTour, !hasSeenTour)
  }

  /** The timer fires and shows the overlay. */
  function TimerFires(t: Tour): (r: Tour)
    requires t.timerPending
    ensures r.isVisible && !r.timerPending && r.currentStep == t.currentStep
    ensures Valid(t) ==> Valid(r)
  {
    t.(isVisible := true, timerPending := false)
  }

  /**
   * The handlers below belong to buttons that exist only while the overlay
   * is rendered, that is while it is visible.
   */

  /** `handleClose`: the overlay goes and the tour is remembered as seen. */
  function Close(t: Tour): (r: Tour)
    requires t.isVisible
    ensures !r.isVisible && r.hasSeenTour && r.currentStep == t.currentStep
    ensures Valid(t) ==> Valid(r)
  {
    t.(isVisible := false, hasSeenTour := true)
  }

  /** `handleNext`: one step on, or closing on the last step. */
  function Next(t: Tour): (r: Tour)
    requires t.isVisible
    ensures t.currentStep < StepCount - 1 ==> r.currentStep == t.currentStep + 1 && r.isVisible == t.isVisible && r.hasSeenTour == t.hasSeenTour
    ensures t.currentStep >= StepCount - 1 ==> r == Close(t)
    ensures Valid(t) ==> Valid(r)
  {
    if t.currentStep < StepCount - 1 then t.(currentStep := t.currentStep + 1) else Close(t)
  }

  /** "上一步", offered only after the first step: one step back. */
  function Back(t: Tour): (r: Tour)
    requires t.isVisible && t.currentStep > 0
    ensures r.currentStep == t.currentStep - 1 && r.isVisible == t.isVisible && r.hasSeenTour == t.hasSeenTour
    ensures Valid(t) ==> Valid(r)
  {
    t.(currentStep := t.currentStep - 1)
  }

  /** `n` presses of the main button, or fewer if the tour closes first. */
  function PressNext(t: Tour, n: nat): Tour
    decreases n
  {
    if n == 0 || !t.isVisible then t else PressNext(Next(t), n - 1)
  }

  /**
   * From any step of a visible tour, the main button pressed once per
   * remaining step closes it, and fewer presses leave it open.
   */
  lemma {:induction false} PressesToFinish(t: Tour, n: nat)
    requires Valid(t) && t.isVisible
    ensures n < StepCount - t.currentStep ==> PressNext(t, n).isVisible && PressNext(t, n).currentStep == t.currentStep + n
    ensures n == StepCount - t.currentStep ==> !PressNext(t, n).isVisible && PressNext(t, n).hasSeenTour
    decreases n
  {
    if n > 0 && t.currentStep < StepCount - 1 {
      PressesToFinish(Next(t), n - 1);
    }
  }

  /** A tour mounted with the flag set never becomes visible: no timer is set. */
  lemma SeenTourStaysHidden(hasSeenTour: bool)
    requires hasSeenTour
    ensures !Mount(hasSeenTour).isVisible && !Mount(hasSeenTour).timerPending
  {
  }

  /** The component's state, updated by its handlers. */
  class TourView {
    var currentStep: int
    var isVisible: bool
    var hasSeenTour: bool
    var timerPending: bool

    function State(): Tour
      reads this
    {
      Tour(currentStep, isVisible, hasSeenTour, timerPending)
    }

    constructor(storedFlag: bool)
      ensures State() == Mount(storedFlag)
    {
      currentStep := 0;
      isVisible := false;
      hasSeenTour := storedFlag;
      timerPending := !storedFlag;
    }

    method OnTimer()
      requires timerPending
      modifies this
      ensures State() == TimerFires(old(State()))
      ensures old(Valid(State())) ==> Valid(State())
    {
      isVisible := true;
      timerPending := false;
    }

    method HandleClose()
      requires isVisible
      modifies this
      ensures State() == Close(old(State()))
      ensures old(Valid(State())) ==> Valid(State())
    {
      isVisible := false;
      hasSeenTour := true;
    }

    method HandleNext()
      requires isVisible
      modifies this
      ensures State() == Next(old(State()))
      ensures old(Valid(State())) ==> Valid(State())
    {
      if currentStep < StepCount - 1 {
        currentStep := currentStep + 1;
      } else {
        HandleClose();
      }
    }

    method HandleBack()
      requires isVisible && currentStep > 0
      modifies this
      ensures State() == Back(old(State()))
      ensures old(Valid(State())) ==> Valid(State())
    {
      currentStep := currentStep - 1;
    }
  }
}
