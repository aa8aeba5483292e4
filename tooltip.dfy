/**
 * Tooltip visibility: an `isVisible` signal and a mutable `timeoutId`, driven by mouse
 * enter/leave. Timers are explicit: `scheduled` is the set of timers this tooltip has set
 * that have neither fired nor been cleared, and `TimerFires` is the host running one.
 * Timer ids are positive, as the host hands them out, so a set `timeoutId` is truthy.
 */
module TooltipWidget {
  import opened Wrappers

  datatype Position = Top | Bottom | Left | Right

  /** `props.position || "top"`. */
  function PositionOrDefault(position: Option<Position>): (p: Position)
    ensures position.None? ==> p == Top
    ensures position.Some? ==> p == position.value
  {
    position.GetOr(Top)
  }

  /** `props.delay || 0`: a missing delay is 0. */
  function DelayOrDefault(delay: Option<int>): (d: int)
    ensures delay.None? ==> d == 0
    ensures delay.Some? ==> d == delay.value
  {
    delay.GetOr(0)
  }

  class Tooltip {
    const position: Position
    const delay: int
    var isVisible: bool
    var timeoutId: Option<nat>
    var scheduled: set<nat>
    var nextTimer: nat

    /**
     * At most one show is pending, and it is the one `timeoutId` names; ids handed out so
     * far are below `nextTimer`, so a new one is fresh.
     */
    ghost predicate Valid()
      reads this
    {
      && (forall t :: t in scheduled ==> timeoutId == Some(t))
      && (timeoutId.Some? ==> 0 < timeoutId.value < nextTimer)
      && 0 < nextTimer
    }

    /** However the events interleave, at most one show is ever pending. */
    lemma AtMostOnePending()
      requires Valid()
      ensures |scheduled| <= 1
    {
      if timeoutId.Some? && timeoutId.value in scheduled {
        assert scheduled == {timeoutId.value};
      } else {
        assert scheduled == {};
      }
    }

    /** Creation: hidden, nothing scheduled, position and delay defaulted. */
    constructor(position: Option<Position>, delay: Option<int>)
      ensures Valid()
      ensures this.position == PositionOrDefault(position) && this.delay == DelayOrDefault(delay)
      ensures !isVisible && timeoutId.None? && scheduled == {}
    {
      this.position := PositionOrDefault(position);
      this.delay := DelayOrDefault(delay);
      isVisible := false;
      timeoutId := None;
      scheduled := {};
      nextTimer := 1;
    }

    /** `clearTimeout(timeoutId)` when a timer was ever set. */
    method ClearPending()
      requires Valid()
      modifies this`scheduled
      ensures Valid() && scheduled == {}
    {
      if timeoutId.Some? {
        scheduled := scheduled - {timeoutId.value};
      }
    }

    /**
     * `handleMouseEnter`: any pending show is cancelled first; with delay 0 the tooltip shows
     * at once, otherwise a fresh timer is scheduled and visibility waits for it.
     */
    method MouseEnter()
      requires Valid()
      modifies this
      ensures Valid()
      ensures delay == 0 ==> isVisible && scheduled == {} && timeoutId == old(timeoutId)
      ensures delay != 0 ==> isVisible == old(isVisible) && timeoutId == Some(old(nextTimer)) && scheduled == {old(nextTimer)}
    {
      ClearPending();
      if delay == 0 {
        isVisible := true;
      } else {
        var t := nextTimer;
        nextTimer := nextTimer + 1;
        scheduled := scheduled + {t};
        timeoutId := Some(t);
      }
    }

    /** `handleMouseLeave`: the pending show is cancelled and the tooltip hides. */
    method MouseLeave()
      requires Valid()
      modifies this
      ensures Valid()
      ensures !isVisible && scheduled == {} && timeoutId == old(timeoutId)
    {
      ClearPending();
      isVisible := false;
    }

    /** The host runs timer `t`: a pending show makes the tooltip visible; a cleared or spent timer does nothing. */
    method TimerFires(t: nat)
      requires Valid()
      modifies this
      ensures Valid()
      ensures t in old(scheduled) ==> isVisible && scheduled == old(scheduled) - {t}
      ensures t !in old(scheduled) ==> isVisible == old(isVisible) && scheduled == old(scheduled)
      ensures timeoutId == old(timeoutId)
    {
      if t in scheduled {
        scheduled := scheduled - {t};
        isVisible := true;
      }
    }
  }

  /** Entering with no delay shows the tooltip at once; it starts hidden. */
  method ImmediateShow() returns (before: bool, after: bool)
    ensures !before && after
  {
    var tip := new Tooltip(None, None);
    before := tip.isVisible;
    tip.MouseEnter();
    after := tip.isVisible;
  }

  /** With a non-zero delay, entering schedules the show: hidden until the timer fires, visible after. */
  method DelayedShow(delay: int) returns (beforeFire: bool, afterFire: bool)
    requires delay != 0
    ensures !beforeFire && afterFire
  {
    var tip := new Tooltip(Some(Top), Some(delay));
    tip.MouseEnter();
    beforeFire := tip.isVisible;
    tip.TimerFires(tip.timeoutId.value);
    afterFire := tip.isVisible;
  }

  /** Leaving before the delay elapses cancels the show: the old timer firing later shows nothing. */
  method LeaveCancelsShow(delay: int) returns (afterFire: bool)
    requires delay != 0
    ensures !afterFire
  {
    var tip := new Tooltip(None, Some(delay));
    tip.MouseEnter();
    var t := tip.timeoutId.value;
    tip.MouseLeave();
    tip.TimerFires(t);
    afterFire := tip.isVisible;
  }

  /** Entering twice supersedes the first timer: only the second one can still show the tooltip. */
  method ReenterSupersedes(delay: int) returns (firstFires: bool, secondFires: bool)
    requires delay != 0
    ensures !firstFires && secondFires
  {
    var tip := new Tooltip(None, Some(delay));
    tip.MouseEnter();
    var first := tip.timeoutId.value;
    tip.MouseEnter();
    var second := tip.timeoutId.value;
    tip.TimerFires(first);
    firstFires := tip.isVisible;
    tip.TimerFires(second);
    secondFires := tip.isVisible;
  }
}
