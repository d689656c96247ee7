/**
 * The giving tracker: once scrolled into view it animates the displayed total
 * up to the configured amount, then, on every interval tick, adds a simulated
 * donation that never carries the total past the goal.
 */
module GivingTracker {
  import opened Common

  /** The smallest simulated donation, unless less than that is left to the goal. */
  const MIN_INCREMENT: int := 500
  /** The floor of the goal-scaled base increment. */
  const BASE_FLOOR: int := 1500

  /** `Math.round(goal * 0.01)`: a hundredth of the goal, halves rounded up. */
  function RoundedHundredth(goal: int): (r: int)
    ensures 100 * r - 50 <= goal < 100 * r + 50
  {
    (goal + 50) / 100
  }

  /** `baseIncrement`: a hundredth of the goal, but never below 1500. */
  function BaseIncrement(goal: int): (b: int)
    ensures b >= BASE_FLOOR && b >= RoundedHundredth(goal)
    ensures b == BASE_FLOOR || b == RoundedHundredth(goal)
  {
    Max(BASE_FLOOR, RoundedHundredth(goal))
  }

  /**
   * `randomIncrement`: the base scaled by a factor in [0.5, 1) drawn from
   * `draw` (the value of `Math.random()`), at least 500, at most what is left.
   */
  function Increment(goal: int, current: int, draw: real): (inc: int)
    requires current < goal
    ensures inc <= goal - current
    ensures inc >= Min(MIN_INCREMENT, goal - current)
    ensures inc > 0
    ensures 0.0 <= draw < 1.0 ==> inc <= BaseIncrement(goal)
  {
    var factor := 0.5 + draw * 0.5;
    var scaled := (BaseIncrement(goal) as real * factor).Floor;
    ScaledFloorAtMost(BaseIncrement(goal), factor);
    Min(goal - current, Max(MIN_INCREMENT, scaled))
  }

  /** Scaling a non-negative amount by a factor of at most 1 and rounding down does not enlarge it. */
  lemma ScaledFloorAtMost(b: int, f: real)
    ensures b >= 0 && f <= 1.0 ==> (b as real * f).Floor <= b
  {
    if b >= 0 && f <= 1.0 {
      var x := b as real * f;
      assert b as real - x == b as real * (1.0 - f);
      assert b as real * (1.0 - f) >= 0.0;
    }
  }

  /** New supporters per tick, `Math.floor(5 + Math.random() * 15)`. */
  function SupporterGrowth(draw: real): (g: int)
    requires 0.0 <= draw < 1.0
    ensures 5 <= g <= 19
  {
    (5.0 + draw * 15.0).Floor
  }

  /** The total after one tick and the animation it starts have run to completion. */
  function Tick(goal: int, current: int, draw: real): (next: int)
    ensures current >= goal ==> next == current
    ensures current < goal ==> current + Min(MIN_INCREMENT, goal - current) <= next <= goal
  {
    if current >= goal then current else current + Increment(goal, current, draw)
  }

  /** The total after one completed tick per draw. */
  function AmountAfter(goal: int, current: int, draws: seq<real>): (amount: int)
    ensures amount >= current
    decreases |draws|
  {
    if draws == [] then current else AmountAfter(goal, Tick(goal, current, draws[0]), draws[1..])
  }

  /** From at or below the goal, ticks only raise the total, and never past the goal. */
  lemma {:induction false} NeverOvershoots(goal: int, current: int, draws: seq<real>)
    requires current <= goal
    ensures current <= AmountAfter(goal, current, draws) <= goal
    decreases |draws|
  {
    if draws != [] {
      NeverOvershoots(goal, Tick(goal, current, draws[0]), draws[1..]);
    }
  }

  /** Once the goal is reached, ticks change nothing. */
  lemma {:induction false} StopsAtGoal(goal: int, current: int, draws: seq<real>)
    requires current >= goal
    ensures AmountAfter(goal, current, draws) == current
    decreases |draws|
  {
    if draws != [] {
      StopsAtGoal(goal, current, draws[1..]);
    }
  }

  /** Whatever the draws, ceil((goal - current) / 500) ticks reach the goal exactly. */
  lemma {:induction false} ReachesGoal(goal: int, current: int, draws: seq<real>)
    requires current <= goal
    requires |draws| >= (goal - current + MIN_INCREMENT - 1) / MIN_INCREMENT
    ensures AmountAfter(goal, current, draws) == goal
    decreases |draws|
  {
    if current == goal {
      StopsAtGoal(goal, current, draws);
    } else {
      var next := Tick(goal, current, draws[0]);
      assert next == goal || next >= current + MIN_INCREMENT;
      ReachesGoal(goal, next, draws[1..]);
    }
  }

  /** The tracker's counters and the flags its handlers consult. */
  class Tracker {
    const goal: int
    const updateInterval: int
    var currentAmount: int
    var supporterCount: int
    /** The repeating `scheduleUpdate` timer is set. */
    var timerActive: bool
    var hasActivated: bool
    var isAnimating: bool
    /** Where the running animation ends. */
    var targetAmount: int
    var targetSupporters: int
    /** The total the tracker may never pass: the goal, or the configured start if above it. */
    ghost const ceiling: int

    ghost predicate Valid()
      reads this
    {
      && ceiling == Max(goal, ceiling)
      && currentAmount <= ceiling
      && (isAnimating ==> currentAmount <= targetAmount <= ceiling)
      && (timerActive ==> hasActivated && updateInterval > 0)
    }

    /**
     * Reads the `data-goal`, `data-current`, `data-supporters` and
     * `data-update-interval` attributes; each is `Number(...) || default`,
     * so a 0 here stands for a missing or unparsable attribute.
     */
    constructor(goalAttr: int, currentAttr: int, supportersAttr: int, intervalAttr: int)
      ensures Valid()
      ensures goal == (if goalAttr == 0 then 1 else goalAttr)
      ensures currentAmount == currentAttr && supporterCount == supportersAttr
      ensures updateInterval == intervalAttr
      ensures !timerActive && !hasActivated && !isAnimating
      ensures ceiling == Max(goal, currentAttr)
    {
      goal := if goalAttr == 0 then 1 else goalAttr;
      updateInterval := intervalAttr;
      currentAmount, supporterCount := currentAttr, supportersAttr;
      timerActive, hasActivated, isAnimating := false, false, false;
      targetAmount, targetSupporters := 0, 0;
      ceiling := Max(if goalAttr == 0 then 1 else goalAttr, currentAttr);
    }

    /** `animateState`: ignored while an animation runs; otherwise starts one towards the target. */
    method AnimateState(amount: int, supporters: int)
      requires Valid()
      requires !isAnimating ==> currentAmount <= amount <= ceiling
      modifies this`isAnimating, this`targetAmount, this`targetSupporters
      ensures Valid()
      ensures old(isAnimating) ==> isAnimating && targetAmount == old(targetAmount)
                                   && targetSupporters == old(targetSupporters)
      ensures !old(isAnimating) ==> isAnimating && targetAmount == amount && targetSupporters == supporters
    {
      if isAnimating {
        return;
      }
      isAnimating := true;
      targetAmount, targetSupporters := amount, supporters;
    }

    /**
     * The animation's last frame: the counters take the target values, and
     * the repeating timer is cleared once the goal is reached.
     */
    method FinishAnimation()
      requires Valid() && isAnimating
      modifies this`currentAmount, this`supporterCount, this`timerActive, this`isAnimating
      ensures Valid() && !isAnimating
      ensures currentAmount == old(targetAmount) && supporterCount == old(targetSupporters)
      ensures currentAmount >= old(currentAmount)
      ensures timerActive == (old(timerActive) && currentAmount < goal)
    {
      currentAmount, supporterCount := targetAmount, targetSupporters;
      if currentAmount >= goal && timerActive {
        timerActive := false;
      }
      isAnimating := false;
    }

    /** The intersection observer: the first sighting animates in and starts the timer. */
    method Activate()
      requires Valid()
      modifies this`hasActivated, this`isAnimating, this`targetAmount, this`targetSupporters, this`timerActive
      ensures Valid() && hasActivated
      ensures old(hasActivated) ==> timerActive == old(timerActive) && isAnimating == old(isAnimating)
                                    && targetAmount == old(targetAmount) && targetSupporters == old(targetSupporters)
      ensures !old(hasActivated) && old(isAnimating) ==>
        isAnimating && targetAmount == old(targetAmount) && targetSupporters == old(targetSupporters)
      ensures !old(hasActivated) && !old(isAnimating) ==>
        isAnimating && targetAmount == currentAmount && targetSupporters == supporterCount
      ensures !old(hasActivated) ==> timerActive == (old(timerActive) || updateInterval > 0)
    {
      if hasActivated {
        return;
      }
      hasActivated := true;
      AnimateState(currentAmount, supporterCount);
      if updateInterval > 0 {
        timerActive := true;
      }
    }

    /**
     * `scheduleUpdate`: skipped while animating; at the goal it clears the
     * timer and starts nothing; otherwise it animates towards a total raised
     * by at least min(500, what is left) and at most what is left.
     */
    method ScheduleUpdate(amountDraw: real, supporterDraw: real)
      requires Valid()
      requires 0.0 <= supporterDraw < 1.0
      modifies this`timerActive, this`isAnimating, this`targetAmount, this`targetSupporters
      ensures Valid()
      ensures old(isAnimating) ==> isAnimating && timerActive == old(timerActive)
                                   && targetAmount == old(targetAmount) && targetSupporters == old(targetSupporters)
      ensures !old(isAnimating) && currentAmount >= goal ==>
        !timerActive && !isAnimating && targetAmount == old(targetAmount) && targetSupporters == old(targetSupporters)
      ensures !old(isAnimating) && currentAmount < goal ==>
        && isAnimating && timerActive == old(timerActive)
        && targetAmount == Tick(goal, currentAmount, amountDraw)
        && Min(MIN_INCREMENT, goal - currentAmount) <= targetAmount - currentAmount <= goal - currentAmount
        && 5 <= targetSupporters - supporterCount <= 19
    {
      if isAnimating {
        return;
      }
      if currentAmount >= goal {
        if timerActive {
          timerActive := false;
        }
        return;
      }
      var randomIncrement := Increment(goal, currentAmount, amountDraw);
      var nextAmount := currentAmount + randomIncrement;
      var nextSupporters := supporterCount + SupporterGrowth(supporterDraw);
      AnimateState(nextAmount, nextSupporters);
    }
  }
}
