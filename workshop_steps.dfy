/** The step navigator of the workshop page (App.jsx): a clamped index
    into the thirteen workshop screens. */
module WorkshopSteps {

  /** The ids of the `steps` array, in order. */
  const StepIds: seq<string> :=
    ["welcome", "instructor", "problem", "analogy", "trigger-gallery",
     "math-intro", "math-build", "ethics", "drafter-intro", "drafter-build",
     "complex-workflow", "summary", "feedback"]

  /** `steps.length`. */
  const StepCount: int := 13

  lemma StepCountMatches()
    ensures |StepIds| == StepCount
  {
  }

  function Min(a: int, b: int): int { if a <= b then a else b }
  function Max(a: int, b: int): int { if a >= b then a else b }

  /** The step set by `nextStep`. */
  function NextStep(step: int): int
  {
    Min(StepCount - 1, step + 1)
  }

  /** The step set by `prevStep`. */
  function PrevStep(step: int): int
  {
    Max(0, step - 1)
  }

  predicate InRange(step: int)
  {
    0 <= step < StepCount
  }

  /** Both moves stay on the screens; inside they move by one, at the ends
      they leave the step unchanged. */
  lemma StepBounds(step: int)
    requires InRange(step)
    ensures InRange(NextStep(step)) && InRange(PrevStep(step))
    ensures step < StepCount - 1 ==> NextStep(step) == step + 1
    ensures step == StepCount - 1 ==> NextStep(step) == step
    ensures step > 0 ==> PrevStep(step) == step - 1
    ensures step == 0 ==> PrevStep(step) == step
  {
  }

  /** A move that did something is undone by the opposite move. */
  lemma StepUndo(step: int)
    requires InRange(step)
    ensures step < StepCount - 1 ==> PrevStep(NextStep(step)) == step
    ensures step > 0 ==> NextStep(PrevStep(step)) == step
  {
  }

  /** `n` presses of the next button. */
  function NextTimes(step: int, n: nat): int
    decreases n
  {
    if n == 0 then step else NextTimes(NextStep(step), n - 1)
  }

  /** `n` presses of next from any screen end at `min(12, step + n)`:
      enough presses always reach the last screen, and stay there. */
  lemma {:induction false} NextTimesClamps(step: int, n: nat)
    requires InRange(step)
    ensures NextTimes(step, n) == Min(StepCount - 1, step + n)
    decreases n
  {
    if n > 0 {
      StepBounds(step);
      NextTimesClamps(NextStep(step), n - 1);
    }
  }

  /** The `AIWorkshopApp` component's step state. */
  class Stepper {
    var step: int

    ghost predicate Valid()
      reads this
    {
      InRange(step)
    }

    constructor ()
      ensures Valid() && step == 0
    {
      step := 0;
    }

    method Next()
      requires Valid()
      modifies this
      ensures Valid() && step == NextStep(old(step))
    {
      step := Min(StepCount - 1, step + 1);
    }

    method Prev()
      requires Valid()
      modifies this
      ensures Valid() && step == PrevStep(old(step))
    {
      step := Max(0, step - 1);
    }

    /** `steps[step].id`: the screen shown is always defined. */
    function CurrentId(): (id: string)
      reads this
      requires Valid()
      ensures id in StepIds
    {
      StepIds[step]
    }
  }
}
