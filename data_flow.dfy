/** The data-transformation pipeline (src/components/DataFlow/DataFlow.jsx):
    an interval ticker that walks `currentStep` through 0, 1, 2, 3 and back
    to 0, publishing the output of each of the three transform steps. */
module DataFlow {
  import opened Wrappers

  /** `transformSteps.length`. */
  const StepCount: int := 3

  /** The `output` objects of the three transform steps; the timestamp of
      the third is left out. */
  datatype Output =
    | Extracted(subject: string, sender: string, files: seq<string>)
    | Filtered(isAcademic: bool, domain: string, priority: string)
    | Enriched(category: string, keywords: seq<string>)

  /** `transformSteps[k].output`. */
  function StepOutput(k: nat): Output
    requires k < StepCount
  {
    if k == 0 then
      Extracted("Research Paper: AI in Healthcare", "researcher@university.edu", ["paper.pdf", "data.csv"])
    else if k == 1 then
      Filtered(true, "university.edu", "high")
    else
      Enriched("Research", ["AI", "Healthcare"])
  }

  /** The step after a tick that saw `prev`. */
  function NextStep(prev: int): int
  {
    if prev < StepCount then prev + 1 else 0
  }

  predicate InRange(step: int)
  {
    0 <= step <= StepCount
  }

  /** `n` ticks. */
  function StepAfter(step: int, n: nat): int
    decreases n
  {
    if n == 0 then step else StepAfter(NextStep(step), n - 1)
  }

  /** From any step in range, `n` ticks land `n` steps further on, modulo
      four. */
  lemma {:induction false} StepAfterIsShift(step: int, n: nat)
    requires InRange(step)
    ensures StepAfter(step, n) == (step + n) % (StepCount + 1)
    decreases n
  {
    if n > 0 {
      StepAfterIsShift(NextStep(step), n - 1);
      assert NextStep(step) == (step + 1) % (StepCount + 1);
      ShiftMod(step + 1, n - 1);
    }
  }

  lemma ShiftMod(a: nat, k: nat)
    ensures (a % (StepCount + 1) + k) % (StepCount + 1) == (a + k) % (StepCount + 1)
  {
  }

  /** The ticker is periodic with period four. */
  lemma Period(step: int, n: nat)
    requires InRange(step) && n % (StepCount + 1) == 0
    ensures StepAfter(step, n) == step
  {
    StepAfterIsShift(step, n);
    ShiftMod(n, step);
  }

  /** Step `index` is drawn as processing. */
  predicate Processing(step: int, index: int)
  {
    step == index + 1
  }

  /** Step `index` shows its check mark. */
  predicate Complete(step: int, index: int)
  {
    step > index + 1
  }

  /** At most one step is processing, a processing step is not complete,
      and steps before a complete one are complete. */
  lemma StatusShape(step: int, i: int, j: int)
    ensures Processing(step, i) && Processing(step, j) ==> i == j
    ensures Processing(step, i) ==> !Complete(step, i)
    ensures Complete(step, i) && j <= i ==> Complete(step, j)
  {
  }

  /** The `DataFlow` component. */
  class Flow {
    var currentStep: int
    var transformedData: Option<Output>

    /** Once anything is published, it is the output of a step already
        passed (the last step's output stays up while the counter is back
        at 0). */
    ghost predicate Valid()
      reads this
    {
      && InRange(currentStep)
      && (transformedData.Some? ==>
            exists k :: 0 <= k < StepCount && transformedData == Some(StepOutput(k)))
    }

    constructor ()
      ensures Valid() && currentStep == 0 && transformedData == None
    {
      currentStep := 0;
      transformedData := None;
    }

    /** One firing of the 2500 ms interval. */
    method Tick()
      requires Valid()
      modifies this
      ensures Valid()
      ensures currentStep == NextStep(old(currentStep))
      ensures old(currentStep) < StepCount ==> transformedData == Some(StepOutput(old(currentStep)))
      ensures old(currentStep) == StepCount ==> transformedData == old(transformedData)
    {
      var prev := currentStep;
      if prev < StepCount {
        if prev >= 0 {
          transformedData := Some(StepOutput(prev));
        }
        currentStep := prev + 1;
      } else {
        currentStep := 0;
      }
    }
  }
}
