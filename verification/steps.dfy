/** The step counter of the multi-step forms (`useSteps` in
    src/components/ui/step-indicator.tsx). The counter starts at the given step without
    any clamping; the three moves clamp into [1, totalSteps]. */
module Steps {

  datatype Counter = Counter(currentStep: int, totalSteps: int)

  /** `useSteps(initialStep, totalSteps)`: the initial step is taken as given. */
  function UseSteps(initialStep: int, totalSteps: int): (r: Counter)
    ensures r.currentStep == initialStep && r.totalSteps == totalSteps
  {
    Counter(initialStep, totalSteps)
  }

  /** The default initial step of `useSteps`. */
  const DefaultInitialStep := 1

  /** `useSteps` called without an initial step: the counter is on the first step, which
      is in range whenever there is at least one step. */
  function UseStepsFromStart(totalSteps: int): (r: Counter)
    ensures r.currentStep == 1 && r.totalSteps == totalSteps
    ensures 1 <= totalSteps ==> InRange(r)
  {
    UseSteps(DefaultInitialStep, totalSteps)
  }

  /** The counter is on one of the steps. */
  predicate InRange(c: Counter) {
    1 <= c.currentStep <= c.totalSteps
  }

  /** `nextStep`: one step forward, but never past the last step. */
  function NextStep(c: Counter): (r: Counter)
    ensures r.totalSteps == c.totalSteps
    ensures r.currentStep <= c.totalSteps
    ensures c.currentStep < c.totalSteps ==> r.currentStep == c.currentStep + 1
    ensures c.currentStep >= c.totalSteps ==> r.currentStep == c.totalSteps
  {
    c.(currentStep := Min(c.currentStep + 1, c.totalSteps))
  }

  /** `previousStep`: one step back, but never below step 1. */
  function PreviousStep(c: Counter): (r: Counter)
    ensures r.totalSteps == c.totalSteps
    ensures r.currentStep >= 1
    ensures c.currentStep > 1 ==> r.currentStep == c.currentStep - 1
    ensures c.currentStep <= 1 ==> r.currentStep == 1
  {
    c.(currentStep := Max(c.currentStep - 1, 1))
  }

  /** `goToStep`: the target raised to at least 1, then lowered to at most the number of
      steps. */
  function GoToStep(c: Counter, step: int): (r: Counter)
    ensures r.totalSteps == c.totalSteps
    ensures r.currentStep <= c.totalSteps
    ensures c.totalSteps >= 1 ==> InRange(r)
    ensures 1 <= step <= c.totalSteps ==> r.currentStep == step
    ensures c.totalSteps >= 1 && step < 1 ==> r.currentStep == 1
    ensures step > c.totalSteps ==> r.currentStep == c.totalSteps
  {
    c.(currentStep := Min(Max(1, step), c.totalSteps))
  }

  function Min(a: int, b: int): int { if a <= b then a else b }
  function Max(a: int, b: int): int { if a >= b then a else b }

  /** `isFirstStep`. */
  predicate IsFirstStep(c: Counter) { c.currentStep == 1 }

  /** `isLastStep`. */
  predicate IsLastStep(c: Counter) { c.currentStep == c.totalSteps }

  /** The moves keep an in-range counter in range, and `goToStep` brings any counter
      into range when there is at least one step. */
  lemma MovesKeepRange(c: Counter, step: int)
    requires InRange(c)
    ensures InRange(NextStep(c)) && InRange(PreviousStep(c)) && InRange(GoToStep(c, step))
  {
  }

  /** At the last step `nextStep` does nothing, and at the first `previousStep` does
      nothing; elsewhere in range they move exactly one step. */
  lemma EndsAreFixedPoints(c: Counter)
    requires InRange(c)
    ensures IsLastStep(c) <==> NextStep(c) == c
    ensures IsFirstStep(c) <==> PreviousStep(c) == c
  {
  }

  /** Forward then back returns to the step unless it was the last; back then forward
      returns unless it was the first. */
  lemma NextThenPrevious(c: Counter)
    requires InRange(c)
    ensures !IsLastStep(c) ==> PreviousStep(NextStep(c)) == c
    ensures !IsFirstStep(c) ==> NextStep(PreviousStep(c)) == c
  {
  }

  /** `goToStep` is idempotent, and going to the current step of an in-range counter
      changes nothing. */
  lemma GoToStepIdempotent(c: Counter, step: int)
    ensures GoToStep(GoToStep(c, step), step) == GoToStep(c, step)
    ensures InRange(c) ==> GoToStep(c, c.currentStep) == c
  {
  }

  /** The initial step is not clamped: started past the end, the counter is out of range
      and `nextStep` moves it backwards to the last step. */
  lemma InitialStepIsNotClamped()
    ensures !InRange(UseSteps(5, 3))
    ensures NextStep(UseSteps(5, 3)).currentStep == 3
    ensures !IsFirstStep(UseSteps(0, 3)) && PreviousStep(UseSteps(0, 3)).currentStep == 1
  {
  }
}
