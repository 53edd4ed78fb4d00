/** The onboarding page (frontend/app/onboarding/page.tsx): a three-step
    walk-through whose step counter the Previous and Next buttons move, and
    the indicator and buttons that depend on it. */
module Onboarding {
  import opened Text

  /** The titles of the three steps, in order. */
  const StepTitles := ["Welcome to MindCare!", "Your Privacy Matters", "Explore Your Features"]

  /** `steps.length`. */
  const StepCount := |StepTitles|

  /** nextStep: one step on, unless on the last step. */
  function Next(step: int): int
  {
    if step < StepCount - 1 then step + 1 else step
  }

  /** prevStep: one step back, unless on the first step. */
  function Prev(step: int): int
  {
    if step > 0 then step - 1 else step
  }

  /** A step the page can show. */
  predicate InRange(step: int)
  {
    0 <= step < StepCount
  }

  /** Both buttons keep the counter in 0..2. */
  lemma StepsStayInRange(step: int)
    requires InRange(step)
    ensures InRange(Next(step)) && InRange(Prev(step))
  {
  }

  /** Next moves on exactly when not on the last step; Previous moves back
      exactly when not on the first. */
  lemma StepsMoveByOne(step: int)
    requires InRange(step)
    ensures Next(step) == step <==> step == StepCount - 1
    ensures Next(step) != step ==> Next(step) == step + 1
    ensures Prev(step) == step <==> step == 0
    ensures Prev(step) != step ==> Prev(step) == step - 1
  {
  }

  /** Previous after Next from a step that is not the last restores it, and
      Next after Previous from a step that is not the first restores it. */
  lemma PrevUndoesNext(step: int)
    requires InRange(step)
    ensures step < StepCount - 1 ==> Prev(Next(step)) == step
    ensures step > 0 ==> Next(Prev(step)) == step
  {
  }

  /** The step after n presses of Next. */
  function NextTimes(step: int, n: nat): (r: int)
    ensures InRange(step) ==> InRange(r)
  {
    if n == 0 then step else Next(NextTimes(step, n - 1))
  }

  /** Pressing Next repeatedly from the first step reaches the last step
      after two presses and stays there. */
  lemma {:induction false} NextReachesLast(n: nat)
    ensures n >= StepCount - 1 ==> NextTimes(0, n) == StepCount - 1
    ensures n < StepCount - 1 ==> NextTimes(0, n) == n
  {
    if n > 0 {
      NextReachesLast(n - 1);
    }
  }

  /** Dot `index` of the indicator is filled. */
  predicate DotFilled(index: int, step: int)
  {
    index <= step
  }

  /** The filled dots of the indicator, as a count. */
  function FilledDots(step: int, n: nat): (c: nat)
    ensures c <= n
  {
    if n == 0 then 0 else FilledDots(step, n - 1) + (if DotFilled(n - 1, step) then 1 else 0)
  }

  /** On step s the first s + 1 dots are filled, so the indicator shows how
      far the walk-through has come. */
  lemma {:induction false} FilledDotsCount(step: int, n: nat)
    requires 0 <= step < n
    ensures FilledDots(step, n) == step + 1
  {
    if n - 1 > step {
      FilledDotsCount(step, n - 1);
    } else {
      AllDotsBelow(step, n - 1);
    }
  }

  /** Every one of the first n dots is filled when n <= step + 1. */
  lemma {:induction false} AllDotsBelow(step: int, n: nat)
    requires n <= step + 1
    ensures FilledDots(step, n) == n
  {
    if n > 0 {
      AllDotsBelow(step, n - 1);
    }
  }

  /** The Previous button is disabled. */
  predicate PrevDisabled(step: int)
  {
    step == 0
  }

  /** Next is replaced by "Start Chatting". */
  predicate ShowsStartChatting(step: int)
  {
    !(step < StepCount - 1)
  }

  /** Previous is disabled exactly where it would do nothing, and "Start
      Chatting" shows exactly where Next would do nothing. */
  lemma ButtonsMatchSteps(step: int)
    requires InRange(step)
    ensures PrevDisabled(step) <==> Prev(step) == step
    ensures ShowsStartChatting(step) <==> Next(step) == step
  {
  }

  /** The position text "<step + 1> of <steps.length>": the first number
      reads back as the step's position, counted from 1, and the second as
      the number of steps. */
  function Progress(step: nat): (text: string)
    ensures var d := |Decimal(step + 1)|;
      && |text| == d + 4 + |Decimal(StepCount)|
      && DecimalValue(text[..d]) == step + 1
      && text[d..d + 4] == " of "
      && DecimalValue(text[d + 4..]) == StepCount
  {
    var text := Decimal(step + 1) + " of " + Decimal(StepCount);
    var d := |Decimal(step + 1)|;
    assert text[..d] == Decimal(step + 1);
    assert text[d + 4..] == Decimal(StepCount);
    DecimalRoundTrip(step + 1);
    DecimalRoundTrip(StepCount);
    text
  }

  /** The first step reads "1 of 3" and the last "3 of 3". */
  lemma ProgressEnds()
    ensures Progress(0) == "1 of 3" && Progress(StepCount - 1) == "3 of 3"
  {
    assert Decimal(1) == "1" && Decimal(3) == "3";
  }

  /** The page's single state field. */
  class OnboardingPage {
    var currentStep: int

    constructor ()
      ensures currentStep == 0
    {
      currentStep := 0;
    }

    method NextStep()
      modifies this
      ensures currentStep == Next(old(currentStep))
    {
      if currentStep < StepCount - 1 {
        currentStep := currentStep + 1;
      }
    }

    method PrevStep()
      modifies this
      ensures currentStep == Prev(old(currentStep))
    {
      if currentStep > 0 {
        currentStep := currentStep - 1;
      }
    }
  }
}
