/** Progress arithmetic and the step markers (src/components/ProgressIndicator.tsx,
    and `getProgressPercentage` in src/hooks/useApplication.ts): percentages
    are rounded with `Math.round`, here in exact integer arithmetic. */
module ProgressIndicator {
  import opened Wrappers
  import Strings

  /** r = floor(num/den + 1/2) for a positive den, multiplied out:
      r <= num/den + 1/2 < r + 1. This is `Math.round(num / den)`, which
      rounds halves upwards. */
  predicate RoundsTo(num: int, den: int, r: int)
    requires den > 0
  {
    2 * den * r <= 2 * num + den < 2 * den * (r + 1)
  }

  /** `Math.round(num / den)` for a positive denominator. */
  function Round(num: int, den: int): (r: int)
    requires den > 0
    ensures RoundsTo(num, den, r)
    ensures forall r' :: RoundsTo(num, den, r') ==> r' == r
  {
    var a, b := 2 * num + den, 2 * den;
    var q := a / b;
    assert a == b * q + a % b && 0 <= a % b < b;
    forall r' | RoundsTo(num, den, r') ensures r' == q {
      CancelLess(b, r', q + 1);
      CancelLess(b, q, r' + 1);
    }
    q
  }

  /** A positive factor can be cancelled from a strict inequality. */
  lemma CancelLess(b: int, x: int, y: int)
    requires b > 0 && b * x < b * y
    ensures x < y
  {
  }

  /** `Math.round((done / total) * 100)`; None where the quotient is not a
      finite number (a zero total). A negative total divides the negated
      numerator by the negated total. */
  function Percent(done: int, total: int): (p: Option<int>)
    ensures p.None? <==> total == 0
    ensures total > 0 ==> RoundsTo(100 * done, total, p.value)
    ensures total < 0 ==> RoundsTo(-100 * done, -total, p.value)
  {
    if total == 0 then None
    else if total > 0 then Some(Round(100 * done, total))
    else Some(Round(-100 * done, -total))
  }

  /** The displayed percentages of the component's examples: 2 of 6 is 33,
      3 of 5 is 60, 1 of 6 is 17; and progress stays within 0..100. */
  lemma PercentExamples()
    ensures Percent(2, 6) == Some(33) && Percent(3, 5) == Some(60) && Percent(1, 6) == Some(17)
    ensures Percent(0, 6) == Some(0) && Percent(6, 6) == Some(100)
  {
  }

  /** Progress through the steps stays within 0..100. */
  lemma PercentBounds(done: int, total: int)
    requires 0 <= done <= total && total > 0
    ensures Percent(done, total).Some? && 0 <= Percent(done, total).value <= 100
  {
    var r := Percent(done, total).value;
    var b := 2 * total;
    assert b * r <= 200 * done + total < b * (r + 1);
    assert 200 * done <= 200 * total;
    CancelLess(b, 0, r + 1);
    CancelLess(b, r, 101);
  }

  /** "Question {currentStep} of {totalSteps}". */
  function Header(currentStep: int, totalSteps: int): string {
    "Question " + Strings.IntToString(currentStep) + " of " + Strings.IntToString(totalSteps)
  }

  lemma HeaderExample()
    ensures Header(3, 6) == "Question 3 of 6"
  {
  }

  datatype Status = Done | Current | Pending

  /** A marker shows a check when done and its one-based number otherwise. */
  datatype Content = Check | Number(n: int)

  datatype Marker = Marker(status: Status, content: Content)

  /** The marker at `index`. */
  function MarkerAt(index: nat, completedSteps: int, currentStep: int): (m: Marker)
    ensures m.status == Done <==> index < completedSteps
    ensures m.status == Current <==> !(index < completedSteps) && index == currentStep - 1
    ensures m.content == Check <==> m.status == Done
    ensures m.content.Number? ==> m.content.n == index + 1
  {
    if index < completedSteps then Marker(Done, Check)
    else if index == currentStep - 1 then Marker(Current, Number(index + 1))
    else Marker(Pending, Number(index + 1))
  }

  /** `Array.from({ length: totalSteps }, ...)`: a negative length gives none. */
  function Markers(completedSteps: int, currentStep: int, totalSteps: int): (ms: seq<Marker>)
    ensures |ms| == if totalSteps < 0 then 0 else totalSteps
    ensures forall i :: 0 <= i < |ms| ==> ms[i] == MarkerAt(i, completedSteps, currentStep)
  {
    var n := if totalSteps < 0 then 0 else totalSteps;
    seq(n, i requires 0 <= i < n => MarkerAt(i, completedSteps, currentStep))
  }

  function CountDone(ms: seq<Marker>): nat {
    if |ms| == 0 then 0 else CountDone(ms[..|ms| - 1]) + (if ms[|ms| - 1].status == Done then 1 else 0)
  }

  /** The number of check marks is completedSteps clamped to 0..totalSteps. */
  lemma {:induction false} DoneMarkers(completedSteps: int, currentStep: int, totalSteps: nat)
    ensures CountDone(Markers(completedSteps, currentStep, totalSteps)) ==
              if completedSteps < 0 then 0
              else if completedSteps > totalSteps then totalSteps
              else completedSteps
  {
    var ms := Markers(completedSteps, currentStep, totalSteps);
    if totalSteps > 0 {
      var prev := Markers(completedSteps, currentStep, totalSteps - 1);
      assert ms[..totalSteps - 1] == prev;
      DoneMarkers(completedSteps, currentStep, totalSteps - 1);
    }
  }

  /** As wired by the application flow (completedSteps = currentStep - 1),
      the markers before the current step are checked, the current one is
      highlighted and the rest are pending. */
  lemma FlowMarkers(currentStep: int, totalSteps: int, i: nat)
    requires i < totalSteps
    ensures var m := Markers(currentStep - 1, currentStep, totalSteps)[i];
            && (i < currentStep - 1 <==> m.status == Done)
            && (i == currentStep - 1 <==> m.status == Current)
            && (i > currentStep - 1 <==> m.status == Pending)
  {
  }
}
