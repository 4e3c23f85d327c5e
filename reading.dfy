/** The reading-comprehension exercise: true/false questions on a passage,
    scored when the answers are submitted (`checkAnswers` in src/App.jsx). */
module ReadingCheck {

  datatype TrueFalse = TrueFalse(q: string, answer: bool)

  const ReadingQuestions: seq<TrueFalse> := [
    TrueFalse("Les industries polluent l'atmosphère", true),
    TrueFalse("L'air pollué n'est pas dangereux", false),
    TrueFalse("Les transports contribuent à la pollution", true)
  ]

  /** Question `i` is answered, and answered as the key says. An unanswered
      question is never right. */
  predicate IsRight(qs: seq<TrueFalse>, answers: map<nat, bool>, i: nat)
    requires i < |qs|
  {
    i in answers && answers[i] == qs[i].answer
  }

  /** The number of questions answered right. */
  function CorrectCount(qs: seq<TrueFalse>, answers: map<nat, bool>): (n: nat)
    ensures n <= |qs|
    decreases |qs|
  {
    if qs == [] then 0
    else
      var last := |qs| - 1;
      CorrectCount(qs[..last], answers) + (if IsRight(qs, answers, last) then 1 else 0)
  }

  /** The indices of the questions answered right. */
  function RightSet(qs: seq<TrueFalse>, answers: map<nat, bool>): set<nat> {
    set i: nat | i < |qs| && IsRight(qs, answers, i)
  }

  /** The `forEach` loop of `checkAnswers`: one pass over the questions,
      counting those answered right. */
  method CountCorrect(qs: seq<TrueFalse>, answers: map<nat, bool>) returns (correct: nat)
    ensures correct == CorrectCount(qs, answers)
    ensures correct == |RightSet(qs, answers)|
  {
    correct := 0;
    var i := 0;
    while i < |qs|
      invariant 0 <= i <= |qs|
      invariant correct == CorrectCount(qs[..i], answers)
    {
      if i in answers && answers[i] == qs[i].answer {
        correct := correct + 1;
      }
      assert qs[..i + 1][..i] == qs[..i];
      i := i + 1;
    }
    assert qs[..|qs|] == qs;
    CountIsRightSetSize(qs, answers);
  }

  /** The count is the number of indices answered right. */
  lemma {:induction false} CountIsRightSetSize(qs: seq<TrueFalse>, answers: map<nat, bool>)
    ensures CorrectCount(qs, answers) == |RightSet(qs, answers)|
    decreases |qs|
  {
    if qs != [] {
      var last := |qs| - 1;
      var init := qs[..last];
      CountIsRightSetSize(init, answers);
      var smaller := RightSet(init, answers);
      assert forall i: nat :: i < last ==> (IsRight(init, answers, i) <==> IsRight(qs, answers, i));
      if IsRight(qs, answers, last) {
        assert RightSet(qs, answers) == smaller + {last};
      } else {
        assert RightSet(qs, answers) == smaller;
      }
    }
  }

  /** Every question counts only when every question is answered right. */
  lemma {:induction false} AllRightIff(qs: seq<TrueFalse>, answers: map<nat, bool>)
    ensures CorrectCount(qs, answers) == |qs| <==> forall i: nat :: i < |qs| ==> IsRight(qs, answers, i)
    decreases |qs|
  {
    if qs != [] {
      var last := |qs| - 1;
      var init := qs[..last];
      AllRightIff(init, answers);
      assert forall i: nat :: i < last ==> (IsRight(init, answers, i) <==> IsRight(qs, answers, i));
    }
  }

  /** With nothing answered, submitting scores nothing. */
  lemma NothingAnsweredScoresZero(qs: seq<TrueFalse>)
    ensures CorrectCount(qs, map[]) == 0
  {
  }

  /** Choosing Vrai or Faux for one question moves the count by at most one. */
  lemma ChooseMovesCountByOne(qs: seq<TrueFalse>, answers: map<nat, bool>, i: nat, value: bool)
    requires i < |qs|
    ensures CorrectCount(qs, answers) - 1 <= CorrectCount(qs, answers[i := value]) <= CorrectCount(qs, answers) + 1
  {
    var before, after := RightSet(qs, answers), RightSet(qs, answers[i := value]);
    CountIsRightSetSize(qs, answers);
    CountIsRightSetSize(qs, answers[i := value]);
    assert after - {i} == before - {i};
    RemoveOne(before, i);
    RemoveOne(after, i);
  }

  lemma RemoveOne(a: set<nat>, x: nat)
    ensures |a - {x}| <= |a| <= |a - {x}| + 1
  {
  }

  /** Two right answers out of three, the third left blank, count two. */
  lemma TwoOfThreeScenario()
    ensures CorrectCount(ReadingQuestions, map[0 := true, 1 := false]) == 2
  {
  }
}
