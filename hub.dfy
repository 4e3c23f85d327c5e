/** The state of the French learning hub component and its event handlers.

    Session-wide state (the screen shown, score and streak) lives in the
    hub; each exercise screen keeps its own local state, which exists only
    while that screen is shown. */
module LearningHub {
  import opened Wrappers
  import opened GrammarCheck
  import opened TermMatching
  import opened ReadingCheck

  /** The five screens: the menu and one per exercise set. */
  datatype Screen = Menu | Grammar | Environment | Reading | Speaking

  /** What the grammar screen says after "Check Answer". */
  datatype Feedback = NoFeedback | Excellent | TryAgain(hint: string)

  const Phrases: seq<string> :=
    ["Je voudrais commander", "Bonne idée!", "C'est vrai!", "Agir pour le monde"]

  /** Points for a correct grammar answer, a correct match and each right
      true/false answer. */
  const GrammarPoints: nat := 10
  const MatchPoints: nat := 15
  const ReadingPoints: nat := 5

  class Hub {
    // session-wide state
    var currentExercise: Screen
    var score: nat
    var streak: nat

    // exercise content
    const grammar: seq<GrammarQuestion>
    const pairs: seq<Pair>
    const questions: seq<TrueFalse>
    const phrases: seq<string>

    // grammar screen
    var currentQ: nat
    var answer: string
    var feedback: Feedback

    // environment (matching) screen
    var draggedItem: Option<string>
    var matches: map<string, string>

    // reading screen
    var answers: map<nat, bool>
    var showResults: bool

    // speaking screen
    var selectedPhrase: Option<string>
    var isPlaying: bool

    ghost predicate Valid()
      reads this`currentQ, this`matches
    {
      currentQ < |grammar| && MatchesSound(pairs, matches)
    }

    /** Every exercise screen's local state as it is when the screen is mounted. */
    ghost predicate ScreenStateInitial()
      reads this`currentQ, this`answer, this`feedback, this`draggedItem, this`matches
      reads this`answers, this`showResults, this`selectedPhrase, this`isPlaying
    {
      && currentQ == 0 && answer == "" && feedback == NoFeedback
      && draggedItem == None && matches == map[]
      && answers == map[] && !showResults
      && selectedPhrase == None && !isPlaying
    }

    /** Score and streak never go down. */
    twostate predicate CountersGrew()
      reads this
    {
      old(score) <= score && old(streak) <= streak
    }

    constructor ()
      ensures Valid() && ScreenStateInitial()
      ensures currentExercise == Menu && score == 0 && streak == 0
      ensures grammar == GrammarExercises && pairs == EnvironmentPairs
      ensures questions == ReadingQuestions && phrases == Phrases
    {
      currentExercise, score, streak := Menu, 0, 0;
      grammar, pairs, questions, phrases := GrammarExercises, EnvironmentPairs, ReadingQuestions, Phrases;
      currentQ, answer, feedback := 0, "", NoFeedback;
      draggedItem, matches := None, map[];
      answers, showResults := map[], false;
      selectedPhrase, isPlaying := None, false;
    }

    // ------------------------------------------------------------------
    // Navigation

    /** A menu card opens its exercise screen, which is mounted afresh. */
    method SelectExercise(key: Screen)
      requires Valid() && currentExercise == Menu && key != Menu
      modifies this`currentExercise, this`currentQ, this`answer, this`feedback, this`draggedItem
      modifies this`matches, this`answers, this`showResults, this`selectedPhrase, this`isPlaying
      ensures Valid() && CountersGrew()
      ensures currentExercise == key && ScreenStateInitial()
      ensures score == old(score) && streak == old(streak)
    {
      currentExercise := key;
      currentQ, answer, feedback := 0, "", NoFeedback;
      draggedItem, matches := None, map[];
      answers, showResults := map[], false;
      selectedPhrase, isPlaying := None, false;
    }

    /** "Back to Menu" leaves the exercise screen. */
    method BackToMenu()
      requires Valid() && currentExercise != Menu
      modifies this`currentExercise
      ensures Valid() && currentExercise == Menu
    {
      currentExercise := Menu;
    }

    // ------------------------------------------------------------------
    // Grammar

    /** Typing in the answer box. */
    method TypeAnswer(text: string)
      requires Valid() && currentExercise == Grammar
      modifies this`answer
      ensures Valid() && answer == text
    {
      answer := text;
    }

    /** "Check Answer": only a fill-in-the-blank question is judged. A
        correct answer earns 10 points and one more streak; a wrong one only
        shows the hint, and the streak is kept. `correct` reports the verdict. */
    method CheckAnswer() returns (correct: bool)
      requires Valid() && currentExercise == Grammar
      modifies this`score, this`streak, this`feedback
      ensures Valid() && CountersGrew()
      ensures correct <==> grammar[currentQ].FillBlank? && IsCorrect(answer, grammar[currentQ].answer)
      ensures correct ==> score == old(score) + GrammarPoints && streak == old(streak) + 1 && feedback == Excellent
      ensures !correct ==> score == old(score) && streak == old(streak)
      ensures !correct && grammar[currentQ].FillBlank? ==> feedback == TryAgain(grammar[currentQ].hint)
      ensures !grammar[currentQ].FillBlank? ==> feedback == old(feedback)
    {
      var ex := grammar[currentQ];
      correct := false;
      if ex.FillBlank? {
        correct := IsCorrect(answer, ex.answer);
        if correct {
          feedback := Excellent;
          score := score + GrammarPoints;
          streak := streak + 1;
        } else {
          feedback := TryAgain(ex.hint);
        }
      }
    }

    // ------------------------------------------------------------------
    // Term matching

    /** A term can be dragged until it is matched. */
    predicate Draggable(term: string)
      reads this
    {
      !(term in matches && matches[term] != "")
    }

    /** Starting to drag one of the terms. */
    method StartDrag(term: string)
      requires Valid() && currentExercise == Environment
      requires term in TermSet(pairs) && Draggable(term)
      modifies this`draggedItem
      ensures Valid() && draggedItem == Some(term)
    {
      draggedItem := Some(term);
    }

    /** Dropping on the zone of `definition`. The term last dragged is
        matched when the key pairs it with `definition`; the match is
        recorded and earns 15 points. Any other drop changes nothing. In the
        handler as written, the last dragged term is never cleared, so a
        later drop that starts no new drag of a term is judged with it
        again. (In the running component a score change remounts this
        screen and clears it; that remount is not modelled.) */
    method Drop(definition: string) returns (accepted: bool)
      requires Valid() && currentExercise == Environment
      modifies this`matches, this`score
      ensures Valid() && CountersGrew() && streak == old(streak)
      ensures accepted <==> draggedItem.Some? && draggedItem.value != ""
                            && Accepts(pairs, draggedItem.value, definition)
      ensures accepted ==> matches == old(matches)[draggedItem.value := definition]
                           && score == old(score) + MatchPoints
      ensures !accepted ==> matches == old(matches) && score == old(score)
    {
      accepted := false;
      if draggedItem.Some? && draggedItem.value != "" {
        var term := draggedItem.value;
        if Accepts(pairs, term, definition) {
          RecordKeepsSound(pairs, matches, term, definition);
          matches := matches[term := definition];
          score := score + MatchPoints;
          accepted := true;
        }
      }
    }

    /** The number of terms matched so far, which never exceeds the number of pairs. */
    function MatchedCount(): (n: nat)
      reads this
      requires Valid()
      ensures n <= |pairs|
    {
      MatchesBounded(pairs, matches);
      |matches|
    }

    // ------------------------------------------------------------------
    // Reading comprehension

    /** "Vrai" or "Faux" for question `i`; still possible after submitting. */
    method Choose(i: nat, value: bool)
      requires Valid() && currentExercise == Reading && i < |questions|
      modifies this`answers
      ensures Valid()
      ensures answers == old(answers)[i := value]
      ensures forall j :: j != i ==> (j in answers <==> j in old(answers))
      ensures forall j :: j != i && j in answers ==> answers[j] == old(answers)[j]
    {
      answers := answers[i := value];
    }

    /** "Submit Answers", offered only until results are shown: 5 points
        per question answered right. The verdict shown under each question
        uses the same test, `IsRight`. */
    method CheckAnswers()
      requires Valid() && currentExercise == Reading && !showResults
      modifies this`score, this`showResults
      ensures Valid() && CountersGrew() && streak == old(streak)
      ensures score == old(score) + ReadingPoints * CorrectCount(questions, answers)
      ensures score == old(score) + ReadingPoints * |RightSet(questions, answers)|
      ensures old(score) <= score <= old(score) + ReadingPoints * |questions|
      ensures showResults
    {
      var correct := CountCorrect(questions, answers);
      score := score + correct * ReadingPoints;
      showResults := true;
    }

    // ------------------------------------------------------------------
    // Pronunciation

    /** Clicking a phrase selects it and marks it playing; the speech itself
        is not modelled. */
    method PlayPronunciation(phrase: string)
      requires Valid() && currentExercise == Speaking && phrase in phrases
      modifies this`selectedPhrase, this`isPlaying
      ensures Valid() && selectedPhrase == Some(phrase) && isPlaying
    {
      selectedPhrase := Some(phrase);
      isPlaying := true;
    }

    /** The end of the utterance or the two-second timer, whichever comes. */
    method PlaybackStopped()
      requires Valid() && currentExercise == Speaking
      modifies this`isPlaying
      ensures Valid() && !isPlaying
    {
      isPlaying := false;
    }
  }

  /** Typing "Parce Que " for "parce que" earns 10 points and a streak of one. */
  method GrammarSession() returns (score: nat, streak: nat)
    ensures score == GrammarPoints && streak == 1
  {
    var hub := new Hub();
    hub.SelectExercise(Grammar);
    hub.TypeAnswer("Parce Que ");
    ParceQueAccepted();
    var correct := hub.CheckAnswer();
    hub.BackToMenu();
    score, streak := hub.score, hub.streak;
  }

  /** Dropping "recycler" on the wrong definition is refused; on the right
      one it earns 15 points. */
  method MatchingSession() returns (score: nat, matched: nat)
    ensures score == MatchPoints && matched == 1
  {
    var hub := new Hub();
    hub.SelectExercise(Environment);
    assert "recycler" in TermSet(hub.pairs) by {
      assert hub.pairs[0].term == "recycler";
    }
    hub.StartDrag("recycler");
    RecyclerScenario();
    var wrong := hub.Drop("Air contamination");
    var right := hub.Drop("To reuse materials");
    score, matched := hub.score, hub.MatchedCount();
  }

  /** The drop handler as written does not ask whether the term is
      already matched: a second drop on the same zone, with no new drag in
      between, scores again while the matches stay as they were. This is
      the handler's own logic; in the running component the remount after
      the first score change would clear the dragged term first. */
  method RepeatedDropSession() returns (score: nat, matched: nat)
    ensures score == 2 * MatchPoints && matched == 1
  {
    var hub := new Hub();
    hub.SelectExercise(Environment);
    assert "recycler" in TermSet(hub.pairs) by {
      assert hub.pairs[0].term == "recycler";
    }
    hub.StartDrag("recycler");
    RecyclerScenario();
    var first := hub.Drop("To reuse materials");
    var again := hub.Drop("To reuse materials");
    assert hub.matches == map["recycler" := "To reuse materials"];
    score, matched := hub.score, hub.MatchedCount();
  }

  /** Two right answers of three, the third left blank, earn 10 points. */
  method ReadingSession() returns (score: nat)
    ensures score == 2 * ReadingPoints
  {
    var hub := new Hub();
    hub.SelectExercise(Reading);
    hub.Choose(0, true);
    hub.Choose(1, false);
    TwoOfThreeScenario();
    hub.CheckAnswers();
    score := hub.score;
  }
}
