/** The grammar exercise: its questions and the answer check of the
    fill-in-the-blank question (`checkAnswer` in src/App.jsx). */
module GrammarCheck {
  import opened Normalise

  /** The three kinds of grammar question in the exercise data. Only a
      fill-in-the-blank question is ever checked. */
  datatype GrammarQuestion =
    | FillBlank(question: string, sentence: string, answer: string, hint: string)
    | Conjugation(question: string, prompts: seq<string>, answers: seq<string>)
    | Conditional(question: string, sentence: string, answer: string, hint: string)

  /** The grammar exercise list as the component defines it. */
  const GrammarExercises: seq<GrammarQuestion> := [
    FillBlank("Complete with car, parce que, or puisque:",
              "Je ne suis pas venu ___ j'étais malade.", "parce que", "Used to explain a reason"),
    Conjugation("Put the verb 'peindre' in the present tense:",
                ["je", "tu", "il/elle"], ["peins", "peins", "peint"]),
    Conditional("Transform to conditional:", "Je veux partir.", "Je voudrais partir.",
                "Use the polite form")
  ]

  /** The typed answer, lower-cased then trimmed, equals the lower-cased
      canonical answer. The canonical answer itself is not trimmed. */
  predicate IsCorrect(input: string, canonical: string) {
    Trim(Lower(input)) == Lower(canonical)
  }

  /** Trimming first and lower-casing second judges the same way. */
  lemma CheckIsTrimThenFold(input: string, canonical: string)
    ensures IsCorrect(input, canonical) <==> Lower(Trim(input)) == Lower(canonical)
  {
    TrimLowerCommute(input);
  }

  /** Leading and trailing spaces and letter case in the typed answer never
      change the verdict: any spelling of `input` that differs from it only
      in case, padded with spaces, is judged the same. */
  lemma PaddingAndCaseIgnored(pre: string, typed: string, post: string, input: string, canonical: string)
    requires AllSpace(pre) && AllSpace(post)
    requires Lower(typed) == Lower(input)
    ensures IsCorrect(pre + typed + post, canonical) <==> IsCorrect(input, canonical)
  {
    LowerAppend(pre + typed, post);
    LowerAppend(pre, typed);
    LowerAllSpace(pre);
    LowerAllSpace(post);
    TrimPadded(pre, Lower(input), post);
  }

  /** A canonical answer without edge spaces accepts itself. */
  lemma CanonicalAccepted(canonical: string)
    requires NoEdgeSpace(canonical)
    ensures IsCorrect(canonical, canonical)
  {
  }

  /** Because the canonical answer is not trimmed, one that starts or ends
      with a space can never be matched: every typed answer is wrong. */
  lemma UntrimmedCanonicalRejectsAll(input: string, canonical: string)
    requires !NoEdgeSpace(canonical)
    ensures !IsCorrect(input, canonical)
  {
  }

  /** "Parce Que " is accepted for the answer "parce que". */
  lemma ParceQueAccepted()
    ensures IsCorrect("Parce Que ", GrammarExercises[0].answer)
  {
  }
}
