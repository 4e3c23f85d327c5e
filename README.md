# French learning hub: scoring and answer checking

This project models the logic inside the French learning hub, a single-page
React component (`src/App.jsx`). The component shows a menu of four exercise
sets: grammar fill-in, term/definition matching by drag and drop, true/false
reading comprehension, and pronunciation playback. A score and a streak are
shared by all of them. The model covers the state machine behind those
screens and proves what each event handler does to that state.

Layout:

- `normalise.dfy` (module `Normalise`): JavaScript's `trim` and `toLowerCase`
  as functions on strings, with lemmas about them. Trimming and lower-casing
  commute, padding with spaces does not change a trim, and trimming is
  idempotent.
- `grammar.dfy` (module `GrammarCheck`): the grammar questions and the
  answer check `IsCorrect`, with lemmas for what it accepts and rejects.
- `matching.dfy` (module `TermMatching`): the answer key of the matching
  exercise and the `pairs.find(...)` lookup used by a drop.
- `reading.dfy` (module `ReadingCheck`): the true/false questions, the count
  of right answers as a specification function (`CorrectCount`), and the
  counting loop of `checkAnswers` as a method proved against it
  (`CountCorrect`).
- `hub.dfy` (module `LearningHub`): class `Hub`. It holds the session-wide
  fields `currentExercise`, `score` and `streak`, and the local state of each
  exercise screen (`answer`, `feedback`, `draggedItem`, `matches`, `answers`,
  `showResults`, `selectedPhrase`, `isPlaying`). It has one method per event
  handler. Four scenario methods replay short sessions.
- `wrappers.dfy` (module `Wrappers`): `Option`, for JavaScript's `null`.

Each handler method states the whole new state it produces. Its `Valid()`
invariant says that every recorded match is one the drop test accepts. The
twostate predicate `CountersGrew()` says that score and streak never go down.

Behaviour of the code that the model follows:

- A wrong grammar answer does not reset the streak. It only sets the
  feedback to the hint.
- The canonical grammar answer is lower-cased but not trimmed. So a
  canonical answer with a space at either end could never be matched
  (`UntrimmedCanonicalRejectsAll`).
- The drop handler does not check whether the dragged term is already
  matched, and it never clears the last dragged term. In the handler as
  written, ignoring the remount listed under "## Left out", a later drop
  onto its zone that starts no new drag of a term scores 15 again, and the
  matches stay the same (`RepeatedDropSession`). In the running component,
  the first score change remounts the matching screen, which clears
  `draggedItem`, so that second drop scores nothing.
- The answer handlers for Vrai/Faux (src/App.jsx:262, :273) have no
  condition on `showResults`. Only the Submit button goes away
  (`Hub.Choose` has no `showResults` condition; `Hub.CheckAnswers`
  requires `!showResults`). This is the handlers as written, ignoring the
  remount listed under "## Left out". In the running component, the score
  change made by submitting remounts the reading screen, which clears the
  answers and brings the Submit button back.
- The typed answer is lower-cased first and trimmed second. The order makes
  no difference (`CheckIsTrimThenFold`).

## Model

| member | source | states |
|---|---|---|
| `Normalise.Lower` | src/App.jsx:111 | `toLowerCase` keeps the length, leaves no capital, keeps every non-capital where it was, and keeps whitespace exactly where it was. |
| `Normalise.LowerChar` | src/App.jsx:111 | A lower-cased code point is never a capital. A code point changes exactly when it is a capital. Whitespace stays whitespace. |
| `Normalise.TrimStartSpec` | src/App.jsx:111 | `trimStart` keeps a suffix of its input, drops only whitespace, and leaves no whitespace at the front. |
| `Normalise.TrimEndSpec` | src/App.jsx:111 | `trimEnd` keeps a prefix of its input, drops only whitespace, and leaves no whitespace at the back. |
| `Normalise.Trim` | src/App.jsx:111 | The result of `trim` is never longer than its input and has no whitespace at either end. |
| `Normalise.TrimIsMiddle` | src/App.jsx:111 | `trim` keeps a contiguous middle part of its input, and everything it drops on each side is whitespace. |
| `Normalise.TrimPadded` | src/App.jsx:111 | Whitespace added on either side does not change the result of `trim`. |
| `Normalise.TrimIdempotent` | src/App.jsx:111 | Trimming twice is the same as trimming once. |
| `Normalise.TrimLowerCommute` | src/App.jsx:111 | `s.toLowerCase().trim()` equals `s.trim().toLowerCase()`. |
| `Normalise.LowerIdempotent` | src/App.jsx:111 | Lower-casing twice is the same as lower-casing once. |
| `GrammarCheck.CheckIsTrimThenFold` | src/App.jsx:111 | An answer is judged correct exactly when the trimmed, lower-cased input equals the lower-cased canonical answer. |
| `GrammarCheck.PaddingAndCaseIgnored` | src/App.jsx:111 | Leading and trailing whitespace and letter case in the typed answer never change the verdict. |
| `GrammarCheck.CanonicalAccepted` | src/App.jsx:111 | A canonical answer with no whitespace at either end accepts itself. |
| `GrammarCheck.UntrimmedCanonicalRejectsAll` | src/App.jsx:111 | The canonical answer is not trimmed, so one that starts or ends with whitespace rejects every input. |
| `GrammarCheck.ParceQueAccepted` | src/App.jsx:18-24 | "Parce Que " is accepted for the first question, whose answer is "parce que". |
| `TermMatching.FindIndex` | src/App.jsx:205 | `pairs.find` stops at the first pair with the dragged term, or at the end when no pair has it. |
| `TermMatching.AcceptsIff` | src/App.jsx:205 | A drop is correct exactly when `Pair(term, definition)` is in the key and no earlier pair has the same term. |
| `TermMatching.AcceptsIffInKey` | src/App.jsx:205 | When every term appears once, a drop is correct exactly when the pair is in the key. |
| `TermMatching.AcceptedDefinitionUnique` | src/App.jsx:205 | A term is accepted on at most one definition zone. |
| `TermMatching.RecordKeepsSound` | src/App.jsx:207 | Recording an accepted drop keeps every recorded match one the key accepts. |
| `TermMatching.MatchesBounded` | src/App.jsx:179 | If every match is accepted by the key, there are never more matches than pairs. |
| `TermMatching.RecyclerScenario` | src/App.jsx:48-52 | "recycler" is refused on "Air contamination" and accepted on "To reuse materials". |
| `ReadingCheck.CorrectCount` | src/App.jsx:241-243 | The number of questions answered right is at most the number of questions. |
| `ReadingCheck.CountCorrect` | src/App.jsx:240-243 | The `forEach` loop counts exactly `CorrectCount`, which is the size of the set of indices answered right. |
| `ReadingCheck.CountIsRightSetSize` | src/App.jsx:242 | The count equals the number of indices `i` with `answers[i] == questions[i].answer`. An unanswered index never counts. |
| `ReadingCheck.AllRightIff` | src/App.jsx:242 | The count reaches the number of questions exactly when every question is answered right. |
| `ReadingCheck.NothingAnsweredScoresZero` | src/App.jsx:242 | With no answers chosen, nothing is counted. |
| `ReadingCheck.ChooseMovesCountByOne` | src/App.jsx:262 | Choosing Vrai or Faux for one question changes the count by at most one. |
| `ReadingCheck.TwoOfThreeScenario` | src/App.jsx:75-79 | Right answers to the first two questions, with the third left blank, count two. |
| `LearningHub.Hub.constructor` | src/App.jsx:5-7 | The hub starts on the menu with score 0, streak 0, fresh screen state and the component's exercise data. |
| `LearningHub.Hub.SelectExercise` | src/App.jsx:389 | A menu card opens its screen with fresh local state. Score and streak are unchanged. |
| `LearningHub.Hub.BackToMenu` | src/App.jsx:449 | "Back to Menu" shows the menu and changes nothing else. |
| `LearningHub.Hub.TypeAnswer` | src/App.jsx:134 | Typing sets the grammar answer and nothing else. |
| `LearningHub.Hub.CheckAnswer` | src/App.jsx:109-123 | Only a fill-blank question is judged. A correct answer adds 10 to the score and 1 to the streak and shows success. A wrong one leaves both counters unchanged and shows the hint. Any other question type changes nothing. |
| `LearningHub.Hub.StartDrag` | src/App.jsx:179-180 | Dragging an unmatched term makes it the dragged item and changes nothing else. |
| `LearningHub.Hub.Drop` | src/App.jsx:203-213 | The drop is accepted exactly when a non-empty term is being dragged and the key accepts it on this zone. Then the match is recorded and 15 is added to the score. Otherwise the matches and the score are unchanged. The invariant is kept. |
| `LearningHub.Hub.MatchedCount` | src/App.jsx:179 | In a valid hub, the number of matched terms never exceeds the number of pairs. |
| `LearningHub.Hub.Choose` | src/App.jsx:262 | Vrai/Faux sets `answers[i]` and leaves every other index as it was. |
| `LearningHub.Hub.CheckAnswers` | src/App.jsx:239-246 | Submitting adds 5 times the number of questions answered right, which is between 0 and 5 times the number of questions. It then shows the results. |
| `LearningHub.Hub.PlayPronunciation` | src/App.jsx:312-314 | Clicking a phrase selects it and marks it as playing. |
| `LearningHub.Hub.PlaybackStopped` | src/App.jsx:320-324 | The end of speech or the two-second timer stops playing. |
| `LearningHub.GrammarSession` | src/App.jsx:109-123 | Checking "Parce Que " in a fresh session leaves score 10 and streak 1. |
| `LearningHub.MatchingSession` | src/App.jsx:203-213 | A wrong drop and then a right drop of "recycler" leave score 15 and one match. |
| `LearningHub.RepeatedDropSession` | src/App.jsx:203-213 | In the handler as written, without the remount, two drops of "recycler" on its zone with one drag leave score 30 but only one match. |
| `LearningHub.ReadingSession` | src/App.jsx:239-246 | Two right answers of three, submitted, leave score 10. |

## Left out

- Rendering, class names, the hover highlight (`hoveredZone`), the shake animation, the feedback message text (feedback is modelled as `Excellent` or `TryAgain(hint)`), and the inline keyframe styles at src/App.jsx:467-549: presentation only.
- `triggerParticles` (src/App.jsx:364-372): it draws random positions and clears them on a timer, and it has no effect on the scoring state.
- The speech synthesis call in `playPronunciation` (src/App.jsx:316-322) is foreign, asynchronous browser I/O. The model records only `selectedPhrase` and `isPlaying`. The race between the end-of-speech callback and the timer is one event, `PlaybackStopped`.
- React's remounting of the nested exercise components on every parent render is framework behaviour. Every exercise component is declared inside the parent (src/App.jsx:101, :159, :233, :306), so a score change may remount the screen shown and reset its local state. The model does not show that. It resets local state only when a screen is entered from the menu, so `Hub.Drop`, `Hub.Choose` and `Hub.CheckAnswers` describe the handlers as written.
- `Normalise.LowerChar`: `toLowerCase` is modelled only for A-Z, the Latin-1 capitals U+00C0..U+00DE (except U+00D7), Œ (U+0152) and Ÿ (U+0178). Other capitals, such as Greek and Cyrillic, and special cases are left unchanged, because full Unicode case mapping tables are out of scope. `trim` is modelled exactly for the ECMAScript WhiteSpace and LineTerminator code points. Strings are sequences of Unicode scalar values rather than UTF-16 code units.
- Scores are unbounded naturals. JavaScript numbers are doubles, which does not matter at these magnitudes.
- `currentQ` is never advanced in the source (`setCurrentQ` is never called), so only the first grammar question is ever shown. The model keeps the field at 0 and does not model an unused "next question" action.
