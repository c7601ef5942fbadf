# Online quiz: question model and quiz session

A Dafny model of the domain logic of a small Swing quiz application
(`OnlineQuizApp.java`). The window shows one question card at a time; each
card is either a multiple-choice question (a list of choice buttons) or a
true/false question (a "True" and a "False" button). Clicking an answer
button scores the visible question and moves to the next card; the "Next"
button moves on without scoring. When the index of the visible question
reaches the number of questions, the window is replaced by the label
`Your total score is: <score>/<number of questions>`.

The project has four modules:

- `JavaLang` (`java_lang.dfy`): the Java library behaviour the quiz relies on.
  It covers 32-bit `int`, `Integer.parseInt` (radix 10) and `Integer.toString`,
  ASCII case-insensitive equality (which agrees with `String.equalsIgnoreCase`
  when one side is "true") and `Boolean.parseBoolean`, and `List.indexOf`.
  The lemmas prove the parse/print round trip in both directions. They prove
  that whatever is accepted is a literal, and that an out-of-range value is
  rejected however its literal is written: printed, zero-padded, or after a
  `+` or `-`. They prove that leading zeros and a `+` are accepted, down to
  `-2147483648` with zero padding, and which sixteen spellings `parseBoolean`
  reads as true.
- `Questions` (`questions.dfy`): `Question` as a datatype with two
  constructors, `CheckAnswer` (returning a `Result`, since `parseInt` can
  throw), `GetScore`, and the response a choice button submits.
- `QuizSession` (`quiz.dfy`): the `Quiz` class with its fields
  `currentQuestionIndex` and `score`, updated in place by `Answer`
  (`handleResponse`), `Skip` (the "Next" listener) and the two button clicks.
  A ghost history of the steps taken lets the invariant `Valid()` state what
  the score means: the points earned by the answers given so far
  (`score == Earned(questions[..], history)`). The session invariant includes
  `0 <= score <= currentQuestionIndex`. `Display()` gives what each
  transition shows, the next card or the result label.
- `OnlineQuizApp` (`online_quiz_app.dfy`): the ten sample questions of `main`,
  and client methods that drive sessions over the first two of them.

In these cases the code is more lenient than one might expect, and the model
follows the code:

- A true/false response other than "true" in some letter case is not an
  error. `Boolean.parseBoolean` returns false for it, so "yes" is an ordinary
  answer meaning false.
- The question constructors check nothing. A `correctChoiceIndex` outside
  the choices, or an empty choice list, is accepted. For the sample list the
  indices are proved to be in range (`SampleQuestionsWellFormed`).
- There is no error for answering after completion. The result screen
  removes every button (line 222), so the transitions have the precondition
  that a question card (or, for "Next", the question area) is still shown.
- With an empty question array, no result is shown at first. "Next" is the
  only button. It moves the index to 1 and then shows `0/0`, so for an empty
  quiz the index passes the number of questions by exactly one.
  `Valid()` allows that case, and `OnlineQuizApp.EmptySession` shows it.

Two more consequences are proved rather than assumed:

- An answer that `parseInt` rejects leaves the session untouched. The
  exception leaves the listener before `score` or the index change.
- A choice button submits the index of the FIRST choice with the same label
  (`Arrays.asList(choices).indexOf(...)`). So only when the labels are
  distinct does button `i` always submit `"i"`.

## Model

| member | source | states |
|---|---|---|
| `JavaLang.ParseInt` | OnlineQuizApp.java:44 | `Integer.parseInt`: an optional sign and ASCII digits whose value fits in `int`; otherwise a `NumberFormatException` carrying the rejected text |
| `JavaLang.IntToString` | OnlineQuizApp.java:153 | `Integer.toString` always prints a canonical literal (no `+`, no leading zero, no `-0`), starting with `-` exactly for negative values |
| `JavaLang.ParseIntOfIntToString` | OnlineQuizApp.java:44 | for every `int` n, `parseInt(toString(n)) == n` |
| `JavaLang.IntToStringOfParseInt` | OnlineQuizApp.java:153 | for every canonical literal that parses, printing the parsed value gives back the same text |
| `JavaLang.IntToStringInjective` | OnlineQuizApp.java:211 | two different integers never print the same text |
| `JavaLang.ParseIntAcceptsOnlyLiterals` | OnlineQuizApp.java:44 | whatever `parseInt` accepts is an optional sign followed by one or more digits |
| `JavaLang.ParseIntRejectsOutOfRange` | OnlineQuizApp.java:44 | the literal of any integer outside the 32-bit range is rejected, not wrapped |
| `JavaLang.ParseIntIgnoresLeadingZeros` | OnlineQuizApp.java:44 | leading zeros, and a leading `+` or `-`, are accepted: `0…0n`, `+0…0n` parse to n and `-0…0n` to -n |
| `JavaLang.ParseIntRejectsPaddedOutOfRange` | OnlineQuizApp.java:44 | a value above `2147483647`, zero-padded and bare or after `+`, is rejected, and so is one above `2147483648` after `-`; `-` then zero-padded `2147483648` parses to the `int` minimum |
| `JavaLang.ParseIntRejectExamples` | OnlineQuizApp.java:44 | `""`, `"-"`, `"+"`, `"abc"`, `" 1"`, `"1.0"` are rejected |
| `JavaLang.ParseIntLimitExamples` | OnlineQuizApp.java:44 | `"2147483648"` is rejected; `"-2147483648"` and `"2147483647"` give the two `int` limits |
| `JavaLang.ParseIntLenientExamples` | OnlineQuizApp.java:44 | `"+1"` gives 1, `"-0"` gives 0, `"007"` gives 7 |
| `JavaLang.EqualsIgnoreCase` | OnlineQuizApp.java:87 | ASCII case-insensitive equality: equal strings match, and matching strings have the same length |
| `JavaLang.ParseBoolean` | OnlineQuizApp.java:87 | `parseBoolean` reads "true" as true, and anything it reads as true is four characters starting with `t` or `T` |
| `JavaLang.ParseBooleanSpellings` | OnlineQuizApp.java:87 | `parseBoolean(s)` holds exactly when s is "true" in one of its sixteen letter-case spellings |
| `JavaLang.ParseBooleanExamples` | OnlineQuizApp.java:87 | "true", "True", "TRUE" read as true; "false", "yes", "", "true " read as false |
| `JavaLang.IndexOf` | OnlineQuizApp.java:153 | linear search: -1 exactly when the label is absent, otherwise the first position holding it |
| `Questions.Question` | OnlineQuizApp.java:27-36 | `MultipleChoiceQuestion` (text, choices, a `correctChoiceIndex` the constructor does not check) and `TrueFalseQuestion` (text, boolean answer; lines 76-83) |
| `Questions.CheckAnswer` | OnlineQuizApp.java:43-46 | a true/false check never fails; a multiple-choice check fails exactly when `parseInt` rejects the response |
| `Questions.GetScore` | OnlineQuizApp.java:49-51 | `getScore` is 1 for both kinds of question (also lines 92-94) |
| `Questions.MultipleChoiceRoundTrip` | OnlineQuizApp.java:43-46 | for every `int` n, checking the printed n gives true exactly when n is the correct index |
| `Questions.MultipleChoiceRejectsMalformed` | OnlineQuizApp.java:44 | a response that is not an integer literal, or the literal of a value outside `int`, fails with `NumberFormatException` instead of counting as wrong; so does a zero-padded literal of a value above `2147483647` |
| `Questions.MultipleChoiceExamples` | OnlineQuizApp.java:44-45 | `""`, `"abc"`, `"2147483648"` fail; `"007"` is correct exactly when the correct index is 7 |
| `Questions.TrueFalseCheck` | OnlineQuizApp.java:86-89 | the check is true exactly when (the response is a spelling of "true") equals the correct answer; it never fails |
| `Questions.TrueFalseButtons` | OnlineQuizApp.java:165-166 | "true" is correct exactly when the answer is true, "false" when it is false, and "yes" counts as false |
| `Questions.ChoiceButtonResponse` | OnlineQuizApp.java:149-154 | button i submits the printed index of the first choice labelled like `choices[i]`; with distinct labels that index is i |
| `QuizSession.GainAtMostOne` | OnlineQuizApp.java:195-197 | one step adds at most one point (`getScore` is 1), and adds it exactly when it is an answer whose check is true |
| `QuizSession.EarnedBounds` | OnlineQuizApp.java:194-198 | after any sequence of steps, `0 <= score <= number of steps` |
| `QuizSession.EarnedAtMostAnswers` | OnlineQuizApp.java:175-176 | skipped questions earn nothing: the score is at most the number of answers given |
| `QuizSession.AllCorrectEarnsAll` | OnlineQuizApp.java:194-198 | answering every question so far correctly earns one point per question |
| `QuizSession.ResultText` | OnlineQuizApp.java:211 | the result label starts with `Your total score is: ` and ends with `/` and the printed number of questions |
| `QuizSession.ResultTextInjective` | OnlineQuizApp.java:211 | the result label `Your total score is: score/total` determines both the score and the total |
| `QuizSession.Quiz.Valid` | OnlineQuizApp.java:194-198 | the session invariant; it implies the score is at most the number of answers given, and that the result is showing exactly when the index has reached the number of questions (index 1 for an empty quiz) |
| `QuizSession.Quiz.Completed` | OnlineQuizApp.java:222 | the buttons are gone exactly when some transition has happened and the result screen is showing |
| `QuizSession.Quiz.Display` | OnlineQuizApp.java:199-206 | a transition shows the card of the current index while it is below the number of questions (as at lines 177-184), and otherwise the result label for the current score |
| `QuizSession.Quiz.constructor` | OnlineQuizApp.java:124-128 | a new quiz keeps the given question array, starts at index 0 with score 0, and is valid and not completed |
| `QuizSession.Quiz.Answer` | OnlineQuizApp.java:194-207 | scores the visible question: on a parse failure nothing changes; otherwise the score grows by 1 exactly when the check is true, the index grows by exactly 1, and the next card or the result is shown; validity is kept |
| `QuizSession.Quiz.Skip` | OnlineQuizApp.java:175-185 | "Next" grows the index by exactly 1, leaves the score alone, shows the next card or the result, and keeps validity |
| `QuizSession.Quiz.ClickChoice` | OnlineQuizApp.java:149-155 | clicking choice i submits the first index with that label (i when labels are distinct) and scores exactly when that index is the correct one; the index grows by 1 and the printed index is recorded as the answer |
| `QuizSession.Quiz.ClickTrueFalse` | OnlineQuizApp.java:165-166 | the "True"/"False" button scores exactly when it matches the correct answer; the index grows by 1 and "true" or "false" is recorded as the answer |
| `OnlineQuizApp.SampleQuestions` | OnlineQuizApp.java:232-244 | the sample list has ten questions |
| `OnlineQuizApp.SampleQuestionsWellFormed` | OnlineQuizApp.java:232-244 | every sample multiple-choice question has four distinct choices and a correct index among them |
| `OnlineQuizApp.SampleCorrectResponses` | OnlineQuizApp.java:232-244 | one response per sample question |
| `OnlineQuizApp.SamplePerfectScore` | OnlineQuizApp.java:232-244 | submitting the correct button's response to each sample question earns 10 points |
| `OnlineQuizApp.TwoQuestions` | OnlineQuizApp.java:233-234 | the first two sample questions, in a fresh array |
| `OnlineQuizApp.BothCorrect` | OnlineQuizApp.java:194-211 | answering "1" then "true" ends on `Your total score is: 2/2` |
| `OnlineQuizApp.BothWrong` | OnlineQuizApp.java:194-211 | answering "0" then "false" ends on `0/2` |
| `OnlineQuizApp.RejectedThenOneCorrect` | OnlineQuizApp.java:194-211 | "one" is rejected without a transition; then "1" and "yes" end on `1/2` |
| `OnlineQuizApp.EmptySession` | OnlineQuizApp.java:175-184 | with no questions, "Next" shows `0/0` |

## Left out

- All Swing code is left out as presentation: frames, panels, the card layout,
  button construction, fonts, colours, the "Exit" button and
  `createQuestionPanel`. The action commands it sets are never read.
- `SwingUtilities.invokeLater` and the event-dispatch thread are left out.
  The transitions are plain sequential method calls.
- When `parseInt` throws, the event-dispatch thread reports the exception and
  keeps running. The model returns the error instead and does not model that
  report.
- `QuizSession.Quiz.Answer` applies the response to
  `questions[currentQuestionIndex]`. `handleResponse` receives the question
  of the clicked panel. The two are the same, because the visible card is
  always that question and each transition advances the card and the index
  together.
- `JavaLang.ParseInt`: accepts only ASCII digits. Java's `Character.digit`
  also accepts the decimal digits of other scripts; the quiz's own buttons
  never produce them.
- `JavaLang.ParseBoolean`: folds only ASCII letters, where Java folds all of
  Unicode. No other character folds to a letter of "true", so the result is
  the same.
- `null` strings and arrays are not modelled; the quiz never creates them.
- `score` and `currentQuestionIndex` are Java `int`s. They stay within the
  array length, which is at most 2^31 - 1, so 32-bit overflow cannot
  happen and is not modelled.
- `getQuestionText` is not modelled as an operation. It only returns the
  `text` field of the datatype.
