/**
  The question model: the two kinds of quiz item, how each checks a raw
  response string, what each is worth, and which response a choice button
  submits.
 */
module Questions {
  import opened JavaLang

  /** `MultipleChoiceQuestion` and `TrueFalseQuestion`; `text` is the prompt
      both inherit from `Question`. The constructors validate nothing, so
      `correctChoiceIndex` may lie outside `choices`. */
  datatype Question =
    | MultipleChoice(text: string, choices: seq<string>, correctChoiceIndex: Int32)
    | TrueFalse(text: string, correctAnswer: bool)

  /** `checkAnswer(response)`. A multiple-choice question parses the response
      with `Integer.parseInt`, which may throw; a true/false question uses
      `Boolean.parseBoolean`, which never does. */
  function CheckAnswer(q: Question, response: string): (r: Result<bool>)
    ensures q.TrueFalse? ==> r.Ok?
    ensures q.MultipleChoice? ==> (r.Ok? <==> ParseInt(response).Ok?)
  {
    match q
    case MultipleChoice(_, _, correct) =>
      (match ParseInt(response)
       case Ok(selected) => Ok(selected == correct)
       case NumberFormatException(input) => NumberFormatException(input))
    case TrueFalse(_, correct) =>
      Ok(ParseBoolean(response) == correct)
  }

  /** `getScore()`: both kinds are worth one point. */
  function GetScore(q: Question): (r: nat)
    ensures r == 1
  {
    match q
    case MultipleChoice(_, _, _) => 1
    case TrueFalse(_, _) => 1
  }

  /** The printed form of any `int` is accepted exactly when it is the correct index. */
  lemma MultipleChoiceRoundTrip(q: Question, n: Int32)
    requires q.MultipleChoice?
    ensures CheckAnswer(q, IntToString(n)) == Ok(n == q.correctChoiceIndex)
  {
    ParseIntOfIntToString(n);
  }

  /** A response that is not a literal, or whose value is outside `int`, is an
      error, never an ordinary wrong answer. */
  lemma MultipleChoiceRejectsMalformed(q: Question, response: string)
    requires q.MultipleChoice?
    ensures !IsIntLiteral(response) ==> CheckAnswer(q, response) == NumberFormatException(response)
    ensures forall n: int | n < MinInt32 || MaxInt32 < n ::
      CheckAnswer(q, IntToString(n)) == NumberFormatException(IntToString(n))
    ensures forall k: nat, n: nat | MaxInt32 < n ::
      CheckAnswer(q, Zeros(k) + NatToString(n)) == NumberFormatException(Zeros(k) + NatToString(n))
  {
    ParseIntAcceptsOnlyLiterals(response);
    forall k: nat, n: nat | MaxInt32 < n
      ensures CheckAnswer(q, Zeros(k) + NatToString(n)) == NumberFormatException(Zeros(k) + NatToString(n))
    {
      ParseIntRejectsPaddedOutOfRange(k, n);
    }
    forall n: int | n < MinInt32 || MaxInt32 < n
      ensures CheckAnswer(q, IntToString(n)) == NumberFormatException(IntToString(n))
    {
      ParseIntRejectsOutOfRange(n);
    }
  }

  lemma MultipleChoiceExamples(q: Question)
    requires q.MultipleChoice?
    ensures CheckAnswer(q, "").NumberFormatException?
    ensures CheckAnswer(q, "abc").NumberFormatException?
    ensures CheckAnswer(q, "2147483648").NumberFormatException?
    ensures CheckAnswer(q, "007") == Ok(q.correctChoiceIndex == 7)
  {
    ParseIntRejectExamples();
    ParseIntLimitExamples();
    ParseIntLenientExamples();
  }

  /** A true/false response counts as "true" for the sixteen case spellings of
      "true" and as "false" for every other string; it is never an error. */
  lemma TrueFalseCheck(q: Question, response: string)
    requires q.TrueFalse?
    ensures CheckAnswer(q, response) == Ok(
      (|response| == 4 && response[0] in "tT" && response[1] in "rR"
       && response[2] in "uU" && response[3] in "eE") == q.correctAnswer)
  {
  }

  /** The two buttons submit "true" and "false": exactly one of them scores. */
  lemma TrueFalseButtons(q: Question)
    requires q.TrueFalse?
    ensures CheckAnswer(q, "true") == Ok(q.correctAnswer)
    ensures CheckAnswer(q, "false") == Ok(!q.correctAnswer)
    ensures CheckAnswer(q, "yes") == Ok(!q.correctAnswer)
  {
  }

  predicate Distinct(xs: seq<string>) {
    forall a, b | 0 <= a < b < |xs| :: xs[a] != xs[b]
  }

  /** Choice button `i` is labelled `choices[i]`; its listener submits the
      printed index of the first choice with that label. */
  method ChoiceButtonResponse(choices: seq<string>, i: nat) returns (index: int, response: string)
    requires i < |choices|
    ensures 0 <= index <= i && choices[index] == choices[i]
    ensures forall j | 0 <= j < index :: choices[j] != choices[i]
    ensures Distinct(choices) ==> index == i
    ensures response == IntToString(index)
  {
    index := IndexOf(choices, choices[i]);
    response := IntToString(index);
  }
}
