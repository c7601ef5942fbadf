/**
  The application's entry point: the ten sample questions it is seeded with,
  and sessions over them driven by button clicks.
 */
module OnlineQuizApp {
  import opened JavaLang
  import opened Questions
  import opened QuizSession

  /** The question list `main` builds. */
  function SampleQuestions(): (qs: seq<Question>)
    ensures |qs| == 10
  {
    [ MultipleChoice("What is the capital of France?", ["Madird", "Paris", "Yaounde", "London"], 1),
      TrueFalse("Java is a programming language.", true),
      MultipleChoice("Which of the following is a Java keyword?", ["Python", "class", "function", "JavaScript"], 1),
      TrueFalse("Inheritance is a feature of Java.", true),
      MultipleChoice("What is the powerhouse of the cell?", ["Nucleus", "Mitochondria", "Ribosome", "Endoplasmic Reticulum"], 1),
      TrueFalse("The Earth is flat.", false),
      MultipleChoice("Which planet is known as the Red Planet?", ["Venus", "Jupiter", "Mars", "Mercury"], 2),
      TrueFalse("Water boils at 100 degrees Celsius.", true),
      MultipleChoice("Who wrote the play 'Romeo and Juliet'?", ["William Shakespeare", "Jane Austen", "Charles Dickens", "Mark Twain"], 0),
      TrueFalse("The sun is a planet.", false) ]
  }

  /** Every sample multiple-choice question has four distinct choices and a
      correct index among them, so each has exactly one scoring button. */
  lemma SampleQuestionsWellFormed()
    ensures forall k | 0 <= k < 10 && SampleQuestions()[k].MultipleChoice? ::
      var q := SampleQuestions()[k];
      |q.choices| == 4 && Distinct(q.choices) && 0 <= q.correctChoiceIndex < |q.choices|
  {
    var qs := SampleQuestions();
    forall k | 0 <= k < 10 && qs[k].MultipleChoice?
      ensures |qs[k].choices| == 4 && Distinct(qs[k].choices)
    {
      var c := qs[k].choices;
      assert c[0][0] != c[1][0] && c[0][0] != c[2][0] && c[0][0] != c[3][0];
      assert c[1][0] != c[2][0] && c[1][0] != c[3][0];
      assert c[2][0] != c[3][0] || c[2][1] != c[3][1];
    }
  }

  /** The responses the correct buttons of the sample quiz submit. */
  function SampleCorrectResponses(): (rs: seq<string>)
    ensures |rs| == 10
  {
    ["1", "true", "1", "true", "1", "false", "2", "true", "0", "false"]
  }

  /** Submitting the correct button's response to every sample question earns
      10 points out of 10. */
  lemma SamplePerfectScore()
    ensures Earned(SampleQuestions(), seq(10, k requires 0 <= k < 10 => Answered(SampleCorrectResponses()[k]))) == 10
  {
    var qs, rs := SampleQuestions(), SampleCorrectResponses();
    var steps := seq(10, k requires 0 <= k < 10 => Answered(rs[k]));
    forall k | 0 <= k < 10
      ensures CheckAnswer(qs[k], rs[k]) == Ok(true)
    {
      if qs[k].MultipleChoice? {
        var n := qs[k].correctChoiceIndex;
        MultipleChoiceRoundTrip(qs[k], n);
        assert IntToString(n) == rs[k];
      } else {
        TrueFalseButtons(qs[k]);
      }
    }
    AllCorrectEarnsAll(qs, steps);
  }

  /** The first two sample questions: the capital of France (choice 1) and
      "Java is a programming language." (true). */
  method TwoQuestions() returns (a: array<Question>)
    ensures fresh(a) && a.Length == 2
    ensures a[0] == MultipleChoice("What is the capital of France?", ["Madird", "Paris", "Yaounde", "London"], 1)
    ensures a[1] == TrueFalse("Java is a programming language.", true)
  {
    a := new Question[2];
    a[0] := MultipleChoice("What is the capital of France?", ["Madird", "Paris", "Yaounde", "London"], 1);
    a[1] := TrueFalse("Java is a programming language.", true);
  }

  /** "1" then "true" scores 2/2. */
  method BothCorrect() returns (r: Result<Screen>)
    ensures r == Ok(ResultScreen(ResultText(2, 2)))
  {
    var a := TwoQuestions();
    MultipleChoiceRoundTrip(a[0], 1);
    TrueFalseButtons(a[1]);
    var quiz := new Quiz(a);
    r := quiz.Answer("1");
    r := quiz.Answer("true");
  }

  /** "0" then "false" scores 0/2. */
  method BothWrong() returns (r: Result<Screen>)
    ensures r == Ok(ResultScreen(ResultText(0, 2)))
  {
    var a := TwoQuestions();
    MultipleChoiceRoundTrip(a[0], 0);
    TrueFalseButtons(a[1]);
    var quiz := new Quiz(a);
    r := quiz.Answer("0");
    r := quiz.Answer("false");
  }

  /** "one" is rejected without a transition; then "1" and "yes" score 1/2. */
  method RejectedThenOneCorrect() returns (r: Result<Screen>)
    ensures r == Ok(ResultScreen(ResultText(1, 2)))
  {
    var a := TwoQuestions();
    assert !IsDigit('o');
    MultipleChoiceRejectsMalformed(a[0], "one");
    MultipleChoiceRoundTrip(a[0], 1);
    TrueFalseButtons(a[1]);
    var quiz := new Quiz(a);
    r := quiz.Answer("one");
    assert r.NumberFormatException? && quiz.currentQuestionIndex == 0 && quiz.score == 0;
    r := quiz.Answer("1");
    assert quiz.currentQuestionIndex == 1 && quiz.score == 1;
    r := quiz.Answer("yes");
    assert quiz.currentQuestionIndex == 2 && quiz.score == 1;
  }

  /** With no questions there is nothing to answer; "Next" shows 0/0. */
  method EmptySession() returns (screen: Screen)
    ensures screen == ResultScreen(ResultText(0, 0))
  {
    var a := new Question[0];
    var quiz := new Quiz(a);
    screen := quiz.Skip();
  }
}
