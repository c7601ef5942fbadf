/**
  The quiz session: an array of questions walked in order by two
  transitions, answering the visible question or skipping it with "Next",
  until the result screen shows the score out of the number of questions.
 */
module QuizSession {
  import opened JavaLang
  import opened Questions

  /** What the window shows after a transition: the card of one question, or
      the result panel with its label text. */
  datatype Screen = QuestionCard(index: nat) | ResultScreen(text: string)

  /** One transition as the session saw it. */
  datatype Step = Answered(response: string) | Skipped

  const ResultPrefix: string := "Your total score is: "

  /** The result label: `"Your total score is: " + score + "/" + questions.length`. */
  function ResultText(score: int, total: int): (r: string)
    ensures |r| > |ResultPrefix| && r[..|ResultPrefix|] == ResultPrefix
    ensures |r| > |IntToString(total)| && r[|r| - |IntToString(total)| - 1..] == "/" + IntToString(total)
  {
    var a, b := IntToString(score), IntToString(total);
    var r := ResultPrefix + a + "/" + b;
    assert |r| == |ResultPrefix| + |a| + 1 + |b|;
    assert r[|r| - |b| - 1..] == "/" + b;
    r
  }

  /** Points one step earns on question q. */
  function Gain(q: Question, step: Step): nat {
    match step
    case Skipped => 0
    case Answered(response) => if CheckAnswer(q, response) == Ok(true) then GetScore(q) else 0
  }

  /** Points earned by the steps taken so far, step k applying to question k. */
  function Earned(qs: seq<Question>, steps: seq<Step>): int {
    if |steps| == 0 then 0
    else
      var k := |steps| - 1;
      Earned(qs, steps[..k]) + (if k < |qs| then Gain(qs[k], steps[k]) else 0)
  }

  /** A step earns at most one point, and earns it exactly when it answers
      correctly. */
  lemma GainAtMostOne(q: Question, step: Step)
    ensures Gain(q, step) <= 1
    ensures Gain(q, step) == 1 <==> step.Answered? && CheckAnswer(q, step.response) == Ok(true)
  {
  }

  /** The score never exceeds the number of steps taken. */
  lemma {:induction false} EarnedBounds(qs: seq<Question>, steps: seq<Step>)
    ensures 0 <= Earned(qs, steps) <= |steps|
  {
    if |steps| > 0 {
      var k := |steps| - 1;
      EarnedBounds(qs, steps[..k]);
      if k < |qs| {
        GainAtMostOne(qs[k], steps[k]);
      }
    }
  }

  /** Skipping never earns: the score is at most the number of answers. */
  lemma {:induction false} EarnedAtMostAnswers(qs: seq<Question>, steps: seq<Step>)
    ensures Earned(qs, steps) <= |set k | 0 <= k < |steps| && steps[k].Answered?|
  {
    if |steps| > 0 {
      var k := |steps| - 1;
      EarnedAtMostAnswers(qs, steps[..k]);
      var before := set j | 0 <= j < k && steps[..k][j].Answered?;
      var after := set j | 0 <= j < |steps| && steps[j].Answered?;
      assert before == set j | 0 <= j < k && steps[j].Answered?;
      if steps[k].Answered? {
        assert after == before + {k};
        if k < |qs| {
          GainAtMostOne(qs[k], steps[k]);
        }
      } else {
        assert after == before;
      }
    }
  }

  /** Answering every question correctly earns full marks. */
  lemma {:induction false} AllCorrectEarnsAll(qs: seq<Question>, steps: seq<Step>)
    requires |steps| <= |qs|
    requires forall k | 0 <= k < |steps| ::
      steps[k].Answered? && CheckAnswer(qs[k], steps[k].response) == Ok(true)
    ensures Earned(qs, steps) == |steps|
  {
    if |steps| > 0 {
      var k := |steps| - 1;
      AllCorrectEarnsAll(qs, steps[..k]);
      GainAtMostOne(qs[k], steps[k]);
    }
  }

  /** The result label determines the score and the total it was printed from. */
  lemma ResultTextInjective(score1: int, total1: int, score2: int, total2: int)
    requires ResultText(score1, total1) == ResultText(score2, total2)
    ensures score1 == score2 && total1 == total2
  {
    var a1, b1 := IntToString(score1), IntToString(total1);
    var a2, b2 := IntToString(score2), IntToString(total2);
    var p := |ResultPrefix|;
    var t1, t2 := ResultText(score1, total1), ResultText(score2, total2);
    assert t1[p..] == a1 + "/" + b1;
    assert t2[p..] == a2 + "/" + b2;
    SplitAtSlash(a1, b1, a2, b2);
    IntToStringInjective(score1, score2);
    IntToStringInjective(total1, total2);
  }

  /** Splitting at the first '/' undoes the concatenation. */
  lemma SplitAtSlash(a1: string, b1: string, a2: string, b2: string)
    requires '/' !in a1 && '/' !in a2
    requires a1 + "/" + b1 == a2 + "/" + b2
    ensures a1 == a2 && b1 == b2
  {
    var s := a1 + "/" + b1;
    assert s[|a1|] == '/' && s[|a2|] == '/';
    assert |a1| == |a2| by {
      assert forall i | 0 <= i < |a1| :: s[i] == a1[i];
      assert forall i | 0 <= i < |a2| :: s[i] == a2[i];
    }
    assert a1 == s[..|a1|] && a2 == s[..|a2|];
    assert b1 == s[|a1| + 1..] && b2 == s[|a2| + 1..];
  }

  /** `Quiz`: the questions, the index of the visible question card, and the
      score. `history` records the steps taken, for the specification. */
  class Quiz {
    const questions: array<Question>
    var currentQuestionIndex: int
    var score: int
    ghost var history: seq<Step>

    /** The session invariant. The index passes `questions.Length` only for an
        empty quiz, where "Next" moves it to 1 before the result shows. */
    ghost predicate Valid()
      reads this, questions
      ensures Valid() ==> score <= |set k | 0 <= k < |history| && history[k].Answered?|
      ensures Valid() ==> (Completed() <==>
        || (questions.Length > 0 && currentQuestionIndex == questions.Length)
        || (questions.Length == 0 && currentQuestionIndex == 1))
    {
      EarnedAtMostAnswers(questions[..], history);
      && 0 <= score <= currentQuestionIndex
      && (currentQuestionIndex <= questions.Length
          || (questions.Length == 0 && currentQuestionIndex == 1))
      && |history| == currentQuestionIndex
      && score == Earned(questions[..], history)
    }

    /** The result screen has replaced the questions (and the buttons with them). */
    predicate Completed()
      reads this
      ensures Completed() <==> currentQuestionIndex > 0 && Display().ResultScreen?
    {
      currentQuestionIndex > 0 && currentQuestionIndex >= questions.Length
    }

    /** What a transition shows: the next card, or the result once the index
        reaches the number of questions. Before the first transition the window
        shows the first card and "Next" even for an empty quiz, where this
        function already gives the result screen. */
    function Display(): (s: Screen)
      reads this
      ensures s.QuestionCard? <==> 0 <= currentQuestionIndex < questions.Length
      ensures s.QuestionCard? ==> s.index == currentQuestionIndex
      ensures s.ResultScreen? ==> s.text == ResultText(score, questions.Length)
    {
      if 0 <= currentQuestionIndex < questions.Length then QuestionCard(currentQuestionIndex)
      else ResultScreen(ResultText(score, questions.Length))
    }

    constructor (qs: array<Question>)
      ensures questions == qs
      ensures currentQuestionIndex == 0 && score == 0 && history == []
      ensures Valid() && !Completed()
    {
      questions := qs;
      currentQuestionIndex := 0;
      score := 0;
      history := [];
    }

    /** `handleResponse`: score the visible question, then advance by one. If
        `checkAnswer` throws, the listener stops before changing anything. */
    method Answer(response: string) returns (r: Result<Screen>)
      requires Valid() && 0 <= currentQuestionIndex < questions.Length
      modifies this
      ensures Valid()
      ensures var check := CheckAnswer(questions[old(currentQuestionIndex)], response);
        && (r.NumberFormatException? <==> check.NumberFormatException?)
        && (r.NumberFormatException? ==>
              && r.input == response
              && currentQuestionIndex == old(currentQuestionIndex)
              && score == old(score)
              && history == old(history))
        && (r.Ok? ==>
              && currentQuestionIndex == old(currentQuestionIndex) + 1
              && score == old(score) + (if check == Ok(true) then 1 else 0)
              && history == old(history) + [Answered(response)]
              && r.value == Display())
    {
      var q := questions[currentQuestionIndex];
      var check := CheckAnswer(q, response);
      if check.NumberFormatException? {
        return NumberFormatException(check.input);
      }
      if check.value {
        score := score + GetScore(q);
      }
      ghost var steps := history + [Answered(response)];
      assert steps[..|history|] == history;
      currentQuestionIndex := currentQuestionIndex + 1;
      history := steps;
      r := Ok(Display());
    }

    /** The "Next" listener: advance by one without scoring. */
    method Skip() returns (screen: Screen)
      requires Valid() && !Completed()
      modifies this
      ensures Valid()
      ensures currentQuestionIndex == old(currentQuestionIndex) + 1
      ensures score == old(score)
      ensures history == old(history) + [Skipped]
      ensures screen == Display()
    {
      ghost var steps := history + [Skipped];
      assert steps[..|history|] == history;
      currentQuestionIndex := currentQuestionIndex + 1;
      history := steps;
      screen := Display();
    }

    /** A click on choice button `i` of the visible multiple-choice question. */
    method ClickChoice(i: nat) returns (submitted: int, screen: Screen)
      requires Valid() && 0 <= currentQuestionIndex < questions.Length
      requires questions[currentQuestionIndex].MultipleChoice?
      requires i < |questions[currentQuestionIndex].choices| <= MaxInt32
      modifies this
      ensures Valid()
      ensures var choices := old(questions[currentQuestionIndex]).choices;
        && 0 <= submitted <= i && choices[submitted] == choices[i]
        && (forall j | 0 <= j < submitted :: choices[j] != choices[i])
        && (Distinct(choices) ==> submitted == i)
      ensures currentQuestionIndex == old(currentQuestionIndex) + 1
      ensures score == old(score)
        + (if submitted == old(questions[currentQuestionIndex]).correctChoiceIndex then 1 else 0)
      ensures history == old(history) + [Answered(IntToString(submitted))]
      ensures screen == Display()
    {
      var q := questions[currentQuestionIndex];
      var response: string;
      submitted, response := ChoiceButtonResponse(q.choices, i);
      MultipleChoiceRoundTrip(q, submitted);
      var r := Answer(response);
      screen := r.value;
    }

    /** A click on the "True" (`pressedTrue`) or "False" button of the visible
        true/false question. */
    method ClickTrueFalse(pressedTrue: bool) returns (screen: Screen)
      requires Valid() && 0 <= currentQuestionIndex < questions.Length
      requires questions[currentQuestionIndex].TrueFalse?
      modifies this
      ensures Valid()
      ensures currentQuestionIndex == old(currentQuestionIndex) + 1
      ensures score == old(score)
        + (if pressedTrue == old(questions[currentQuestionIndex]).correctAnswer then 1 else 0)
      ensures history == old(history) + [Answered(if pressedTrue then "true" else "false")]
      ensures screen == Display()
    {
      TrueFalseButtons(questions[currentQuestionIndex]);
      var r := Answer(if pressedTrue then "true" else "false");
      screen := r.value;
    }
  }
}
