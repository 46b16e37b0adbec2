/** The quiz-taking page: a timed run through a quiz's questions, answer
    selection and navigation, and the weighted score shown at the end
    (src/app/components/quiz-taking/quiz-taking.component.ts). */
module QuizTaking {
  import opened Wrappers
  import opened Text
  import opened Models

  // ---------------------------------------------------------------------------
  // Scoring, as specification functions over the questions and the answers

  /** An answer counts only when it is present and equals the correct option's index. */
  predicate AnsweredCorrectly(q: Question, answer: Option<int>) {
    answer == Some(q.correctAnswer)
  }

  /** The number of questions answered (slots that are not null). */
  function AnsweredCount(answers: seq<Option<int>>): (c: nat)
    ensures c <= |answers|
  {
    if answers == [] then 0
    else AnsweredCount(answers[..|answers| - 1]) + (if answers[|answers| - 1].Some? then 1 else 0)
  }

  /** The number of questions whose recorded answer is the correct one. */
  function CorrectCount(qs: seq<Question>, answers: seq<Option<int>>): (c: nat)
    requires |answers| == |qs|
    ensures c <= |qs|
    ensures c <= AnsweredCount(answers)
  {
    if qs == [] then 0
    else
      var n := |qs| - 1;
      CorrectCount(qs[..n], answers[..n]) + (if AnsweredCorrectly(qs[n], answers[n]) then 1 else 0)
  }

  /** The sum of all questions' points. */
  function TotalPoints(qs: seq<Question>): (t: int)
    ensures NonNegativePoints(qs) ==> t >= 0
  {
    if qs == [] then 0 else TotalPoints(qs[..|qs| - 1]) + qs[|qs| - 1].points
  }

  /** The sum of the points of the correctly answered questions. */
  function EarnedPoints(qs: seq<Question>, answers: seq<Option<int>>): (e: int)
    requires |answers| == |qs|
    ensures NonNegativePoints(qs) ==> e >= 0
  {
    if qs == [] then 0
    else
      var n := |qs| - 1;
      EarnedPoints(qs[..n], answers[..n]) + (if AnsweredCorrectly(qs[n], answers[n]) then qs[n].points else 0)
  }

  /** A score as JavaScript computes it: a whole percentage, or NaN (0/0), or an
      infinity (a non-zero sum over a zero total). */
  datatype Score = Percent(value: int) | NotANumber | Infinity(positive: bool)

  /** `Math.round((earned / total) * 100)` computed exactly: the whole number nearest
      to 100 * earned / total, half-way values rounded up (towards +infinity). */
  function RoundedPercent(earned: int, total: int): (s: Score)
    ensures total > 0 ==> s.Percent? && 2 * total * s.value <= 200 * earned + total < 2 * total * (s.value + 1)
    ensures total < 0 ==> s.Percent? && 2 * total * s.value >= 200 * earned + total > 2 * total * (s.value + 1)
    ensures total == 0 ==> (s == NotANumber <==> earned == 0)
    ensures total == 0 && earned != 0 ==> s == Infinity(earned > 0)
  {
    if total > 0 then
      var q := (200 * earned + total) / (2 * total);
      assert 2 * total * q <= 200 * earned + total < 2 * total * (q + 1);
      Percent(q)
    else if total < 0 then
      var q := (-(200 * earned + total)) / (-2 * total);
      assert (-2 * total) * q <= -(200 * earned + total) < (-2 * total) * (q + 1);
      Percent(q)
    else if earned == 0 then NotANumber
    else Infinity(earned > 0)
  }

  /** The results page's verdict `score >= passingScore` (false for NaN). */
  predicate Passed(score: Score, passingScore: int) {
    match score
    case Percent(v) => v >= passingScore
    case NotANumber => false
    case Infinity(positive) => positive
  }

  predicate NonNegativePoints(qs: seq<Question>) {
    forall i :: 0 <= i < |qs| ==> qs[i].points >= 0
  }

  lemma {:induction false} EarnedWithinTotal(qs: seq<Question>, answers: seq<Option<int>>)
    requires |answers| == |qs| && NonNegativePoints(qs)
    ensures 0 <= EarnedPoints(qs, answers) <= TotalPoints(qs)
  {
    if qs != [] {
      var n := |qs| - 1;
      EarnedWithinTotal(qs[..n], answers[..n]);
    }
  }

  /** Every question answered correctly earns every point, and only then is the count full. */
  lemma {:induction false} AllCorrect(qs: seq<Question>, answers: seq<Option<int>>)
    requires |answers| == |qs|
    ensures CorrectCount(qs, answers) == |qs| <==> forall i :: 0 <= i < |qs| ==> AnsweredCorrectly(qs[i], answers[i])
    ensures (forall i :: 0 <= i < |qs| ==> AnsweredCorrectly(qs[i], answers[i])) ==> EarnedPoints(qs, answers) == TotalPoints(qs)
  {
    if qs != [] {
      var n := |qs| - 1;
      AllCorrect(qs[..n], answers[..n]);
      assert forall i :: 0 <= i < n ==> qs[..n][i] == qs[i] && answers[..n][i] == answers[i];
    }
  }

  /** With no correct answer nothing is earned. */
  lemma {:induction false} NoneCorrect(qs: seq<Question>, answers: seq<Option<int>>)
    requires |answers| == |qs|
    requires CorrectCount(qs, answers) == 0
    ensures EarnedPoints(qs, answers) == 0
  {
    if qs != [] {
      var n := |qs| - 1;
      NoneCorrect(qs[..n], answers[..n]);
    }
  }

  /** A positive factor does not change the sign of a product. */
  lemma SignOfProduct(t: int, x: int)
    requires t > 0
    ensures t * x > 0 <==> x > 0
  {
    if x > 0 { assert t * x >= t; }
    else if x < 0 { assert t * x <= -t; }
  }

  /** The whole number nearest to 100 * e / t, for 0 <= e <= t, lies in [0, 100],
      is 100 for e == t and 0 for e == 0. */
  lemma RoundedBounds(e: int, t: int, q: int)
    requires t > 0 && 0 <= e <= t && 2 * t * q <= 200 * e + t < 2 * t * (q + 1)
    ensures 0 <= q <= 100
    ensures e == t ==> q == 100
    ensures e == 0 ==> q == 0
  {
    assert 2 * t * (q + 1) == t * (2 * q + 2);
    SignOfProduct(t, 2 * q + 2);
    assert t * (201 - 2 * q) == 201 * t - 2 * t * q;
    SignOfProduct(t, 201 - 2 * q);
    if e == t {
      assert t * (2 * q + 2 - 201) == 2 * t * (q + 1) - 201 * t;
      SignOfProduct(t, 2 * q + 2 - 201);
    }
    if e == 0 {
      assert t * (1 - 2 * q) == t - 2 * t * q;
      SignOfProduct(t, 1 - 2 * q);
    }
  }

  /** With non-negative points and a positive total the score is a percentage in [0, 100]:
      100 when every answer is correct, 0 when none is. */
  lemma {:induction false} ScoreRange(qs: seq<Question>, answers: seq<Option<int>>)
    requires |answers| == |qs| && NonNegativePoints(qs) && TotalPoints(qs) > 0
    ensures var s := RoundedPercent(EarnedPoints(qs, answers), TotalPoints(qs));
      s.Percent? && 0 <= s.value <= 100
    ensures CorrectCount(qs, answers) == |qs| ==> RoundedPercent(EarnedPoints(qs, answers), TotalPoints(qs)) == Percent(100)
    ensures CorrectCount(qs, answers) == 0 ==> RoundedPercent(EarnedPoints(qs, answers), TotalPoints(qs)) == Percent(0)
  {
    var e, t := EarnedPoints(qs, answers), TotalPoints(qs);
    assert |qs| > 0;
    EarnedWithinTotal(qs, answers);
    RoundedBounds(e, t, RoundedPercent(e, t).value);
    if CorrectCount(qs, answers) == |qs| {
      FullScore(qs, answers);
    } else if CorrectCount(qs, answers) == 0 {
      ZeroScore(qs, answers);
    }
  }

  /** Every answer correct scores 100. */
  lemma {:induction false} FullScore(qs: seq<Question>, answers: seq<Option<int>>)
    requires |answers| == |qs| && NonNegativePoints(qs) && TotalPoints(qs) > 0
    requires CorrectCount(qs, answers) == |qs|
    ensures RoundedPercent(EarnedPoints(qs, answers), TotalPoints(qs)) == Percent(100)
  {
    var e, t := EarnedPoints(qs, answers), TotalPoints(qs);
    AllCorrect(qs, answers);
    RoundedBounds(e, t, RoundedPercent(e, t).value);
  }

  /** No answer correct scores 0. */
  lemma {:induction false} ZeroScore(qs: seq<Question>, answers: seq<Option<int>>)
    requires |answers| == |qs| && NonNegativePoints(qs) && TotalPoints(qs) > 0
    requires CorrectCount(qs, answers) == 0
    ensures RoundedPercent(EarnedPoints(qs, answers), TotalPoints(qs)) == Percent(0)
  {
    var e, t := EarnedPoints(qs, answers), TotalPoints(qs);
    NoneCorrect(qs, answers);
    RoundedBounds(e, t, RoundedPercent(e, t).value);
  }

  // ---------------------------------------------------------------------------
  // The clock display

  /** The quotient that goes with JavaScript's `%`: `a / b` truncated toward zero,
      for a positive divisor. */
  function JsQuotient(a: int, b: int): (q: int)
    requires b > 0
    ensures a >= 0 ==> q >= 0
    ensures a < 0 ==> q <= 0
    ensures a >= 0 ==> q == a / b
  {
    if a >= 0 then DivFacts(a, b); a / b else DivFacts(-a, b); -((-a) / b)
  }

  /** Dafny's division of a natural number by a positive one. */
  lemma DivFacts(n: int, b: int)
    requires n >= 0 && b > 0
    ensures n / b >= 0 && 0 <= n % b < b && n == b * (n / b) + n % b
  {
  }

  /** A product with a factor of at least one is at least the other factor. */
  lemma MulAtLeast(b: int, k: int)
    requires b > 0 && k >= 1
    ensures b * k >= b
  {
    assert b * k == b * (k - 1) + b;
  }

  /** JavaScript's `a % b` for a positive divisor: what is left after taking away
      the truncated quotient, so the sign follows the dividend. */
  function JsRemainder(a: int, b: int): (r: int)
    requires b > 0
    ensures a == b * JsQuotient(a, b) + r
    ensures -b < r < b && (a >= 0 ==> r >= 0) && (a < 0 ==> r <= 0)
    ensures a >= 0 ==> r == a % b
  {
    if a >= 0 then DivFacts(a, b); a % b else DivFacts(-a, b); -((-a) % b)
  }

  /** The clauses above leave one value only: any quotient and remainder that
      rebuild `a` with a remainder of `a`'s sign and below `b` in size are the
      JavaScript ones. */
  lemma JsRemainderUnique(a: int, b: int, q: int, r: int)
    requires b > 0 && a == b * q + r && -b < r < b
    requires (a >= 0 ==> r >= 0) && (a < 0 ==> r <= 0)
    ensures q == JsQuotient(a, b) && r == JsRemainder(a, b)
  {
    var q0, r0 := JsQuotient(a, b), JsRemainder(a, b);
    assert b * (q - q0) == r0 - r;
    assert -b < r0 - r < b;
    if q > q0 {
      MulAtLeast(b, q - q0);
    } else if q < q0 {
      MulAtLeast(b, q0 - q);
    }
  }

  /** A negative count keeps its sign in the seconds field: -65 % 60 is -5. */
  lemma NegativeRemainderExample()
    ensures JsQuotient(-65, 60) == -1 && JsRemainder(-65, 60) == -5
  {
  }

  /** `formatTime`: whole minutes (`Math.floor(seconds / 60)`), a colon, and the
      remaining seconds (`seconds % 60`) padded to two characters with '0'. */
  function FormatTime(seconds: int): (t: string)
    ensures |t| >= 4
    ensures |IntToString(seconds / 60)| + 2 < |t| && t[|IntToString(seconds / 60)|] == ':'
  {
    var minutes := IntToString(seconds / 60);
    var secs := PadStart(IntToString(JsRemainder(seconds, 60)), 2, '0');
    assert |secs| >= 2;
    minutes + ":" + secs
  }

  /** The seconds field: a remainder below 60, padded, is two digits that read back
      as the remainder. */
  lemma SecondsField(r: nat)
    requires r < 60
    ensures var ss := PadStart(NatToString(r), 2, '0');
      |ss| == 2 && AllDigits(ss) && ParseNat(ss) == r
  {
    var rs := NatToString(r);
    var ss := PadStart(rs, 2, '0');
    ParseNatToString(r);
    if r < 10 {
      assert ss == ['0'] + rs;
      assert ss[..1] == ['0'];
      assert ParseNat(['0']) == 0 by { assert ['0'][..0] == []; }
    } else {
      assert rs == NatToString(r / 10) + [DigitChar(r % 10)];
      assert |rs| == 2;
      assert ss == rs;
    }
  }

  /** For a non-negative count of seconds the text is "m:ss": decimal minutes, a
      colon, two digits of seconds below 60; reading it back gives the count. */
  lemma FormatTimeRoundTrip(seconds: int)
    requires seconds >= 0
    ensures var t := FormatTime(seconds);
      |t| >= 4 && t[|t| - 3] == ':' && AllDigits(t[..|t| - 3]) && AllDigits(t[|t| - 2..]) &&
      ParseNat(t[|t| - 2..]) < 60 &&
      60 * ParseNat(t[..|t| - 3]) + ParseNat(t[|t| - 2..]) == seconds
  {
    var m, r := seconds / 60, seconds % 60;
    assert JsRemainder(seconds, 60) == r;
    var ms := NatToString(m);
    var ss := PadStart(NatToString(r), 2, '0');
    SecondsField(r);
    var t := FormatTime(seconds);
    assert t == ms + ":" + ss;
    assert t[..|t| - 3] == ms;
    assert t[|t| - 2..] == ss;
    ParseNatToString(m);
  }

  // ---------------------------------------------------------------------------
  // The component

  class QuizTakingComponent {
    const quiz: Quiz
    var quizStarted: bool
    var quizCompleted: bool
    var currentQuestionIndex: int
    var selectedOption: Option<int>
    var userAnswers: array<Option<int>>
    var timeLeft: int          // seconds
    var timerRunning: bool     // whether the one-second interval is installed
    var score: Score
    var correctAnswers: int

    /** One answer slot per question; the index stays on a question (or 0 for an
        empty quiz); the correct count never exceeds the number of questions. */
    ghost predicate Valid()
      reads this
    {
      userAnswers.Length == |quiz.questions| &&
      0 <= currentQuestionIndex && (currentQuestionIndex < |quiz.questions| || currentQuestionIndex == 0) &&
      0 <= correctAnswers <= |quiz.questions|
    }

    /** The state before the quiz starts: nothing answered, no result. */
    ghost predicate PreStart()
      reads this, userAnswers
    {
      !quizStarted && !quizCompleted && currentQuestionIndex == 0 && selectedOption == None &&
      (forall i :: 0 <= i < userAnswers.Length ==> userAnswers[i] == None) &&
      score == Percent(0) && correctAnswers == 0
    }

    /** The result of scoring the answers recorded so far. */
    ghost predicate Scored()
      reads this, userAnswers
      requires Valid()
    {
      correctAnswers == CorrectCount(quiz.questions, userAnswers[..]) &&
      score == RoundedPercent(EarnedPoints(quiz.questions, userAnswers[..]), TotalPoints(quiz.questions))
    }

    /** The page once the quiz has been loaded: one null answer per question. */
    constructor (quiz: Quiz)
      ensures this.quiz == quiz && Valid() && PreStart() && fresh(userAnswers)
      ensures timeLeft == 0 && !timerRunning
    {
      this.quiz := quiz;
      quizStarted := false;
      quizCompleted := false;
      currentQuestionIndex := 0;
      selectedOption := None;
      userAnswers := new Option<int>[|quiz.questions|](_ => None);
      timeLeft := 0;
      timerRunning := false;
      score := Percent(0);
      correctAnswers := 0;
    }

    /** Starts the quiz and its countdown of `timeLimit * 60` seconds. */
    method StartQuiz()
      requires Valid() && quiz.timeLimit.Some?
      modifies this`quizStarted, this`timeLeft, this`timerRunning
      ensures Valid()
      ensures quizStarted && timerRunning && timeLeft == quiz.timeLimit.value * 60
    {
      quizStarted := true;
      timeLeft := quiz.timeLimit.value * 60;
      timerRunning := true;
    }

    /** One firing of the one-second interval: while time is left it counts down by
        one second; at zero it finishes the quiz, which stops the interval. Once the
        interval is stopped, no tick changes anything. */
    method Tick()
      requires Valid()
      modifies this`timeLeft, this`timerRunning, this`quizCompleted, this`score, this`correctAnswers
      ensures Valid()
      ensures !old(timerRunning) ==> unchanged(this)
      ensures old(timerRunning) && old(timeLeft) > 0 ==>
        timeLeft == old(timeLeft) - 1 && timerRunning &&
        quizCompleted == old(quizCompleted) && score == old(score) && correctAnswers == old(correctAnswers)
      ensures old(timerRunning) && old(timeLeft) <= 0 ==>
        timeLeft == old(timeLeft) && !timerRunning && quizCompleted && Scored()
      ensures old(timeLeft) >= 0 ==> timeLeft >= 0
    {
      if timerRunning {
        if timeLeft > 0 {
          timeLeft := timeLeft - 1;
        } else {
          FinishQuiz();
        }
      }
    }

    /** Records option `index` as the answer to the current question and highlights it;
        every other answer stays as it was. */
    method SelectOption(index: int)
      requires Valid() && |quiz.questions| > 0
      modifies this`selectedOption, userAnswers
      ensures Valid()
      ensures selectedOption == Some(index)
      ensures userAnswers[..] == old(userAnswers[..])[currentQuestionIndex := Some(index)]
    {
      selectedOption := Some(index);
      userAnswers[currentQuestionIndex] := Some(index);
    }

    /** Goes back one question when not on the first, highlighting its stored answer. */
    method PreviousQuestion()
      requires Valid()
      modifies this`currentQuestionIndex, this`selectedOption
      ensures Valid()
      ensures old(currentQuestionIndex) > 0 ==>
        currentQuestionIndex == old(currentQuestionIndex) - 1 && selectedOption == userAnswers[currentQuestionIndex]
      ensures old(currentQuestionIndex) <= 0 ==>
        currentQuestionIndex == old(currentQuestionIndex) && selectedOption == old(selectedOption)
    {
      if currentQuestionIndex > 0 {
        currentQuestionIndex := currentQuestionIndex - 1;
        selectedOption := userAnswers[currentQuestionIndex];
      }
    }

    /** Goes on one question when not on the last, highlighting its stored answer.
        Nothing requires the current question to have been answered. */
    method NextQuestion()
      requires Valid()
      modifies this`currentQuestionIndex, this`selectedOption
      ensures Valid()
      ensures old(currentQuestionIndex) < |quiz.questions| - 1 ==>
        currentQuestionIndex == old(currentQuestionIndex) + 1 && selectedOption == userAnswers[currentQuestionIndex]
      ensures old(currentQuestionIndex) >= |quiz.questions| - 1 ==>
        currentQuestionIndex == old(currentQuestionIndex) && selectedOption == old(selectedOption)
    {
      if currentQuestionIndex < |quiz.questions| - 1 {
        currentQuestionIndex := currentQuestionIndex + 1;
        selectedOption := userAnswers[currentQuestionIndex];
      }
    }

    /** Stops the interval, scores the recorded answers and shows the results. */
    method FinishQuiz()
      requires Valid()
      modifies this`timerRunning, this`quizCompleted, this`score, this`correctAnswers
      ensures Valid() && !timerRunning && quizCompleted && Scored()
    {
      timerRunning := false;
      CalculateScore();
      quizCompleted := true;
    }

    /** Counts the correct answers and sums the points, one question at a time. */
    method CalculateScore()
      requires Valid()
      modifies this`score, this`correctAnswers
      ensures Valid() && Scored()
    {
      var correct := 0;
      var totalPoints := 0;
      var earnedPoints := 0;
      var questions := quiz.questions;
      var i := 0;
      while i < |questions|
        invariant 0 <= i <= |questions|
        invariant correct == CorrectCount(questions[..i], userAnswers[..i])
        invariant totalPoints == TotalPoints(questions[..i])
        invariant earnedPoints == EarnedPoints(questions[..i], userAnswers[..i])
      {
        var question := questions[i];
        assert questions[..i + 1][..i] == questions[..i];
        assert userAnswers[..i + 1][..i] == userAnswers[..i];
        assert TotalPoints(questions[..i + 1]) == totalPoints + question.points;
        assert EarnedPoints(questions[..i + 1], userAnswers[..i + 1]) ==
          earnedPoints + if AnsweredCorrectly(question, userAnswers[i]) then question.points else 0;
        totalPoints := totalPoints + question.points;
        if userAnswers[i] == Some(question.correctAnswer) {
          correct := correct + 1;
          earnedPoints := earnedPoints + question.points;
        }
        i := i + 1;
      }
      assert questions[..i] == questions;
      assert userAnswers[..i] == userAnswers[..];
      correctAnswers := correct;
      score := RoundedPercent(earnedPoints, totalPoints);
    }

    /** Puts the page back to the state it had when the quiz was loaded. */
    method RetryQuiz()
      requires Valid()
      modifies this`quizStarted, this`quizCompleted, this`currentQuestionIndex, this`selectedOption,
               this`userAnswers, this`score, this`correctAnswers
      ensures Valid() && PreStart() && fresh(userAnswers)
    {
      quizStarted := false;
      quizCompleted := false;
      currentQuestionIndex := 0;
      selectedOption := None;
      userAnswers := new Option<int>[|quiz.questions|](_ => None);
      score := Percent(0);
      correctAnswers := 0;
    }

    /** The "Incorrectas" count on the results page. */
    function IncorrectCount(): (n: int)
      reads this
      requires Valid()
      ensures 0 <= n <= |quiz.questions| && n + correctAnswers == |quiz.questions|
    {
      |quiz.questions| - correctAnswers
    }

    /** The results page's verdict. */
    function IsPassed(): (passed: bool)
      reads this
      ensures passed <==> (score.Percent? && score.value >= quiz.passingScore) || score == Infinity(true)
    {
      Passed(score, quiz.passingScore)
    }
  }

  /** The worked example: points 10 and 20, pass mark 60. One right and one wrong
      answer scores 33 and fails; two right answers score 100 and pass. */
  lemma TwoQuestionExample(q1: Question, q2: Question)
    requires q1.points == 10 && q2.points == 20
    ensures var qs := [q1, q2];
      var mixed := [Some(q1.correctAnswer), Some(q2.correctAnswer + 1)];
      var right := [Some(q1.correctAnswer), Some(q2.correctAnswer)];
      RoundedPercent(EarnedPoints(qs, mixed), TotalPoints(qs)) == Percent(33) &&
      !Passed(Percent(33), 60) &&
      RoundedPercent(EarnedPoints(qs, right), TotalPoints(qs)) == Percent(100) &&
      Passed(Percent(100), 60)
  {
    var qs := [q1, q2];
    var mixed := [Some(q1.correctAnswer), Some(q2.correctAnswer + 1)];
    var right := [Some(q1.correctAnswer), Some(q2.correctAnswer)];
    assert qs[..1] == [q1] && [q1][..0] == [];
    assert mixed[..1] == [Some(q1.correctAnswer)] && right[..1] == mixed[..1] && mixed[..1][..0] == [];
    assert TotalPoints([q1]) == 10;
    assert TotalPoints(qs) == 30;
    assert EarnedPoints([q1], [Some(q1.correctAnswer)]) == 10;
    assert EarnedPoints(qs, mixed) == 10;
    assert EarnedPoints(qs, right) == 30;
    assert (200 * 10 + 30) / (2 * 30) == 33;
    assert (200 * 30 + 30) / (2 * 30) == 100;
  }
}
