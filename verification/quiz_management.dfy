/** The quiz authoring page (src/app/components/quiz-management/quiz-management.component.ts):
    a draft quiz (`Partial<Quiz>`) edited question by question and saved through
    the quiz store. The store replies at once here; the clock is a parameter. */
module QuizManagement {
  import opened Wrappers
  import opened Text
  import opened Models
  import QS = QuizService

  /** `getEmptyQuiz`: the draft a fresh form starts from. */
  function EmptyQuiz(): (p: PartialQuiz)
    ensures p.id.None? && p.questions == Some([]) && p.isEnabled == Some(true)
    ensures p.title == Some("") && p.description == Some("")
    ensures p.category == Some("mathematics") && p.difficulty == Some(Easy)
    ensures p.timeLimit == Some(10) && p.passingScore == Some(60)
  {
    PartialQuiz(None, Some(""), Some(""), Some([]), Some(true), None, None, None,
                Some("mathematics"), Some(Easy), Some(10), Some(60))
  }

  /** `getEmptyQuestion`: a blank question with four empty options, the first one
      marked correct, worth 10 points; its id is the current time in milliseconds. */
  function EmptyQuestion(now: Timestamp): (q: Question)
    ensures q.id == IntToString(now.millis) && q.text == "" && q.explanation == Some("")
    ensures |q.options| == 4 && forall k :: 0 <= k < 4 ==> q.options[k] == ""
    ensures q.correctAnswer == 0 && q.points == 10
    ensures 0 <= q.correctAnswer < |q.options| && q.points >= 1
  {
    Question(IntToString(now.millis), "", ["", "", "", ""], 0, Some(""), 10)
  }

  /** Where `splice(start, 1)` starts: a negative start counts from the end (and
      stops at 0), a start past the end is clamped to the length. */
  function SpliceStart(len: nat, start: int): (k: nat)
    ensures k <= len
    ensures 0 <= start <= len ==> k == start
    ensures start < 0 && 0 <= len + start ==> k == len + start
    ensures len + start < 0 ==> k == 0
    ensures start >= len ==> k == len
  {
    if start < 0 then (if len + start < 0 then 0 else len + start)
    else if start > len then len
    else start
  }

  /** `splice(start, 1)`: removes the element at the (normalised) start, if there is
      one; everything before it stays, everything after it moves down one place. */
  function SpliceOne<T>(s: seq<T>, start: int): (r: seq<T>)
    ensures var k := SpliceStart(|s|, start);
      k < |s| ==>
        |r| == |s| - 1 &&
        (forall j :: 0 <= j < k ==> r[j] == s[j]) &&
        (forall j :: k <= j < |r| ==> r[j] == s[j + 1])
    ensures SpliceStart(|s|, start) == |s| ==> r == s
  {
    var k := SpliceStart(|s|, start);
    if k < |s| then s[..k] + s[k + 1..] else s
  }

  /** Removing at an index of the list takes exactly that question out. */
  lemma SpliceOneAt<T>(s: seq<T>, i: int)
    requires 0 <= i < |s|
    ensures SpliceOne(s, i) == s[..i] + s[i + 1..]
    ensures multiset(SpliceOne(s, i)) + multiset{s[i]} == multiset(s)
  {
    assert s == s[..i] + [s[i]] + s[i + 1..];
  }

  /** The values the model stores for fields a saved draft does not have (the
      source stores `undefined`). */
  const Unset := Quiz("", "", "", [], false, Timestamp(0), Timestamp(0), "", "", Easy, None, 0)

  /** `newQuiz as Quiz`. */
  function AsQuiz(p: PartialQuiz): Quiz {
    Overlay(Unset, p)
  }

  /** `saveQuiz` updates only when editing a draft with a non-empty id. */
  predicate Updates(editing: bool, draft: PartialQuiz) {
    editing && draft.id.Some? && draft.id.value != ""
  }

  class QuizManagementComponent {
    const quizService: QS.QuizService
    var quizzes: seq<Quiz>
    var editingQuiz: bool
    var newQuiz: PartialQuiz

    constructor (quizService: QS.QuizService)
      ensures this.quizService == quizService && quizzes == [] && !editingQuiz && newQuiz == EmptyQuiz()
    {
      this.quizService := quizService;
      quizzes := [];
      editingQuiz := false;
      newQuiz := EmptyQuiz();
    }

    /** `loadQuizzes`: the page shows the store's list. */
    method LoadQuizzes()
      modifies this`quizzes
      ensures quizzes == quizService.quizzes
    {
      quizzes := quizService.quizzes;
    }

    /** `addQuestion`: creates the list if the draft has none, then appends one blank
        question; the questions already there are kept. */
    method AddQuestion(now: Timestamp)
      modifies this`newQuiz
      ensures newQuiz == old(newQuiz).(questions := Some(old(newQuiz).questions.GetOr([]) + [EmptyQuestion(now)]))
    {
      if newQuiz.questions.None? {
        newQuiz := newQuiz.(questions := Some([]));
      }
      newQuiz := newQuiz.(questions := Some(newQuiz.questions.value + [EmptyQuestion(now)]));
    }

    /** `removeQuestion`: splices one question out of the draft's list, if it has one. */
    method RemoveQuestion(index: int)
      modifies this`newQuiz
      ensures old(newQuiz).questions.None? ==> newQuiz == old(newQuiz)
      ensures old(newQuiz).questions.Some? ==>
        newQuiz == old(newQuiz).(questions := Some(SpliceOne(old(newQuiz).questions.value, index)))
    {
      if newQuiz.questions.Some? {
        newQuiz := newQuiz.(questions := Some(SpliceOne(newQuiz.questions.value, index)));
      }
    }

    /** `editQuiz`: the draft becomes a field-by-field copy of the quiz. */
    method EditQuiz(quiz: Quiz)
      modifies this`editingQuiz, this`newQuiz
      ensures editingQuiz && newQuiz == AsPartial(quiz)
    {
      editingQuiz := true;
      newQuiz := AsPartial(quiz);
    }

    /** `resetForm`. */
    method ResetForm()
      modifies this`editingQuiz, this`newQuiz
      ensures !editingQuiz && newQuiz == EmptyQuiz()
    {
      editingQuiz := false;
      newQuiz := EmptyQuiz();
    }

    /** `saveQuiz`: an edited draft with an id updates that quiz, anything else is
        created as a new quiz; once the store has replied the form is reset and the
        list reloaded. An update of an unknown id fails before that, leaving the
        form as it was. */
    method SaveQuiz(now: Timestamp) returns (r: Result<Quiz>)
      modifies this`quizzes, this`editingQuiz, this`newQuiz, quizService`quizzes
      ensures Updates(old(editingQuiz), old(newQuiz)) ==>
        var i := QS.IndexOf(old(quizService.quizzes), old(newQuiz).id.value);
        if i == -1 then
          r == Err(QS.NotFound) && quizService.quizzes == old(quizService.quizzes) &&
          editingQuiz == old(editingQuiz) && newQuiz == old(newQuiz) && quizzes == old(quizzes)
        else
          r == Ok(Overlay(old(quizService.quizzes)[i], old(newQuiz)).(updatedAt := now)) &&
          quizService.quizzes == old(quizService.quizzes)[i := r.value]
      ensures !Updates(old(editingQuiz), old(newQuiz)) ==>
        r == Ok(AsQuiz(old(newQuiz)).(id := NatToString(|old(quizService.quizzes)| + 1), createdAt := now, updatedAt := now)) &&
        quizService.quizzes == old(quizService.quizzes) + [r.value]
      ensures r.Ok? ==> !editingQuiz && newQuiz == EmptyQuiz() && quizzes == quizService.quizzes
    {
      if Updates(editingQuiz, newQuiz) {
        r := quizService.UpdateQuiz(newQuiz.id.value, newQuiz, now);
        if r.Err? {
          return;
        }
      } else {
        var created := quizService.CreateQuiz(AsQuiz(newQuiz), now);
        r := Ok(created);
      }
      ResetForm();
      LoadQuizzes();
    }
  }
}
