/** The in-memory quiz store (src/app/services/quiz.service.ts). The store is an
    array the service changes in place; the `Observable` and its delay are left
    out, so each operation returns its value directly, and a thrown error becomes
    an `Err` result. The clock is a parameter. */
module QuizService {
  import opened Wrappers
  import opened Text
  import opened Models

  const NotFound := "Cuestionario no encontrado"

  /** The example quiz the store starts with. */
  function SeedQuiz(now: Timestamp): (q: Quiz)
    ensures q.id == "1" && q.isEnabled && q.timeLimit == Some(10) && q.passingScore == 60
    ensures |q.questions| == 1
    ensures 0 <= q.questions[0].correctAnswer < |q.questions[0].options| && q.questions[0].points > 0
    ensures |q.questions[0].options| == 4 && q.questions[0].correctAnswer == 1 && q.questions[0].points == 10
  {
    Quiz(
      "1",
      "¡Sumas Divertidas!",
      "Practica sumas básicas con números del 1 al 10",
      [Question("1", "¿Cuánto es 2 + 3?", ["4", "5", "6", "7"], 1,
                Some("2 + 3 = 5 porque al contar 2 números más después del 3 llegamos a 5"), 10)],
      true, now, now, "teacher1", "mathematics", Easy, Some(10), 60)
  }

  /** `findIndex(q => q.id === id)`: the first position holding `id`, or -1. */
  function IndexOf(qs: seq<Quiz>, id: string): (i: int)
    ensures -1 <= i < |qs|
    ensures i == -1 <==> forall j :: 0 <= j < |qs| ==> qs[j].id != id
    ensures 0 <= i ==> qs[i].id == id && forall j :: 0 <= j < i ==> qs[j].id != id
  {
    if qs == [] then -1
    else if qs[0].id == id then 0
    else
      var i := IndexOf(qs[1..], id);
      if i == -1 then -1 else i + 1
  }

  /** Replacing the first quiz with `id` by a record that keeps `id` leaves it the
      first one: a second toggle or update reaches the same quiz. */
  lemma IndexOfReplace(qs: seq<Quiz>, id: string, q: Quiz)
    requires IndexOf(qs, id) >= 0 && q.id == id
    ensures IndexOf(qs[IndexOf(qs, id) := q], id) == IndexOf(qs, id)
  {
    var i := IndexOf(qs, id);
    var r := qs[i := q];
    assert r[i].id == id;
    assert forall j :: 0 <= j < i ==> r[j] == qs[j];
    var k := IndexOf(r, id);
    assert k != -1 && k <= i;
  }

  /** The quiz `toggleQuizStatus` leaves: enabled flipped, update time set, every
      other field kept. */
  function Toggled(q: Quiz, now: Timestamp): (t: Quiz)
    ensures t.isEnabled == !q.isEnabled && t.updatedAt == now
    ensures t.(isEnabled := q.isEnabled, updatedAt := q.updatedAt) == q
  {
    q.(isEnabled := !q.isEnabled, updatedAt := now)
  }

  /** Toggling the same quiz twice restores whether it is enabled. */
  lemma ToggleTwice(qs: seq<Quiz>, id: string, t1: Timestamp, t2: Timestamp)
    requires IndexOf(qs, id) >= 0
    ensures var i := IndexOf(qs, id);
      var once := qs[i := Toggled(qs[i], t1)];
      IndexOf(once, id) == i &&
      once[i := Toggled(once[i], t2)] == qs[i := qs[i].(updatedAt := t2)]
  {
    var i := IndexOf(qs, id);
    IndexOfReplace(qs, id, Toggled(qs[i], t1));
  }

  class QuizService {
    var quizzes: seq<Quiz>

    constructor (now: Timestamp)
      ensures quizzes == [SeedQuiz(now)]
    {
      quizzes := [SeedQuiz(now)];
    }

    /** `getQuiz`: the first quiz with `id`, if any. */
    function GetQuiz(id: string): (r: Option<Quiz>)
      reads this
      ensures r.None? <==> forall j :: 0 <= j < |quizzes| ==> quizzes[j].id != id
      ensures r.Some? ==> r.value.id == id && r.value == quizzes[IndexOf(quizzes, id)]
    {
      var i := IndexOf(quizzes, id);
      if i == -1 then None else Some(quizzes[i])
    }

    /** `createQuiz`: appends the quiz with id "length + 1" and both times set to now. */
    method CreateQuiz(quiz: Quiz, now: Timestamp) returns (created: Quiz)
      modifies this`quizzes
      ensures created == quiz.(id := NatToString(|old(quizzes)| + 1), createdAt := now, updatedAt := now)
      ensures quizzes == old(quizzes) + [created]
    {
      created := quiz.(id := NatToString(|quizzes| + 1), createdAt := now, updatedAt := now);
      quizzes := quizzes + [created];
    }

    /** `updateQuiz`: the first quiz with `id` takes the fields present in the patch
        and the new update time; an unknown id is an error and changes nothing. */
    method UpdateQuiz(id: string, patch: PartialQuiz, now: Timestamp) returns (r: Result<Quiz>)
      modifies this`quizzes
      ensures var i := IndexOf(old(quizzes), id);
        if i == -1 then r == Err(NotFound) && quizzes == old(quizzes)
        else r == Ok(Overlay(old(quizzes)[i], patch).(updatedAt := now)) && quizzes == old(quizzes)[i := r.value]
    {
      var i := IndexOf(quizzes, id);
      if i == -1 {
        return Err(NotFound);
      }
      var updated := Overlay(quizzes[i], patch).(updatedAt := now);
      quizzes := quizzes[i := updated];
      r := Ok(updated);
    }

    /** `deleteQuiz`: removes the first quiz with `id`, keeping the others in order. */
    method DeleteQuiz(id: string) returns (r: Result<()>)
      modifies this`quizzes
      ensures var i := IndexOf(old(quizzes), id);
        if i == -1 then r == Err(NotFound) && quizzes == old(quizzes)
        else r == Ok(()) && quizzes == old(quizzes)[..i] + old(quizzes)[i + 1..] && |quizzes| == |old(quizzes)| - 1
    {
      var i := IndexOf(quizzes, id);
      if i == -1 {
        return Err(NotFound);
      }
      quizzes := quizzes[..i] + quizzes[i + 1..];
      r := Ok(());
    }

    /** `toggleQuizStatus`: flips whether the first quiz with `id` is enabled. */
    method ToggleQuizStatus(id: string, now: Timestamp) returns (r: Result<Quiz>)
      modifies this`quizzes
      ensures var i := IndexOf(old(quizzes), id);
        if i == -1 then r == Err(NotFound) && quizzes == old(quizzes)
        else r == Ok(Toggled(old(quizzes)[i], now)) && quizzes == old(quizzes)[i := r.value]
    {
      var i := IndexOf(quizzes, id);
      if i == -1 {
        return Err(NotFound);
      }
      var toggled := Toggled(quizzes[i], now);
      quizzes := quizzes[i := toggled];
      r := Ok(toggled);
    }
  }
}
