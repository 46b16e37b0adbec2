/** The records of the quiz, user and role models. Dates are opaque timestamps;
    JavaScript numbers used as counts, indices and points are integers. */
module Models {
  import opened Wrappers

  /** A `Date`, kept opaque. */
  datatype Timestamp = Timestamp(millis: int)

  datatype Question = Question(
    id: string,
    text: string,
    options: seq<string>,
    correctAnswer: int,
    explanation: Option<string>,
    points: int)

  datatype Difficulty = Easy | Medium | Hard

  datatype Quiz = Quiz(
    id: string,
    title: string,
    description: string,
    questions: seq<Question>,
    isEnabled: bool,
    createdAt: Timestamp,
    updatedAt: Timestamp,
    createdBy: string,
    category: string,
    difficulty: Difficulty,
    timeLimit: Option<int>,   // minutes
    passingScore: int)

  /** A `Partial<Quiz>`: every field may be absent. */
  datatype PartialQuiz = PartialQuiz(
    id: Option<string>,
    title: Option<string>,
    description: Option<string>,
    questions: Option<seq<Question>>,
    isEnabled: Option<bool>,
    createdAt: Option<Timestamp>,
    updatedAt: Option<Timestamp>,
    createdBy: Option<string>,
    category: Option<string>,
    difficulty: Option<Difficulty>,
    timeLimit: Option<int>,
    passingScore: Option<int>)

  /** The object spread `{ ...quiz }` seen as a `Partial<Quiz>`: every field of the quiz
      is present (an absent time limit stays absent), so spreading it over any quiz
      yields the quiz again. */
  function AsPartial(q: Quiz): (p: PartialQuiz)
    ensures forall base :: Overlay(base, p) == q.(timeLimit := if q.timeLimit.Some? then q.timeLimit else base.timeLimit)
  {
    PartialQuiz(Some(q.id), Some(q.title), Some(q.description), Some(q.questions), Some(q.isEnabled),
                Some(q.createdAt), Some(q.updatedAt), Some(q.createdBy), Some(q.category),
                Some(q.difficulty), q.timeLimit, Some(q.passingScore))
  }

  /** A patch with every field absent. */
  const NoFields := PartialQuiz(None, None, None, None, None, None, None, None, None, None, None, None)

  /** `{ ...q, ...p }`: the fields present in `p` override those of `q`; a patch
      with no fields leaves `q` as it is, and a field the patch does not carry is
      never changed. */
  function Overlay(q: Quiz, p: PartialQuiz): (r: Quiz)
    ensures p == NoFields ==> r == q
    ensures (p.id.Some? ==> r.id == p.id.value) && (p.id.None? ==> r.id == q.id)
    ensures (p.title.Some? ==> r.title == p.title.value) && (p.title.None? ==> r.title == q.title)
    ensures (p.description.Some? ==> r.description == p.description.value) && (p.description.None? ==> r.description == q.description)
    ensures (p.questions.Some? ==> r.questions == p.questions.value) && (p.questions.None? ==> r.questions == q.questions)
    ensures (p.isEnabled.Some? ==> r.isEnabled == p.isEnabled.value) && (p.isEnabled.None? ==> r.isEnabled == q.isEnabled)
    ensures (p.createdAt.Some? ==> r.createdAt == p.createdAt.value) && (p.createdAt.None? ==> r.createdAt == q.createdAt)
    ensures (p.updatedAt.Some? ==> r.updatedAt == p.updatedAt.value) && (p.updatedAt.None? ==> r.updatedAt == q.updatedAt)
    ensures (p.createdBy.Some? ==> r.createdBy == p.createdBy.value) && (p.createdBy.None? ==> r.createdBy == q.createdBy)
    ensures (p.category.Some? ==> r.category == p.category.value) && (p.category.None? ==> r.category == q.category)
    ensures (p.difficulty.Some? ==> r.difficulty == p.difficulty.value) && (p.difficulty.None? ==> r.difficulty == q.difficulty)
    ensures (p.timeLimit.Some? ==> r.timeLimit == p.timeLimit) && (p.timeLimit.None? ==> r.timeLimit == q.timeLimit)
    ensures (p.passingScore.Some? ==> r.passingScore == p.passingScore.value) && (p.passingScore.None? ==> r.passingScore == q.passingScore)
  {
    Quiz(p.id.GetOr(q.id), p.title.GetOr(q.title), p.description.GetOr(q.description),
         p.questions.GetOr(q.questions), p.isEnabled.GetOr(q.isEnabled),
         p.createdAt.GetOr(q.createdAt), p.updatedAt.GetOr(q.updatedAt),
         p.createdBy.GetOr(q.createdBy), p.category.GetOr(q.category),
         p.difficulty.GetOr(q.difficulty),
         if p.timeLimit.Some? then p.timeLimit else q.timeLimit,
         p.passingScore.GetOr(q.passingScore))
  }

  /** Applying the same patch twice is the same as applying it once. */
  lemma OverlayIdempotent(q: Quiz, p: PartialQuiz)
    ensures Overlay(Overlay(q, p), p) == Overlay(q, p)
  {
  }

  datatype UserRole = Admin | Teacher | Tutor | Student

  datatype User = User(id: string, name: string, email: string, role: UserRole, password: Option<string>)

  datatype Permission = Permission(id: string, name: string, description: string, code: string)

  /** AVAILABLE_PERMISSIONS, the catalogue the settings page offers. */
  const AvailablePermissions: seq<Permission> := [
    Permission("1", "Gestión de Usuarios", "Permite administrar usuarios del sistema", "manage_users"),
    Permission("2", "Revisión de Ejercicios", "Permite revisar y evaluar ejercicios", "review_exercises"),
    Permission("3", "Acceso a Cursos", "Permite ver y acceder a los cursos", "view_courses"),
    Permission("4", "Gestión de Permisos", "Permite administrar roles y permisos", "manage_permissions")
  ]

  function PermissionCodes(ps: seq<Permission>): (codes: seq<string>)
    ensures |codes| == |ps|
    ensures forall i :: 0 <= i < |ps| ==> codes[i] == ps[i].code
  {
    seq(|ps|, i requires 0 <= i < |ps| => ps[i].code)
  }

  /** The catalogue offers exactly the four permission codes, in this order, and
      no code twice. */
  lemma CatalogueCodes()
    ensures PermissionCodes(AvailablePermissions) ==
      ["manage_users", "review_exercises", "view_courses", "manage_permissions"]
    ensures forall i, j :: 0 <= i < j < |AvailablePermissions| ==>
      PermissionCodes(AvailablePermissions)[i] != PermissionCodes(AvailablePermissions)[j]
  {
    var codes := PermissionCodes(AvailablePermissions);
    assert codes == ["manage_users", "review_exercises", "view_courses", "manage_permissions"];
  }

  /** A role is an object: the settings page edits the very objects the role service stores. */
  class Role {
    var id: string
    var name: string
    var description: string
    var permissions: seq<string>

    constructor (id: string, name: string, description: string, permissions: seq<string>)
      ensures this.id == id && this.name == name && this.description == description
      ensures this.permissions == permissions
    {
      this.id := id;
      this.name := name;
      this.description := description;
      this.permissions := permissions;
    }
  }
}
