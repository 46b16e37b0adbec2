# escuelamak — a Dafny model of the quiz, session and course-data core

escuelamak is an Angular application for a children's school. Teachers author
quizzes and students take them against a clock. An administrator edits roles,
permissions and users. Course data is written to and read from a Supabase
database through a retrying, key-renaming service. This project models the logic
of that core in Dafny and proves what each operation promises.

How the model is laid out:

- **Datatypes** (`Models`) model the value records: quizzes, questions, users, permissions and `Partial<Quiz>` drafts. Object spread is modelled as `Overlay`.
- **Roles** are a class, because the settings page edits the very role objects the role store keeps.
- **Stores** (`QuizService`, `UserService`, `RoleService`, `AuthService`) are classes whose fields the methods update in place.
- **Pages** (`QuizTaking`, `QuizManagement`, `Settings`, `Login`, `PasswordReset`, `SupabaseTest`) are classes holding the component's fields.
- **Waiting on an answer:** a handler that waits on an observable is split in two. One method runs up to the call. A second method is the callback, and it takes the answer as a parameter.
- **Retry loop** (`Retry`): `retryOperation` is a method with a loop. It is proved equal to a recursive specification, `RetrySpec`, and the lemmas state what the loop guarantees about that specification.
- **Key renaming** (`KeyCase`): `transformToSnakeCase` and `transformToCamelCase` work on a JSON-like value type whose objects are ordered entry lists. The write-then-read round trip is proved for every value whose keys are distinct and contain no `_`.
- **Shared modules:** `Wrappers` holds `Option` and `Result`. `Text` holds decimal rendering and parsing, `padStart`, and `message || fallback`.

Clocks (`Date.now()`, `new Date()`), answers from remote calls and the query
string are parameters. Integers are unbounded. JavaScript's truncating `%`,
`Math.floor`, `Math.round` and `splice` are written out exactly.

## Model

| member | source | states |
|---|---|---|
| Models.AsPartial | src/app/components/quiz-management/quiz-management.component.ts:382 | the draft `{...quiz}`, spread over any quiz, gives the quiz back (an absent time limit stays the base's) |
| Models.Overlay | src/app/services/quiz.service.ts:66-70 | `{...q, ...p}`: each of the twelve fields takes the patch's value when the patch carries it and keeps the base's otherwise (a missing time limit in both stays missing); a patch with no fields gives `q` back |
| Models.OverlayIdempotent | src/app/services/quiz.service.ts:66-70 | spreading the same patch twice gives what spreading it once gives |
| Models.CatalogueCodes | src/app/models/role.model.ts:15-40 | the catalogue's codes are exactly manage_users, review_exercises, view_courses, manage_permissions, in that order, none twice |
| Models.Role.constructor | src/app/models/role.model.ts:8-13 | a role object holds exactly the given id, name, description and permission list |
| Text.NatToString | src/app/services/quiz.service.ts:52 | `toString()` of a natural number is a non-empty digit string, one digit exactly below 10 |
| Text.ParseNatToString | src/app/services/quiz.service.ts:52 | reading the decimal text of a number gives the number back |
| Text.NatToStringInjective | src/app/services/user.service.ts:52 | different numbers get different decimal texts, so ids "length + 1" never collide |
| Text.PadStart | src/app/components/quiz-taking/quiz-taking.component.ts:455 | `padStart` leaves a text of at least the width as it is; a shorter one becomes exactly the width, the text as its suffix and only the fill before it |
| Text.OrElse | src/app/components/login/login.component.ts:125 | `message \|\| fallback` is the message when non-empty, otherwise the fallback; empty only when both are |
| QuizTaking.AnsweredCount | src/app/components/quiz-taking/quiz-taking.component.ts:396 | the number of answered slots, at most one per slot; it is the bound `CorrectCount` is stated against |
| QuizTaking.TotalPoints | src/app/components/quiz-taking/quiz-taking.component.ts:485-489 | the summed points are non-negative when every question's are |
| QuizTaking.EarnedPoints | src/app/components/quiz-taking/quiz-taking.component.ts:486-493 | the earned points are non-negative when every question's are |
| QuizTaking.CorrectCount | src/app/components/quiz-taking/quiz-taking.component.ts:483-496 | the correct count is bounded by the number of questions and by the number of answered questions |
| QuizTaking.RoundedPercent | src/app/components/quiz-taking/quiz-taking.component.ts:497 | `Math.round(earned / total * 100)` is the nearest whole percentage, halves up; 0/0 is NaN and x/0 an infinity of x's sign |
| QuizTaking.EarnedWithinTotal | src/app/components/quiz-taking/quiz-taking.component.ts:483-495 | with non-negative points the earned points lie between 0 and the total |
| QuizTaking.AllCorrect | src/app/components/quiz-taking/quiz-taking.component.ts:488-493 | the count is full exactly when every answer is correct, and then every point is earned |
| QuizTaking.NoneCorrect | src/app/components/quiz-taking/quiz-taking.component.ts:488-493 | with no correct answer nothing is earned |
| QuizTaking.RoundedBounds | src/app/components/quiz-taking/quiz-taking.component.ts:497 | the rounded percentage of a fraction in [0, 1] is in [0, 100], 100 for 1 and 0 for 0 |
| QuizTaking.ScoreRange | src/app/components/quiz-taking/quiz-taking.component.ts:483-498 | with a positive total the score is a percentage in [0, 100]: 100 when all answers are right, 0 when none is |
| QuizTaking.FullScore | src/app/components/quiz-taking/quiz-taking.component.ts:483-498 | every answer correct scores exactly 100 |
| QuizTaking.ZeroScore | src/app/components/quiz-taking/quiz-taking.component.ts:483-498 | no answer correct scores exactly 0 |
| QuizTaking.JsQuotient | src/app/components/quiz-taking/quiz-taking.component.ts:454 | the quotient that goes with JavaScript `%`, truncated toward zero: the sign of the dividend, and Euclidean for a non-negative one |
| QuizTaking.JsRemainder | src/app/components/quiz-taking/quiz-taking.component.ts:454 | JavaScript `%` by a positive divisor: the dividend is the divisor times `JsQuotient` plus the remainder, whose size is below the divisor and whose sign is the dividend's |
| QuizTaking.JsRemainderUnique | src/app/components/quiz-taking/quiz-taking.component.ts:454 | those clauses fix the value: any quotient and remainder with the same properties are `JsQuotient` and `JsRemainder` |
| QuizTaking.NegativeRemainderExample | src/app/components/quiz-taking/quiz-taking.component.ts:452-456 | a negative count keeps its sign in the seconds field: -65 % 60 is -5 with quotient -1 |
| QuizTaking.FormatTime | src/app/components/quiz-taking/quiz-taking.component.ts:452-456 | the clock text, for any count, has at least four characters, with the colon right after the minutes and at least two characters after it |
| QuizTaking.SecondsField | src/app/components/quiz-taking/quiz-taking.component.ts:454-455 | a remainder below 60, padded with '0', is two digits that read back as the remainder |
| QuizTaking.FormatTimeRoundTrip | src/app/components/quiz-taking/quiz-taking.component.ts:452-456 | for non-negative seconds the clock text is minutes, ':', two digits below 60, and reads back to the same count |
| QuizTaking.QuizTakingComponent.constructor | src/app/components/quiz-taking/quiz-taking.component.ts:412-424 | a loaded quiz starts with one null answer per question, nothing started and no result |
| QuizTaking.QuizTakingComponent.StartQuiz | src/app/components/quiz-taking/quiz-taking.component.ts:430-434 | the quiz starts and the countdown runs from `timeLimit * 60` seconds |
| QuizTaking.QuizTakingComponent.Tick | src/app/components/quiz-taking/quiz-taking.component.ts:436-443 | while time is left a tick takes one second off; at zero it finishes and scores the quiz; a stopped timer changes nothing; time never goes negative |
| QuizTaking.QuizTakingComponent.SelectOption | src/app/components/quiz-taking/quiz-taking.component.ts:458-461 | the option becomes the current question's answer and the highlighted one; no other answer changes |
| QuizTaking.QuizTakingComponent.PreviousQuestion | src/app/components/quiz-taking/quiz-taking.component.ts:463-468 | moves back one question, highlighting its stored answer, unless already on the first |
| QuizTaking.QuizTakingComponent.NextQuestion | src/app/components/quiz-taking/quiz-taking.component.ts:470-475 | moves on one question, highlighting its stored answer, unless already on the last |
| QuizTaking.QuizTakingComponent.FinishQuiz | src/app/components/quiz-taking/quiz-taking.component.ts:477-481 | stops the timer, marks the quiz completed and leaves the score of the recorded answers |
| QuizTaking.QuizTakingComponent.CalculateScore | src/app/components/quiz-taking/quiz-taking.component.ts:483-498 | the loop leaves the correct count and the rounded percentage of earned over total points |
| QuizTaking.QuizTakingComponent.RetryQuiz | src/app/components/quiz-taking/quiz-taking.component.ts:500-508 | the page returns to its freshly loaded state with fresh null answers |
| QuizTaking.QuizTakingComponent.IncorrectCount | src/app/components/quiz-taking/quiz-taking.component.ts:117 | the incorrect count is non-negative and adds up with the correct count to the number of questions |
| QuizTaking.QuizTakingComponent.IsPassed | src/app/components/quiz-taking/quiz-taking.component.ts:105-107 | passed exactly when the score reaches the pass mark (never for NaN) |
| QuizTaking.TwoQuestionExample | src/app/components/quiz-taking/quiz-taking.component.ts:483-498 | points 10 and 20 with pass mark 60: one right answer scores 33 and fails, both right score 100 and pass |
| Retry.RetrySpec | src/app/services/course.service.ts:39-57 | at most `retryCount` attempts; a success after one warning per earlier failure and one wait fewer than attempts; a throw after all `retryCount` attempts, each warned; no attempt allowed throws `undefined` |
| Retry.RetryOperation | src/app/services/course.service.ts:39-57 | the loop's settlement, attempt count, waits and warnings are those of the recursive specification |
| Retry.RunFromSucceeds | src/app/services/course.service.ts:42-44 | the first success ends the loop with its value after exactly that many attempts |
| Retry.RunFromExhausts | src/app/services/course.service.ts:42-56 | when every remaining attempt fails, all are made and the last error is thrown |
| Retry.RetryOutcome | src/app/services/course.service.ts:39-57 | the result is the first success within `retryCount` attempts; it throws only when all fail, with the last attempt's error; between 1 and `retryCount` attempts |
| Retry.FirstSuccess | src/app/services/course.service.ts:42-44 | any success has a first success at or before it |
| Retry.RunFromWarning | src/app/services/course.service.ts:46-47 | each warning is "Retry i/n" for a failed attempt, with that attempt's message |
| Retry.RunFromWaits | src/app/services/course.service.ts:49-52 | the wait after failed attempt i is `retryDelay * 2^i` |
| Retry.RunFromCounts | src/app/services/course.service.ts:42-56 | one warning per failed attempt, one wait fewer than attempts; a success comes before attempt `retryCount`, a throw after every attempt up to it |
| Retry.RetryLog | src/app/services/course.service.ts:39-57 | over the whole loop, warning k belongs to failed attempt k, wait k is `retryDelay * 2^k`, and there is one wait fewer than attempts |
| Retry.FailTwiceThenSucceed | src/app/services/course.service.ts:12-13 | with 3 tries and 1000 ms, two failures then a success return after 3 attempts, 2 warnings and waits 1000, 2000 |
| SupabaseTest.SupabaseTestComponent.constructor | src/app/components/supabase-test/supabase-test.component.ts:104-114 | the page starts disconnected, not loading, with no error and no retries |
| SupabaseTest.SupabaseTestComponent.Policy | src/app/components/supabase-test/supabase-test.component.ts:104-105 | the page retries 3 times starting at 1000 ms |
| SupabaseTest.SupabaseTestComponent.RetryOperation | src/app/components/supabase-test/supabase-test.component.ts:168-188 | the loop behaves as the shared retry specification and leaves `retryCount` equal to the attempts made, between 1 and 3 |
| SupabaseTest.SupabaseTestComponent.TestConnection | src/app/components/supabase-test/supabase-test.component.ts:190-215 | connected with the success status and no error when some attempt succeeds; otherwise the error status and the last error's message or the default; loading always ends |
| KeyCase.ToUpper | src/app/services/course.service.ts:96 | upper-casing a lower-case letter is undone by lower-casing |
| KeyCase.SnakeKey | src/app/services/course.service.ts:73 | a snake-case key has no upper-case letter |
| KeyCase.SnakeKeyUnfold | src/app/services/course.service.ts:73 | the snake rewrite goes character by character |
| KeyCase.CamelKey | src/app/services/course.service.ts:96 | no `_` followed by a lower-case letter is left, and a key starting with a lower-case letter keeps its first letter |
| KeyCase.SnakeKeyAppend | src/app/services/course.service.ts:73 | the snake rewrite distributes over concatenation |
| KeyCase.SnakeKeyIdentity | src/app/services/course.service.ts:73 | a key without upper-case letters is left as it is |
| KeyCase.CamelKeyIdentity | src/app/services/course.service.ts:96 | a key without `_` is left as it is |
| KeyCase.CamelOfSnake | src/app/services/course.service.ts:73-96 | a key without `_`, written in snake case and read back, is the key |
| KeyCase.SnakeOfCamel | src/app/services/course.service.ts:73-96 | a key without upper-case letters, read in camel case and written back, is the key |
| KeyCase.SnakeKeyInjective | src/app/services/course.service.ts:73 | different keys without `_` get different snake keys |
| KeyCase.Lookup | src/app/services/course.service.ts:74 | a key is absent exactly when no entry carries it |
| KeyCase.Put | src/app/services/course.service.ts:74 | assigning a new key appends it; assigning an existing key keeps the object's size |
| KeyCase.PutLookup | src/app/services/course.service.ts:74 | after `o[k] = v`, `k` holds `v` and every other key what it held |
| KeyCase.PutEntries | src/app/services/course.service.ts:74 | an assignment adds no entry but `(k, v)` and keeps keys distinct |
| KeyCase.Assemble | src/app/services/course.service.ts:71-76 | assigning pairs with distinct keys to `{}` gives those pairs in order |
| KeyCase.AssembleLookup | src/app/services/course.service.ts:71-76 | each key of the rebuilt object holds the value assigned to it last |
| KeyCase.AssembleEntries | src/app/services/course.service.ts:71-76 | the rebuilt object has distinct keys, and all its entries come from the assigned pairs |
| KeyCase.LastValueSome | src/app/services/course.service.ts:71-76 | a key has a last value exactly when some pair carries it |
| KeyCase.RenamedPairs | src/app/services/course.service.ts:72-75 | one assigned pair per entry |
| KeyCase.TransformKeeps | src/app/services/course.service.ts:59-80 | falsy values, Dates and scalars are returned as they are; arrays keep their length and are mapped item by item |
| KeyCase.TransformObjectKeys | src/app/services/course.service.ts:70-77 | an object stays an object whose keys are exactly the renamed keys |
| KeyCase.Rename | src/app/services/course.service.ts:73-96 | a renamed key is in its direction's form: no upper-case letter in snake case, no `_` before a lower-case letter in camel case |
| KeyCase.TransformKeysInForm | src/app/services/course.service.ts:59-103 | after either transform every key at any depth is in that direction's form |
| KeyCase.ToSnake | src/app/services/course.service.ts:59-80 | `transformToSnakeCase` leaves no key, at any depth, with an upper-case letter |
| KeyCase.ToCamel | src/app/services/course.service.ts:82-103 | `transformToCamelCase` leaves no key, at any depth, with `_` before a lower-case letter |
| KeyCase.CamelOfSnakeValue | src/app/services/course.service.ts:59-103 | a value whose objects have distinct keys without `_` comes back unchanged from the snake-then-camel trip |
| KeyCase.TransformRoundTrip | src/app/services/course.service.ts:59-103 | the same trip on the shared walk, by cases |
| KeyCase.ArrayRoundTrip | src/app/services/course.service.ts:62-64 | an array comes back item by item |
| KeyCase.ObjectRoundTrip | src/app/services/course.service.ts:70-77 | an object with distinct keys without `_` comes back entry by entry |
| KeyCase.SnakePairsDistinct | src/app/services/course.service.ts:71-76 | distinct keys without `_` stay distinct in snake case, so no entry overwrites another |
| KeyCase.CamelOfSnakePairs | src/app/services/course.service.ts:59-103 | such entries renamed both ways are the entries again |
| KeyCase.SingleEntry | src/app/services/course.service.ts:70-77 | a one-entry object is rebuilt with the renamed key and the transformed value |
| KeyCase.UnderscoreKeyExample | src/app/services/course.service.ts:73-96 | a key that already has `_`, such as `a_b`, is not restored: it comes back as `aB` |
| KeyCase.CamelOfUnderscore | src/app/services/course.service.ts:96 | `a_b` reads as `aB` |
| QuizService.SeedQuiz | src/app/services/quiz.service.ts:14-38 | the example quiz has id "1", is enabled with 10 minutes and pass mark 60, and has one question with four options, correct answer 1 and 10 points |
| QuizService.IndexOf | src/app/services/quiz.service.ts:61 | the first position holding the id, or -1 exactly when none does |
| QuizService.IndexOfReplace | src/app/services/quiz.service.ts:66-70 | replacing that quiz by one with the same id keeps it the first match |
| QuizService.Toggled | src/app/services/quiz.service.ts:91-92 | the enabled flag flips, the update time is set, and nothing else changes |
| QuizService.ToggleTwice | src/app/services/quiz.service.ts:85-95 | toggling the same quiz twice restores its enabled flag and changes only its update time |
| QuizService.QuizService.constructor | src/app/services/quiz.service.ts:12-39 | the store starts with the example quiz alone |
| QuizService.QuizService.GetQuiz | src/app/services/quiz.service.ts:45-47 | the first quiz with the id, or none exactly when no quiz has it |
| QuizService.QuizService.CreateQuiz | src/app/services/quiz.service.ts:49-58 | appends the quiz with id "length + 1" and both times set to now |
| QuizService.QuizService.UpdateQuiz | src/app/services/quiz.service.ts:60-73 | the first quiz with the id takes the patch's fields and a new update time; an unknown id fails and changes nothing |
| QuizService.QuizService.DeleteQuiz | src/app/services/quiz.service.ts:75-83 | removes the first quiz with the id and keeps the others in order; an unknown id fails and changes nothing |
| QuizService.QuizService.ToggleQuizStatus | src/app/services/quiz.service.ts:85-95 | flips the first matching quiz's enabled flag; an unknown id fails and changes nothing |
| QuizManagement.EmptyQuiz | src/app/components/quiz-management/quiz-management.component.ts:323-334 | a fresh draft has no id, no questions, is enabled, and has 10 minutes and pass mark 60 |
| QuizManagement.EmptyQuestion | src/app/components/quiz-management/quiz-management.component.ts:336-345 | a blank question has the time as id and four empty options, the first marked correct, worth 10 points |
| QuizManagement.SpliceStart | src/app/components/quiz-management/quiz-management.component.ts:362 | `splice`'s start: negative counts from the end and stops at 0; a start at or past the end is the length |
| QuizManagement.SpliceOne | src/app/components/quiz-management/quiz-management.component.ts:362 | `splice(i, 1)` drops the element at the start, keeps the ones before and shifts the ones after; past the end it changes nothing |
| QuizManagement.SpliceOneAt | src/app/components/quiz-management/quiz-management.component.ts:362 | at an index of the list, exactly that element goes and every other stays |
| QuizManagement.QuizManagementComponent.constructor | src/app/components/quiz-management/quiz-management.component.ts:313-315 | the page starts with no list, not editing and a fresh draft |
| QuizManagement.QuizManagementComponent.LoadQuizzes | src/app/components/quiz-management/quiz-management.component.ts:347-351 | the page shows the store's list |
| QuizManagement.QuizManagementComponent.AddQuestion | src/app/components/quiz-management/quiz-management.component.ts:353-358 | a blank question is appended to the draft's questions, created empty if missing; nothing else changes |
| QuizManagement.QuizManagementComponent.RemoveQuestion | src/app/components/quiz-management/quiz-management.component.ts:360-364 | the draft's questions lose the spliced one, if the draft has questions |
| QuizManagement.QuizManagementComponent.EditQuiz | src/app/components/quiz-management/quiz-management.component.ts:380-383 | the form is in edit mode on a field-by-field copy of the quiz |
| QuizManagement.QuizManagementComponent.ResetForm | src/app/components/quiz-management/quiz-management.component.ts:399-402 | the form leaves edit mode with a fresh draft |
| QuizManagement.QuizManagementComponent.SaveQuiz | src/app/components/quiz-management/quiz-management.component.ts:366-378 | an edited draft with an id updates that quiz, anything else is created with a new id; after success the form is reset and the list reloaded; an unknown id fails and leaves everything as it was |
| UserService.SeedUsers | src/app/services/user.service.ts:11-33 | three users, an administrator, a student and a teacher, each with a password |
| UserService.SeedIdsByPosition | src/app/services/user.service.ts:11-33 | the seed users have ids "1", "2", "3" in order |
| UserService.IdsDistinct | src/app/services/user.service.ts:52 | ids "position + 1" are all different |
| UserService.EmailIndex | src/app/services/user.service.ts:36 | the first user with the email, or -1 exactly when none has it |
| UserService.IdIndex | src/app/services/user.service.ts:60 | the first user with the id, or -1 exactly when none has it |
| UserService.IdIndexByPosition | src/app/services/user.service.ts:60 | in a store numbered by position, id "k + 1" is found at position k |
| UserService.UserService.constructor | src/app/services/user.service.ts:11-33 | the store starts with the three seed users |
| UserService.UserService.GetUserByEmail | src/app/services/user.service.ts:35-38 | the first user with exactly this email, or none exactly when nobody has it |
| UserService.UserService.VerifyPassword | src/app/services/user.service.ts:40-43 | true exactly when the first user with the email has this password |
| UserService.UserService.CreateUser | src/app/services/user.service.ts:49-57 | appends the user with id "length + 1", keeping ids numbered by position |
| UserService.UserService.UpdateUser | src/app/services/user.service.ts:59-67 | the user with the same id is replaced; an unknown id fails and changes nothing |
| UserService.UserService.UpdatePassword | src/app/services/user.service.ts:69-77 | only that user's password changes; an unknown id fails and changes nothing |
| AuthService.RolePermissions | src/app/services/auth.service.ts:57-62 | every role's list holds "view_courses" and no code twice |
| AuthService.RolePermissionsGranted | src/app/services/auth.service.ts:57-62 | the per-role lists agree with the per-permission reading of the table |
| AuthService.PermissionTable | src/app/services/auth.service.ts:57-62 | every role views courses; only the administrator manages users and permissions; only the administrator and the tutor review exercises |
| AuthService.AuthService.constructor | src/app/services/auth.service.ts:14-19 | the session is the user saved in storage, if any |
| AuthService.AuthService.HasPermission | src/app/services/auth.service.ts:53-65 | false with no user; otherwise whether the user's role is granted the permission |
| AuthService.AuthService.Login | src/app/services/auth.service.ts:21-41 | with the right password the session becomes the user with that email; otherwise the one generic error, with the session unchanged |
| AuthService.AuthService.Logout | src/app/services/auth.service.ts:44-47 | the session is cleared and no permission is granted |
| RoleService.SeedCodesAvailable | src/app/services/role.service.ts:9-34 | every code a seed role holds is in the permission catalogue |
| RoleService.RoleIndex | src/app/services/role.service.ts:41 | the first role with the id, or -1 exactly when none has it |
| RoleService.RoleService.constructor | src/app/services/role.service.ts:9-34 | four distinct role objects: Administrador, Profesor, Tutor, Estudiante, with their seed permissions |
| RoleService.RoleService.GetRoles | src/app/services/role.service.ts:36-38 | the stored role objects themselves, in order |
| RoleService.RoleService.UpdateRolePermissions | src/app/services/role.service.ts:40-46 | the first role with the id takes the list and is returned; no other role's list and no id, name or description changes; an unknown id yields no role |
| Settings.GetRoleIcon | src/app/components/settings/settings.component.ts:186-194 | each role name has its icon; exactly the names other than the first three get the plain user icon |
| Settings.HasPermission | src/app/components/settings/settings.component.ts:196-198 | a role holds the code exactly when filtering the code out of its list would change the list |
| Settings.RemoveAbsent | src/app/components/settings/settings.component.ts:202 | filtering out a code the list lacks leaves the list as it is |
| Settings.RemoveAll | src/app/components/settings/settings.component.ts:202 | the filter drops every occurrence of the code and keeps every other code's number of occurrences |
| Settings.Toggled | src/app/components/settings/settings.component.ts:200-206 | the toggled code's presence flips: a held code is filtered out (the list gets shorter), a missing one is pushed at the end of the unchanged list |
| Settings.ToggleMembership | src/app/components/settings/settings.component.ts:200-206 | a toggle flips the code's presence and keeps every other code's presence |
| Settings.ToggleTwice | src/app/components/settings/settings.component.ts:200-206 | two toggles of a code restore which codes are present |
| Settings.ToggleTwiceReorders | src/app/components/settings/settings.component.ts:200-206 | but not their order: a code toggled off and on moves to the end |
| Settings.SettingsComponent.constructor | src/app/components/settings/settings.component.ts:164-169 | the new-user form starts empty with the student role |
| Settings.SettingsComponent.TogglePermission | src/app/components/settings/settings.component.ts:200-206 | the role object's list is toggled in place: the check box for the code flips and every other code's stays |
| Settings.SettingsComponent.CreateUser | src/app/components/settings/settings.component.ts:214-226 | a complete form creates the user with the next id and clears the form; an incomplete one changes nothing |
| Login.LoginComponent.constructor | src/app/components/login/login.component.ts:98-107 | the form starts empty, not loading, without error |
| Login.LoginComponent.OnSubmit | src/app/components/login/login.component.ts:109-116 | the login call is made exactly when both fields are filled, with loading on and the error cleared; otherwise only the completion error is set |
| Login.LoginComponent.OnLoginReply | src/app/components/login/login.component.ts:119-127 | loading ends; a failure shows its message or the default, never an empty one |
| Login.LoginComponent.Submit | src/app/components/login/login.component.ts:109-129 | with the session store answering: the right password ends signed in with no error; a wrong one ends with the store's generic error and the session unchanged |
| Login.LoginComponent.RecoverPassword | src/app/components/login/login.component.ts:131-139 | an empty email is reported without loading; otherwise loading starts with the error cleared |
| Login.LoginComponent.OnRecoveryTimer | src/app/components/login/login.component.ts:142-145 | loading ends |
| PasswordReset.PasswordResetComponent.constructor | src/app/components/password-reset/password-reset.component.ts:156-165 | the page starts with empty fields, no messages, no reset form and hidden passwords |
| PasswordReset.PasswordResetComponent.OnQueryParams | src/app/components/password-reset/password-reset.component.ts:173-178 | a non-empty token parameter is kept and its verification starts with loading on; otherwise nothing changes |
| PasswordReset.PasswordResetComponent.OnTokenVerified | src/app/components/password-reset/password-reset.component.ts:217-230 | a valid token opens the reset form; an invalid one reports the expired link and leaves the form as it was; loading ends in every case |
| PasswordReset.PasswordResetComponent.TogglePasswordVisibility | src/app/components/password-reset/password-reset.component.ts:182-184 | negates its own flag and nothing else, so two calls restore it |
| PasswordReset.PasswordResetComponent.ToggleConfirmPasswordVisibility | src/app/components/password-reset/password-reset.component.ts:186-188 | negates its own flag and nothing else, so two calls restore it |
| PasswordReset.PasswordResetComponent.RequestReset | src/app/components/password-reset/password-reset.component.ts:191-200 | an empty email is only reported, without loading; otherwise loading starts with both messages cleared |
| PasswordReset.PasswordResetComponent.OnResetRequested | src/app/components/password-reset/password-reset.component.ts:202-210 | success announces the instructions; failure shows its message or the default; loading ends |
| PasswordReset.PasswordResetComponent.ResetPassword | src/app/components/password-reset/password-reset.component.ts:234-250 | a mismatch is reported first, even for a short password; then a password under 8 characters; only a matching password of at least 8 starts the call, with loading on and both messages cleared |
| PasswordReset.PasswordResetComponent.OnPasswordReset | src/app/components/password-reset/password-reset.component.ts:252-261 | success announces the update; failure shows its message; loading ends |

## Left out

- Timing and plumbing: Observables and their delays, promises and `setTimeout` sleeps, navigation, `alert`/`confirm`, `console` output, local storage writes and the Supabase client are not modelled. Their answers and clock values are parameters.
- Concurrency is not modelled: a second handler running while a call is in flight is not considered.
- Aliasing between records:
  - `editQuiz`'s shallow copy shares the question array with the stored quiz, so `addQuestion` on an edited draft also changes the stored quiz before saving.
  - `currentUser` shares its object with the user store.
  - `toggleQuizStatus` changes the stored quiz object that earlier readers hold.
  
  Quizzes, questions and users are values here. Roles keep their object identity.
- Floating point: `Math.round` and the score division are exact rational arithmetic. NaN and the infinities appear only as results of a zero total.
- Points and time limits that are not whole numbers are not modelled.
- `KeyCase.Json` numbers are reals with no NaN.
- Integer-like keys come first in a JavaScript object's own property order. This is not modelled: the objects here keep assignment order.
- Text lengths count characters, not UTF-16 code units. This matters only for the 8-character password rule on text outside the Basic Multilingual Plane.
- `getRoleIcon` ignores inherited `Object.prototype` keys such as `constructor`.
- KeyCase.Put: a key named `__proto__` is stored as an ordinary entry, whereas the JavaScript assignment `transformed['__proto__'] = v` in both key transforms replaces the object's prototype instead of adding an own key.
- The source's `new Date()` times are not distinct per call: one `now` parameter stands for both of `createQuiz`'s timestamps.
- QuizManagement.QuizManagementComponent.LoadQuizzes: the page takes a copy of the store's list, while the source shares the store's very array (`of(this.quizzes)`), so a later change in the store does not show in the page until the next load.
- QuizManagement.AsQuiz: a draft saved as a new quiz stores `""`, `false`, `0`, `easy` or time 0 for fields the draft lacks, where the source stores `undefined`. The form's drafts lack only `createdBy` (and the three fields `createQuiz` overwrites).
- The page's `toggleQuiz` and `deleteQuiz`, `ngOnInit` and `getQuizzes` are not modelled: they only forward to the store operations modelled above, after a `confirm` for deletion.
- Also not modelled, for the same reason: `getUsers`, `getAvailablePermissions` and `savePermissions`.
- AuthService.AuthService.Login: the unreachable "Usuario no encontrado" branch (a user was just found by the password check) is folded into the one generic error it is replaced by anyway.
- The `requestPasswordReset`, `verifyResetToken` and `resetPassword` calls of the password recovery page are not defined by the session store, so they are not part of this model. Their answers are parameters.
- The supabase test page's `responseTime` and the `performance.now()` clock, `maskUrl`, `validateUrl` and the client construction are not modelled.
- The course service's `withTimeout` is modelled as an attempt that fails. Its CRUD methods are not modelled: they are single remote calls wrapped in the retry and the key transforms.
- The quiz-taking page's `startQuiz` installs a new interval without clearing an old one. Only one running timer is modelled.
- The quiz-taking page assumes the quiz has a time limit (the source's `timeLimit!`). Quizzes without one are not started.
