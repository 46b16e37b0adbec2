/** The session and role table of `AuthService` (src/app/services/auth.service.ts).
    The user saved in local storage is a constructor parameter; storage writes,
    logging and the observable plumbing are left out. */
module AuthService {
  import opened Wrappers
  import opened Models
  import Users = UserService

  const LoginFailed := "Error al iniciar sesión. Por favor, verifique sus credenciales."

  /** The permission lists `hasPermission` keeps per role. */
  function RolePermissions(role: UserRole): (ps: seq<string>)
    ensures "view_courses" in ps
    ensures forall i, j :: 0 <= i < j < |ps| ==> ps[i] != ps[j]
  {
    match role
    case Admin => ["manage_users", "manage_permissions", "view_courses", "review_exercises"]
    case Teacher => ["view_courses", "create_courses", "edit_courses"]
    case Tutor => ["view_courses", "review_exercises"]
    case Student => ["view_courses", "submit_exercises"]
  }

  /** The same grants read permission by permission: who holds each one. */
  predicate Granted(role: UserRole, p: string) {
    p == "view_courses"
    || (p == "manage_users" && role == Admin)
    || (p == "manage_permissions" && role == Admin)
    || (p == "review_exercises" && (role == Admin || role == Tutor))
    || ((p == "create_courses" || p == "edit_courses") && role == Teacher)
    || (p == "submit_exercises" && role == Student)
  }

  /** The per-role lists and the per-permission reading agree. */
  lemma RolePermissionsGranted(role: UserRole, p: string)
    ensures p in RolePermissions(role) <==> Granted(role, p)
  {
  }

  /** Every role may view courses; only the administrator manages users and
      permissions; only the administrator and the tutor review exercises. */
  lemma PermissionTable(role: UserRole)
    ensures "view_courses" in RolePermissions(role)
    ensures "manage_users" in RolePermissions(role) <==> role == Admin
    ensures "manage_permissions" in RolePermissions(role) <==> role == Admin
    ensures "review_exercises" in RolePermissions(role) <==> role == Admin || role == Tutor
  {
    RolePermissionsGranted(role, "view_courses");
    RolePermissionsGranted(role, "manage_users");
    RolePermissionsGranted(role, "manage_permissions");
    RolePermissionsGranted(role, "review_exercises");
  }

  class AuthService {
    const userService: Users.UserService
    var currentUser: Option<User>

    /** `saved` is the user restored from local storage, if there was one. */
    constructor (userService: Users.UserService, saved: Option<User>)
      ensures this.userService == userService && currentUser == saved
    {
      this.userService := userService;
      currentUser := saved;
    }

    /** `hasPermission`: false without a user; otherwise whether the user's role is
        granted the permission. */
    function HasPermission(permission: string): (b: bool)
      reads this
      ensures b <==> currentUser.Some? && Granted(currentUser.value.role, permission)
    {
      if currentUser.None? then false
      else
        RolePermissionsGranted(currentUser.value.role, permission);
        permission in RolePermissions(currentUser.value.role)
    }

    /** `login`: the session takes the user found by email only when the password
        check succeeds; otherwise it is left as it was and the one generic error is
        returned. */
    method Login(email: string, password: string) returns (r: Result<User>)
      modifies this`currentUser
      ensures userService.VerifyPassword(email, password) ==>
        r.Ok? && r.value.email == email && Some(r.value) == userService.GetUserByEmail(email) && currentUser == Some(r.value)
      ensures !userService.VerifyPassword(email, password) ==> r == Err(LoginFailed) && currentUser == old(currentUser)
    {
      var isValid := userService.VerifyPassword(email, password);
      if !isValid {
        return Err(LoginFailed);
      }
      // A user was found by the password check, so this lookup finds it again.
      var user := userService.GetUserByEmail(email);
      currentUser := Some(user.value);
      r := Ok(user.value);
    }

    /** `logout`: clears the session, after which no permission is granted. */
    method Logout()
      modifies this`currentUser
      ensures currentUser == None
      ensures forall p :: !HasPermission(p)
    {
      currentUser := None;
    }
  }
}
