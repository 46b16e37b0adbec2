/** The settings page (src/app/components/settings/settings.component.ts): role
    icons, the permission check boxes that edit a role's permission list in place,
    and the new-user form. */
module Settings {
  import opened Wrappers
  import opened Models
  import opened Text
  import Users = UserService

  /** `getRoleIcon`: the icon class of each of the four role names; any other name
      gets the plain user icon, which the student role shares. */
  function GetRoleIcon(roleName: string): (icon: string)
    ensures roleName == "Administrador" ==> icon == "fa-user-shield"
    ensures roleName == "Profesor" ==> icon == "fa-chalkboard-teacher"
    ensures roleName == "Tutor" ==> icon == "fa-user-graduate"
    ensures icon == "fa-user" <==> roleName != "Administrador" && roleName != "Profesor" && roleName != "Tutor"
  {
    if roleName == "Administrador" then "fa-user-shield"
    else if roleName == "Profesor" then "fa-chalkboard-teacher"
    else if roleName == "Tutor" then "fa-user-graduate"
    else if roleName == "Estudiante" then "fa-user"
    else "fa-user"
  }

  /** `hasPermission`: the code occurs in the role's list, which is exactly when
      filtering the code out (as `togglePermission` does) would change the list. */
  predicate HasPermission(role: Role, code: string): (b: bool)
    reads role
    ensures b <==> RemoveAll(role.permissions, code) != role.permissions
  {
    RemoveAbsent(role.permissions, code);
    code in role.permissions
  }

  /** `filter(p => p !== code)`: every occurrence of `code` goes, every other code
      keeps its number of occurrences. */
  function RemoveAll(ps: seq<string>, code: string): (r: seq<string>)
    ensures code !in r
    ensures forall c :: c != code ==> multiset(r)[c] == multiset(ps)[c]
    ensures |r| == |ps| - multiset(ps)[code]
  {
    if ps == [] then []
    else
      assert ps == [ps[0]] + ps[1..];
      (if ps[0] == code then [] else [ps[0]]) + RemoveAll(ps[1..], code)
  }

  /** Filtering out a code the list does not hold leaves the list as it is. */
  lemma {:induction false} RemoveAbsent(ps: seq<string>, code: string)
    ensures code !in ps ==> RemoveAll(ps, code) == ps
  {
    if ps != [] && code !in ps {
      RemoveAbsent(ps[1..], code);
      assert ps == [ps[0]] + ps[1..];
    }
  }

  /** The list `togglePermission` leaves: without the code if it was there (and so
      shorter), otherwise the same list with the code appended once. */
  function Toggled(ps: seq<string>, code: string): (t: seq<string>)
    ensures code in t <==> code !in ps
    ensures code in ps ==> |t| < |ps|
    ensures code !in ps ==> |t| == |ps| + 1 && t[..|ps|] == ps && t[|ps|] == code
  {
    if code in ps then RemoveAll(ps, code) else ps + [code]
  }

  /** A toggle flips whether the toggled code is present and leaves every other
      code's presence as it was. */
  lemma ToggleMembership(ps: seq<string>, code: string)
    ensures code in Toggled(ps, code) <==> code !in ps
    ensures forall c :: c != code ==> (c in Toggled(ps, code) <==> c in ps)
  {
    forall c | c != code ensures c in Toggled(ps, code) <==> c in ps {
      if code in ps {
        assert multiset(RemoveAll(ps, code))[c] == multiset(ps)[c];
      }
    }
  }

  /** Two toggles of the same code restore which codes are present. */
  lemma ToggleTwice(ps: seq<string>, code: string)
    ensures forall c :: c in Toggled(Toggled(ps, code), code) <==> c in ps
  {
    ToggleMembership(ps, code);
    ToggleMembership(Toggled(ps, code), code);
  }

  /** ... though not necessarily their order: a code toggled off and on again moves
      to the end. */
  lemma ToggleTwiceReorders(a: string, b: string)
    requires a != b
    ensures Toggled(Toggled([a, b], a), a) == [b, a]
  {
    assert RemoveAll([b], a) == [b] + RemoveAll([], a);
    assert [a, b][1..] == [b];
    assert RemoveAll([a, b], a) == [b];
  }

  /** The new-user form. */
  datatype NewUserForm = NewUserForm(name: string, email: string, password: string, role: UserRole)

  const EmptyForm := NewUserForm("", "", "", Student)

  /** The guard of `createUser`: name, email and password filled in (the role is an
      enum value, never empty). */
  predicate Complete(f: NewUserForm) {
    f.name != "" && f.email != "" && f.password != ""
  }

  class SettingsComponent {
    const userService: Users.UserService
    var newUser: NewUserForm

    constructor (userService: Users.UserService)
      ensures this.userService == userService && newUser == EmptyForm
    {
      this.userService := userService;
      newUser := EmptyForm;
    }

    /** `togglePermission`: edits the role object's list in place. */
    method TogglePermission(role: Role, code: string)
      modifies role`permissions
      ensures role.permissions == Toggled(old(role.permissions), code)
      ensures HasPermission(role, code) <==> !old(HasPermission(role, code))
      ensures forall c :: c != code ==> (HasPermission(role, c) <==> old(HasPermission(role, c)))
    {
      ToggleMembership(role.permissions, code);
      if HasPermission(role, code) {
        role.permissions := RemoveAll(role.permissions, code);
      } else {
        role.permissions := role.permissions + [code];
      }
    }

    /** `createUser`: with a complete form the user is created and the form cleared;
        otherwise nothing happens. */
    method CreateUser()
      requires userService.Valid()
      modifies this`newUser, userService`users
      ensures userService.Valid()
      ensures Complete(old(newUser)) ==>
        newUser == EmptyForm &&
        userService.users == old(userService.users) +
          [User(NatToString(|old(userService.users)| + 1), old(newUser.name), old(newUser.email), old(newUser.role), Some(old(newUser.password)))]
      ensures !Complete(old(newUser)) ==> newUser == old(newUser) && userService.users == old(userService.users)
    {
      if Complete(newUser) {
        var _ := userService.CreateUser(User("", newUser.name, newUser.email, newUser.role, Some(newUser.password)));
        newUser := EmptyForm;
      }
    }
  }
}
