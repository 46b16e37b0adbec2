/** The in-memory user store (src/app/services/user.service.ts). The store is an
    array the service changes in place; promises and observables are left out, so
    each operation returns its value directly and a thrown error becomes an `Err`. */
module UserService {
  import opened Wrappers
  import opened Text
  import opened Models

  const UserNotFound := "Usuario no encontrado"

  /** The three users the store starts with. */
  function SeedUsers(): (us: seq<User>)
    ensures |us| == 3 && us[0].role == Admin && us[1].role == Student && us[2].role == Teacher
    ensures forall k :: 0 <= k < |us| ==> us[k].password.Some?
  {
    [ User("1", "Luis Moreno", "luis.moreno@example.com", Admin, Some("Luism*")),
      User("2", "Carmen Andrade", "carmen.andrade@gmail.com", Student, Some("student123")),
      User("3", "Carlos Peña", "carlos.peña@gmail.com", Teacher, Some("teacher123")) ]
  }

  /** The user at position k has id "k + 1". */
  predicate IdsByPosition(us: seq<User>) {
    forall k :: 0 <= k < |us| ==> us[k].id == NatToString(k + 1)
  }

  lemma SeedIdsByPosition()
    ensures IdsByPosition(SeedUsers())
  {
    var us := SeedUsers();
    assert NatToString(1) == "1" && NatToString(2) == "2" && NatToString(3) == "3";
  }

  /** Numbering by position gives every user a different id. */
  lemma IdsDistinct(us: seq<User>)
    requires IdsByPosition(us)
    ensures forall i, j :: 0 <= i < j < |us| ==> us[i].id != us[j].id
  {
    forall i, j | 0 <= i < j < |us| ensures us[i].id != us[j].id {
      NatToStringInjective(i + 1, j + 1);
    }
  }

  /** `find(u => u.email === email)`, as a position: the first user with the email, or -1. */
  function EmailIndex(us: seq<User>, email: string): (i: int)
    ensures -1 <= i < |us|
    ensures i == -1 <==> forall j :: 0 <= j < |us| ==> us[j].email != email
    ensures 0 <= i ==> us[i].email == email && forall j :: 0 <= j < i ==> us[j].email != email
  {
    if us == [] then -1
    else if us[0].email == email then 0
    else
      var i := EmailIndex(us[1..], email);
      if i == -1 then -1 else i + 1
  }

  /** `findIndex(u => u.id === id)`: the first user with the id, or -1. */
  function IdIndex(us: seq<User>, id: string): (i: int)
    ensures -1 <= i < |us|
    ensures i == -1 <==> forall j :: 0 <= j < |us| ==> us[j].id != id
    ensures 0 <= i ==> us[i].id == id && forall j :: 0 <= j < i ==> us[j].id != id
  {
    if us == [] then -1
    else if us[0].id == id then 0
    else
      var i := IdIndex(us[1..], id);
      if i == -1 then -1 else i + 1
  }

  /** With ids numbered by position, id "k + 1" is found at position k. */
  lemma IdIndexByPosition(us: seq<User>, k: nat)
    requires IdsByPosition(us) && k < |us|
    ensures IdIndex(us, NatToString(k + 1)) == k
  {
    IdsDistinct(us);
    var id := NatToString(k + 1);
    assert us[k].id == id;
    var i := IdIndex(us, id);
    assert i != -1 && us[i].id == us[k].id;
  }

  class UserService {
    var users: seq<User>

    ghost predicate Valid()
      reads this
    {
      IdsByPosition(users)
    }

    constructor ()
      ensures Valid() && users == SeedUsers()
    {
      users := SeedUsers();
      SeedIdsByPosition();
    }

    /** `getUserByEmail`: the first user with exactly this email, if any. */
    function GetUserByEmail(email: string): (r: Option<User>)
      reads this
      ensures r.None? <==> forall j :: 0 <= j < |users| ==> users[j].email != email
      ensures r.Some? ==> r.value.email == email && r.value == users[EmailIndex(users, email)]
    {
      var i := EmailIndex(users, email);
      if i == -1 then None else Some(users[i])
    }

    /** `verifyPassword`: some user has this email and the first such user's stored
        password is this one. */
    function VerifyPassword(email: string, password: string): (b: bool)
      reads this
      ensures b <==> exists i :: 0 <= i < |users| && users[i].email == email && users[i].password == Some(password) &&
                                 forall j :: 0 <= j < i ==> users[j].email != email
    {
      var u := GetUserByEmail(email);
      u.Some? && u.value.password == Some(password)
    }

    /** `createUser`: appends the user with id "length + 1". */
    method CreateUser(user: User) returns (created: User)
      requires Valid()
      modifies this`users
      ensures Valid()
      ensures created == user.(id := NatToString(|old(users)| + 1))
      ensures users == old(users) + [created]
    {
      created := user.(id := NatToString(|users| + 1));
      users := users + [created];
    }

    /** `updateUser`: the user with the same id is replaced by a copy of the argument;
        an unknown id is an error and changes nothing. */
    method UpdateUser(user: User) returns (r: Result<User>)
      requires Valid()
      modifies this`users
      ensures Valid()
      ensures var i := IdIndex(old(users), user.id);
        if i == -1 then r == Err(UserNotFound) && users == old(users)
        else r == Ok(user) && users == old(users)[i := user]
    {
      var i := IdIndex(users, user.id);
      if i == -1 {
        return Err(UserNotFound);
      }
      users := users[i := user];
      r := Ok(user);
    }

    /** `updatePassword`: only the password of the user with the id changes. */
    method UpdatePassword(userId: string, newPassword: string) returns (r: Result<()>)
      requires Valid()
      modifies this`users
      ensures Valid()
      ensures var i := IdIndex(old(users), userId);
        if i == -1 then r == Err(UserNotFound) && users == old(users)
        else r == Ok(()) && users == old(users)[i := old(users)[i].(password := Some(newPassword))]
    {
      var i := IdIndex(users, userId);
      if i == -1 {
        return Err(UserNotFound);
      }
      users := users[i := users[i].(password := Some(newPassword))];
      r := Ok(());
    }
  }
}
