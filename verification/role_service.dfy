/** The role store (src/app/services/role.service.ts). Roles are objects: the store
    hands out the very objects it keeps, and the settings page edits them. */
module RoleService {
  import opened Wrappers
  import opened Models

  /** The permission codes of the four seed roles, in store order. */
  function SeedPermissions(): (ps: seq<seq<string>>)
    ensures |ps| == 4
  {
    [ ["manage_users", "review_exercises", "view_courses", "manage_permissions"],
      ["view_courses", "review_exercises"],
      ["review_exercises", "view_courses"],
      ["view_courses"] ]
  }

  /** Every code a seed role holds is one of the catalogue's codes. */
  lemma SeedCodesAvailable()
    ensures forall k, c :: 0 <= k < |SeedPermissions()| && c in SeedPermissions()[k] ==>
      c in PermissionCodes(AvailablePermissions)
  {
    var codes := PermissionCodes(AvailablePermissions);
    assert codes == ["manage_users", "review_exercises", "view_courses", "manage_permissions"];
  }

  /** `roles.find(r => r.id === id)`, as a position: the first role with the id, or -1. */
  function RoleIndex(rs: seq<Role>, id: string): (i: int)
    reads rs
    ensures -1 <= i < |rs|
    ensures i == -1 <==> forall j :: 0 <= j < |rs| ==> rs[j].id != id
    ensures 0 <= i ==> rs[i].id == id && forall j :: 0 <= j < i ==> rs[j].id != id
  {
    if rs == [] then -1
    else if rs[0].id == id then 0
    else
      var i := RoleIndex(rs[1..], id);
      if i == -1 then -1 else i + 1
  }

  class RoleService {
    const roles: seq<Role>

    /** The store never holds the same role object twice. */
    ghost predicate Valid()
      reads this
    {
      forall i, j :: 0 <= i < j < |roles| ==> roles[i] != roles[j]
    }

    constructor ()
      ensures Valid() && |roles| == 4
      ensures roles[0].id == "1" && roles[0].name == "Administrador"
      ensures roles[1].id == "2" && roles[1].name == "Profesor"
      ensures roles[2].id == "3" && roles[2].name == "Tutor"
      ensures roles[3].id == "4" && roles[3].name == "Estudiante"
      ensures forall k :: 0 <= k < 4 ==> roles[k].permissions == SeedPermissions()[k]
    {
      var admin := new Role("1", "Administrador", "Control total del sistema", SeedPermissions()[0]);
      var teacher := new Role("2", "Profesor", "Gestión de cursos y estudiantes", SeedPermissions()[1]);
      var tutor := new Role("3", "Tutor", "Revisión de ejercicios", SeedPermissions()[2]);
      var student := new Role("4", "Estudiante", "Acceso a cursos y ejercicios", SeedPermissions()[3]);
      roles := [admin, teacher, tutor, student];
    }

    /** `getRoles`: the stored role objects themselves, not copies. */
    function GetRoles(): (r: seq<Role>)
      reads this
      ensures |r| == |roles| && forall k :: 0 <= k < |r| ==> r[k] == roles[k]
    {
      roles
    }

    /** `updateRolePermissions`: the first role with the id takes the new list, and is
        returned; its id, name and description, and every other role, are unchanged.
        An unknown id changes nothing and yields no role. */
    method UpdateRolePermissions(roleId: string, permissions: seq<string>) returns (r: Option<Role>)
      requires Valid()
      modifies roles
      ensures var i := old(RoleIndex(roles, roleId));
        (i == -1 ==> r == None) &&
        (i >= 0 ==> r == Some(roles[i]) && roles[i].permissions == permissions) &&
        forall k :: 0 <= k < |roles| && k != i ==> roles[k].permissions == old(roles[k].permissions)
      ensures forall k :: 0 <= k < |roles| ==>
        roles[k].id == old(roles[k].id) && roles[k].name == old(roles[k].name) &&
        roles[k].description == old(roles[k].description)
    {
      var i := RoleIndex(roles, roleId);
      if i >= 0 {
        roles[i].permissions := permissions;
        r := Some(roles[i]);
      } else {
        r := None;
      }
    }
  }
}
