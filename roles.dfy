/** The closed enumeration of account roles (the `Role` enum of the schema,
    mirrored by the frontend's `Role` type). */
module Roles {
  import opened Wrappers
  import opened Json

  datatype Role = ADMIN | RH | GESTOR | FUNCIONARIO

  /** The enum member's string value. */
  function RoleName(r: Role): string {
    match r
    case ADMIN => "ADMIN"
    case RH => "RH"
    case GESTOR => "GESTOR"
    case FUNCIONARIO => "FUNCIONARIO"
  }

  /** The role whose string value is `s`, if any. */
  function ParseRole(s: string): (r: Option<Role>)
    ensures r.Some? ==> RoleName(r.value) == s
    ensures r.None? <==> forall role: Role :: RoleName(role) != s
  {
    if s == "ADMIN" then Some(ADMIN)
    else if s == "RH" then Some(RH)
    else if s == "GESTOR" then Some(GESTOR)
    else if s == "FUNCIONARIO" then Some(FUNCIONARIO)
    else None
  }

  /** `Object.values(Role).includes(v)`: `v` is one of the enum's string values
      (the comparison is strict, so only a string can match). */
  function RoleOfValue(v: Value): (r: Option<Role>)
    ensures r.Some? <==> exists role: Role :: v == Str(RoleName(role))
    ensures r.Some? ==> v == Str(RoleName(r.value))
  {
    if v.Str? then ParseRole(v.s) else None
  }

  /** `Object.values(Role).join(', ')`. */
  const AllowedRolesText: string := "ADMIN, RH, GESTOR, FUNCIONARIO"

  lemma {:induction false} ParseRoleName(r: Role)
    ensures ParseRole(RoleName(r)) == Some(r)
  {
    match r
    case ADMIN =>
    case RH =>
    case GESTOR =>
    case FUNCIONARIO =>
  }
}
