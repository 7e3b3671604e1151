/** The frontend's view of an account, and the labels it shows for roles. */
module UserTypes {
  import opened Wrappers
  import opened Roles

  /** An account as the backend's listing returns it; the timestamps are
      integers here. */
  datatype User = User(id: string, nome: string, email: string, role: Role, ativo: bool, createdAt: int, updatedAt: int)

  /** `roleLabels`. */
  function RoleLabel(r: Role): (name: string)
    ensures name != ""
  {
    match r
    case ADMIN => "Administrador"
    case RH => "Recursos Humanos"
    case GESTOR => "Gestor"
    case FUNCIONARIO => "Funcionario"
  }

  /** Distinct roles have distinct labels. */
  lemma {:induction false} RoleLabelInjective(a: Role, b: Role)
    requires RoleLabel(a) == RoleLabel(b)
    ensures a == b
  {
    match a
    case ADMIN => assert RoleLabel(b)[0] == 'A';
    case RH => assert RoleLabel(b)[0] == 'R';
    case GESTOR => assert RoleLabel(b)[0] == 'G';
    case FUNCIONARIO => assert RoleLabel(b)[0] == 'F';
  }
}
