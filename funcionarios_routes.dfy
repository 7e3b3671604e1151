/**
 * The employee endpoints under `/funcionarios`: the listing with its account
 * and manager summaries, and the creation of an employee together with an
 * optional account created in the same write. This router is mounted without
 * the authentication guard. A uniqueness violation reported by the database
 * (code P2002) becomes 409; every other error goes to `next`.
 */
module FuncionariosRoutes {
  import opened Wrappers
  import opened Json
  import opened Roles
  import opened Http
  import opened Directory
  import opened Ordering

  const MissingEmployeeFields: Response := Fail(400, "Campos obrigatórios: nomeCompleto, cpf, cargo, dataAdmissao.")
  const Conflict: Response := Fail(409, "CPF ou email já cadastrado.")

  /** The role a nested account is assumed to take when the body gives none:
      an assumed column default, since the handler passes `usuario.role`
      through as it is. */
  const DefaultRole: Role := FUNCIONARIO

  // ---------------------------------------------------------------- GET /

  /** `usuario: { select: { id, nome, email, role } }`. */
  function AccountSummary(users: seq<Account>, usuarioId: Option<string>): (r: Value)
    ensures r.Null? || (r.Obj? && r.fields.Keys == {"id", "nome", "email", "role"})
    ensures usuarioId.None? ==> r.Null?
  {
    if usuarioId.None? then Null
    else
      match FindUserById(users, usuarioId.value)
      case None => Null
      case Some(i) =>
        var a := users[i];
        Obj(map["id" := Str(a.id), "nome" := Str(a.nome), "email" := Str(a.email), "role" := Str(RoleName(a.role))])
  }

  /** `gestor: { select: { id, nomeCompleto } }`. */
  function ManagerSummary(employees: seq<Employee>, gestorId: Option<string>): (r: Value)
    ensures r.Null? || (r.Obj? && r.fields.Keys == {"id", "nomeCompleto"})
    ensures gestorId.None? ==> r.Null?
  {
    if gestorId.None? then Null
    else
      match FindEmployeeById(employees, gestorId.value)
      case None => Null
      case Some(k) => Obj(map["id" := Str(employees[k].id), "nomeCompleto" := Str(employees[k].nomeCompleto)])
  }

  /** One element of the listing: the employee's columns with the two
      summaries. */
  function ListedEmployee(e: Employee, users: seq<Account>, employees: seq<Employee>): (r: map<string, Value>)
    ensures forall key :: key in EmployeeRecord(e) ==> key in r && r[key] == EmployeeRecord(e)[key]
    ensures "usuario" in r && r["usuario"] == AccountSummary(users, e.usuarioId)
    ensures "gestor" in r && r["gestor"] == ManagerSummary(employees, e.gestorId)
    ensures "createdAt" in r && r["createdAt"] == Num(e.createdAt)
    ensures "senhaHash" !in r && Get(r["usuario"], "senhaHash") == Undefined
  {
    EmployeeRecord(e)["usuario" := AccountSummary(users, e.usuarioId)]["gestor" := ManagerSummary(employees, e.gestorId)]
  }

  /** The listing elements of `s`, position by position. */
  function Listing(s: seq<Employee>, users: seq<Account>, employees: seq<Employee>): (r: seq<map<string, Value>>)
    ensures |r| == |s|
    ensures forall k :: 0 <= k < |r| ==> r[k] == ListedEmployee(s[k], users, employees)
  {
    seq(|s|, k requires 0 <= k < |s| => ListedEmployee(s[k], users, employees))
  }

  /** GET /funcionarios: every employee, newest first. */
  function ListEmployees(users: seq<Account>, employees: seq<Employee>): (r: seq<map<string, Value>>)
    ensures |r| == |employees|
    ensures forall k :: 0 <= k < |r| ==> "usuario" in r[k] && "createdAt" in r[k]
    ensures forall k :: 0 <= k < |r| ==> exists i :: 0 <= i < |employees| && r[k] == ListedEmployee(employees[i], users, employees)
    ensures forall i :: 0 <= i < |employees| ==> exists k :: 0 <= k < |r| && r[k] == ListedEmployee(employees[i], users, employees)
  {
    var sorted := SortDesc(employees, EmployeeCreatedAt);
    var r := Listing(sorted, users, employees);
    forall k | 0 <= k < |r| ensures exists i :: 0 <= i < |employees| && r[k] == ListedEmployee(employees[i], users, employees) {
      var i := SamePosition(sorted, employees, k);
      assert r[k] == ListedEmployee(employees[i], users, employees);
    }
    forall i | 0 <= i < |employees| ensures exists k :: 0 <= k < |r| && r[k] == ListedEmployee(employees[i], users, employees) {
      var k := SamePosition(employees, sorted, i);
      assert r[k] == ListedEmployee(employees[i], users, employees);
    }
    r
  }

  /** The listing is ordered by `createdAt`, newest first. */
  lemma ListEmployeesNewestFirst(users: seq<Account>, employees: seq<Employee>)
    ensures var r := ListEmployees(users, employees);
      forall k, l :: 0 <= k < l < |r| ==> r[k]["createdAt"].Num? && r[l]["createdAt"].Num? && r[k]["createdAt"].n >= r[l]["createdAt"].n
  {
    var sorted := SortDesc(employees, EmployeeCreatedAt);
    var r := ListEmployees(users, employees);
    forall k, l | 0 <= k < l < |r| ensures r[k]["createdAt"] == Num(sorted[k].createdAt) && r[l]["createdAt"] == Num(sorted[l].createdAt) && sorted[k].createdAt >= sorted[l].createdAt {
      assert EmployeeCreatedAt(sorted[k]) >= EmployeeCreatedAt(sorted[l]);
    }
  }

  /** No element of the listing exposes an account's password hash. */
  lemma ListEmployeesHidesHash(users: seq<Account>, employees: seq<Employee>)
    ensures var r := ListEmployees(users, employees);
      forall k :: 0 <= k < |r| ==> "senhaHash" !in r[k] && Get(r[k]["usuario"], "senhaHash") == Undefined
  {
    var sorted := SortDesc(employees, EmployeeCreatedAt);
    var r := ListEmployees(users, employees);
    assert r == Listing(sorted, users, employees);
    forall k | 0 <= k < |r| ensures "senhaHash" !in r[k] && Get(r[k]["usuario"], "senhaHash") == Undefined {
      assert r[k] == ListedEmployee(sorted[k], users, employees);
    }
  }

  // --------------------------------------------------------------- POST /

  /** The account that a truthy `usuario` asks the write to create, or `None`
      when the ORM rejects one of its fields: `nome` and `email` must be
      strings, `senha` a string or absent, `role` a role name or absent, and
      `ativo ?? true` a boolean. */
  function LinkedAccount(usuario: Value, newUserId: string, now: int): (r: Option<Account>)
    ensures r.Some? ==> Get(usuario, "nome") == Str(r.value.nome) && Get(usuario, "email") == Str(r.value.email)
    ensures r.Some? ==> r.value.id == newUserId && r.value.createdAt == now && r.value.updatedAt == now
    ensures r.Some? && Get(usuario, "senha").Str? ==> r.value.senhaHash == Some(Get(usuario, "senha").s)
    ensures r.Some? && !Get(usuario, "senha").Str? ==> r.value.senhaHash.None?
    ensures r.Some? && (Get(usuario, "ativo").Undefined? || Get(usuario, "ativo").Null?) ==> r.value.ativo
    ensures r.Some? && Get(usuario, "ativo").Bool? ==> r.value.ativo == Get(usuario, "ativo").b
    ensures r.Some? && Get(usuario, "role").Undefined? ==> r.value.role == DefaultRole
    ensures r.Some? && !Get(usuario, "role").Undefined? ==> Get(usuario, "role") == Str(RoleName(r.value.role))
    ensures r.None? <==>
      || !Get(usuario, "nome").Str? || !Get(usuario, "email").Str?
      || !(Get(usuario, "senha").Str? || Get(usuario, "senha").Undefined? || Get(usuario, "senha").Null?)
      || (!Get(usuario, "role").Undefined? && RoleOfValue(Get(usuario, "role")).None?)
      || !Coalesce(Get(usuario, "ativo"), Bool(true)).Bool?
  {
    var nome := Get(usuario, "nome");
    var email := Get(usuario, "email");
    var senha := Get(usuario, "senha");
    var role := Get(usuario, "role");
    var ativo := Coalesce(Get(usuario, "ativo"), Bool(true));
    if !nome.Str? || !email.Str? || !(senha.Str? || senha.Undefined? || senha.Null?) then None
    else if !role.Undefined? && RoleOfValue(role).None? then None
    else if !ativo.Bool? then None
    else
      Some(Account(newUserId, nome.s, email.s, if senha.Str? then Some(senha.s) else None,
                   if role.Undefined? then DefaultRole else RoleOfValue(role).value, ativo.b, now, now))
  }

  /** An optional column: absent means null. */
  function Optional(v: Value): (r: Value)
    ensures v.Undefined? ==> r.Null?
    ensures !v.Undefined? ==> r == v
  {
    if v.Undefined? then Null else v
  }

  /** The result of a creation: the answer, the employee and the account it
      created. */
  datatype Hire = Hire(result: HandlerResult, employee: Option<Employee>, account: Option<Account>)

  /** The 201 body: the employee's columns with the full account and the
      full manager row (`include: { usuario: true, gestor: true }`). */
  function HireRecord(e: Employee, account: Option<Account>, manager: Option<Employee>): Value {
    Obj(EmployeeRecord(e)
      ["usuario" := if account.Some? then Obj(AccountRecord(account.value)) else Null]
      ["gestor" := if manager.Some? then Obj(EmployeeRecord(manager.value)) else Null])
  }

  /** The manager a truthy `gestorId` connects to, when it is a string. */
  function ManagerId(body: Value): Option<string> {
    var g := Get(body, "gestorId");
    if Truthy(g) && g.Str? then Some(g.s) else None
  }

  /** A value the optional text column `departamento` accepts. */
  predicate TextOrAbsent(v: Value) {
    v.Str? || v.Null? || v.Undefined?
  }

  /** A value the optional numeric column `salarioBase` accepts. */
  predicate NumberOrAbsent(v: Value) {
    v.Num? || v.Null? || v.Undefined?
  }

  /** Whether the ORM accepts the body's columns: the four required ones are
      strings and a valid date, `departamento` is text and `salarioBase` a
      number when given, a truthy `gestorId` is a string, and a truthy
      `usuario` describes a valid account. */
  predicate WellTyped(body: Value, parseDate: Value -> Option<int>, newUserId: string, now: int) {
    && Get(body, "nomeCompleto").Str? && Get(body, "cpf").Str? && Get(body, "cargo").Str?
    && parseDate(Get(body, "dataAdmissao")).Some?
    && TextOrAbsent(Get(body, "departamento")) && NumberOrAbsent(Get(body, "salarioBase"))
    && (Truthy(Get(body, "gestorId")) ==> Get(body, "gestorId").Str?)
    && (Truthy(Get(body, "usuario")) ==> LinkedAccount(Get(body, "usuario"), newUserId, now).Some?)
  }

  /** POST /funcionarios, as a decision over the current rows. `parseDate`
      stands for `new Date(dataAdmissao)`, `None` for an invalid date. */
  function HireDecision(users: seq<Account>, employees: seq<Employee>, body: Value, parseDate: Value -> Option<int>,
                        newEmployeeId: string, newUserId: string, now: int): (h: Hire)
    ensures h.employee.Some? <==> h.result.Respond? && h.result.response.status == 201
    ensures h.employee.None? ==> h.account.None?
    ensures h.result.Respond? ==> h.result.response.status in {201, 400, 409}
    ensures !Truthy(Get(body, "nomeCompleto")) || !Truthy(Get(body, "cpf")) || !Truthy(Get(body, "cargo")) || !Truthy(Get(body, "dataAdmissao")) ==>
      h == Hire(Respond(MissingEmployeeFields), None, None)
    ensures h.result == Respond(Conflict) ==>
      && WellTyped(body, parseDate, newUserId, now)
      && (|| FindEmployeeByCpf(employees, Get(body, "cpf").s).Some?
          || (Truthy(Get(body, "usuario")) && FindUserByEmail(users, LinkedAccount(Get(body, "usuario"), newUserId, now).value.email).Some?))
    ensures h.employee.Some? ==>
      var e := h.employee.value;
      && WellTyped(body, parseDate, newUserId, now)
      && Get(body, "nomeCompleto") == Str(e.nomeCompleto) && Get(body, "cpf") == Str(e.cpf) && Get(body, "cargo") == Str(e.cargo)
      && Some(e.dataAdmissao) == parseDate(Get(body, "dataAdmissao"))
      && e.departamento == Optional(Get(body, "departamento")) && e.salarioBase == Optional(Get(body, "salarioBase"))
      && (e.departamento.Str? || e.departamento.Null?) && (e.salarioBase.Num? || e.salarioBase.Null?)
      && e.id == newEmployeeId && e.createdAt == now
      && FindEmployeeByCpf(employees, e.cpf).None?
      && e.gestorId == ManagerId(body)
      && (e.gestorId.Some? ==> FindEmployeeById(employees, e.gestorId.value).Some?)
      && (Truthy(Get(body, "usuario")) <==> h.account.Some?)
      && (h.account.Some? ==> h.account == LinkedAccount(Get(body, "usuario"), newUserId, now)
                              && FindUserByEmail(users, h.account.value.email).None?
                              && e.usuarioId == Some(newUserId))
      && (h.account.None? ==> e.usuarioId.None?)
  {
    var nomeCompleto := Get(body, "nomeCompleto");
    var cpf := Get(body, "cpf");
    var cargo := Get(body, "cargo");
    var dataAdmissao := Get(body, "dataAdmissao");
    var usuario := Get(body, "usuario");
    if !Truthy(nomeCompleto) || !Truthy(cpf) || !Truthy(cargo) || !Truthy(dataAdmissao) then
      Hire(Respond(MissingEmployeeFields), None, None)
    else if !WellTyped(body, parseDate, newUserId, now) then Hire(Forward, None, None)
    else
      var account := if Truthy(usuario) then LinkedAccount(usuario, newUserId, now) else None;
      if FindEmployeeByCpf(employees, cpf.s).Some? || (account.Some? && FindUserByEmail(users, account.value.email).Some?) then
        Hire(Respond(Conflict), None, None)
      else
        var gestorId := ManagerId(body);
        var manager := if gestorId.Some? then FindEmployeeById(employees, gestorId.value) else None;
        if gestorId.Some? && manager.None? then Hire(Forward, None, None)
        else
          var e := Employee(newEmployeeId, nomeCompleto.s, cpf.s, cargo.s, Optional(Get(body, "departamento")),
                            parseDate(dataAdmissao).value, gestorId, Optional(Get(body, "salarioBase")),
                            if account.Some? then Some(newUserId) else None, now, now);
          Hire(Respond(Response(201, HireRecord(e, account, if manager.Some? then Some(employees[manager.value]) else None))), Some(e), account)
  }

  /** A `departamento` that is not text or a `salarioBase` that is not a
      number is rejected by the ORM: the error is forwarded, ends in 500 and
      creates nothing. */
  lemma HireMistypedColumnFails(users: seq<Account>, employees: seq<Employee>, body: Value, parseDate: Value -> Option<int>,
                                newEmployeeId: string, newUserId: string, now: int)
    requires Truthy(Get(body, "nomeCompleto")) && Truthy(Get(body, "cpf")) && Truthy(Get(body, "cargo")) && Truthy(Get(body, "dataAdmissao"))
    requires !TextOrAbsent(Get(body, "departamento")) || !NumberOrAbsent(Get(body, "salarioBase"))
    ensures HireDecision(users, employees, body, parseDate, newEmployeeId, newUserId, now) == Hire(Forward, None, None)
    ensures Deliver(HireDecision(users, employees, body, parseDate, newEmployeeId, newUserId, now).result).status == 500
  {
  }

  /** A body with the four required fields, accepted column types, a CPF
      and a linked email not yet present and an existing manager (when one is
      named) is answered 201 and creates the employee, and the account exactly
      when `usuario` is given. */
  lemma HireSucceeds(users: seq<Account>, employees: seq<Employee>, body: Value, parseDate: Value -> Option<int>,
                     newEmployeeId: string, newUserId: string, now: int)
    requires Truthy(Get(body, "nomeCompleto")) && Truthy(Get(body, "cpf")) && Truthy(Get(body, "cargo")) && Truthy(Get(body, "dataAdmissao"))
    requires WellTyped(body, parseDate, newUserId, now)
    requires FindEmployeeByCpf(employees, Get(body, "cpf").s).None?
    requires Truthy(Get(body, "usuario")) ==> FindUserByEmail(users, LinkedAccount(Get(body, "usuario"), newUserId, now).value.email).None?
    requires ManagerId(body).Some? ==> FindEmployeeById(employees, ManagerId(body).value).Some?
    ensures var h := HireDecision(users, employees, body, parseDate, newEmployeeId, newUserId, now);
      && h.result.Respond? && h.result.response.status == 201
      && h.employee.Some? && h.employee.value.id == newEmployeeId
      && (h.account.Some? <==> Truthy(Get(body, "usuario")))
  {
  }

  /** A CPF already present is refused with 409 and creates nothing. */
  lemma HireDuplicateCpf(users: seq<Account>, employees: seq<Employee>, body: Value, parseDate: Value -> Option<int>,
                         newEmployeeId: string, newUserId: string, now: int)
    requires Truthy(Get(body, "nomeCompleto")) && Truthy(Get(body, "cpf")) && Truthy(Get(body, "cargo")) && Truthy(Get(body, "dataAdmissao"))
    requires WellTyped(body, parseDate, newUserId, now)
    requires FindEmployeeByCpf(employees, Get(body, "cpf").s).Some?
    ensures HireDecision(users, employees, body, parseDate, newEmployeeId, newUserId, now) == Hire(Respond(Conflict), None, None)
  {
  }

  /** A linked account whose email is already present is refused with 409
      and creates nothing. */
  lemma HireDuplicateEmail(users: seq<Account>, employees: seq<Employee>, body: Value, parseDate: Value -> Option<int>,
                           newEmployeeId: string, newUserId: string, now: int)
    requires Truthy(Get(body, "nomeCompleto")) && Truthy(Get(body, "cpf")) && Truthy(Get(body, "cargo")) && Truthy(Get(body, "dataAdmissao"))
    requires WellTyped(body, parseDate, newUserId, now) && Truthy(Get(body, "usuario"))
    requires FindUserByEmail(users, LinkedAccount(Get(body, "usuario"), newUserId, now).value.email).Some?
    ensures HireDecision(users, employees, body, parseDate, newEmployeeId, newUserId, now) == Hire(Respond(Conflict), None, None)
  {
  }

  /** Without `usuario`, no account is created; with a falsy `gestorId`, no
      manager is linked. */
  lemma HireOptionalLinks(users: seq<Account>, employees: seq<Employee>, body: Value, parseDate: Value -> Option<int>,
                          newEmployeeId: string, newUserId: string, now: int)
    requires HireDecision(users, employees, body, parseDate, newEmployeeId, newUserId, now).employee.Some?
    ensures var h := HireDecision(users, employees, body, parseDate, newEmployeeId, newUserId, now);
      && (!Truthy(Get(body, "usuario")) ==> h.account.None? && h.employee.value.usuarioId.None?)
      && (!Truthy(Get(body, "gestorId")) ==> h.employee.value.gestorId.None?)
  {
  }

  /** The 201 body carries the linked account's stored password, which is the
      submitted `senha` itself. */
  lemma HireEchoesPassword(users: seq<Account>, employees: seq<Employee>, body: Value, parseDate: Value -> Option<int>,
                           newEmployeeId: string, newUserId: string, now: int)
    requires HireDecision(users, employees, body, parseDate, newEmployeeId, newUserId, now).employee.Some?
    requires Truthy(Get(body, "usuario")) && Get(Get(body, "usuario"), "senha").Str?
    ensures var r := HireDecision(users, employees, body, parseDate, newEmployeeId, newUserId, now).result.response;
      Get(Get(r.body, "usuario"), "senhaHash") == Get(Get(body, "usuario"), "senha")
  {
  }

  /** POST /funcionarios: decides, then writes the employee and its account. */
  method HireEmployee(db: Directory, body: Value, parseDate: Value -> Option<int>,
                      newEmployeeId: string, newUserId: string, now: int) returns (result: HandlerResult)
    requires db.Valid()
    requires forall i :: 0 <= i < |db.employees| ==> db.employees[i].id != newEmployeeId && db.employees[i].usuarioId != Some(newUserId)
    requires forall i :: 0 <= i < |db.users| ==> db.users[i].id != newUserId
    modifies db
    ensures db.Valid()
    ensures var h := HireDecision(old(db.users), old(db.employees), body, parseDate, newEmployeeId, newUserId, now);
      && result == h.result
      && db.employees == old(db.employees) + (if h.employee.Some? then [h.employee.value] else [])
      && db.users == old(db.users) + (if h.account.Some? then [h.account.value] else [])
  {
    var h := HireDecision(db.users, db.employees, body, parseDate, newEmployeeId, newUserId, now);
    result := h.result;
    if h.employee.Some? {
      db.InsertEmployee(h.employee.value, h.account);
    }
  }
}
