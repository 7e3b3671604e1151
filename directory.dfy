/**
 * The account and employee tables behind the ORM client: rows, the lookups the
 * routes use (by email, by id, by CPF), the JSON shape of a row, the keys of
 * the `orderBy: { createdAt: 'desc' }` listing, and a class whose methods perform
 * the writes while keeping ids, emails and CPFs unique.
 */
module Directory {
  import opened Wrappers
  import opened Json
  import opened Roles
  import opened Ordering

  datatype Account = Account(
    id: string,
    nome: string,
    email: string,
    senhaHash: Option<string>,
    role: Role,
    ativo: bool,
    createdAt: int,
    updatedAt: int)

  datatype Employee = Employee(
    id: string,
    nomeCompleto: string,
    cpf: string,
    cargo: string,
    departamento: Value,
    dataAdmissao: int,
    gestorId: Option<string>,
    salarioBase: Value,
    usuarioId: Option<string>,
    createdAt: int,
    updatedAt: int)

  /** Ids and emails are unique across accounts. */
  ghost predicate UniqueAccounts(users: seq<Account>) {
    forall i, j :: 0 <= i < j < |users| ==> users[i].id != users[j].id && users[i].email != users[j].email
  }

  /** Ids, CPFs and linked account ids are unique across employees. */
  ghost predicate UniqueEmployees(employees: seq<Employee>) {
    forall i, j :: 0 <= i < j < |employees| ==>
      && employees[i].id != employees[j].id
      && employees[i].cpf != employees[j].cpf
      && (employees[i].usuarioId.Some? ==> employees[i].usuarioId != employees[j].usuarioId)
  }

  /** The last row satisfying `p`, the row a unique-key lookup returns; rows
      are scanned from the newest insertion back. */
  function LastWhere<T>(rows: seq<T>, p: T -> bool): (r: Option<nat>)
    ensures r.Some? ==> r.value < |rows| && p(rows[r.value])
    ensures r.None? <==> forall i :: 0 <= i < |rows| ==> !p(rows[i])
    decreases |rows|
  {
    if rows == [] then None
    else if p(rows[|rows| - 1]) then Some(|rows| - 1)
    else LastWhere(rows[..|rows| - 1], p)
  }

  /** `findUnique({ where: { email } })`: the row holding that email. */
  function FindUserByEmail(users: seq<Account>, email: string): (r: Option<nat>)
    ensures r.Some? ==> r.value < |users| && users[r.value].email == email
    ensures r.None? <==> forall i :: 0 <= i < |users| ==> users[i].email != email
  {
    LastWhere(users, (a: Account) => a.email == email)
  }

  /** `findUnique({ where: { id } })`: the row holding that id. */
  function FindUserById(users: seq<Account>, id: string): (r: Option<nat>)
    ensures r.Some? ==> r.value < |users| && users[r.value].id == id
    ensures r.None? <==> forall i :: 0 <= i < |users| ==> users[i].id != id
  {
    LastWhere(users, (a: Account) => a.id == id)
  }

  /** The employee row holding that id. */
  function FindEmployeeById(employees: seq<Employee>, id: string): (r: Option<nat>)
    ensures r.Some? ==> r.value < |employees| && employees[r.value].id == id
    ensures r.None? <==> forall i :: 0 <= i < |employees| ==> employees[i].id != id
  {
    LastWhere(employees, (e: Employee) => e.id == id)
  }

  /** The employee row holding that CPF. */
  function FindEmployeeByCpf(employees: seq<Employee>, cpf: string): (r: Option<nat>)
    ensures r.Some? ==> r.value < |employees| && employees[r.value].cpf == cpf
    ensures r.None? <==> forall i :: 0 <= i < |employees| ==> employees[i].cpf != cpf
  {
    LastWhere(employees, (e: Employee) => e.cpf == cpf)
  }

  /** The employee row linked to account `userId`. */
  function FindEmployeeOfUser(employees: seq<Employee>, userId: string): (r: Option<nat>)
    ensures r.Some? ==> r.value < |employees| && employees[r.value].usuarioId == Some(userId)
    ensures r.None? <==> forall i :: 0 <= i < |employees| ==> employees[i].usuarioId != Some(userId)
  {
    LastWhere(employees, (e: Employee) => e.usuarioId == Some(userId))
  }

  /** The scalar fields of an account row, as the ORM returns them. */
  function AccountRecord(a: Account): map<string, Value> {
    map[
      "id" := Str(a.id),
      "nome" := Str(a.nome),
      "email" := Str(a.email),
      "senhaHash" := OptStr(a.senhaHash),
      "role" := Str(RoleName(a.role)),
      "ativo" := Bool(a.ativo),
      "createdAt" := Num(a.createdAt),
      "updatedAt" := Num(a.updatedAt)]
  }

  /** The scalar fields of an employee row, as the ORM returns them. */
  function EmployeeRecord(e: Employee): map<string, Value> {
    map[
      "id" := Str(e.id),
      "nomeCompleto" := Str(e.nomeCompleto),
      "cpf" := Str(e.cpf),
      "cargo" := Str(e.cargo),
      "departamento" := e.departamento,
      "dataAdmissao" := Num(e.dataAdmissao),
      "gestorId" := OptStr(e.gestorId),
      "salarioBase" := e.salarioBase,
      "usuarioId" := OptStr(e.usuarioId),
      "createdAt" := Num(e.createdAt),
      "updatedAt" := Num(e.updatedAt)]
  }

  function AccountCreatedAt(a: Account): int { a.createdAt }

  function EmployeeCreatedAt(e: Employee): int { e.createdAt }

  /** The account and employee tables. */
  class Directory {
    var users: seq<Account>
    var employees: seq<Employee>

    ghost predicate Valid()
      reads this
    {
      UniqueAccounts(users) && UniqueEmployees(employees)
    }

    constructor ()
      ensures Valid() && users == [] && employees == []
    {
      users := [];
      employees := [];
    }

    /** `prisma.usuario.create`. */
    method InsertUser(a: Account)
      requires Valid()
      requires forall i :: 0 <= i < |users| ==> users[i].id != a.id && users[i].email != a.email
      modifies this
      ensures Valid()
      ensures users == old(users) + [a] && employees == old(employees)
    {
      users := users + [a];
    }

    /** `prisma.usuario.update` on the row at `i`. */
    method ReplaceUser(i: nat, a: Account)
      requires Valid() && i < |users|
      requires forall j :: 0 <= j < |users| && j != i ==> users[j].id != a.id && users[j].email != a.email
      modifies this
      ensures Valid()
      ensures users == old(users)[i := a] && employees == old(employees)
    {
      users := users[i := a];
    }

    /** `prisma.usuario.delete` on the row at `i`. */
    method RemoveUser(i: nat)
      requires Valid() && i < |users|
      modifies this
      ensures Valid()
      ensures users == old(users)[..i] + old(users)[i + 1..] && employees == old(employees)
    {
      users := users[..i] + users[i + 1..];
    }

    /** `prisma.funcionario.create`, with the nested creation of its account. */
    method InsertEmployee(e: Employee, linked: Option<Account>)
      requires Valid()
      requires forall i :: 0 <= i < |employees| ==> employees[i].id != e.id && employees[i].cpf != e.cpf
      requires e.usuarioId.Some? ==> forall i :: 0 <= i < |employees| ==> employees[i].usuarioId != e.usuarioId
      requires linked.Some? ==> forall i :: 0 <= i < |users| ==> users[i].id != linked.value.id && users[i].email != linked.value.email
      modifies this
      ensures Valid()
      ensures employees == old(employees) + [e]
      ensures users == old(users) + (if linked.Some? then [linked.value] else [])
    {
      employees := employees + [e];
      if linked.Some? {
        users := users + [linked.value];
      }
    }
  }
}
