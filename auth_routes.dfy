/**
 * The session endpoints `/auth/login`, `/auth/register` and `/auth/me`.
 * Login and me only read the directory; register inserts one account.
 * A truthy non-string where the ORM expects a string column, or where the
 * hasher expects a password, makes that library throw; the handler passes the
 * error to `next`, which ends in the application's 500 fallback.
 */
module AuthRoutes {
  import opened Wrappers
  import opened Json
  import opened Roles
  import opened Http
  import opened Directory
  import opened PublicUser
  import opened Credentials
  import opened EnsureAuthenticated

  const InvalidCredentials: Response := Fail(401, "Credenciais invalidas.")

  /** `{ token, user: toPublicUser(usuario) }`. */
  function SessionBody(token: string, a: Account): Value {
    Obj(map["token" := Str(token), "user" := Obj(ToPublicUser(AccountRecord(a)))])
  }

  /** POST /auth/login. */
  function Login(users: seq<Account>, body: Value, crypto: Crypto): (r: HandlerResult)
    ensures r.Respond? ==> r.response.status in {200, 400, 401, 403}
    ensures r.Respond? && r.response.status == 200 ==>
      var email := Get(body, "email");
      var senha := Get(body, "senha");
      && email.Str? && senha.Str?
      && FindUserByEmail(users, email.s).Some?
      && var a := users[FindUserByEmail(users, email.s).value];
      && a.ativo && a.senhaHash.Some? && a.senhaHash.value != ""
      && crypto.compare(senha.s, a.senhaHash.value)
      && r.response.body == SessionBody(crypto.sign(a.id), a)
  {
    var email := Get(body, "email");
    var senha := Get(body, "senha");
    if !Truthy(email) || !Truthy(senha) then Respond(Fail(400, "Informe email e senha."))
    else if !email.Str? then Forward
    else
      match FindUserByEmail(users, email.s)
      case None => Respond(InvalidCredentials)
      case Some(i) =>
        var a := users[i];
        if a.senhaHash.None? || a.senhaHash.value == "" then Respond(InvalidCredentials)
        else if !a.ativo then Respond(Fail(403, "Usuario inativo."))
        else if !senha.Str? then Forward
        else if !crypto.compare(senha.s, a.senhaHash.value) then Respond(InvalidCredentials)
        else Respond(Response(200, SessionBody(crypto.sign(a.id), a)))
  }

  /** A missing email or password is refused with 400 before the directory is
      consulted: the answer is the same whatever the directory holds. */
  lemma LoginMissingField(users: seq<Account>, body: Value, crypto: Crypto)
    requires !Truthy(Get(body, "email")) || !Truthy(Get(body, "senha"))
    ensures Login(users, body, crypto) == Respond(Fail(400, "Informe email e senha."))
    ensures Login(users, body, crypto) == Login([], body, crypto)
  {
  }

  /** An unknown email, or an account without a hash, is refused with
      "Credenciais invalidas.". */
  lemma LoginUnknownAccount(users: seq<Account>, body: Value, crypto: Crypto)
    requires Truthy(Get(body, "senha")) && Get(body, "email").Str? && Get(body, "email").s != ""
    requires var i := FindUserByEmail(users, Get(body, "email").s);
      i.None? || users[i.value].senhaHash.None? || users[i.value].senhaHash == Some("")
    ensures Login(users, body, crypto) == Respond(InvalidCredentials)
  {
  }

  /** An inactive account is refused with 403 whatever the password and
      whatever the comparison says. */
  lemma LoginInactive(users: seq<Account>, body: Value, crypto: Crypto, i: nat)
    requires Truthy(Get(body, "senha")) && Get(body, "email").Str? && Get(body, "email").s != ""
    requires FindUserByEmail(users, Get(body, "email").s) == Some(i)
    requires users[i].senhaHash.Some? && users[i].senhaHash.value != "" && !users[i].ativo
    ensures Login(users, body, crypto) == Respond(Fail(403, "Usuario inativo."))
  {
  }

  /** A wrong password on an active account gets exactly the answer an email
      that no account holds gets: the response does not reveal the account. */
  lemma {:induction false} LoginWrongPasswordLooksUnknown(users: seq<Account>, body: Value, crypto: Crypto, i: nat)
    requires Get(body, "email").Str? && Get(body, "email").s != ""
    requires Get(body, "senha").Str? && Get(body, "senha").s != ""
    requires FindUserByEmail(users, Get(body, "email").s) == Some(i)
    requires users[i].ativo && users[i].senhaHash.Some? && users[i].senhaHash.value != ""
    requires !crypto.compare(Get(body, "senha").s, users[i].senhaHash.value)
    ensures Login(users, body, crypto) == Login([], body, crypto) == Respond(InvalidCredentials)
  {
    assert FindUserByEmail([], Get(body, "email").s) == None;
  }

  /** Right credentials on an active account: 200 with a token signed for the
      account's id and the account without its hash. */
  lemma LoginSuccess(users: seq<Account>, body: Value, crypto: Crypto, i: nat)
    requires Get(body, "email").Str? && Get(body, "email").s != ""
    requires Get(body, "senha").Str? && Get(body, "senha").s != ""
    requires FindUserByEmail(users, Get(body, "email").s) == Some(i)
    requires users[i].ativo && users[i].senhaHash.Some? && users[i].senhaHash.value != ""
    requires crypto.compare(Get(body, "senha").s, users[i].senhaHash.value)
    ensures Login(users, body, crypto) == Respond(Response(200, SessionBody(crypto.sign(users[i].id), users[i])))
    ensures "senhaHash" !in Get(SessionBody(crypto.sign(users[i].id), users[i]), "user").fields
  {
  }

  /** The result of a registration: the answer and the account it created. */
  datatype Registration = Registration(result: HandlerResult, created: Option<Account>)

  /** The role a registration stores: a known role name is kept, anything
      else becomes FUNCIONARIO. */
  function RegisteredRole(role: Value): (r: Role)
    ensures RoleOfValue(role).Some? ==> r == RoleOfValue(role).value
    ensures RoleOfValue(role).None? ==> r == FUNCIONARIO
  {
    RoleOfValue(role).GetOr(FUNCIONARIO)
  }

  /** POST /auth/register, as a decision over the current accounts. */
  function RegisterDecision(users: seq<Account>, body: Value, crypto: Crypto, newId: string, now: int): (w: Registration)
    ensures w.created.Some? <==> w.result.Respond? && w.result.response.status == 201
    ensures w.result.Respond? ==> w.result.response.status in {201, 400, 409}
    ensures !Truthy(Get(body, "nome")) || !Truthy(Get(body, "email")) || !Truthy(Get(body, "senha")) ==>
      w == Registration(Respond(Fail(400, "Campos obrigatorios: nome, email e senha.")), None)
    ensures w.created.Some? ==>
      var a := w.created.value;
      && Get(body, "email") == Str(a.email) && Get(body, "nome") == Str(a.nome)
      && FindUserByEmail(users, a.email).None?
      && a.id == newId && a.createdAt == now
      && Get(body, "senha").Str? && a.senhaHash == Some(crypto.hash(Get(body, "senha").s))
      && a.role == RegisteredRole(Get(body, "role"))
      && (Get(body, "ativo").Undefined? ==> a.ativo)
      && (Get(body, "ativo").Bool? ==> a.ativo == Get(body, "ativo").b)
      && w.result.response.body == SessionBody(crypto.sign(newId), a)
  {
    var nome := Get(body, "nome");
    var email := Get(body, "email");
    var senha := Get(body, "senha");
    // `ativo = true` in the destructuring: the default applies to `undefined` only.
    var ativo := if Get(body, "ativo").Undefined? then Bool(true) else Get(body, "ativo");
    if !Truthy(nome) || !Truthy(email) || !Truthy(senha) then
      Registration(Respond(Fail(400, "Campos obrigatorios: nome, email e senha.")), None)
    else if !email.Str? then Registration(Forward, None)
    else if FindUserByEmail(users, email.s).Some? then
      Registration(Respond(Fail(409, "Email ja cadastrado.")), None)
    else if !senha.Str? || !nome.Str? || !ativo.Bool? then Registration(Forward, None)
    else
      var a := Account(newId, nome.s, email.s, Some(crypto.hash(senha.s)), RegisteredRole(Get(body, "role")), ativo.b, now, now);
      Registration(Respond(Response(201, SessionBody(crypto.sign(newId), a))), Some(a))
  }

  /** Registering an email that an account already holds is refused with 409
      and creates nothing. */
  lemma RegisterDuplicate(users: seq<Account>, body: Value, crypto: Crypto, newId: string, now: int)
    requires Truthy(Get(body, "nome")) && Truthy(Get(body, "senha"))
    requires Get(body, "email").Str? && Get(body, "email").s != ""
    requires FindUserByEmail(users, Get(body, "email").s).Some?
    ensures RegisterDecision(users, body, crypto, newId, now) == Registration(Respond(Fail(409, "Email ja cadastrado.")), None)
  {
  }

  /** An `ativo` that is neither omitted nor a boolean (for instance `null`) is
      rejected by the ORM: the request ends in 500 and creates nothing. */
  lemma RegisterNonBooleanActive(users: seq<Account>, body: Value, crypto: Crypto, newId: string, now: int)
    requires Get(body, "nome").Str? && Get(body, "nome").s != ""
    requires Get(body, "senha").Str? && Get(body, "senha").s != ""
    requires Get(body, "email").Str? && Get(body, "email").s != ""
    requires FindUserByEmail(users, Get(body, "email").s).None?
    requires !Get(body, "ativo").Undefined? && !Get(body, "ativo").Bool?
    ensures RegisterDecision(users, body, crypto, newId, now) == Registration(Forward, None)
    ensures Deliver(RegisterDecision(users, body, crypto, newId, now).result).status == 500
  {
  }

  /** A well-formed registration for a new email creates the account. */
  lemma RegisterCreates(users: seq<Account>, body: Value, crypto: Crypto, newId: string, now: int)
    requires Get(body, "nome").Str? && Get(body, "nome").s != ""
    requires Get(body, "senha").Str? && Get(body, "senha").s != ""
    requires Get(body, "email").Str? && Get(body, "email").s != ""
    requires FindUserByEmail(users, Get(body, "email").s).None?
    requires Get(body, "ativo").Undefined? || Get(body, "ativo").Bool?
    ensures RegisterDecision(users, body, crypto, newId, now).created.Some?
  {
  }

  /** POST /auth/register: decides, then inserts the created account. */
  method Register(db: Directory, body: Value, crypto: Crypto, newId: string, now: int) returns (result: HandlerResult)
    requires db.Valid()
    requires forall i :: 0 <= i < |db.users| ==> db.users[i].id != newId
    modifies db
    ensures db.Valid()
    ensures result == RegisterDecision(old(db.users), body, crypto, newId, now).result
    ensures var created := RegisterDecision(old(db.users), body, crypto, newId, now).created;
      db.users == old(db.users) + (if created.Some? then [created.value] else [])
    ensures db.employees == old(db.employees)
  {
    var w := RegisterDecision(db.users, body, crypto, newId, now);
    result := w.result;
    if w.created.Some? {
      db.InsertUser(w.created.value);
    }
  }

  /** The `funcionario: { id, nomeCompleto, cargo }` include of an account. */
  function EmployeeSummary(employees: seq<Employee>, userId: string): Value {
    match FindEmployeeOfUser(employees, userId)
    case None => Null
    case Some(k) =>
      var e := employees[k];
      Obj(map["id" := Str(e.id), "nomeCompleto" := Str(e.nomeCompleto), "cargo" := Str(e.cargo)])
  }

  /** The account with its employee summary, as `/me` and the listing return it. */
  function ProfileRecord(a: Account, employees: seq<Employee>): (r: map<string, Value>)
    ensures "senhaHash" !in r
    ensures "id" in r && "email" in r && "nome" in r && "funcionario" in r && "createdAt" in r
    ensures r["createdAt"] == Num(a.createdAt)
    ensures r["id"] == Str(a.id) && r["email"] == Str(a.email) && r["nome"] == Str(a.nome)
    ensures r["funcionario"] == EmployeeSummary(employees, a.id)
  {
    ToPublicUser(AccountRecord(a)["funcionario" := EmployeeSummary(employees, a.id)])
  }

  /** GET /auth/me for the user id the guard set. */
  function Me(users: seq<Account>, employees: seq<Employee>, userId: Option<string>): (r: HandlerResult)
    ensures r.Respond?
    ensures userId.None? || userId == Some("") ==> r.response == Fail(401, "Nao autorizado.")
    ensures userId.Some? && userId.value != "" && FindUserById(users, userId.value).None? ==>
      r.response == Fail(404, "Usuario nao encontrado.")
    ensures r.response.status == 200 ==>
      && userId.Some? && FindUserById(users, userId.value).Some?
      && r.response.body == Obj(ProfileRecord(users[FindUserById(users, userId.value).value], employees))
  {
    if userId.None? || userId.value == "" then Respond(Fail(401, "Nao autorizado."))
    else
      match FindUserById(users, userId.value)
      case None => Respond(Fail(404, "Usuario nao encontrado."))
      case Some(i) => Respond(Response(200, Obj(ProfileRecord(users[i], employees))))
  }

  /** GET /auth/me behind the guard: what the client receives for a header. */
  function MeEndpoint(header: Option<string>, verify: string -> VerifyResult, users: seq<Account>, employees: seq<Employee>): Response {
    match Authenticate(header, verify)
    case Reject(res) => res
    case Proceed(id) => Deliver(Me(users, employees, Some(id)))
  }

  /** A token that verifies for an account that has since been deleted gets
      404, and one for an existing account gets that account's profile. */
  lemma MeAfterGuard(header: Option<string>, verify: string -> VerifyResult, users: seq<Account>, employees: seq<Employee>)
    requires Authenticate(header, verify).Proceed?
    ensures var id := Authenticate(header, verify).userId;
      && (FindUserById(users, id).None? ==> MeEndpoint(header, verify, users, employees) == Fail(404, "Usuario nao encontrado."))
      && (FindUserById(users, id).Some? ==>
            MeEndpoint(header, verify, users, employees) == Response(200, Obj(ProfileRecord(users[FindUserById(users, id).value], employees))))
  {
  }
}
