/**
 * The account administration endpoints under `/usuarios` (all behind the
 * authentication guard): list, create, update and delete. Each write is a
 * decision over the current rows plus a method that applies it to the
 * directory.
 */
module UsuariosRoutes {
  import opened Wrappers
  import opened Json
  import opened Roles
  import opened Http
  import opened Directory
  import opened Ordering
  import opened PublicUser
  import opened Credentials
  import opened AuthRoutes

  const InvalidRole: Response := Fail(400, "Role invalida. Valores permitidos: " + AllowedRolesText)
  const MissingCreateFields: Response := Fail(400, "Campos obrigatorios: nome, email, senha, role.")
  const MissingUpdateFields: Response := Fail(400, "Campos obrigatorios: nome, email, role.")

  /** The answer of a write and the account rows after it. */
  datatype Outcome = Outcome(result: HandlerResult, after: seq<Account>)

  // ---------------------------------------------------------------- GET /

  /** The records of `s`, position by position. */
  function Profiles(s: seq<Account>, employees: seq<Employee>): (r: seq<map<string, Value>>)
    ensures |r| == |s|
    ensures forall k :: 0 <= k < |r| ==> r[k] == ProfileRecord(s[k], employees)
  {
    seq(|s|, k requires 0 <= k < |s| => ProfileRecord(s[k], employees))
  }

  /** GET /usuarios: every account, newest first, without its hash and with
      its employee summary. */
  function ListUsers(users: seq<Account>, employees: seq<Employee>): (r: seq<map<string, Value>>)
    ensures |r| == |users|
    ensures forall k :: 0 <= k < |r| ==> "senhaHash" !in r[k] && "createdAt" in r[k]
    ensures forall k :: 0 <= k < |r| ==> exists i :: 0 <= i < |users| && r[k] == ProfileRecord(users[i], employees)
    ensures forall i :: 0 <= i < |users| ==> exists k :: 0 <= k < |r| && r[k] == ProfileRecord(users[i], employees)
  {
    var sorted := SortDesc(users, AccountCreatedAt);
    var r := Profiles(sorted, employees);
    forall k | 0 <= k < |r| ensures exists i :: 0 <= i < |users| && r[k] == ProfileRecord(users[i], employees) {
      var i := SamePosition(sorted, users, k);
      assert r[k] == ProfileRecord(users[i], employees);
    }
    forall i | 0 <= i < |users| ensures exists k :: 0 <= k < |r| && r[k] == ProfileRecord(users[i], employees) {
      var k := SamePosition(users, sorted, i);
      assert r[k] == ProfileRecord(users[i], employees);
    }
    r
  }

  /** The listing is ordered by `createdAt`, newest first. */
  lemma ListUsersNewestFirst(users: seq<Account>, employees: seq<Employee>)
    ensures var r := ListUsers(users, employees);
      forall k, l :: 0 <= k < l < |r| ==> r[k]["createdAt"].Num? && r[l]["createdAt"].Num? && r[k]["createdAt"].n >= r[l]["createdAt"].n
  {
    var sorted := SortDesc(users, AccountCreatedAt);
    var r := ListUsers(users, employees);
    forall k, l | 0 <= k < l < |r| ensures r[k]["createdAt"] == Num(sorted[k].createdAt) && r[l]["createdAt"] == Num(sorted[l].createdAt) && sorted[k].createdAt >= sorted[l].createdAt {
      assert AccountCreatedAt(sorted[k]) >= AccountCreatedAt(sorted[l]);
    }
  }

  // --------------------------------------------------------------- POST /

  /** POST /usuarios, as a decision over the current accounts. */
  function CreateDecision(users: seq<Account>, body: Value, crypto: Crypto, newId: string, now: int): (o: Outcome)
    ensures o.result.Respond? ==> o.result.response.status in {201, 400, 409}
    ensures o.result.Respond? && o.result.response.status == 201 ==>
      && Get(body, "nome").Str? && Get(body, "email").Str? && Get(body, "senha").Str?
      && RoleOfValue(Get(body, "role")).Some?
      && FindUserByEmail(users, Get(body, "email").s).None?
      && o.after == users + [CreatedAccount(body, crypto, newId, now)]
      && o.result.response.body == Obj(ToPublicUser(AccountRecord(CreatedAccount(body, crypto, newId, now))))
    ensures !(o.result.Respond? && o.result.response.status == 201) ==> o.after == users
    ensures !Truthy(Get(body, "nome")) || !Truthy(Get(body, "email")) || !Truthy(Get(body, "senha")) || !Truthy(Get(body, "role")) ==>
      o.result == Respond(MissingCreateFields)
    ensures Truthy(Get(body, "nome")) && Truthy(Get(body, "email")) && Truthy(Get(body, "senha")) && Truthy(Get(body, "role")) &&
            RoleOfValue(Get(body, "role")).None? ==>
      o.result == Respond(InvalidRole)
  {
    var nome := Get(body, "nome");
    var email := Get(body, "email");
    var senha := Get(body, "senha");
    var role := Get(body, "role");
    if !Truthy(nome) || !Truthy(email) || !Truthy(senha) || !Truthy(role) then Outcome(Respond(MissingCreateFields), users)
    else if RoleOfValue(role).None? then Outcome(Respond(InvalidRole), users)
    else if !email.Str? then Outcome(Forward, users)
    else if FindUserByEmail(users, email.s).Some? then Outcome(Respond(Fail(409, "Email ja cadastrado.")), users)
    else if !senha.Str? || !nome.Str? then Outcome(Forward, users)
    else
      var a := CreatedAccount(body, crypto, newId, now);
      Outcome(Respond(Response(201, Obj(ToPublicUser(AccountRecord(a))))), users + [a])
  }

  /** The account a valid POST /usuarios stores. */
  function CreatedAccount(body: Value, crypto: Crypto, newId: string, now: int): (a: Account)
    requires Get(body, "nome").Str? && Get(body, "email").Str? && Get(body, "senha").Str?
    requires RoleOfValue(Get(body, "role")).Some?
    ensures Str(a.nome) == Get(body, "nome") && Str(a.email) == Get(body, "email")
    ensures a.senhaHash == Some(crypto.hash(Get(body, "senha").s))
    ensures Str(RoleName(a.role)) == Get(body, "role")
    ensures Get(body, "ativo").Bool? ==> a.ativo == Get(body, "ativo").b
    ensures !Get(body, "ativo").Bool? ==> a.ativo
    ensures a.id == newId && a.createdAt == now && a.updatedAt == now
  {
    var ativo := Get(body, "ativo");
    Account(newId, Get(body, "nome").s, Get(body, "email").s, Some(crypto.hash(Get(body, "senha").s)),
            RoleOfValue(Get(body, "role")).value, if ativo.Bool? then ativo.b else true, now, now)
  }

  /** Creating an account with an email already present is refused with 409
      and leaves the rows as they were. */
  lemma CreateDuplicate(users: seq<Account>, body: Value, crypto: Crypto, newId: string, now: int)
    requires Truthy(Get(body, "nome")) && Truthy(Get(body, "senha"))
    requires RoleOfValue(Get(body, "role")).Some?
    requires Get(body, "email").Str? && Get(body, "email").s != ""
    requires FindUserByEmail(users, Get(body, "email").s).Some?
    ensures CreateDecision(users, body, crypto, newId, now) == Outcome(Respond(Fail(409, "Email ja cadastrado.")), users)
  {
  }

  /** A request with non-empty string nome, email and senha, a valid role
      and an email not yet present is answered 201 and stores the account. */
  lemma CreateSucceeds(users: seq<Account>, body: Value, crypto: Crypto, newId: string, now: int)
    requires Get(body, "nome").Str? && Get(body, "nome").s != []
    requires Get(body, "email").Str? && Get(body, "email").s != []
    requires Get(body, "senha").Str? && Get(body, "senha").s != []
    requires RoleOfValue(Get(body, "role")).Some?
    requires FindUserByEmail(users, Get(body, "email").s).None?
    ensures var o := CreateDecision(users, body, crypto, newId, now);
      && o.result == Respond(Response(201, Obj(ToPublicUser(AccountRecord(CreatedAccount(body, crypto, newId, now))))))
      && o.after == users + [CreatedAccount(body, crypto, newId, now)]
  {
  }

  /** A creation keeps ids and emails unique when the new id is unused. */
  lemma CreateKeepsUnique(users: seq<Account>, body: Value, crypto: Crypto, newId: string, now: int)
    requires UniqueAccounts(users)
    requires forall i :: 0 <= i < |users| ==> users[i].id != newId
    ensures UniqueAccounts(CreateDecision(users, body, crypto, newId, now).after)
  {
  }

  /** POST /usuarios: decides, then inserts the created account. */
  method Create(db: Directory, body: Value, crypto: Crypto, newId: string, now: int) returns (result: HandlerResult)
    requires db.Valid()
    requires forall i :: 0 <= i < |db.users| ==> db.users[i].id != newId
    modifies db
    ensures db.Valid()
    ensures result == CreateDecision(old(db.users), body, crypto, newId, now).result
    ensures db.users == CreateDecision(old(db.users), body, crypto, newId, now).after
    ensures db.employees == old(db.employees)
  {
    var o := CreateDecision(db.users, body, crypto, newId, now);
    result := o.result;
    if result.Respond? && result.response.status == 201 {
      db.InsertUser(CreatedAccount(body, crypto, newId, now));
    }
  }

  // ------------------------------------------------------------ PUT /:id

  /** `dataToUpdate`: the three required columns, and `ativo` and `senhaHash`
      only when supplied. `nome` and `email` are kept as received; the ORM
      checks their type when it writes. */
  datatype Patch = Patch(nome: Value, email: Value, role: Role, ativo: Option<bool>, senhaHash: Option<string>)

  /** The patch a PUT body produces once the required fields and the role
      were accepted; `None` when the password cannot be hashed. */
  function PatchOf(body: Value, role: Role, crypto: Crypto): (p: Option<Patch>)
    ensures p.None? <==> Truthy(Get(body, "senha")) && !Get(body, "senha").Str?
    ensures p.Some? ==> p.value.nome == Get(body, "nome") && p.value.email == Get(body, "email") && p.value.role == role
    ensures p.Some? ==> (p.value.ativo.Some? <==> Get(body, "ativo").Bool?)
    ensures p.Some? && p.value.ativo.Some? ==> Get(body, "ativo") == Bool(p.value.ativo.value)
    ensures p.Some? ==> (p.value.senhaHash.Some? <==> Truthy(Get(body, "senha")))
    ensures p.Some? && p.value.senhaHash.Some? ==> p.value.senhaHash.value == crypto.hash(Get(body, "senha").s)
  {
    var senha := Get(body, "senha");
    if Truthy(senha) && !senha.Str? then None
    else
      var ativo := Get(body, "ativo");
      Some(Patch(Get(body, "nome"), Get(body, "email"), role,
                 if ativo.Bool? then Some(ativo.b) else None,
                 if Truthy(senha) then Some(crypto.hash(senha.s)) else None))
  }

  /** Builds `dataToUpdate` field by field. */
  method DataToUpdate(body: Value, role: Role, crypto: Crypto) returns (data: Option<Patch>)
    ensures data == PatchOf(body, role, crypto)
  {
    var patch := Patch(Get(body, "nome"), Get(body, "email"), role, None, None);
    var ativo := Get(body, "ativo");
    if ativo.Bool? {
      patch := patch.(ativo := Some(ativo.b));
    }
    var senha := Get(body, "senha");
    if Truthy(senha) {
      if !senha.Str? {
        return None;
      }
      patch := patch.(senhaHash := Some(crypto.hash(senha.s)));
    }
    data := Some(patch);
  }

  /** The row after `prisma.usuario.update` with that patch. */
  function Patched(a: Account, p: Patch, now: int): (b: Account)
    requires p.nome.Str? && p.email.Str?
    ensures b.id == a.id && b.createdAt == a.createdAt && b.updatedAt == now
    ensures Str(b.nome) == p.nome && Str(b.email) == p.email && b.role == p.role
    ensures p.ativo.None? ==> b.ativo == a.ativo
    ensures p.ativo.Some? ==> b.ativo == p.ativo.value
    ensures p.senhaHash.None? ==> b.senhaHash == a.senhaHash
    ensures p.senhaHash.Some? ==> b.senhaHash == p.senhaHash
  {
    a.(nome := p.nome.s, email := p.email.s, role := p.role,
       ativo := p.ativo.GetOr(a.ativo),
       senhaHash := if p.senhaHash.Some? then p.senhaHash else a.senhaHash,
       updatedAt := now)
  }

  /** Whether some account other than the one at `i` holds `email`. */
  predicate EmailTakenByOther(users: seq<Account>, i: nat, email: string) {
    exists j :: 0 <= j < |users| && j != i && users[j].email == email
  }

  /** PUT /usuarios/:id, as a decision over the current accounts. A missing
      id, a column of the wrong type and an email held by another account are
      errors of the ORM, which end in the 500 fallback. */
  function UpdateDecision(users: seq<Account>, id: string, body: Value, crypto: Crypto, now: int): (o: Outcome)
    ensures o.result.Respond? ==> o.result.response.status in {200, 400}
    ensures !Truthy(Get(body, "nome")) || !Truthy(Get(body, "email")) || !Truthy(Get(body, "role")) ==>
      o.result == Respond(MissingUpdateFields)
    ensures Truthy(Get(body, "nome")) && Truthy(Get(body, "email")) && Truthy(Get(body, "role")) &&
            RoleOfValue(Get(body, "role")).None? ==>
      o.result == Respond(InvalidRole)
    ensures (Truthy(Get(body, "nome")) && Truthy(Get(body, "email")) && RoleOfValue(Get(body, "role")).Some? &&
             FindUserById(users, id).None?) ==> o.result == Forward
    ensures !(o.result.Respond? && o.result.response.status == 200) ==> o.after == users
    ensures o.result.Respond? && o.result.response.status == 200 ==>
      && FindUserById(users, id).Some?
      && var i := FindUserById(users, id).value;
      && PatchOf(body, RoleOfValue(Get(body, "role")).value, crypto).Some?
      && var p := PatchOf(body, RoleOfValue(Get(body, "role")).value, crypto).value;
      && p.nome.Str? && p.email.Str? && !EmailTakenByOther(users, i, p.email.s)
      && o.after == users[i := Patched(users[i], p, now)]
      && o.result.response.body == Obj(ToPublicUser(AccountRecord(o.after[i])))
  {
    if !Truthy(Get(body, "nome")) || !Truthy(Get(body, "email")) || !Truthy(Get(body, "role")) then
      Outcome(Respond(MissingUpdateFields), users)
    else if RoleOfValue(Get(body, "role")).None? then Outcome(Respond(InvalidRole), users)
    else
      match PatchOf(body, RoleOfValue(Get(body, "role")).value, crypto)
      case None => Outcome(Forward, users)
      case Some(p) =>
        match FindUserById(users, id)
        case None => Outcome(Forward, users)
        case Some(i) =>
          if !p.nome.Str? || !p.email.Str? || EmailTakenByOther(users, i, p.email.s) then Outcome(Forward, users)
          else
            var b := Patched(users[i], p, now);
            Outcome(Respond(Response(200, Obj(ToPublicUser(AccountRecord(b))))), users[i := b])
  }

  /** A PUT with non-empty string nome and email, a valid role, no password
      or a string one, on an existing id and with an email no other account
      holds is answered 200 and writes the patched row. */
  lemma UpdateSucceeds(users: seq<Account>, id: string, body: Value, crypto: Crypto, now: int)
    requires Get(body, "nome").Str? && Get(body, "nome").s != []
    requires Get(body, "email").Str? && Get(body, "email").s != []
    requires RoleOfValue(Get(body, "role")).Some?
    requires !Truthy(Get(body, "senha")) || Get(body, "senha").Str?
    requires FindUserById(users, id).Some?
    requires !EmailTakenByOther(users, FindUserById(users, id).value, Get(body, "email").s)
    ensures var o := UpdateDecision(users, id, body, crypto, now);
      var i := FindUserById(users, id).value;
      var p := PatchOf(body, RoleOfValue(Get(body, "role")).value, crypto).value;
      && o.result.Respond? && o.result.response.status == 200
      && o.after == users[i := Patched(users[i], p, now)]
  {
  }

  /** An update touches only the addressed account, keeps the number of
      accounts and keeps ids and emails unique. */
  lemma UpdateOnlyTouchesTarget(users: seq<Account>, id: string, body: Value, crypto: Crypto, now: int)
    requires UniqueAccounts(users)
    ensures var after := UpdateDecision(users, id, body, crypto, now).after;
      && |after| == |users|
      && (forall j :: 0 <= j < |users| && users[j].id != id ==> after[j] == users[j])
      && (forall j :: 0 <= j < |users| ==> after[j].id == users[j].id && after[j].createdAt == users[j].createdAt)
      && UniqueAccounts(after)
  {
  }

  /** An update without a boolean `ativo` and without a password keeps the
      account's activity and hash. */
  lemma UpdateKeepsUnsuppliedFields(users: seq<Account>, id: string, body: Value, crypto: Crypto, now: int)
    requires !Get(body, "ativo").Bool? && !Truthy(Get(body, "senha"))
    requires UpdateDecision(users, id, body, crypto, now).result.Respond?
    requires UpdateDecision(users, id, body, crypto, now).result.response.status == 200
    ensures var i := FindUserById(users, id).value;
      var after := UpdateDecision(users, id, body, crypto, now).after;
      after[i].ativo == users[i].ativo && after[i].senhaHash == users[i].senhaHash
  {
  }

  /** PUT /usuarios/:id: checks the body, builds `dataToUpdate`, then writes
      the row. */
  method Update(db: Directory, id: string, body: Value, crypto: Crypto, now: int) returns (result: HandlerResult)
    requires db.Valid()
    modifies db
    ensures db.Valid()
    ensures result == UpdateDecision(old(db.users), id, body, crypto, now).result
    ensures db.users == UpdateDecision(old(db.users), id, body, crypto, now).after
    ensures db.employees == old(db.employees)
  {
    var nome := Get(body, "nome");
    var email := Get(body, "email");
    var role := Get(body, "role");
    if !Truthy(nome) || !Truthy(email) || !Truthy(role) {
      return Respond(MissingUpdateFields);
    }
    if RoleOfValue(role).None? {
      return Respond(InvalidRole);
    }
    var data := DataToUpdate(body, RoleOfValue(role).value, crypto);
    if data.None? {
      return Forward;
    }
    var p := data.value;
    var found := FindUserById(db.users, id);
    if found.None? || !p.nome.Str? || !p.email.Str? || EmailTakenByOther(db.users, found.value, p.email.s) {
      return Forward;
    }
    var i := found.value;
    var b := Patched(db.users[i], p, now);
    db.ReplaceUser(i, b);
    result := Respond(Response(200, Obj(ToPublicUser(AccountRecord(b)))));
  }

  // --------------------------------------------------------- DELETE /:id

  /** DELETE /usuarios/:id, as a decision over the current accounts. */
  function DeleteDecision(users: seq<Account>, id: string): (o: Outcome)
    ensures FindUserById(users, id).None? <==> o.result == Forward
    ensures FindUserById(users, id).None? ==> o.after == users
    ensures FindUserById(users, id).Some? ==> o.result == Respond(Response(204, Undefined))
    ensures FindUserById(users, id).Some? ==> |o.after| == |users| - 1
  {
    match FindUserById(users, id)
    case None => Outcome(Forward, users)
    case Some(i) => Outcome(Respond(Response(204, Undefined)), users[..i] + users[i + 1..])
  }

  /** Position `k` of `s` with position `i` removed. */
  lemma {:induction false} RemovedAt(s: seq<Account>, i: nat, k: nat)
    requires i < |s| && k < |s| - 1
    ensures (s[..i] + s[i + 1..])[k] == s[if k < i then k else k + 1]
  {
    if k < i {
      assert (s[..i] + s[i + 1..])[k] == s[..i][k];
    } else {
      assert (s[..i] + s[i + 1..])[k] == s[i + 1..][k - i];
    }
  }

  /** A deletion removes exactly the account with that id and keeps every
      other account, in order. */
  lemma {:induction false} DeleteRemovesExactly(users: seq<Account>, id: string)
    requires UniqueAccounts(users)
    ensures var after := DeleteDecision(users, id).after;
      && (forall k :: 0 <= k < |after| ==> after[k].id != id)
      && (forall j :: 0 <= j < |users| && users[j].id != id ==> exists k :: 0 <= k < |after| && after[k] == users[j])
      && UniqueAccounts(after)
  {
    var after := DeleteDecision(users, id).after;
    match FindUserById(users, id)
    case None =>
    case Some(i) =>
      forall k | 0 <= k < |after| ensures after[k].id != id {
        RemovedAt(users, i, k);
      }
      forall j | 0 <= j < |users| && users[j].id != id ensures exists k :: 0 <= k < |after| && after[k] == users[j] {
        var k := if j < i then j else j - 1;
        RemovedAt(users, i, k);
      }
      forall k, l | 0 <= k < l < |after| ensures after[k].id != after[l].id && after[k].email != after[l].email {
        RemovedAt(users, i, k);
        RemovedAt(users, i, l);
      }
  }

  /** DELETE /usuarios/:id: removes the row holding that id. */
  method Delete(db: Directory, id: string) returns (result: HandlerResult)
    requires db.Valid()
    modifies db
    ensures db.Valid()
    ensures result == DeleteDecision(old(db.users), id).result
    ensures db.users == DeleteDecision(old(db.users), id).after
    ensures db.employees == old(db.employees)
  {
    var found := FindUserById(db.users, id);
    if found.None? {
      return Forward;
    }
    db.RemoveUser(found.value);
    result := Respond(Response(204, Undefined));
  }
}
