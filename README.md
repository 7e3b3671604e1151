# projetorh decision logic in Dafny

projetorh is an HR admin app with an Express backend and a React frontend.
The backend serves sessions (`/auth/login`, `/auth/register`, `/auth/me`),
user accounts (`/usuarios`) and employees (`/funcionarios`). The frontend is
a single `App` shell around a login card, a user table and a user drawer.
This project models the decision logic around the ORM, JWT and `fetch`
calls, and proves what each part promises.

Backend:

- `ensure_authenticated.dfy` is the bearer-token guard. Token verification
  is an oracle `string -> VerifyResult`. `Guard` sets `request.userId` and
  counts the calls to `next`.
- `directory.dfy` is the database. It is a `Directory` class holding the
  account rows and the employee rows as sequences, with uniqueness kept as
  the class invariant.
- `auth_routes.dfy`, `usuarios_routes.dfy` and `funcionarios_routes.dfy` are
  the handlers. Each one is a pure decision over the current rows (status,
  body, rows to write), plus a method that applies that decision to the
  `Directory`.
- `public_user.dfy` is `toPublicUser`.
- `http.dfy` is the 500 fallback of the error middleware.
  - A `Forward` result is an error passed to `next`.
  - The ORM's type-validation errors and its "record not found" errors end
    there.
- `credentials.dfy` holds bcrypt's `hash` and `compare` and JWT's `sign`.
  They are passed in as functions, together with the constants
  `HASH_ROUNDS` and the `'1d'` expiry.

Frontend:

- `token_storage.dfy` is the in-memory token over `localStorage`. It is a
  class whose methods are proved against the pure `Read`, `AfterRead` and
  `AfterWrite`.
- `api.dfy` is `apiRequest`:
  - the `Headers` object it mutates;
  - the defaults it adds;
  - the error it throws, and the value it settles with.
- `app.dfy` is the shell in `App.tsx`:
  - search and role filter, and the stats;
  - the list reducers;
  - the error helpers;
  - the `AppState` class whose handlers are tied to pure transitions over
    an `AppView`.
- `user_form.dfy`, `login_form.dfy` and `user_table.dfy` are the three
  components.
- `json.dfy`, `text.dfy`, `roles.dfy`, `ordering.dfy`, `wrappers.dfy` and
  `user_types.dfy` hold shared definitions:
  - JSON values with JavaScript truthiness;
  - `trim`, `split` and ASCII case mapping;
  - the role enum;
  - a newest-first sort (non-increasing key, a permutation of its input);
  - `Option`;
  - the frontend `User` record.

Some behaviours of the handlers that are easy to miss:

- PUT and DELETE on an unknown id answer 500, not 404. The handlers have no
  not-found branch, so Prisma's error reaches the 500 fallback.
- A PUT that gives an email already used by another account also ends in
  the 500 fallback. That route has no 409 handling.
- The `funcionarios` router is not behind `ensureAuthenticated`.
- Its POST stores the submitted `senha` as `senhaHash` without hashing it.
- Its 201 body echoes that value (`HireEchoesPassword`).
- The compiled `backend/dist` files are an older variant and are not
  modelled:
  - there, register is guarded and requires a role;
  - there, the employee route hashes the password and is guarded.

## Model

| member | source | states |
|---|---|---|
| EnsureAuthenticated.Authenticate | backend/src/middlewares/ensureAuthenticated.ts:5-31 | every rejection is one of the three 401 answers; acceptance needs a header and yields the verified subject of the second space-separated piece, never empty |
| EnsureAuthenticated.MissingHeaderRejected | backend/src/middlewares/ensureAuthenticated.ts:7-9 | an absent or empty header gets 401 "Token nao informado." |
| EnsureAuthenticated.WellFormedHeader | backend/src/middlewares/ensureAuthenticated.ts:11-28 | `<bearer in any case> <token>` followed by nothing or a space hands exactly `token` to verify |
| EnsureAuthenticated.PiecesOf | backend/src/middlewares/ensureAuthenticated.ts:11 | destructuring the split takes the text before the first space and the text between the first and second space |
| EnsureAuthenticated.ExtraPiecesIgnored | backend/src/middlewares/ensureAuthenticated.ts:11 | pieces after the second are ignored: `Bearer abc xyz` authenticates as `Bearer abc` |
| EnsureAuthenticated.WrongSchemeRejected | backend/src/middlewares/ensureAuthenticated.ts:13-15 | a scheme other than bearer (case-insensitively) gets 401 "Token invalido." |
| EnsureAuthenticated.EmptyTokenRejected | backend/src/middlewares/ensureAuthenticated.ts:13-15 | `Bearer` alone and `Bearer` followed by two spaces get 401 "Token invalido." |
| EnsureAuthenticated.SchemeCaseInsensitive | backend/src/middlewares/ensureAuthenticated.ts:13 | two schemes equal up to ASCII case give the same decision |
| EnsureAuthenticated.VerifiedOutcomes | backend/src/middlewares/ensureAuthenticated.ts:17-31 | a verify failure is "Nao autorizado.", an empty or missing subject is "Token invalido.", otherwise the string payload or its `sub` is the user id |
| EnsureAuthenticated.SchemeAndToken | backend/src/middlewares/ensureAuthenticated.ts:11 | defines the destructured pair: the first piece of the split and the second, or empty (properties in `PiecesOf`) |
| EnsureAuthenticated.Subject | backend/src/middlewares/ensureAuthenticated.ts:20 | defines the subject: a string payload itself, otherwise its `sub`, empty when missing |
| EnsureAuthenticated.OnVerified | backend/src/middlewares/ensureAuthenticated.ts:17-31 | defines the outcome after verification: a failure is "Nao autorizado.", an empty subject "Token invalido.", otherwise the subject (tied to `Authenticate` by `WellFormedHeader`) |
| EnsureAuthenticated.Request.constructor | backend/src/middlewares/ensureAuthenticated.ts:5 | a request carries its header and no user id yet |
| EnsureAuthenticated.Guard | backend/src/middlewares/ensureAuthenticated.ts:4-32 | on acceptance `userId` is the subject and `next` runs once with no answer; on rejection the 401 answer is sent, `next` never runs and `userId` is untouched |
| Http.Deliver | backend/src/index.ts:15-18 | a forwarded error becomes 500 "Erro interno no servidor.", any other result is sent as is |
| PublicUser.ToPublicUser | backend/src/utils/user.ts:1-4 | the result has no `senhaHash` and keeps every other field with its value |
| PublicUser.ToPublicUserIdempotent | backend/src/utils/user.ts:1-4 | projecting twice equals projecting once |
| PublicUser.ToPublicUserIgnoresHash | backend/src/utils/user.ts:1 | the projection is the same whatever `senhaHash` holds, including when it is absent |
| Roles.ParseRole | backend/src/routes/usuarios.routes.ts:42 | a string parses to a role exactly when it is that role's name, and to none when it names no role |
| Roles.RoleOfValue | backend/src/routes/auth.routes.ts:60-61 | a JSON value denotes a role exactly when it is the string of a role name |
| Roles.ParseRoleName | backend/src/routes/usuarios.routes.ts:42 | every role's name parses back to that role |
| Directory.LastWhere | backend/src/routes/usuarios.routes.ts:48 | a lookup returns the index of a row satisfying the key test, and none exactly when no row does |
| Directory.FindUserByEmail | backend/src/routes/auth.routes.ts:19 | `findUnique({ email })`: the index of an account with that email, or none exactly when no account has it |
| Directory.FindUserById | backend/src/routes/auth.routes.ts:94-95 | `findUnique({ id })`: the index of the account with that id, or none exactly when there is none |
| Directory.FindEmployeeById | backend/src/routes/funcionarios.routes.ts:60 | the employee a `gestor` connect names, or none exactly when there is none |
| Directory.FindEmployeeByCpf | backend/src/routes/funcionarios.routes.ts:56 | the employee holding a CPF, or none exactly when no employee has it |
| Directory.FindEmployeeOfUser | backend/src/routes/usuarios.routes.ts:16-22 | the employee linked to an account, or none exactly when no employee is |
| Directory.Directory.constructor | backend/src/routes/usuarios.routes.ts:14 | an empty database satisfies the uniqueness invariant |
| Directory.Directory.InsertUser | backend/src/routes/usuarios.routes.ts:56-64 | `usuario.create` appends the account, keeps the employees and keeps ids and emails unique |
| Directory.Directory.ReplaceUser | backend/src/routes/usuarios.routes.ts:109-112 | `usuario.update` replaces one row, keeps the others and keeps the invariant |
| Directory.Directory.RemoveUser | backend/src/routes/usuarios.routes.ts:124-126 | `usuario.delete` removes one row, keeps the others in order and keeps the invariant |
| Directory.Directory.InsertEmployee | backend/src/routes/funcionarios.routes.ts:53-78 | `funcionario.create` appends the employee and, when one is nested, its account, and keeps the invariant |
| AuthRoutes.Login | backend/src/routes/auth.routes.ts:11-44 | answers only 200/400/401/403; a 200 needs an active account with a hash that `compare` accepts and carries the token signed for its id and the account without hash |
| AuthRoutes.LoginMissingField | backend/src/routes/auth.routes.ts:15-17 | a missing email or senha gets 400 whatever the directory holds |
| AuthRoutes.LoginUnknownAccount | backend/src/routes/auth.routes.ts:19-23 | an unknown email or an account without hash gets 401 "Credenciais invalidas." |
| AuthRoutes.LoginInactive | backend/src/routes/auth.routes.ts:25-27 | an inactive account gets 403 whatever the password |
| AuthRoutes.LoginWrongPasswordLooksUnknown | backend/src/routes/auth.routes.ts:29-33 | a wrong password on an active account gets the same answer as an unknown email |
| AuthRoutes.LoginSuccess | backend/src/routes/auth.routes.ts:35-40 | the right password gets 200 with the signed token and a user object without `senhaHash` |
| AuthRoutes.RegisteredRole | backend/src/routes/auth.routes.ts:60-63 | a role-name string is kept, anything else becomes FUNCIONARIO |
| AuthRoutes.RegisterDecision | backend/src/routes/auth.routes.ts:46-86 | answers only 201/400/409; missing fields give 400; a creation happens exactly on 201, with a fresh email, `hash(senha)`, the defaulted role and `ativo`, and a token for the new id |
| AuthRoutes.RegisterDuplicate | backend/src/routes/auth.routes.ts:54-58 | an email already held gets 409 and creates nothing |
| AuthRoutes.RegisterNonBooleanActive | backend/src/routes/auth.routes.ts:48 | an `ativo` that is given but not boolean is rejected by the ORM and ends in 500 |
| AuthRoutes.RegisterCreates | backend/src/routes/auth.routes.ts:65-82 | well-typed fields with a fresh email always create the account |
| AuthRoutes.Register | backend/src/routes/auth.routes.ts:46-86 | the handler answers the decision, appends exactly the created account and keeps the employees |
| AuthRoutes.ProfileRecord | backend/src/routes/auth.routes.ts:94-111 | the profile has the account's id, email, nome and createdAt, its employee summary, and no `senhaHash` |
| AuthRoutes.Me | backend/src/routes/auth.routes.ts:88-115 | no user id gives 401, an unknown id gives 404, and a 200 carries that account's profile |
| AuthRoutes.MeAfterGuard | backend/src/routes/auth.routes.ts:88 | behind the guard, a verified token for a deleted account gets 404 and one for an existing account gets its profile |
| UsuariosRoutes.Profiles | backend/src/routes/usuarios.routes.ts:26 | mapping the projection keeps the length and projects each row |
| UsuariosRoutes.ListUsers | backend/src/routes/usuarios.routes.ts:12-30 | one profile per account, each without `senhaHash`: every listed item is an account's profile and every account's profile is listed |
| UsuariosRoutes.ListUsersNewestFirst | backend/src/routes/usuarios.routes.ts:24 | the listing is ordered by `createdAt`, newest first |
| UsuariosRoutes.CreateDecision | backend/src/routes/usuarios.routes.ts:32-70 | answers only 201/400/409; any missing field or an unknown role gives 400; the rows change only on 201, by appending the created account |
| UsuariosRoutes.CreatedAccount | backend/src/routes/usuarios.routes.ts:54-63 | the new account has the given nome, email and role, `hash(senha)`, and `ativo` from a boolean or else true |
| UsuariosRoutes.CreateSucceeds | backend/src/routes/usuarios.routes.ts:32-66 | a request with string nome, email and senha, a valid role and a fresh email gets 201 with the projected account, which is appended |
| UsuariosRoutes.CreateDuplicate | backend/src/routes/usuarios.routes.ts:48-52 | an email already held gets 409 and leaves the rows unchanged |
| UsuariosRoutes.CreateKeepsUnique | backend/src/routes/usuarios.routes.ts:48-64 | after a POST, ids and emails are still unique |
| UsuariosRoutes.Create | backend/src/routes/usuarios.routes.ts:32-70 | the handler answers the decision, writes its rows and keeps the employees |
| UsuariosRoutes.PatchOf | backend/src/routes/usuarios.routes.ts:89-107 | `dataToUpdate` always has nome, email and role; `ativo` exactly when a boolean is given; a hash of `senha` exactly when it is truthy |
| UsuariosRoutes.DataToUpdate | backend/src/routes/usuarios.routes.ts:89-107 | building the patch field by field yields `PatchOf` |
| UsuariosRoutes.Patched | backend/src/routes/usuarios.routes.ts:109-112 | the update overwrites nome, email and role, and `ativo` and hash only when present; it keeps id and createdAt and stamps updatedAt |
| UsuariosRoutes.UpdateDecision | backend/src/routes/usuarios.routes.ts:72-118 | missing fields give 400, an unknown role gives 400, an unknown id is forwarded; a 200 patches exactly the addressed row and returns it projected |
| UsuariosRoutes.UpdateSucceeds | backend/src/routes/usuarios.routes.ts:72-114 | a PUT with string nome and email, a valid role, a hashable password or none, on an existing id with an email no other account holds gets 200 and writes exactly the patched row |
| UsuariosRoutes.UpdateOnlyTouchesTarget | backend/src/routes/usuarios.routes.ts:109-112 | other accounts, all ids and all createdAt values are unchanged, and uniqueness is kept |
| UsuariosRoutes.UpdateKeepsUnsuppliedFields | backend/src/routes/usuarios.routes.ts:101-107 | without a boolean `ativo` and a truthy `senha` the account's activity and hash stay |
| UsuariosRoutes.Update | backend/src/routes/usuarios.routes.ts:72-118 | the handler answers the decision, writes its rows and keeps the employees |
| UsuariosRoutes.DeleteDecision | backend/src/routes/usuarios.routes.ts:120-132 | an unknown id is forwarded with the rows unchanged; a known one gets 204 and one row fewer |
| UsuariosRoutes.RemovedAt | backend/src/routes/usuarios.routes.ts:124-126 | removing a row shifts the later rows down by one |
| UsuariosRoutes.DeleteRemovesExactly | backend/src/routes/usuarios.routes.ts:124-128 | no remaining account has the id, every other account remains, and uniqueness is kept |
| UsuariosRoutes.Delete | backend/src/routes/usuarios.routes.ts:120-132 | the handler answers the decision, writes its rows and keeps the employees |
| FuncionariosRoutes.AccountSummary | backend/src/routes/funcionarios.routes.ts:11-18 | the linked account shows only id, nome, email and role, or null |
| FuncionariosRoutes.ManagerSummary | backend/src/routes/funcionarios.routes.ts:19-24 | the manager shows only id and nomeCompleto, or null |
| FuncionariosRoutes.ListedEmployee | backend/src/routes/funcionarios.routes.ts:9-25 | an item keeps every employee column and adds the two summaries, with no hash anywhere |
| FuncionariosRoutes.Listing | backend/src/routes/funcionarios.routes.ts:28 | one item per row, in order |
| FuncionariosRoutes.ListEmployees | backend/src/routes/funcionarios.routes.ts:7-32 | every listed item is an employee's item and every employee is listed |
| FuncionariosRoutes.ListEmployeesNewestFirst | backend/src/routes/funcionarios.routes.ts:26 | the listing is ordered by `createdAt`, newest first |
| FuncionariosRoutes.ListEmployeesHidesHash | backend/src/routes/funcionarios.routes.ts:11-18 | no item and no linked account in the listing has a `senhaHash` |
| FuncionariosRoutes.LinkedAccount | backend/src/routes/funcionarios.routes.ts:62-72 | the nested account takes nome and email, the senha verbatim as hash, `ativo ?? true` and the role, or the assumed FUNCIONARIO default when none is given; it is none exactly when the ORM would reject a field |
| FuncionariosRoutes.Optional | backend/src/routes/funcionarios.routes.ts:58 | an omitted optional column is stored as null, any other value as given |
| FuncionariosRoutes.HireDecision | backend/src/routes/funcionarios.routes.ts:34-89 | answers only 201/400/409; missing fields give 400; a 409 means a taken CPF or email; a 201 creates the employee from the body, with a manager only when it exists and an account exactly when `usuario` is given |
| FuncionariosRoutes.HireSucceeds | backend/src/routes/funcionarios.routes.ts:53-80 | a body with the required fields, accepted types, a free CPF and linked email and an existing manager gets 201 and creates the employee, and the account exactly when `usuario` is given |
| FuncionariosRoutes.HireDuplicateCpf | backend/src/routes/funcionarios.routes.ts:82-86 | a CPF already present gets 409 and creates nothing |
| FuncionariosRoutes.HireDuplicateEmail | backend/src/routes/funcionarios.routes.ts:82-86 | a linked email already present gets 409 and creates nothing |
| FuncionariosRoutes.HireOptionalLinks | backend/src/routes/funcionarios.routes.ts:60-72 | without `usuario` no account is created or linked; without `gestorId` no manager is linked |
| FuncionariosRoutes.HireEchoesPassword | backend/src/routes/funcionarios.routes.ts:67-80 | the 201 body's linked `senhaHash` is the submitted senha |
| FuncionariosRoutes.HireMistypedColumnFails | backend/src/routes/funcionarios.routes.ts:58-61 | a `departamento` that is not text or a `salarioBase` that is not a number is forwarded and ends in the 500 fallback |
| FuncionariosRoutes.HireRecord | backend/src/routes/funcionarios.routes.ts:74-80 | defines the 201 body: every employee column plus the full linked account and the full manager row, or null |
| FuncionariosRoutes.ManagerId | backend/src/routes/funcionarios.routes.ts:60 | defines the connected manager: a truthy string `gestorId`, otherwise none |
| FuncionariosRoutes.WellTyped | backend/src/routes/funcionarios.routes.ts:53-73 | defines what the ORM accepts: string required columns, a valid date, text `departamento`, numeric `salarioBase`, a string `gestorId` when truthy and a valid nested account |
| FuncionariosRoutes.HireEmployee | backend/src/routes/funcionarios.routes.ts:34-89 | the handler answers the decision and appends exactly the created employee and account |
| Ordering.InsertDesc | backend/src/routes/usuarios.routes.ts:24 | inserting into a newest-first sequence keeps it newest first and adds exactly one element |
| Ordering.SortDesc | backend/src/routes/usuarios.routes.ts:24 | `orderBy: { createdAt: 'desc' }` yields a newest-first permutation of the rows |
| Text.TrimStart | frontend/src/components/UserForm.tsx:73 | drops exactly the leading whitespace |
| Text.TrimEnd | frontend/src/components/UserForm.tsx:73 | drops exactly the trailing whitespace |
| Text.Trim | frontend/src/components/UserForm.tsx:73 | the result is empty exactly for a blank string and otherwise neither starts nor ends with whitespace |
| Text.ToLower | backend/src/middlewares/ensureAuthenticated.ts:13 | lower-cases each character (ASCII) and keeps the length |
| Text.ToUpper | frontend/src/components/UserTable.tsx:52 | upper-cases each character (ASCII) and keeps the length |
| Text.IndexOf | backend/src/middlewares/ensureAuthenticated.ts:11 | the position of the first occurrence of the separator |
| Text.Split | backend/src/middlewares/ensureAuthenticated.ts:11 | at least one piece, no piece holds the separator, and joining the pieces gives the input back |
| Text.SplitAtFirst | backend/src/middlewares/ensureAuthenticated.ts:11 | splitting at a first separator gives the text before it followed by the split of the rest |
| Text.SplitJoin | frontend/src/components/UserTable.tsx:50 | splitting a join of separator-free pieces gives the pieces back |
| Text.ContainsIff | frontend/src/App.tsx:249 | `includes` is true exactly when the query occurs at some position |
| Text.NatToString | frontend/src/services/api.ts:33 | the decimal text of a status code, without leading zeros, reads back as that code |
| TokenStorage.Read | frontend/src/services/tokenStorage.ts:9-21 | a non-empty cache answers; otherwise no window gives null and a window gives the stored `projetorh:token` |
| TokenStorage.AfterRead | frontend/src/services/tokenStorage.ts:18-19 | a read never touches storage and caches what it read from storage |
| TokenStorage.AfterWrite | frontend/src/services/tokenStorage.ts:23-35 | a write always sets the cache; with a window a non-empty token is stored and null or empty removes the key |
| TokenStorage.ReadAfterWrite | frontend/src/services/tokenStorage.ts:24 | after setting a non-empty token, get returns it |
| TokenStorage.ReadAfterClear | frontend/src/services/tokenStorage.ts:24-33 | after setting null or an empty token, get returns null |
| TokenStorage.CachedTokenIgnoresStorage | frontend/src/services/tokenStorage.ts:10-12 | a non-empty cache is returned whatever storage holds |
| TokenStorage.ReadIsStable | frontend/src/services/tokenStorage.ts:9-21 | reading twice gives what reading once gives and leaves storage alone |
| TokenStorage.WriteKeepsOtherEntries | frontend/src/services/tokenStorage.ts:30-34 | a write changes no other storage key |
| TokenStorage.TokenStore.constructor | frontend/src/services/tokenStorage.ts:3 | the cache starts empty over the given storage |
| TokenStorage.TokenStore.GetStoredToken | frontend/src/services/tokenStorage.ts:9-21 | returns `Read` of the old state and moves to `AfterRead` |
| TokenStorage.TokenStore.SetStoredToken | frontend/src/services/tokenStorage.ts:23-35 | moves to `AfterWrite` |
| Api.ApiBaseUrl | frontend/src/services/api.ts:3 | `VITE_API_URL` when set, else the local default |
| Api.InitHeaders | frontend/src/services/api.ts:13 | the initial header names are the lower-cased names given, and a name given once holds its value |
| Api.WithDefaults | frontend/src/services/api.ts:13-25 | caller headers are never overwritten; content-type is added only with a body; authorization `Bearer <token>` only with a non-empty token |
| Api.Headers.constructor | frontend/src/services/api.ts:13 | `new Headers(init)` holds `InitHeaders(init)` |
| Api.Headers.Set | frontend/src/services/api.ts:17 | `set` stores the value under the lower-cased name |
| Api.PrepareRequest | frontend/src/services/api.ts:10-30 | the URL is base plus path, the headers are the defaults over the caller's, and the token store is read exactly when `auth` holds, an omitted `auth` counting as true |
| Api.ErrorMessage | frontend/src/services/api.ts:33-41 | a string `message` in the body is the message; otherwise "Erro <status>" |
| Api.Settle | frontend/src/services/api.ts:11-51 | a non-ok status throws an error with that status; 204 or `parseJson` false gives undefined; otherwise the parsed body, an omitted `parseJson` counting as true |
| Api.ErrorNamesStatus | frontend/src/services/api.ts:33 | without a string message, the error reads "Erro " followed by the status in decimal |
| Api.BearerHeaderRoundTrip | frontend/src/services/api.ts:23 | the header the client builds splits on the server into `Bearer` and the token |
| UserTypes.RoleLabel | frontend/src/types/user.ts:14-19 | every role has a non-empty label |
| UserTypes.RoleLabelInjective | frontend/src/types/user.ts:14-19 | different roles have different labels |
| UserForm.ModeOf | frontend/src/components/UserForm.tsx:60 | the form is in edit mode exactly when `initialData` is given |
| UserForm.LooksLikeEmailIff | frontend/src/components/UserForm.tsx:78 | the executable email test holds exactly when the string matches `^[^\s@]+@[^\s@]+\.[^\s@]+$` |
| UserForm.LooksLikeEmailMatches | frontend/src/components/UserForm.tsx:78 | a string the test accepts matches the pattern |
| UserForm.MatchesLooksLikeEmail | frontend/src/components/UserForm.tsx:78 | a string of the pattern's shape is accepted by the test |
| UserForm.ErrorsFor | frontend/src/components/UserForm.tsx:71-87 | for given check outcomes, each field gets its error exactly when its check fails, with the right message |
| UserForm.ValidationErrors | frontend/src/components/UserForm.tsx:71-87 | a blank nome errs; a blank email is missing and otherwise errs exactly when it fails the pattern; senha errs only in create mode, when blank or under six characters once trimmed |
| UserForm.CollectErrors | frontend/src/components/UserForm.tsx:72-87 | filling `nextErrors` step by step yields `ErrorsFor` |
| UserForm.Changed | frontend/src/components/UserForm.tsx:62-69 | a change event updates only the named field, a checkbox with its checked value |
| UserForm.OpenedValues | frontend/src/components/UserForm.tsx:30-36 | opening with `initialData` copies id, nome, email, role and ativo with an empty senha, and without it loads the defaults |
| UserForm.AcceptedCreatePassword | frontend/src/components/UserForm.tsx:81-87 | an accepted creation has a trimmed password of at least six characters |
| UserForm.UserFormState.constructor | frontend/src/components/UserForm.tsx:39-40 | the form starts on the defaults with no errors |
| UserForm.UserFormState.OnPropsChange | frontend/src/components/UserForm.tsx:42-58 | opening loads `OpenedValues` and clears the errors; a closed form keeps its state |
| UserForm.UserFormState.HandleChange | frontend/src/components/UserForm.tsx:62-69 | the values become `Changed` and nothing else moves |
| UserForm.UserFormState.Validate | frontend/src/components/UserForm.tsx:71-90 | the errors become `ValidationErrors`, and the result is true exactly when there are none |
| UserForm.UserFormState.HandleSubmit | frontend/src/components/UserForm.tsx:92-98 | nothing is submitted while submitting or when invalid; otherwise the payload is the values with only senha trimmed |
| LoginForm.RegisterProblem | frontend/src/components/LoginForm.tsx:43-57 | the checks run in order, blank nome, short trimmed senha, differing confirmation, and there is no problem exactly when all pass |
| LoginForm.SubmissionFollowsMode | frontend/src/components/LoginForm.tsx:59-63 | login mode always calls `onLogin`; register mode calls `onRegister` exactly when the checks pass, and otherwise nothing |
| LoginForm.SubmissionOf | frontend/src/components/LoginForm.tsx:43-63 | defines the call a submit makes: `onLogin` in login mode, `onRegister` or nothing in register mode (properties in `SubmissionFollowsMode`) |
| LoginForm.LoginPassesEverything | frontend/src/components/LoginForm.tsx:63 | login hands over the trimmed email and the untouched senha |
| LoginForm.RegisterPayloadPassedChecks | frontend/src/components/LoginForm.tsx:59 | `onRegister` gets a non-blank trimmed nome, the trimmed email, and the senha as typed and confirmed, at least six long once trimmed |
| LoginForm.DisplayedError | frontend/src/components/LoginForm.tsx:140-143 | the box shows when either message is non-empty, with `localError ?? errorMessage` |
| LoginForm.LocalErrorWins | frontend/src/components/LoginForm.tsx:142 | a local error always wins; the parent's shows only without one |
| LoginForm.LoginFormState.constructor | frontend/src/components/LoginForm.tsx:21-25 | the card starts with empty inputs and no local error |
| LoginForm.LoginFormState.OnModeChange | frontend/src/components/LoginForm.tsx:29-36 | a mode change clears the local error, senha and confirmation, and nome only for register |
| LoginForm.LoginFormState.HandleSubmit | frontend/src/components/LoginForm.tsx:38-64 | while loading nothing happens; otherwise the call is `SubmissionOf` and the local error is the first failing check's message |
| UserTable.FirstUpper | frontend/src/components/UserTable.tsx:52 | `charAt(0).toUpperCase()` is empty for an empty word and otherwise the upper-cased first character |
| UserTable.Concat | frontend/src/components/UserTable.tsx:53 | joining pieces of at most one character gives at most as many characters as pieces |
| UserTable.Initials | frontend/src/components/UserTable.tsx:49-53 | the initials have at most two characters |
| UserTable.InitialsOf | frontend/src/components/UserTable.tsx:51-53 | only the first two pieces count, so at most two characters |
| UserTable.InitialsOfPieces | frontend/src/components/UserTable.tsx:51-53 | the initials are the first characters of the first one or two pieces |
| UserTable.InitialsOfTwoWords | frontend/src/components/UserTable.tsx:49-53 | a name of two words and more gives the two words' upper-cased first letters |
| UserTable.InitialsOfFullName | frontend/src/components/UserTable.tsx:49-53 | a name of exactly two words gives their two upper-cased first letters |
| UserTable.InitialsOfOneWord | frontend/src/components/UserTable.tsx:49-53 | a single word gives one initial, and the empty name none |
| UserTable.InitialsAfterLeadingSpace | frontend/src/components/UserTable.tsx:50-52 | a leading space's empty piece contributes nothing |
| UserTable.StatusLabel | frontend/src/components/UserTable.tsx:82 | "Ativo" exactly when active, "Inativo" exactly when not |
| UserTable.RowOf | frontend/src/components/UserTable.tsx:41-83 | a row shows the user's id, nome, email, createdAt, initials, role label and status label |
| UserTable.Render | frontend/src/components/UserTable.tsx:33-41 | the placeholder shows exactly while loading, the empty state exactly when not loading with no users, and otherwise one row per user in order |
| UserTable.ExactlyOneBodyState | frontend/src/components/UserTable.tsx:33-108 | exactly one of placeholder, rows and empty state is on screen |
| UserTable.RowsAreTheUsers | frontend/src/components/UserTable.tsx:40-41 | every user has its row and every row is some user's |
| App.MatchesQuery | frontend/src/App.tsx:248-250 | defines the query test: an empty query, or one contained in the lower-cased nome, email or role label |
| App.MatchesRole | frontend/src/App.tsx:251 | defines the role test: ALL, or the user's role |
| App.Filter | frontend/src/App.tsx:247 | `filter` keeps exactly the elements passing the test, as a subsequence |
| App.FilterPartition | frontend/src/App.tsx:258-262 | the kept and the dropped elements add up to the whole list |
| App.FilterKeepsAll | frontend/src/App.tsx:250 | a test every element passes keeps the list as it is |
| App.FilteredUsers | frontend/src/App.tsx:245-254 | an order-preserving subsequence whose members are exactly the users matching the trimmed, lower-cased query and the role filter |
| App.BlankSearchListsEveryone | frontend/src/App.tsx:248-251 | a blank query with ALL lists every user |
| App.QueryMatchMeaning | frontend/src/App.tsx:249 | a non-empty query matches when it occurs in the lower-cased nome, email or role label |
| App.ComputeStats | frontend/src/App.tsx:256-267 | total is the length, ativos counts the active users, inativos the rest, and there is a latest signup exactly for a non-empty list |
| App.LatestSignup | frontend/src/App.tsx:263-265 | `ultimoCadastro` is the nome of a listed user with the largest `createdAt`, the first listed among equals |
| Ordering.FirstIsEarliestLargest | frontend/src/App.tsx:263-265 | the head of the newest-first sort is the earliest element with the largest key |
| App.EmptyStats | frontend/src/App.tsx:256-267 | an empty list gives zero counts and no latest signup |
| App.ReplaceById | frontend/src/App.tsx:162 | the update reducer replaces exactly the elements with the updated id and keeps the length |
| App.Ids | frontend/src/App.tsx:162 | the ids of the list, position by position |
| App.ReplaceKeepsIds | frontend/src/App.tsx:162 | the update reducer keeps the ids in place |
| App.ReplaceTouchesOnlyThatId | frontend/src/App.tsx:162 | users with other ids are unchanged and every user with that id is the updated one |
| App.RemoveById | frontend/src/App.tsx:200 | the delete reducer keeps, in order, exactly the users with another id |
| App.RemoveCount | frontend/src/App.tsx:200 | the removed and the remaining users add up to the list, and an absent id changes nothing |
| App.GetErrorMessage | frontend/src/App.tsx:465-470 | a non-empty Error message, else the default text, so never empty |
| App.FromApiError | frontend/src/services/api.ts:42-44 | an HTTP failure throws an Error carrying its message and status; a parse failure throws one without status |
| App.UnauthorizedMeans401 | frontend/src/App.tsx:472-477 | a thrown API error counts as unauthorized exactly when it is an HTTP 401 |
| App.Response401ExpiresSession | frontend/src/services/api.ts:32-44 | every 401 response rejects with an error `isUnauthorized` accepts |
| App.EmptyServerMessageFallsBack | frontend/src/App.tsx:466 | an empty server message is shown as the default text |
| App.IsUnauthorized | frontend/src/App.tsx:472-477 | defines `isUnauthorized`: an object whose `status` is 401 (properties in `UnauthorizedMeans401`) |
| App.IsAuthenticated | frontend/src/App.tsx:269 | defines `isAuthenticated`: a non-empty session token and a loaded user |
| App.IsHydrating | frontend/src/App.tsx:270 | defines `isHydrating`: loading auth with a non-empty token and no user yet |
| App.LoggedOut | frontend/src/App.tsx:75-89 | defines the state `handleLogout` leaves (properties in `LogoutEndsSession`) |
| App.AfterPageFailure | frontend/src/App.tsx:103-107 | defines a page-level failure: the session-expired logout on 401, the page error otherwise |
| App.AfterSave | frontend/src/App.tsx:151-186 | defines the state after a save settles (properties in `SaveSucceeded`, `SaveFailedKeepsDrawer`, `UnauthorizedLogsOut`) |
| App.AfterDelete | frontend/src/App.tsx:198-208 | defines the state after a removal settles (properties in `DeleteOutcomes`, `UnauthorizedLogsOut`) |
| App.AfterToggle | frontend/src/App.tsx:213-226 | defines the state after a toggle settles (properties in `ToggleSucceeded`, `UnauthorizedLogsOut`) |
| App.AfterLoad | frontend/src/App.tsx:100-110 | defines the state after the listing settles, with loading off (properties in `UnauthorizedLogsOut`) |
| App.LogoutEndsSession | frontend/src/App.tsx:75-89 | after logout nobody is signed in or hydrating, nothing is listed or counted, the drawer is closed, login mode shows the message; logging out is idempotent |
| App.SaveRequestOf | frontend/src/App.tsx:155-173 | a selected user gives an update of its id without the password, otherwise a creation with the password trimmed |
| App.ToggleRequest | frontend/src/App.tsx:213-218 | the toggle updates the user's id with its own fields and `ativo` flipped |
| App.SaveSucceeded | frontend/src/App.tsx:162-177 | an update keeps the ids and the other users; a creation prepends; both close the drawer with their message |
| App.SaveFailedKeepsDrawer | frontend/src/App.tsx:184 | a failure other than 401 keeps list and drawer and shows a non-empty error |
| App.DeleteOutcomes | frontend/src/App.tsx:198-208 | a success removes exactly that id, keeping the order; a failure other than 401 keeps the list and sets the page error |
| App.UnauthorizedLogsOut | frontend/src/App.tsx:103-104 | a 401 on save, delete, toggle or load is the session-expired logout |
| App.ToggleSucceeded | frontend/src/App.tsx:219 | a successful toggle swaps the returned record in at its id only |
| App.AppState.constructor | frontend/src/App.tsx:22-37 | the initial state reads the stored token, starts hydrating exactly when there is one, and holds the defaults |
| App.AppState.HandleLogout | frontend/src/App.tsx:75-89 | the state becomes `LoggedOut` and the stored token is cleared |
| App.AppState.BeginSubmit | frontend/src/App.tsx:151-173 | marks the drawer submitting and returns the request for the selection |
| App.AppState.FinishSubmit | frontend/src/App.tsx:151-186 | the state becomes `AfterSave`, and the stored token is cleared only on a 401 |
| App.AppState.FailPage | frontend/src/App.tsx:102-107 | a 401 logs out with the session-expired message; another failure sets the page error |
| App.AppState.FinishDelete | frontend/src/App.tsx:194-209 | the state becomes `AfterDelete`, and the stored token is cleared only on a 401 |
| App.AppState.FinishToggle | frontend/src/App.tsx:211-227 | the state becomes `AfterToggle`, and the stored token is cleared only on a 401 |
| App.AppState.FinishLoad | frontend/src/App.tsx:97-110 | the state becomes `AfterLoad`, with loading off, and the stored token is cleared only on a 401 |
| App.AppState.HandleEdit | frontend/src/App.tsx:188-192 | selects the user, resets the drawer status and opens it, nothing else |
| App.AppState.OpenCreateDrawer | frontend/src/App.tsx:229-233 | clears the selection, resets the drawer status and opens it, nothing else |
| App.AppState.SwitchAuthMode | frontend/src/App.tsx:239-243 | sets the mode, clears the auth error and stops the auth spinner, nothing else |

## Left out

- `backend/dist/**` is compiled output of an older variant and is not part of this model.
- The seed scripts, the Prisma client and the Express wiring are I/O and are not modelled. The one exception is the 500 fallback (`Http.Deliver`).
- `config/auth.ts` environment loading and its fail-fast are left out. Only the `'1d'` default is kept, as a constant.
- bcrypt and JWT are passed in as functions; no cryptographic fact about them is stated.
  - Salting, expiry and signatures are left out.
  - `HASH_ROUNDS` is kept only as a constant.
- `services/users.ts` and `services/auth.ts` are one-line wrappers over `apiRequest`. They are not modelled separately.
- Network failures of `fetch` are left out: only a response that arrived is classified.
- The JSON parse error message is a parameter (`parseMessage`), because it comes from the browser.
- The ORM's precedence for POST `/funcionarios` is assumed, not derived: the 400 field check, then type validation (forwarded), then the unique `cpf` or linked `email` (409), then a missing `gestorId` target (forwarded). A body with both a taken CPF and an unknown manager is therefore answered 409 here; the database may instead report the missing connect first, which would end in the 500 fallback.
- FuncionariosRoutes.LinkedAccount: a nested `usuario` without `role` is assumed to take a FUNCIONARIO column default (`DefaultRole`). The repository does not show that default: the handler passes `usuario.role` through unchecked, and every other account creation names a role. Without such a default the ORM would reject the write and the request would end in the 500 fallback, so `HireDecision`'s 201 and `HireSucceeds` for role-less nested accounts rest on this assumption.
- JSON numbers are integers here (`Json.Num` holds an `int`), so a fractional value such as a `salarioBase` of 5500.75, which the source stores and echoes, cannot be written in the model. IEEE double rounding is left out too.
- The browser's HTML constraint validation (the `required` inputs of `LoginForm` and the type attributes of the inputs) is left out with the JSX. So `LoginForm` submissions are stated for `handleSubmit` alone, including blank inputs the browser would stop.
- The ORM's schema checks are modelled by their outcome only. A wrongly typed field is a forwarded error, which becomes the 500 fallback; `departamento` is taken as a text column and `salarioBase` as a number column, so the string form the ORM also accepts for a decimal is treated as mistyped. Referential actions on delete are left out.
- `Headers` value normalisation (whitespace stripping, invalid header names) is left out. Names are lower-cased, values are stored as given.
- `toLowerCase` and `toUpperCase` are ASCII only. Other Unicode case mappings are left out.
- A string is a sequence of code points, while JavaScript's `length` and `charAt` count UTF-16 code units. So every length test, including the six-character password minimum of `UserForm` and `LoginForm`, and the avatar initial of `UserTable` are stated in code points. For text outside the Basic Multilingual Plane they differ from the source: three emoji have length 6 there, and `charAt(0)` gives a lone surrogate.
- `Intl` date formatting and `Date` parsing are left out.
  - `createdAt` is an integer timestamp.
  - `new Date(dataAdmissao)` is a parameter `parseDate`.
- JSX rendering and styling are left out. The 4-second action-message timer is left out.
- `window.confirm` in `handleDelete` is left out. `App.AppState.FinishDelete` is the path after a confirmed removal.
- `hydrateSession`, `handleLogin` and `handleRegister` are not modelled as async flows. Their shared pieces are modelled: the 401 logout and the settled-load transition.
- In `loadUsers`, only the settled request is modelled (`FinishLoad`); the early return with no stored token is left out.
- The interleaving of awaited requests and React's effect and state-batching order are left out. Each handler is one atomic step once its request has settled.
- `UserForm.Changed`: `handleChange` takes the field by its `name` attribute; the model has the form's five inputs as an event type. A name outside the form is left out.
- Row date formatting and the table's button callbacks are left out of `UserTable`.
