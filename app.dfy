/**
 * The dashboard shell: the search and role filter over the loaded accounts,
 * the header statistics, the list updates after a save, a removal or a
 * status toggle, the logout reset, and the two helpers that read a thrown
 * error.
 */
module App {
  import opened Wrappers
  import opened Roles
  import opened Text
  import opened Json
  import opened Ordering
  import opened UserTypes
  import opened TokenStorage
  import opened Api
  import LoginForm
  import UserForm

  // ---------------------------------------------------------------- filtering

  /** `s` can be obtained from `t` by deleting elements (greedy matching). */
  predicate IsSubsequence<T(==)>(s: seq<T>, t: seq<T>)
    decreases |t|
  {
    s == [] || (t != [] && if s[0] == t[0] then IsSubsequence(s[1..], t[1..]) else IsSubsequence(s, t[1..]))
  }

  /** `Array.prototype.filter`. */
  function Filter<T(==)>(s: seq<T>, keep: T -> bool): (r: seq<T>)
    ensures |r| <= |s|
    ensures forall x :: x in r ==> x in s && keep(x)
    ensures forall x :: x in s && keep(x) ==> x in r
    ensures IsSubsequence(r, s)
    decreases |s|
  {
    if s == [] then []
    else
      var rest := Filter(s[1..], keep);
      if keep(s[0]) then
        var r := [s[0]] + rest;
        assert r[1..] == rest;
        r
      else
        assert rest != [] ==> rest[0] != s[0] by {
          if rest != [] {
            assert rest[0] in rest;
          }
        }
        rest
  }

  /** The negation of a test. */
  function Not<T>(keep: T -> bool): T -> bool {
    x => !keep(x)
  }

  /** What one test keeps and what its negation keeps together account for
      the whole list. */
  lemma {:induction false} FilterPartition<T>(s: seq<T>, keep: T -> bool)
    ensures |Filter(s, keep)| + |Filter(s, Not(keep))| == |s|
    decreases |s|
  {
    if s != [] {
      FilterPartition(s[1..], keep);
    }
  }

  /** A test every element passes keeps the list as it is. */
  lemma {:induction false} FilterKeepsAll<T>(s: seq<T>, keep: T -> bool)
    requires forall x :: x in s ==> keep(x)
    ensures Filter(s, keep) == s
    decreases |s|
  {
    if s != [] {
      assert s[0] in s;
      assert forall x :: x in s[1..] ==> x in s;
      FilterKeepsAll(s[1..], keep);
      assert [s[0]] + s[1..] == s;
    }
  }

  // ---------------------------------------------------- search and role filter

  /** `RoleFilter`: `'ALL'` or one role. */
  datatype RoleFilter = AllRoles | OnlyRole(role: Role)

  /** `matchesQuery`: an empty query matches; otherwise the lower-cased nome,
      email or role label must contain it. */
  predicate MatchesQuery(u: User, query: string) {
    || |query| == 0
    || Contains(ToLower(u.nome), query)
    || Contains(ToLower(u.email), query)
    || Contains(ToLower(RoleLabel(u.role)), query)
  }

  /** `matchesRole`. */
  predicate MatchesRole(u: User, roleFilter: RoleFilter) {
    roleFilter.AllRoles? || u.role == roleFilter.role
  }

  /** `filteredUsers`: the accounts that pass both tests, in list order; the
      query is the search text trimmed and lower-cased. */
  function FilteredUsers(users: seq<User>, search: string, roleFilter: RoleFilter): (r: seq<User>)
    ensures IsSubsequence(r, users)
    ensures forall u :: u in r <==> u in users && MatchesQuery(u, ToLower(Trim(search))) && MatchesRole(u, roleFilter)
  {
    var query := ToLower(Trim(search));
    Filter(users, (u: User) => MatchesQuery(u, query) && MatchesRole(u, roleFilter))
  }

  /** A blank search with every role selected lists everyone. */
  lemma {:induction false} BlankSearchListsEveryone(users: seq<User>, search: string)
    requires IsBlank(search)
    ensures FilteredUsers(users, search, AllRoles) == users
  {
    var query := ToLower(Trim(search));
    assert |query| == 0;
    FilterKeepsAll(users, (u: User) => MatchesQuery(u, query) && MatchesRole(u, AllRoles));
  }

  /** A non-empty query matches a user exactly when it occurs somewhere in
      one of the three lower-cased fields. */
  lemma {:induction false} QueryMatchMeaning(u: User, query: string)
    requires query != []
    ensures MatchesQuery(u, query) <==>
      || (exists i :: OccursAt(ToLower(u.nome), query, i))
      || (exists i :: OccursAt(ToLower(u.email), query, i))
      || (exists i :: OccursAt(ToLower(RoleLabel(u.role)), query, i))
  {
    ContainsIff(ToLower(u.nome), query);
    ContainsIff(ToLower(u.email), query);
    ContainsIff(ToLower(RoleLabel(u.role)), query);
  }

  // -------------------------------------------------------------------- stats

  /** The header counters, and the nome of the newest account. */
  datatype Stats = Stats(total: nat, ativos: nat, inativos: int, ultimoCadastro: Option<string>)

  function UserCreatedAt(u: User): int {
    u.createdAt
  }

  predicate IsActive(u: User) {
    u.ativo
  }

  /** `stats`: `ultimoCadastro` is the first element of the list sorted by
      `createdAt`, newest first. */
  function ComputeStats(users: seq<User>): (st: Stats)
    ensures st.total == |users|
    ensures st.ativos == |Filter(users, IsActive)|
    ensures st.inativos == |Filter(users, Not(IsActive))|
    ensures st.ultimoCadastro.None? <==> users == []
  {
    var total := |users|;
    var ativos := |Filter(users, IsActive)|;
    FilterPartition(users, IsActive);
    var newestFirst := SortDesc(users, UserCreatedAt);
    Stats(total, ativos, total - ativos, if newestFirst == [] then None else Some(newestFirst[0].nome))
  }

  /** `ultimoCadastro` names the listed account at `at`: no other account is
      newer, and every account listed before it is strictly older, so among
      equal `createdAt` the first one listed is named. */
  lemma {:induction false} LatestSignup(users: seq<User>) returns (at: nat)
    requires users != []
    ensures at < |users|
    ensures ComputeStats(users).ultimoCadastro == Some(users[at].nome)
    ensures forall k :: 0 <= k < |users| ==> users[k].createdAt <= users[at].createdAt
    ensures forall k :: 0 <= k < at ==> users[k].createdAt < users[at].createdAt
  {
    at := FirstIsEarliestLargest(users, UserCreatedAt);
    assert forall k :: 0 <= k < |users| ==> UserCreatedAt(users[k]) <= UserCreatedAt(users[at]);
    assert forall k :: 0 <= k < at ==> UserCreatedAt(users[k]) < UserCreatedAt(users[at]);
  }

  /** The counters of an empty list. */
  lemma EmptyStats()
    ensures ComputeStats([]) == Stats(0, 0, 0, None)
  {
  }

  // ----------------------------------------------------------------- reducers

  /** `prev.map((user) => (user.id === updated.id ? updated : user))`. */
  function ReplaceById(users: seq<User>, updated: User): (r: seq<User>)
    ensures |r| == |users|
    ensures forall i :: 0 <= i < |users| ==> r[i] == if users[i].id == updated.id then updated else users[i]
    decreases |users|
  {
    if users == [] then []
    else [if users[0].id == updated.id then updated else users[0]] + ReplaceById(users[1..], updated)
  }

  function Ids(users: seq<User>): (ids: seq<string>)
    ensures |ids| == |users|
    ensures forall i :: 0 <= i < |users| ==> ids[i] == users[i].id
  {
    seq(|users|, i requires 0 <= i < |users| => users[i].id)
  }

  /** The replacement keeps every position's id, so the list still lists the
      same accounts in the same order. */
  lemma {:induction false} ReplaceKeepsIds(users: seq<User>, updated: User)
    ensures Ids(ReplaceById(users, updated)) == Ids(users)
  {
    var r := ReplaceById(users, updated);
    assert forall i :: 0 <= i < |users| ==> Ids(r)[i] == Ids(users)[i];
  }

  /** Accounts with another id come out of the replacement unchanged and in
      their order; those with the id are all the returned record. */
  lemma {:induction false} ReplaceTouchesOnlyThatId(users: seq<User>, updated: User)
    ensures Filter(ReplaceById(users, updated), Not(HasId(updated.id))) == Filter(users, Not(HasId(updated.id)))
    ensures forall u :: u in ReplaceById(users, updated) && u.id == updated.id ==> u == updated
    decreases |users|
  {
    if users != [] {
      ReplaceTouchesOnlyThatId(users[1..], updated);
      assert ReplaceById(users, updated)[1..] == ReplaceById(users[1..], updated);
    }
  }

  /** The test `user.id === id`. */
  function HasId(id: string): User -> bool {
    (u: User) => u.id == id
  }

  /** `prev.filter((user) => user.id !== userToRemove.id)`. */
  function RemoveById(users: seq<User>, id: string): (r: seq<User>)
    ensures IsSubsequence(r, users)
    ensures forall u :: u in r <==> u in users && u.id != id
  {
    Filter(users, Not(HasId(id)))
  }

  /** Removing an id that is not listed changes nothing; otherwise the list
      loses exactly its accounts with that id. */
  lemma {:induction false} RemoveCount(users: seq<User>, id: string)
    ensures |RemoveById(users, id)| + |Filter(users, HasId(id))| == |users|
    ensures (forall u :: u in users ==> u.id != id) ==> RemoveById(users, id) == users
  {
    FilterPartition(users, HasId(id));
    if forall u :: u in users ==> u.id != id {
      FilterKeepsAll(users, Not(HasId(id)));
    }
  }

  // ------------------------------------------------------------------- errors

  /** What a failed request throws, as the two helpers see it: an `Error`
      with its message and, when set, its `status` property; or any other
      value. */
  datatype Thrown = ErrorObject(message: string, status: Option<Value>) | OtherValue(value: Value)

  const DefaultErrorMessage: string := "Nao foi possivel completar a solicitacao."
  const SessionExpired: string := "Sessao expirada. Entre novamente."
  const UserUpdated: string := "Usuario atualizado com sucesso."
  const UserCreated: string := "Usuario cadastrado com sucesso."
  const UserRemoved: string := "Usuario removido."

  /** `isUnauthorized`: an object that has a `status` property equal to 401. */
  predicate IsUnauthorized(error: Thrown) {
    match error
    case ErrorObject(_, status) => status == Some(Num(401))
    case OtherValue(v) => v.Obj? && "status" in v.fields && v.fields["status"] == Num(401)
  }

  /** `getErrorMessage`: the message of an `Error` when it is non-empty, the
      default text otherwise. */
  function GetErrorMessage(error: Thrown): (m: string)
    ensures m != []
    ensures error.ErrorObject? && error.message != [] ==> m == error.message
    ensures !(error.ErrorObject? && error.message != []) ==> m == DefaultErrorMessage
  {
    if error.ErrorObject? && |error.message| != 0 then error.message else DefaultErrorMessage
  }

  /** The value `apiRequest` rejects with: its `Error` for a failed status,
      or the `SyntaxError` (with the engine's `parseMessage`) of a body that
      is not JSON. */
  function FromApiError(e: ApiError, parseMessage: string): (t: Thrown)
    ensures t.ErrorObject?
    ensures e.HttpError? ==> t == ErrorObject(e.message, Some(Num(e.status)))
    ensures e.InvalidJson? ==> t == ErrorObject(parseMessage, None)
  {
    match e
    case HttpError(message, status) => ErrorObject(message, Some(Num(status)))
    case InvalidJson => ErrorObject(parseMessage, None)
  }

  /** A request error reads as unauthorized exactly when the backend answered
      401, and a 401 from any request always does. */
  lemma {:induction false} UnauthorizedMeans401(e: ApiError, parseMessage: string)
    ensures IsUnauthorized(FromApiError(e, parseMessage)) <==> e.HttpError? && e.status == 401
  {
  }

  /** A 401 response is settled as a rejection that the handlers turn into
      the session-expired logout. */
  lemma {:induction false} Response401ExpiresSession(json: Option<Value>, parseJson: Option<bool>, parseMessage: string)
    ensures Settle(Fetched(401, json), parseJson).Rejected?
    ensures IsUnauthorized(FromApiError(Settle(Fetched(401, json), parseJson).error, parseMessage))
  {
    assert !IsOk(401);
  }

  /** An empty `message` in an error body still ends up as the default text
      on screen, because `getErrorMessage` skips empty messages. */
  lemma {:induction false} EmptyServerMessageFallsBack(status: nat, fields: map<string, Value>)
    requires !IsOk(status) && "message" in fields && fields["message"] == Str([])
    ensures GetErrorMessage(FromApiError(Settle(Fetched(status, Some(Obj(fields))), None).error, [])) == DefaultErrorMessage
  {
    assert Get(Obj(fields), "message") == Str([]);
    assert ErrorMessage(status, Some(Obj(fields))) == [];
  }

  /** `isAuthenticated`: a non-empty session token and a loaded user. */
  predicate IsAuthenticated(sessionToken: Option<string>, currentUser: Option<User>) {
    sessionToken.Some? && sessionToken.value != [] && currentUser.Some?
  }

  /** `isHydrating`. */
  predicate IsHydrating(authLoading: bool, sessionToken: Option<string>, currentUser: Option<User>) {
    authLoading && sessionToken.Some? && sessionToken.value != [] && currentUser.None?
  }

  // ---------------------------------------------------------------- app state

  /** `formStatus`. */
  datatype FormStatus = FormStatus(submitting: bool, error: Option<string>)

  const Idle: FormStatus := FormStatus(false, None)

  /** Every state variable of the shell. */
  datatype AppView = AppView(
    users: seq<User>,
    search: string,
    roleFilter: RoleFilter,
    selectedUser: Option<User>,
    formOpen: bool,
    loading: bool,
    pageError: Option<string>,
    formStatus: FormStatus,
    actionMessage: Option<string>,
    sessionToken: Option<string>,
    currentUser: Option<User>,
    authLoading: bool,
    authError: Option<string>,
    authMode: LoginForm.AuthMode)

  /** How an awaited request settled. */
  datatype Outcome<T> = Succeeded(value: T) | Failed(error: Thrown)

  /** The state `handleLogout(message)` leaves. */
  function LoggedOut(v: AppView, message: Option<string>): AppView {
    v.(sessionToken := None, currentUser := None, users := [], formOpen := false, selectedUser := None,
       formStatus := Idle, pageError := None, actionMessage := None, loading := false, authLoading := false,
       authError := message, authMode := LoginForm.Login)
  }

  /** After a logout nobody is signed in, nothing is listed or counted, the
      drawer is closed, the card shows `message` in login mode, and the search
      inputs are kept; logging out twice is logging out once. */
  lemma {:induction false} LogoutEndsSession(v: AppView, message: Option<string>)
    ensures var w := LoggedOut(v, message);
      && !IsAuthenticated(w.sessionToken, w.currentUser)
      && !IsHydrating(w.authLoading, w.sessionToken, w.currentUser)
      && FilteredUsers(w.users, w.search, w.roleFilter) == []
      && ComputeStats(w.users) == Stats(0, 0, 0, None)
      && !w.formOpen && w.selectedUser.None? && !w.formStatus.submitting
      && w.authError == message && w.authMode == LoginForm.Login
      && w.search == v.search && w.roleFilter == v.roleFilter
    ensures LoggedOut(LoggedOut(v, message), message) == LoggedOut(v, message)
  {
    var w := LoggedOut(v, message);
    assert FilteredUsers(w.users, w.search, w.roleFilter) == [];
    EmptyStats();
  }

  /** The request a save sends: an update of the selected account without
      the password, or a creation with the password trimmed. */
  datatype SaveRequest =
    | UpdateRequest(id: string, nome: string, email: string, role: Role, ativo: bool)
    | CreateRequest(nome: string, email: string, role: Role, ativo: bool, senha: string)

  function SaveRequestOf(selectedUser: Option<User>, values: UserForm.FormValues): (r: SaveRequest)
    ensures r.UpdateRequest? <==> selectedUser.Some?
    ensures r.UpdateRequest? ==> r.id == selectedUser.value.id
    ensures r.nome == values.nome && r.email == values.email && r.role == values.role && r.ativo == values.ativo
    ensures r.CreateRequest? ==> r.senha == Trim(values.senha)
  {
    match selectedUser
    case Some(u) => UpdateRequest(u.id, values.nome, values.email, values.role, values.ativo)
    case None => CreateRequest(values.nome, values.email, values.role, values.ativo, Trim(values.senha))
  }

  /** The request of `handleToggleActive`: the account's own fields with
      `ativo` flipped. */
  function ToggleRequest(u: User): (r: SaveRequest)
    ensures r.UpdateRequest? && r.id == u.id && r.ativo == !u.ativo
    ensures r.nome == u.nome && r.email == u.email && r.role == u.role
  {
    UpdateRequest(u.id, u.nome, u.email, u.role, !u.ativo)
  }

  /** A failure of a request made while signed in: the session-expired logout
      for a 401, the page error otherwise. */
  function AfterPageFailure(v: AppView, error: Thrown): AppView {
    if IsUnauthorized(error) then LoggedOut(v, Some(SessionExpired))
    else v.(pageError := Some(GetErrorMessage(error)))
  }

  /** The state `handleSubmit` leaves once its request has settled. */
  function AfterSave(v: AppView, request: SaveRequest, outcome: Outcome<User>): AppView {
    match outcome
    case Succeeded(saved) =>
      var users := if request.UpdateRequest? then ReplaceById(v.users, saved) else [saved] + v.users;
      var message := if request.UpdateRequest? then UserUpdated else UserCreated;
      v.(users := users, actionMessage := Some(message), formOpen := false, selectedUser := None, formStatus := Idle)
    case Failed(error) =>
      if IsUnauthorized(error) then LoggedOut(v.(formStatus := Idle), Some(SessionExpired))
      else v.(formStatus := FormStatus(false, Some(GetErrorMessage(error))))
  }

  /** The state `handleDelete` leaves once the removal has settled. */
  function AfterDelete(v: AppView, target: User, outcome: Outcome<()>): AppView {
    match outcome
    case Succeeded(_) => v.(users := RemoveById(v.users, target.id), actionMessage := Some(UserRemoved))
    case Failed(error) => AfterPageFailure(v, error)
  }

  /** The state `handleToggleActive` leaves once the update has settled. */
  function AfterToggle(v: AppView, outcome: Outcome<User>): AppView {
    match outcome
    case Succeeded(updated) => v.(users := ReplaceById(v.users, updated))
    case Failed(error) => AfterPageFailure(v, error)
  }

  /** The state `loadUsers` leaves once the listing has settled. */
  function AfterLoad(v: AppView, outcome: Outcome<seq<User>>): AppView {
    match outcome
    case Succeeded(data) => v.(users := data, loading := false)
    case Failed(error) => AfterPageFailure(v, error).(loading := false)
  }

  /** A saved update keeps the list's length and ids and leaves the other
      accounts alone; a saved creation puts the new account first; either
      closes the drawer with its success message. */
  lemma {:induction false} SaveSucceeded(v: AppView, request: SaveRequest, saved: User)
    ensures var w := AfterSave(v, request, Succeeded(saved));
      && !w.formOpen && w.selectedUser.None? && w.formStatus == Idle
      && (request.UpdateRequest? ==>
            Ids(w.users) == Ids(v.users)
            && Filter(w.users, Not(HasId(saved.id))) == Filter(v.users, Not(HasId(saved.id)))
            && w.actionMessage == Some(UserUpdated))
      && (request.CreateRequest? ==> w.users == [saved] + v.users && w.actionMessage == Some(UserCreated))
      && w.sessionToken == v.sessionToken && w.currentUser == v.currentUser
  {
    ReplaceKeepsIds(v.users, saved);
    ReplaceTouchesOnlyThatId(v.users, saved);
  }

  /** A failed save that is not a 401 keeps the list and the drawer as they
      are and shows a non-empty error in the drawer. */
  lemma {:induction false} SaveFailedKeepsDrawer(v: AppView, request: SaveRequest, error: Thrown)
    requires !IsUnauthorized(error)
    ensures var w := AfterSave(v, request, Failed(error));
      && w.users == v.users && w.formOpen == v.formOpen && w.selectedUser == v.selectedUser
      && !w.formStatus.submitting && w.formStatus.error.Some? && w.formStatus.error.value != []
  {
  }

  /** A removal that succeeded drops the account's id from the list and keeps
      every other account, in order; a failed one leaves the list. */
  lemma {:induction false} DeleteOutcomes(v: AppView, target: User, outcome: Outcome<()>)
    ensures outcome.Succeeded? ==>
      var w := AfterDelete(v, target, outcome);
      && (forall u :: u in w.users <==> u in v.users && u.id != target.id)
      && IsSubsequence(w.users, v.users)
      && w.actionMessage == Some(UserRemoved)
    ensures outcome.Failed? && !IsUnauthorized(outcome.error) ==>
      AfterDelete(v, target, outcome).users == v.users && AfterDelete(v, target, outcome).pageError.Some?
  {
  }

  /** Each request made while signed in ends the session when it comes back
      with a 401, whatever it was. */
  lemma {:induction false} UnauthorizedLogsOut(v: AppView, request: SaveRequest, target: User, error: Thrown)
    requires IsUnauthorized(error)
    ensures AfterSave(v, request, Failed(error)) == LoggedOut(v, Some(SessionExpired))
    ensures AfterDelete(v, target, Failed(error)) == LoggedOut(v, Some(SessionExpired))
    ensures AfterToggle(v, Failed(error)) == LoggedOut(v, Some(SessionExpired))
    ensures AfterLoad(v, Failed(error)) == LoggedOut(v, Some(SessionExpired))
    ensures !IsAuthenticated(AfterSave(v, request, Failed(error)).sessionToken, AfterSave(v, request, Failed(error)).currentUser)
  {
  }

  /** A toggle that succeeded swaps in the returned record at its id and
      changes nothing else in the list. */
  lemma {:induction false} ToggleSucceeded(v: AppView, updated: User)
    ensures var w := AfterToggle(v, Succeeded(updated));
      && Ids(w.users) == Ids(v.users)
      && Filter(w.users, Not(HasId(updated.id))) == Filter(v.users, Not(HasId(updated.id)))
      && (forall u :: u in w.users && u.id == updated.id ==> u == updated)
      && w.actionMessage == v.actionMessage
  {
    ReplaceKeepsIds(v.users, updated);
    ReplaceTouchesOnlyThatId(v.users, updated);
  }

  /** The shell's state, with the token storage it writes through. */
  class AppState {
    var users: seq<User>
    var search: string
    var roleFilter: RoleFilter
    var selectedUser: Option<User>
    var formOpen: bool
    var loading: bool
    var pageError: Option<string>
    var formStatus: FormStatus
    var actionMessage: Option<string>
    var sessionToken: Option<string>
    var currentUser: Option<User>
    var authLoading: bool
    var authError: Option<string>
    var authMode: LoginForm.AuthMode
    const store: TokenStore

    function View(): AppView
      reads this
    {
      AppView(users, search, roleFilter, selectedUser, formOpen, loading, pageError, formStatus,
              actionMessage, sessionToken, currentUser, authLoading, authError, authMode)
    }

    /** The initial state: the session token and `authLoading` come from the
        stored token, everything else is empty. */
    constructor (store: TokenStore)
      modifies store
      ensures this.store == store
      ensures sessionToken == Read(old(store.State()))
      ensures authLoading <==> Filled(Read(old(store.State())))
      ensures store.State() == AfterRead(old(store.State()))
      ensures View() == AppView([], "", AllRoles, None, false, false, None, Idle, None,
                                sessionToken, None, authLoading, None, LoginForm.Login)
    {
      var token := store.GetStoredToken();
      ReadIsStable(old(store.State()));
      var again := store.GetStoredToken();
      this.store := store;
      users, search, roleFilter, selectedUser := [], "", AllRoles, None;
      formOpen, loading, pageError, formStatus, actionMessage := false, false, None, Idle, None;
      sessionToken, currentUser := token, None;
      authLoading, authError, authMode := Filled(again), None, LoginForm.Login;
    }

    /** `handleLogout(message)`: clears the stored token and resets the
        shell to the signed-out card. */
    method HandleLogout(message: Option<string>)
      modifies this, store
      ensures View() == LoggedOut(old(View()), message)
      ensures store.State() == AfterWrite(old(store.State()), None)
    {
      store.SetStoredToken(None);
      sessionToken := None;
      currentUser := None;
      users := [];
      formOpen := false;
      selectedUser := None;
      formStatus := Idle;
      pageError := None;
      actionMessage := None;
      loading := false;
      authLoading := false;
      authError := message;
      authMode := LoginForm.Login;
    }

    /** The part of `handleSubmit` before the await: marks the drawer as
        submitting and builds the request. */
    method BeginSubmit(values: UserForm.FormValues) returns (request: SaveRequest)
      modifies this
      ensures request == SaveRequestOf(old(selectedUser), values)
      ensures View() == old(View()).(formStatus := FormStatus(true, None))
    {
      formStatus := FormStatus(true, None);
      match selectedUser
      case Some(u) =>
        request := UpdateRequest(u.id, values.nome, values.email, values.role, values.ativo);
      case None =>
        request := CreateRequest(values.nome, values.email, values.role, values.ativo, Trim(values.senha));
    }

    /** The part of `handleSubmit` after the await. */
    method FinishSubmit(request: SaveRequest, outcome: Outcome<User>)
      modifies this, store
      ensures View() == AfterSave(old(View()), request, outcome)
      ensures store.State() == if outcome.Failed? && IsUnauthorized(outcome.error) then AfterWrite(old(store.State()), None) else old(store.State())
    {
      match outcome
      case Succeeded(saved) =>
        if request.UpdateRequest? {
          users := ReplaceById(users, saved);
          actionMessage := Some(UserUpdated);
        } else {
          users := [saved] + users;
          actionMessage := Some(UserCreated);
        }
        formOpen := false;
        selectedUser := None;
        formStatus := Idle;
      case Failed(error) =>
        if IsUnauthorized(error) {
          formStatus := Idle;
          HandleLogout(Some(SessionExpired));
        } else {
          formStatus := FormStatus(false, Some(GetErrorMessage(error)));
        }
    }

    /** A page-level request failed: log out on a 401, otherwise show the
        page error. */
    method FailPage(error: Thrown)
      modifies this, store
      ensures View() == AfterPageFailure(old(View()), error)
      ensures store.State() == if IsUnauthorized(error) then AfterWrite(old(store.State()), None) else old(store.State())
    {
      if IsUnauthorized(error) {
        HandleLogout(Some(SessionExpired));
      } else {
        pageError := Some(GetErrorMessage(error));
      }
    }

    /** `handleDelete` after the confirmation and the await. */
    method FinishDelete(target: User, outcome: Outcome<()>)
      modifies this, store
      ensures View() == AfterDelete(old(View()), target, outcome)
      ensures store.State() == if outcome.Failed? && IsUnauthorized(outcome.error) then AfterWrite(old(store.State()), None) else old(store.State())
    {
      match outcome
      case Succeeded(_) =>
        users := RemoveById(users, target.id);
        actionMessage := Some(UserRemoved);
      case Failed(error) =>
        FailPage(error);
    }

    /** `handleToggleActive` after the await. */
    method FinishToggle(outcome: Outcome<User>)
      modifies this, store
      ensures View() == AfterToggle(old(View()), outcome)
      ensures store.State() == if outcome.Failed? && IsUnauthorized(outcome.error) then AfterWrite(old(store.State()), None) else old(store.State())
    {
      match outcome
      case Succeeded(updated) =>
        users := ReplaceById(users, updated);
      case Failed(error) =>
        FailPage(error);
    }

    /** `loadUsers` after the await, including its `finally`. */
    method FinishLoad(outcome: Outcome<seq<User>>)
      modifies this, store
      ensures View() == AfterLoad(old(View()), outcome)
      ensures store.State() == if outcome.Failed? && IsUnauthorized(outcome.error) then AfterWrite(old(store.State()), None) else old(store.State())
    {
      match outcome {
        case Succeeded(data) =>
          users := data;
        case Failed(error) =>
          FailPage(error);
      }
      loading := false;
    }

    /** `handleEdit(user)`: opens the drawer on that account. */
    method HandleEdit(user: User)
      modifies this
      ensures View() == old(View()).(selectedUser := Some(user), formStatus := Idle, formOpen := true)
    {
      selectedUser := Some(user);
      formStatus := Idle;
      formOpen := true;
    }

    /** `openCreateDrawer()`: opens the drawer with no account. */
    method OpenCreateDrawer()
      modifies this
      ensures View() == old(View()).(selectedUser := None, formStatus := Idle, formOpen := true)
    {
      selectedUser := None;
      formStatus := Idle;
      formOpen := true;
    }

    /** `switchAuthMode(mode)`. */
    method SwitchAuthMode(mode: LoginForm.AuthMode)
      modifies this
      ensures View() == old(View()).(authMode := mode, authError := None, authLoading := false)
    {
      authMode := mode;
      authError := None;
      authLoading := false;
    }
  }
}
