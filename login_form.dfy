/**
 * The sign-in / sign-up card: the local checks `handleSubmit` runs before
 * handing a payload to `onLogin` or `onRegister`, the reset on a mode switch,
 * and which error message the card shows.
 */
module LoginForm {
  import opened Wrappers
  import opened Text

  /** The `mode` prop: `'login' | 'register'`. */
  datatype AuthMode = Login | Register

  /** The four text inputs of the card. */
  datatype Fields = Fields(nome: string, email: string, senha: string, confirmacaoSenha: string)

  const EmptyFields: Fields := Fields("", "", "", "")

  /** What a submit hands to the parent: nothing, `onLogin(payload)` or
      `onRegister(payload)`. */
  datatype Submission =
    | NoCall
    | LoginCall(email: string, senha: string)
    | RegisterCall(nome: string, email: string, senha: string)

  const NameRequired: string := "Informe seu nome completo."
  const PasswordTooShort: string := "Utilize ao menos 6 caracteres na senha."
  const PasswordsDiffer: string := "As senhas precisam ser iguais."

  /** The register checks of `handleSubmit`, first failure wins: a blank nome,
      then a trimmed senha under six characters, then a confirmation that
      differs from the (untrimmed) senha. */
  function RegisterProblem(f: Fields): (problem: Option<string>)
    ensures problem.None? <==> !IsBlank(f.nome) && |Trim(f.senha)| >= 6 && f.senha == f.confirmacaoSenha
    ensures IsBlank(f.nome) ==> problem == Some(NameRequired)
    ensures !IsBlank(f.nome) && |Trim(f.senha)| < 6 ==> problem == Some(PasswordTooShort)
    ensures !IsBlank(f.nome) && |Trim(f.senha)| >= 6 && f.senha != f.confirmacaoSenha ==> problem == Some(PasswordsDiffer)
  {
    if |Trim(f.nome)| == 0 then Some(NameRequired)
    else if |Trim(f.senha)| < 6 then Some(PasswordTooShort)
    else if f.senha != f.confirmacaoSenha then Some(PasswordsDiffer)
    else None
  }

  /** The call an accepted (not loading) submit makes. */
  function SubmissionOf(mode: AuthMode, f: Fields): Submission {
    match mode
    case Login => LoginCall(Trim(f.email), f.senha)
    case Register =>
      if RegisterProblem(f).Some? then NoCall
      else RegisterCall(Trim(f.nome), Trim(f.email), f.senha)
  }

  /** A submit calls at most one callback, and the one it calls is the one of
      the current mode; only a register check can stop it. */
  lemma {:induction false} SubmissionFollowsMode(mode: AuthMode, f: Fields)
    ensures SubmissionOf(mode, f).LoginCall? <==> mode == Login
    ensures SubmissionOf(mode, f).RegisterCall? <==> mode == Register && RegisterProblem(f).None?
    ensures SubmissionOf(mode, f).NoCall? <==> mode == Register && RegisterProblem(f).Some?
  {
  }

  /** In login mode `handleSubmit` itself runs no local check: it passes the
      email trimmed and the password untouched. */
  lemma LoginPassesEverything(f: Fields)
    ensures SubmissionOf(Login, f) == LoginCall(Trim(f.email), f.senha)
  {
  }

  /** What `onRegister` receives meets every register check: a non-blank
      trimmed nome, the password exactly as typed and confirmed, at least six
      characters once trimmed. */
  lemma {:induction false} RegisterPayloadPassedChecks(f: Fields)
    requires SubmissionOf(Register, f).RegisterCall?
    ensures SubmissionOf(Register, f).nome == Trim(f.nome) && SubmissionOf(Register, f).nome != []
    ensures SubmissionOf(Register, f).email == Trim(f.email)
    ensures SubmissionOf(Register, f).senha == f.senha == f.confirmacaoSenha
    ensures |Trim(SubmissionOf(Register, f).senha)| >= 6
  {
    assert RegisterProblem(f).None?;
  }

  /** The error box: shown when `errorMessage` or `localError` is a non-empty
      string, holding `localError ?? errorMessage`. */
  function DisplayedError(localError: Option<string>, errorMessage: Option<string>): (shown: Option<string>)
    ensures shown.Some? <==> (localError.Some? && localError.value != []) || (errorMessage.Some? && errorMessage.value != [])
    ensures shown.Some? && localError.Some? ==> shown.value == localError.value
    ensures shown.Some? && localError.None? ==> shown == errorMessage
  {
    var visible := (localError.Some? && localError.value != []) || (errorMessage.Some? && errorMessage.value != []);
    if !visible then None
    else if localError.Some? then localError
    else errorMessage
  }

  /** A local check's message always wins over the parent's error, and the
      parent's error shows only while there is no local one. */
  lemma {:induction false} LocalErrorWins(message: string, errorMessage: Option<string>)
    requires message != []
    ensures DisplayedError(Some(message), errorMessage) == Some(message)
    ensures DisplayedError(None, errorMessage) == if errorMessage.Some? && errorMessage.value != [] then errorMessage else None
  {
  }

  /** The card's state: the four inputs and the local error. */
  class LoginFormState {
    var nome: string
    var email: string
    var senha: string
    var confirmacaoSenha: string
    var localError: Option<string>

    constructor ()
      ensures Inputs() == EmptyFields && localError == None
    {
      nome, email, senha, confirmacaoSenha := "", "", "", "";
      localError := None;
    }

    function Inputs(): Fields
      reads this
    {
      Fields(nome, email, senha, confirmacaoSenha)
    }

    /** The effect on `[mode]`: clears the local error, the password and its
        confirmation, and the nome when switching to register. */
    method OnModeChange(mode: AuthMode)
      modifies this
      ensures localError == None && senha == "" && confirmacaoSenha == ""
      ensures email == old(email)
      ensures mode == Register ==> nome == ""
      ensures mode == Login ==> nome == old(nome)
    {
      localError := None;
      senha := "";
      confirmacaoSenha := "";
      if mode == Register {
        nome := "";
      }
    }

    /** `handleSubmit`: nothing while loading; otherwise the local error is
        reset, the register checks run in order, and the first failing one
        leaves its message and calls nothing. */
    method HandleSubmit(mode: AuthMode, loading: bool) returns (call: Submission)
      modifies this
      ensures Inputs() == old(Inputs())
      ensures loading ==> call == NoCall && localError == old(localError)
      ensures !loading ==> call == SubmissionOf(mode, Inputs())
      ensures !loading && mode == Register ==> localError == RegisterProblem(Inputs())
      ensures !loading && mode == Login ==> localError == None
    {
      if loading {
        return NoCall;
      }
      localError := None;

      if mode == Register {
        if |Trim(nome)| == 0 {
          localError := Some(NameRequired);
          return NoCall;
        }
        if |Trim(senha)| < 6 {
          localError := Some(PasswordTooShort);
          return NoCall;
        }
        if senha != confirmacaoSenha {
          localError := Some(PasswordsDiffer);
          return NoCall;
        }
        return RegisterCall(Trim(nome), Trim(email), senha);
      }

      return LoginCall(Trim(email), senha);
    }
  }
}
