/**
 * The create/edit drawer for an account: its values, the reset when it
 * opens, field edits, the validation that fills the error messages, and the
 * payload it submits.
 */
module UserForm {
  import opened Wrappers
  import opened Roles
  import opened Text
  import opened UserTypes

  /** `UserFormValues`. */
  datatype FormValues = FormValues(id: Option<string>, nome: string, email: string, role: Role, ativo: bool, senha: string)

  const DefaultValues: FormValues := FormValues(None, "", "", FUNCIONARIO, true, "")

  datatype FormMode = Create | Edit

  /** `mode`: editing exactly when an account was handed in. */
  function ModeOf(initialData: Option<User>): (m: FormMode)
    ensures m == Edit <==> initialData.Some?
  {
    if initialData.Some? then Edit else Create
  }

  // ------------------------------------------------------------ the email test

  /** A character of `[^\s@]`. */
  predicate EmailChar(c: char) {
    !IsWhitespace(c) && c != '@'
  }

  /** `s` is `A@B.C` with `A`, `B` and `C` non-empty runs of `[^\s@]` (the
      `.` itself is such a character), the `@` at `at` and the `.` at `dot`. */
  ghost predicate EmailShape(s: string, at: int, dot: int) {
    && 0 < at && at + 1 < dot && dot + 1 < |s|
    && s[at] == '@' && s[dot] == '.'
    && forall k :: 0 <= k < |s| && k != at ==> EmailChar(s[k])
  }

  /** `/^[^\s@]+@[^\s@]+\.[^\s@]+$/.test(s)`. */
  ghost predicate MatchesEmailPattern(s: string) {
    exists at, dot :: EmailShape(s, at, dot)
  }

  /** The test as the form evaluates it: one `@` that is not first, no
      whitespace, and a `.` with at least one character on each side after
      the `@`. */
  predicate LooksLikeEmail(s: string) {
    && '@' in s
    && var at := IndexOf(s, '@');
    && 0 < at && at + 2 < |s| - 1
    && (forall k :: 0 <= k < |s| && k != at ==> EmailChar(s[k]))
    && '.' in s[at + 2..|s| - 1]
  }

  /** The executable test decides the pattern. */
  lemma {:induction false} LooksLikeEmailIff(s: string)
    ensures LooksLikeEmail(s) <==> MatchesEmailPattern(s)
  {
    if LooksLikeEmail(s) {
      LooksLikeEmailMatches(s);
    }
    if MatchesEmailPattern(s) {
      var at, dot :| EmailShape(s, at, dot);
      MatchesLooksLikeEmail(s, at, dot);
    }
  }

  /** A string the test accepts has the shape, with the `@` it found and the
      first `.` after it. */
  lemma {:induction false} LooksLikeEmailMatches(s: string)
    requires LooksLikeEmail(s)
    ensures MatchesEmailPattern(s)
  {
    var at := IndexOf(s, '@');
    var tail := s[at + 2..|s| - 1];
    var dot := at + 2 + IndexOf(tail, '.');
    assert s[dot] == tail[dot - at - 2];
    assert EmailShape(s, at, dot);
  }

  /** A string of the shape passes the test: its `@` is the first one and
      its `.` lies in the part the test searches. */
  lemma {:induction false} MatchesLooksLikeEmail(s: string, at: int, dot: int)
    requires EmailShape(s, at, dot)
    ensures LooksLikeEmail(s)
  {
    assert s[at] == '@';
    var first := IndexOf(s, '@');
    assert first == at;
    assert s[at + 2..|s| - 1][dot - at - 2] == '.';
  }

  // ------------------------------------------------------------- validation

  const NomeMissing: string := "Informe o nome completo."
  const EmailMissing: string := "Informe o email corporativo."
  const EmailInvalid: string := "Email invalido."
  const SenhaMissing: string := "Defina uma senha provisoria."
  const SenhaShort: string := "Utilize ao menos 6 caracteres."

  /** The messages of `validate` given the outcome of each test: a blank
      nome, a blank email, an email matching the pattern, a blank password
      and a password shorter than six characters (both after trimming). */
  function ErrorsFor(nomeBlank: bool, emailBlank: bool, emailMatches: bool, senhaBlank: bool, senhaShort: bool, mode: FormMode): (errors: map<string, string>)
    ensures errors.Keys <= {"nome", "email", "senha"}
    ensures "nome" in errors <==> nomeBlank
    ensures "nome" in errors ==> errors["nome"] == NomeMissing
    ensures "email" in errors <==> emailBlank || !emailMatches
    ensures "email" in errors ==> errors["email"] == if emailBlank then EmailMissing else EmailInvalid
    ensures "senha" in errors <==> mode == Create && (senhaBlank || senhaShort)
    ensures "senha" in errors ==> errors["senha"] == if senhaBlank then SenhaMissing else SenhaShort
  {
    WithSenhaError(WithEmailError(WithNomeError(map[], nomeBlank), emailBlank, emailMatches), senhaBlank, senhaShort, mode)
  }

  /** The nome step of `validate`. */
  function WithNomeError(errors: map<string, string>, nomeBlank: bool): map<string, string> {
    if nomeBlank then errors["nome" := NomeMissing] else errors
  }

  /** The email step of `validate`. */
  function WithEmailError(errors: map<string, string>, emailBlank: bool, emailMatches: bool): map<string, string> {
    if emailBlank then errors["email" := EmailMissing]
    else if !emailMatches then errors["email" := EmailInvalid]
    else errors
  }

  /** The password step of `validate`, run only when creating. */
  function WithSenhaError(errors: map<string, string>, senhaBlank: bool, senhaShort: bool, mode: FormMode): map<string, string> {
    if mode == Create && senhaBlank then errors["senha" := SenhaMissing]
    else if mode == Create && senhaShort then errors["senha" := SenhaShort]
    else errors
  }

  /** The error messages `validate` records, by field. */
  function ValidationErrors(v: FormValues, mode: FormMode): (errors: map<string, string>)
    ensures errors.Keys <= {"nome", "email", "senha"}
    ensures "nome" in errors <==> IsBlank(v.nome)
    ensures "nome" in errors ==> errors["nome"] == NomeMissing
    ensures IsBlank(v.email) ==> "email" in errors && errors["email"] == EmailMissing
    ensures !IsBlank(v.email) ==> ("email" in errors <==> !MatchesEmailPattern(v.email))
    ensures !IsBlank(v.email) && "email" in errors ==> errors["email"] == EmailInvalid
    ensures "senha" in errors <==> mode == Create && |Trim(v.senha)| < 6
    ensures "senha" in errors ==> errors["senha"] == if IsBlank(v.senha) then SenhaMissing else SenhaShort
  {
    LooksLikeEmailIff(v.email);
    ErrorsFor(|Trim(v.nome)| == 0, |Trim(v.email)| == 0, LooksLikeEmail(v.email), |Trim(v.senha)| == 0, |Trim(v.senha)| < 6, mode)
  }

  /** The changes the drawer's inputs report: the three text inputs, the role
      radio buttons (whose values are the role names) and the active
      checkbox (whose checked state is stored). */
  datatype ChangeEvent =
    | NomeInput(text: string)
    | EmailInput(text: string)
    | SenhaInput(text: string)
    | RoleInput(role: Role)
    | AtivoToggle(checked: bool)

  /** The values after `handleChange`: the named field takes the new value. */
  function Changed(v: FormValues, e: ChangeEvent): (r: FormValues)
    ensures r.id == v.id
    ensures e.NomeInput? ==> r == v.(nome := e.text)
    ensures e.EmailInput? ==> r == v.(email := e.text)
    ensures e.SenhaInput? ==> r == v.(senha := e.text)
    ensures e.RoleInput? ==> r == v.(role := e.role)
    ensures e.AtivoToggle? ==> r == v.(ativo := e.checked)
  {
    match e
    case NomeInput(t) => v.(nome := t)
    case EmailInput(t) => v.(email := t)
    case SenhaInput(t) => v.(senha := t)
    case RoleInput(role) => v.(role := role)
    case AtivoToggle(b) => v.(ativo := b)
  }

  /** The values the drawer loads when it opens: the account's fields with an
      empty password, or the defaults. */
  function OpenedValues(initialData: Option<User>): (v: FormValues)
    ensures initialData.None? ==> v == DefaultValues
    ensures initialData.Some? ==>
      var u := initialData.value;
      v == FormValues(Some(u.id), u.nome, u.email, u.role, u.ativo, "")
  {
    match initialData
    case None => DefaultValues
    case Some(u) => FormValues(Some(u.id), u.nome, u.email, u.role, u.ativo, "")
  }

  /** An accepted create never sends a password shorter than six characters
      or one with surrounding whitespace. */
  lemma {:induction false} AcceptedCreatePassword(v: FormValues)
    requires ValidationErrors(v, Create) == map[]
    ensures |Trim(v.senha)| >= 6
    ensures !IsWhitespace(Trim(v.senha)[0]) && !IsWhitespace(Trim(v.senha)[|Trim(v.senha)| - 1])
  {
    assert "senha" !in ValidationErrors(v, Create);
  }

  /** The checks of `validate`, one after the other, each adding its field's
      message to `nextErrors`. */
  method CollectErrors(nomeBlank: bool, emailBlank: bool, emailMatches: bool, senhaBlank: bool, senhaShort: bool, mode: FormMode)
    returns (nextErrors: map<string, string>)
    ensures nextErrors == ErrorsFor(nomeBlank, emailBlank, emailMatches, senhaBlank, senhaShort, mode)
  {
    nextErrors := map[];
    if nomeBlank {
      nextErrors := nextErrors["nome" := NomeMissing];
    }
    if emailBlank {
      nextErrors := nextErrors["email" := EmailMissing];
    } else if !emailMatches {
      nextErrors := nextErrors["email" := EmailInvalid];
    }
    if mode == Create {
      if senhaBlank {
        nextErrors := nextErrors["senha" := SenhaMissing];
      } else if senhaShort {
        nextErrors := nextErrors["senha" := SenhaShort];
      }
    }
  }

  /** The drawer's state: its values and errors, and the `initialData` prop it
      was last rendered with. */
  class UserFormState {
    var values: FormValues
    var errors: map<string, string>
    var initialData: Option<User>

    constructor ()
      ensures values == DefaultValues && errors == map[] && initialData == None
    {
      values := DefaultValues;
      errors := map[];
      initialData := None;
    }

    function Mode(): FormMode
      reads this
    {
      ModeOf(initialData)
    }

    /** The effect on `[open, initialData]`: opening loads the values and
        clears every error. */
    method OnPropsChange(open: bool, initialData: Option<User>)
      modifies this
      ensures this.initialData == initialData
      ensures open ==> values == OpenedValues(initialData) && errors == map[]
      ensures !open ==> values == old(values) && errors == old(errors)
    {
      this.initialData := initialData;
      if open {
        values := OpenedValues(initialData);
        errors := map[];
      }
    }

    /** `handleChange`. */
    method HandleChange(e: ChangeEvent)
      modifies this
      ensures values == Changed(old(values), e)
      ensures errors == old(errors) && initialData == old(initialData)
    {
      values := Changed(values, e);
    }

    /** `validate`: fills `nextErrors` check by check and stores it. */
    method Validate() returns (ok: bool)
      modifies this
      ensures errors == ValidationErrors(values, Mode())
      ensures ok <==> errors == map[]
      ensures values == old(values) && initialData == old(initialData)
    {
      var v := values;
      var nextErrors := CollectErrors(|Trim(v.nome)| == 0, |Trim(v.email)| == 0, LooksLikeEmail(v.email),
                                      |Trim(v.senha)| == 0, |Trim(v.senha)| < 6, Mode());
      errors := nextErrors;
      ok := errors == map[];
    }

    /** `handleSubmit`: nothing while submitting or when invalid; otherwise
        the values with the password trimmed. */
    method HandleSubmit(submitting: bool) returns (payload: Option<FormValues>)
      modifies this
      ensures submitting ==> payload.None? && errors == old(errors)
      ensures !submitting ==> errors == ValidationErrors(values, Mode())
      ensures payload.Some? <==> !submitting && ValidationErrors(values, Mode()) == map[]
      ensures payload.Some? ==> payload.value == values.(senha := Trim(values.senha))
      ensures values == old(values) && initialData == old(initialData)
    {
      if submitting {
        return None;
      }
      var ok := Validate();
      if !ok {
        return None;
      }
      payload := Some(values.(senha := Trim(values.senha)));
    }
  }
}
