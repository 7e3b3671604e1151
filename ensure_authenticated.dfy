/**
 * The bearer-token guard put in front of protected routes: it reads the
 * `Authorization` header, checks the `Bearer <token>` form of section 2.1 of
 * RFC 6750 with the case-insensitive scheme that section 2.1 of RFC 7235
 * allows, asks the token service to verify the token, and either rejects with
 * 401 or records the subject as the request's user id and calls `next`.
 */
module EnsureAuthenticated {
  import opened Wrappers
  import opened Text
  import opened Http

  /** What `verifyToken` gives back: it throws, or returns the decoded payload,
      which is either a bare string or an object with an optional `sub`. */
  datatype VerifyResult = Invalid | StringPayload(s: string) | ObjPayload(sub: Option<string>)

  /** The guard either answers the request itself or lets it through with a user id. */
  datatype GuardResult = Reject(response: Response) | Proceed(userId: string)

  const TokenMissing: Response := Fail(401, "Token nao informado.")
  const TokenInvalid: Response := Fail(401, "Token invalido.")
  const NotAuthorized: Response := Fail(401, "Nao autorizado.")

  /** The first two pieces of `header.split(' ')`; a missing second piece reads as empty. */
  function SchemeAndToken(header: string): (string, string) {
    var pieces := Split(header, ' ');
    (pieces[0], if |pieces| > 1 then pieces[1] else "")
  }

  /** The subject of a verified payload: the payload itself when it is a
      string, otherwise its `sub`; empty when there is none. */
  function Subject(payload: VerifyResult): string {
    match payload
    case Invalid => ""
    case StringPayload(s) => s
    case ObjPayload(sub) => sub.GetOr("")
  }

  /** The guard's decision for a header value (`None` when the header is absent). */
  function Authenticate(header: Option<string>, verify: string -> VerifyResult): (r: GuardResult)
    ensures r.Reject? ==> r.response.status == 401
    ensures r.Reject? ==> r.response in {TokenMissing, TokenInvalid, NotAuthorized}
    ensures r.Proceed? ==> r.userId != ""
    ensures r.Proceed? ==> header.Some? && r.userId == Subject(verify(SchemeAndToken(header.value).1))
  {
    if header.None? || header.value == "" then Reject(TokenMissing)
    else
      var (scheme, token) := SchemeAndToken(header.value);
      if scheme == "" || ToLower(scheme) != "bearer" || token == "" then Reject(TokenInvalid)
      else
        var payload := verify(token);
        if payload.Invalid? then Reject(NotAuthorized)
        else if Subject(payload) == "" then Reject(TokenInvalid)
        else Proceed(Subject(payload))
  }

  /** The outcome once the header has the right form: it depends only on what
      the token service says about the token. */
  function OnVerified(payload: VerifyResult): GuardResult {
    if payload.Invalid? then Reject(NotAuthorized)
    else if Subject(payload) == "" then Reject(TokenInvalid)
    else Proceed(Subject(payload))
  }

  /** An absent or empty header is answered with "Token nao informado.". */
  lemma MissingHeaderRejected(header: Option<string>, verify: string -> VerifyResult)
    requires header.None? || header == Some("")
    ensures Authenticate(header, verify) == Reject(TokenMissing)
  {
  }

  /** A header `<scheme> <token>` whose scheme is "bearer" in any letter case
      and whose token is non-empty is decided by the token service alone. */
  lemma {:induction false} WellFormedHeader(scheme: string, token: string, rest: string, verify: string -> VerifyResult)
    requires ' ' !in scheme && ' ' !in token && token != ""
    requires ToLower(scheme) == "bearer"
    requires rest == "" || rest[0] == ' '
    ensures Authenticate(Some(scheme + " " + token + rest), verify) == OnVerified(verify(token))
  {
    PiecesOf(scheme, token, rest);
    assert |scheme| == |ToLower(scheme)| == 6;
  }

  /** The first two pieces of `<scheme> <token><rest>` when `rest` is empty
      or starts a new piece. */
  lemma {:induction false} PiecesOf(scheme: string, token: string, rest: string)
    requires ' ' !in scheme && ' ' !in token
    requires rest == "" || rest[0] == ' '
    ensures SchemeAndToken(scheme + " " + token + rest) == (scheme, token)
  {
    if rest == "" {
      assert scheme + " " + token + rest == scheme + [' '] + token;
      SplitAtFirst(scheme, ' ', token);
    } else {
      var more := rest[1..];
      assert scheme + " " + token + rest == scheme + [' '] + (token + [' '] + more);
      SplitAtFirst(scheme, ' ', token + [' '] + more);
      SplitAtFirst(token, ' ', more);
    }
  }

  /** Pieces after the second one are ignored: `Bearer abc xyz` is decided
      exactly like `Bearer abc`. */
  lemma ExtraPiecesIgnored(scheme: string, token: string, extra: string, verify: string -> VerifyResult)
    requires ' ' !in scheme && ' ' !in token && token != ""
    requires ToLower(scheme) == "bearer"
    ensures Authenticate(Some(scheme + " " + token + " " + extra), verify)
         == Authenticate(Some(scheme + " " + token), verify)
  {
    assert scheme + " " + token + " " + extra == scheme + " " + token + (" " + extra);
    WellFormedHeader(scheme, token, " " + extra, verify);
    assert scheme + " " + token == scheme + " " + token + "";
    WellFormedHeader(scheme, token, "", verify);
  }

  /** A first piece other than "bearer" (ignoring letter case) is answered
      with "Token invalido." before the token service is asked. */
  lemma {:induction false} WrongSchemeRejected(scheme: string, rest: string, verify: string -> VerifyResult)
    requires ' ' !in scheme && scheme != ""
    requires ToLower(scheme) != "bearer"
    requires rest == "" || rest[0] == ' '
    ensures Authenticate(Some(scheme + rest), verify) == Reject(TokenInvalid)
  {
    if rest != "" {
      assert scheme + rest == scheme + [' '] + rest[1..];
      SplitAtFirst(scheme, ' ', rest[1..]);
    }
  }

  /** `Bearer` alone, or `Bearer` followed by two spaces, has an empty second
      piece and is answered with "Token invalido.". */
  lemma {:induction false} EmptyTokenRejected(scheme: string, after: string, verify: string -> VerifyResult)
    requires ' ' !in scheme && ToLower(scheme) == "bearer"
    ensures Authenticate(Some(scheme), verify) == Reject(TokenInvalid)
    ensures Authenticate(Some(scheme + "  " + after), verify) == Reject(TokenInvalid)
  {
    assert scheme != "";
    assert scheme + "  " + after == scheme + [' '] + ("" + [' '] + after);
    SplitAtFirst(scheme, ' ', "" + [' '] + after);
    SplitAtFirst("", ' ', after);
  }

  /** The scheme test ignores letter case: two schemes with the same lower-case
      form are treated alike. */
  lemma {:induction false} SchemeCaseInsensitive(s1: string, s2: string, rest: string, verify: string -> VerifyResult)
    requires ' ' !in s1 && ' ' !in s2 && ToLower(s1) == ToLower(s2)
    requires rest == "" || rest[0] == ' '
    ensures Authenticate(Some(s1 + rest), verify) == Authenticate(Some(s2 + rest), verify)
  {
    if rest != "" {
      assert s1 + rest == s1 + [' '] + rest[1..];
      assert s2 + rest == s2 + [' '] + rest[1..];
      SplitAtFirst(s1, ' ', rest[1..]);
      SplitAtFirst(s2, ' ', rest[1..]);
    }
    assert |s1| == |ToLower(s1)| == |s2|;
  }

  /** What the token service says, once the header is well formed: a failure
      is "Nao autorizado.", an empty or absent subject is "Token invalido.",
      and otherwise the subject becomes the user id. */
  lemma VerifiedOutcomes(payload: VerifyResult)
    ensures payload.Invalid? ==> OnVerified(payload) == Reject(NotAuthorized)
    ensures payload.StringPayload? ==>
      OnVerified(payload) == (if payload.s == "" then Reject(TokenInvalid) else Proceed(payload.s))
    ensures payload.ObjPayload? ==>
      OnVerified(payload) == (if payload.sub.None? || payload.sub.value == "" then Reject(TokenInvalid)
                              else Proceed(payload.sub.value))
  {
  }

  /** The request object: its `Authorization` header and the `userId` the guard sets. */
  class Request {
    const authorization: Option<string>
    var userId: Option<string>

    constructor (authorization: Option<string>)
      ensures this.authorization == authorization && userId == None
    {
      this.authorization := authorization;
      userId := None;
    }
  }

  /** `ensureAuthenticated(request, response, next)`: on success sets
      `request.userId` to the subject and calls `next` once; on every rejection
      answers 401, leaves `userId` alone and does not call `next`. */
  method Guard(request: Request, verify: string -> VerifyResult) returns (nextCalls: nat, answer: Option<Response>)
    modifies request
    ensures Authenticate(request.authorization, verify).Proceed? ==>
      && nextCalls == 1 && answer == None
      && request.userId == Some(Authenticate(request.authorization, verify).userId)
    ensures Authenticate(request.authorization, verify).Reject? ==>
      && nextCalls == 0 && answer == Some(Authenticate(request.authorization, verify).response)
      && request.userId == old(request.userId)
    ensures answer.Some? ==> answer.value.status == 401
  {
    var decision := Authenticate(request.authorization, verify);
    match decision
    case Reject(res) =>
      nextCalls, answer := 0, Some(res);
    case Proceed(id) =>
      request.userId := Some(id);
      nextCalls, answer := 1, None;
  }
}
