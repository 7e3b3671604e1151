/** The projection every account goes through before it is sent to a client. */
module PublicUser {
  import opened Json

  /** `const { senhaHash, ...rest } = user; return rest`: the same record
      without its `senhaHash` property. */
  function ToPublicUser(user: map<string, Value>): (r: map<string, Value>)
    ensures "senhaHash" !in r
    ensures forall k :: k in r <==> k in user && k != "senhaHash"
    ensures forall k :: k in r ==> r[k] == user[k]
  {
    user - {"senhaHash"}
  }

  /** Projecting an already projected record changes nothing. */
  lemma ToPublicUserIdempotent(user: map<string, Value>)
    ensures ToPublicUser(ToPublicUser(user)) == ToPublicUser(user)
  {
  }

  /** The projection does not depend on the hash: a string, `null` or no
      `senhaHash` at all give the same public record. */
  lemma ToPublicUserIgnoresHash(user: map<string, Value>, hash: Value)
    ensures ToPublicUser(user["senhaHash" := hash]) == ToPublicUser(user)
    ensures ToPublicUser(user["senhaHash" := hash]) == ToPublicUser(user - {"senhaHash"})
  {
  }
}
