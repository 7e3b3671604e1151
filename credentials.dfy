/**
 * The password hasher and the token service seen from the handlers. Their
 * cryptography is not modelled: each is a function supplied by the caller, so
 * every property proved holds whatever hashing, comparison or signing does.
 */
module Credentials {

  /** `hashPassword`, `comparePassword` and `signToken`. A salted hash gives a
      different output on every call; a caller models that by passing the
      function that holds for the call at hand. */
  datatype Crypto = Crypto(
    hash: string -> string,
    compare: (string, string) -> bool,
    sign: string -> string)

  /** The bcrypt cost factor. */
  const HashRounds: nat := 10

  /** Token lifetime used when the environment does not set one. */
  const DefaultExpiresIn: string := "1d"
}
