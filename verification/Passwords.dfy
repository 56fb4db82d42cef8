/** Password hashing as the use cases see it; the hash function itself stays abstract. */
module Passwords {
  import opened Wrappers

  /** `hash` takes the password and the number of the call, since every call draws its own salt. */
  datatype Hasher = Hasher(
    hash: (string, nat) -> Option<string>,
    verify: (string, string) -> bool,
    needsRehash: string -> bool,
    wellFormed: string -> bool)

  datatype StoredPasswordKind = LegacyPlaintext | PasswordHash | InvalidPasswordHash

  predicate LooksLikeArgonHash(value: string) {
    "$argon2id$" <= value || "$argon2i$" <= value
  }

  function Classify(h: Hasher, value: string): StoredPasswordKind {
    if !LooksLikeArgonHash(value) then LegacyPlaintext
    else if !h.wellFormed(value) then InvalidPasswordHash
    else PasswordHash
  }

  /** The stored text is a hash of the password. */
  ghost predicate HashOf(h: Hasher, stored: string, password: string) {
    exists n: nat :: h.hash(password, n) == Some(stored)
  }

  /** What is assumed of the library: whatever it hashes, the result is a valid hash. */
  ghost predicate Trusted(h: Hasher) {
    forall password, n :: h.hash(password, n).Some? ==>
      Classify(h, h.hash(password, n).value) == PasswordHash
  }
}
