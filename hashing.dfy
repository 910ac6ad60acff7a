/**
 * The one-way digest used for passwords and refresh tokens (bcrypt in the system).
 * The digest function itself is a stand-in: the model relies only on the fact that
 * a secret compares equal to its own digest, whatever the salt.
 */
module Hashing {

  /** The width of a digest image. */
  const Width: nat := 0x1_0000_0000_0000_0000

  /** A salted digest: the salt it was made with and the image of salt and secret. */
  datatype Digest = Digest(salt: nat, image: nat)

  /** The one-way image of `secret` under `salt`, a polynomial fold of the characters. */
  function OneWay(salt: nat, secret: string): (r: nat)
    ensures r < Width
    decreases |secret|
  {
    if secret == [] then salt % Width
    else (OneWay(salt, secret[..|secret| - 1]) * 131 + secret[|secret| - 1] as int) % Width
  }

  /** `bcrypt.hash(secret, rounds)` with the random salt made explicit. */
  function Hash(secret: string, salt: nat): (d: Digest)
    ensures d.salt == salt
    ensures Compare(secret, d)
  {
    Digest(salt, OneWay(salt, secret))
  }

  /** `bcrypt.compare(secret, digest)`: recompute the image under the digest's own salt. */
  predicate Compare(secret: string, d: Digest) {
    OneWay(d.salt, secret) == d.image
  }
}
