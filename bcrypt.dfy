/**
 * The password hasher, symbolically: a digest remembers what it is a digest
 * of and at which cost. Salts and the cipher itself are not modelled, so
 * `Compare` is exact.
 */
module Bcrypt {

  datatype Digest = Digest(plain: string, cost: nat)

  /** `bcrypt.hash(p, cost)`, once its Promise has settled. */
  function Hash(p: string, cost: nat): Digest {
    Digest(p, cost)
  }

  /** `bcrypt.compare(p, d)` on a string digest: true exactly for the hashed plaintext. */
  function Compare(p: string, d: Digest): (ok: bool)
    ensures ok <==> d == Hash(p, d.cost)
  {
    d.plain == p
  }

  /** A password matches its own digest and no other password does. */
  lemma CompareHash(p: string, q: string, cost: nat)
    ensures Compare(q, Hash(p, cost)) <==> q == p
  {
  }
}
