/** The two calls the core makes into `bcryptjs`: `hashSync(password,
    rounds)` and `compareSync(password, hash)`. The random salt that
    `hashSync` draws is a parameter. The key derivation itself is not
    modelled: a digest keeps the password it was made from. The rest of
    the model relies on one fact, stated on HashSync: a hash made from a
    password matches that password. */
module Bcrypt {

  /** The salt `hashSync` draws at random. */
  type Salt = nat

  datatype Digest = Digest(rounds: nat, salt: Salt, key: string)

  /** `bcrypt.hashSync(password, rounds)` with the given salt. */
  function HashSync(password: string, rounds: nat, salt: Salt): (d: Digest)
    ensures CompareSync(password, d)
    ensures d.rounds == rounds && d.salt == salt
  {
    Digest(rounds, salt, password)
  }

  /** `bcrypt.compareSync(password, digest)`: true exactly when the digest
      was made from that password, whatever its rounds and salt. */
  function CompareSync(password: string, d: Digest): (matches: bool)
    ensures matches <==> d == Digest(d.rounds, d.salt, password)
  {
    d.key == password
  }
}
