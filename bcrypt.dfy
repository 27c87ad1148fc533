/** bcrypt reduced to what the user table relies on: a salted one-way hash and
    the comparison `bcrypt.compare`. The salt is the random input of `bcrypt.hash`,
    so it is a parameter here. */
module Bcrypt {

  /** A stored hash string: the salt it was made with and the digest. */
  datatype Hash = Hash(salt: nat, digest: seq<int>)

  /** Stand-in for bcrypt's key derivation. All the model relies on is that, for
      one salt, different passwords give different digests. */
  function Digest(salt: nat, password: string): seq<int> {
    seq(|password|, i requires 0 <= i < |password| => salt + password[i] as int)
  }

  /** `bcrypt.compare(password, hash)`: recompute the digest with the hash's own
      salt and compare. */
  predicate Verifies(h: Hash, password: string) {
    h.digest == Digest(h.salt, password)
  }

  lemma {:induction false} DigestInjective(salt: nat, p: string, q: string)
    requires Digest(salt, p) == Digest(salt, q)
    ensures p == q
  {
    assert |p| == |Digest(salt, p)| == |q|;
    forall i | 0 <= i < |p|
      ensures p[i] == q[i]
    {
      assert Digest(salt, p)[i] == Digest(salt, q)[i];
    }
  }

  /** A hash verifies exactly one password. */
  lemma VerifiesOnlyOne(h: Hash, p: string, q: string)
    requires Verifies(h, p) && Verifies(h, q)
    ensures p == q
  {
    DigestInjective(h.salt, p, q);
  }

  /** `bcrypt.hash(password, 10)`: the result verifies `password` and nothing
      else, and carries the salt it was given. */
  method HashPassword(password: string, salt: nat) returns (h: Hash)
    ensures Verifies(h, password) && h.salt == salt
    ensures forall other :: Verifies(h, other) ==> other == password
  {
    h := Hash(salt, Digest(salt, password));
    forall other | Verifies(h, other)
      ensures other == password
    {
      VerifiesOnlyOne(h, other, password);
    }
  }
}
