/**
 The password hasher. `bcrypt.hash(p, 10)` and `bcrypt.compare(q, digest)` are
 not modelled bit by bit: a `Hasher` carries them as two given functions, and
 `Ideal` states the only facts the handlers rely on.
 */
module Bcrypt {

  datatype Hasher = Hasher(hash: string -> string, compare: (string, string) -> bool)

  /** The idealised hasher: a password matches its own digest and no other
      password does; a digest is never the plaintext itself and never empty
      (a bcrypt digest is a 60-character string). */
  ghost predicate Ideal(h: Hasher) {
    && (forall p :: h.compare(p, h.hash(p)))
    && (forall p, q :: p != q ==> !h.compare(q, h.hash(p)))
    && (forall p :: h.hash(p) != p)
    && (forall p :: h.hash(p) != "")
  }

  /** A concrete hasher that tags the password with the bcrypt version prefix. */
  function Prefixed(): Hasher {
    Hasher(p => "$2b$" + p, (q, d) => d == "$2b$" + q)
  }

  /** The idealised axioms are consistent: some hasher meets all of them. */
  lemma PrefixedIsIdeal()
    ensures Ideal(Prefixed())
  {
    var h := Prefixed();
    forall p: string, q: string | "$2b$" + p == "$2b$" + q
      ensures p == q
    {
      assert p == ("$2b$" + p)[4..];
      assert q == ("$2b$" + q)[4..];
    }
    forall p
      ensures h.hash(p) != p
    {
      assert |h.hash(p)| == |p| + 4;
    }
  }
}
