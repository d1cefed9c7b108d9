/** Symbolic cryptography.

    Secrets are terms: fresh random values and the results of the one-way
    ratchet. Equal terms are equal secrets, so fresh secrets are distinct, the
    ratchet has no collisions and a public key determines its secret. Diffie
    Hellman commutes, and a ciphertext opens with its own key only. */
module Crypto {
  import opened Results

  datatype Secret = Fresh(seed: nat) | Ratcheted(from: Secret)

  /** The public key of a secret (`ShareSecretKey::share_key`). */
  datatype ShareKey = ShareKey(secret: Secret)

  /** `ratchet_n_forward`. */
  function RatchetN(s: Secret, n: nat): Secret {
    if n == 0 then s else Ratcheted(RatchetN(s, n - 1))
  }

  lemma {:induction false} RatchetAdds(s: Secret, a: nat, b: nat)
    ensures RatchetN(RatchetN(s, a), b) == RatchetN(s, a + b)
  {
    if b > 0 {
      RatchetAdds(s, a, b - 1);
    }
  }

  /** Distinct fresh secrets never meet, however far they are ratcheted. */
  lemma {:induction false} RatchetInjective(a: nat, m: nat, b: nat, n: nat)
    requires RatchetN(Fresh(a), m) == RatchetN(Fresh(b), n)
    ensures a == b && m == n
  {
    if m > 0 && n > 0 {
      RatchetInjective(a, m - 1, b, n - 1);
    }
  }

  datatype SymmetricKey = Agreed(ends: set<Secret>)

  /** `derive_symmetric_key`: Diffie Hellman between a secret and a public key. */
  function DeriveSymmetricKey(sk: Secret, pk: ShareKey): SymmetricKey {
    Agreed({sk, pk.secret})
  }

  lemma DiffieHellmanCommutes(a: Secret, b: Secret)
    ensures DeriveSymmetricKey(a, ShareKey(b)) == DeriveSymmetricKey(b, ShareKey(a))
  {
    assert {a, b} == {b, a};
  }

  /** Two pairs of a secret and a public key agree on a key exactly when they have the same two
      secrets at their ends. */
  lemma SameKeyIff(a: Secret, b: Secret, c: Secret, d: Secret)
    ensures DeriveSymmetricKey(a, ShareKey(b)) == DeriveSymmetricKey(c, ShareKey(d))
            <==> (a == c && b == d) || (a == d && b == c)
  {
    if {a, b} == {c, d} {
      assert a in {c, d} && b in {c, d} && c in {a, b} && d in {a, b};
    }
  }

  /** A secret sealed for a tree node, with the public key it was paired with. */
  datatype EncryptedSecret = EncryptedSecret(key: SymmetricKey, plaintext: Secret, pairedPk: ShareKey)

  function EncryptSecret(secret: Secret, sk: Secret, pairedPk: ShareKey): EncryptedSecret {
    EncryptedSecret(DeriveSymmetricKey(sk, pairedPk), secret, pairedPk)
  }

  function TryDecrypt(key: SymmetricKey, e: EncryptedSecret): Option<Secret> {
    if key == e.key then Some(e.plaintext) else None
  }

  /** A ciphertext opens with its own key and no other. */
  lemma OpensWithOwnKeyOnly(p: Secret, a: Secret, b: Secret, c: Secret, d: Secret)
    ensures TryDecrypt(DeriveSymmetricKey(c, ShareKey(d)), EncryptSecret(p, a, ShareKey(b)))
            == if (c == a && d == b) || (c == b && d == a) then Some(p) else None
  {
    SameKeyIff(c, d, a, b);
  }

  /** Secret keys a member holds, by public key (`ShareKeyMap`). */
  type ShareKeyMap = map<ShareKey, Secret>

  /** Every entry is filed under its own public key. */
  ghost predicate Sound(sks: ShareKeyMap) {
    forall pk :: pk in sks ==> sks[pk] == pk.secret
  }

  // ----- A total order on public keys, standing for their byte order -----

  function RatchetCount(s: Secret): nat {
    match s
    case Fresh(_) => 0
    case Ratcheted(t) => 1 + RatchetCount(t)
  }

  function Seed(s: Secret): nat {
    match s
    case Fresh(n) => n
    case Ratcheted(t) => Seed(t)
  }

  predicate KeyLe(a: ShareKey, b: ShareKey) {
    var (m, n) := (RatchetCount(a.secret), RatchetCount(b.secret));
    m < n || (m == n && Seed(a.secret) <= Seed(b.secret))
  }

  lemma KeyLeIsTotalOrder(a: ShareKey, b: ShareKey, c: ShareKey)
    ensures KeyLe(a, b) || KeyLe(b, a)
    ensures KeyLe(a, b) && KeyLe(b, a) ==> a == b
    ensures KeyLe(a, b) && KeyLe(b, c) ==> KeyLe(a, c)
  {
    if KeyLe(a, b) && KeyLe(b, a) {
      SecretFromParts(a.secret, b.secret);
    }
  }

  lemma {:induction false} SecretFromParts(a: Secret, b: Secret)
    requires RatchetCount(a) == RatchetCount(b) && Seed(a) == Seed(b)
    ensures a == b
  {
    if a.Ratcheted? {
      SecretFromParts(a.from, b.from);
    }
  }
}
