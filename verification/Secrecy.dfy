/** Who can learn what: everything someone can derive from the secrets they hold and all the
    ciphertexts ever published, and why a tree keeps its secrets among its members. */
module Secrecy {
  import opened Nodes
  import opened Crypto
  import opened NodeKeys
  import opened KeyTree
  import opened Resolutions

  // ----- Deriving secrets -----

  /** Someone who knows the secret can open the ciphertext, with the right public key. */
  ghost predicate CanOpen(known: Secret, e: EncryptedSecret) {
    exists pk :: TryDecrypt(DeriveSymmetricKey(known, pk), e).Some?
  }

  /** The secret is held, or obtained from earlier ones by ratcheting or opening. */
  ghost predicate Obtained(held: iset<Secret>, sealed: iset<EncryptedSecret>, before: seq<Secret>, s: Secret) {
    || s in held
    || (s.Ratcheted? && s.from in before)
    || exists p, e :: p in before && e in sealed && CanOpen(p, e) && s == e.plaintext
  }

  ghost predicate Derivation(held: iset<Secret>, sealed: iset<EncryptedSecret>, trace: seq<Secret>) {
    forall k :: 0 <= k < |trace| ==> Obtained(held, sealed, trace[..k], trace[k])
  }

  /** Some derivation ends with the secret. */
  ghost predicate Derivable(held: iset<Secret>, sealed: iset<EncryptedSecret>, s: Secret) {
    exists trace :: Derivation(held, sealed, trace) && s in trace
  }

  /** Ratcheting and opening do not lead out of the set. */
  ghost predicate Tight(inside: iset<Secret>, sealed: iset<EncryptedSecret>) {
    && (forall s :: s in inside ==> Ratcheted(s) in inside)
    && forall p, e :: p in inside && e in sealed && CanOpen(p, e) ==> e.plaintext in inside
  }

  /** What is derived from secrets inside such a set is inside it. */
  lemma DerivedStaysInside(held: iset<Secret>, sealed: iset<EncryptedSecret>, inside: iset<Secret>, s: Secret)
    requires held <= inside && Tight(inside, sealed) && Derivable(held, sealed, s)
    ensures s in inside
  {
    hide Tight, Derivation;
    var trace :| Derivation(held, sealed, trace) && s in trace;
    var k :| 0 <= k < |trace| && trace[k] == s;
    TraceStaysInside(held, sealed, inside, trace, k);
  }

  lemma {:induction false} TraceStaysInside(held: iset<Secret>, sealed: iset<EncryptedSecret>, inside: iset<Secret>,
                                            trace: seq<Secret>, k: nat)
    requires held <= inside && Tight(inside, sealed) && Derivation(held, sealed, trace) && k < |trace|
    ensures trace[k] in inside
  {
    hide CanOpen;
    var s := trace[k];
    assert Obtained(held, sealed, trace[..k], s);
    forall j | 0 <= j < k
      ensures trace[j] in inside
    {
      TraceStaysInside(held, sealed, inside, trace, j);
    }
  }

  /** Opening takes one of the two secrets at the ends of the key. */
  lemma OpenedByAnEnd(known: Secret, e: EncryptedSecret, a: Secret, b: ShareKey)
    requires e.key == DeriveSymmetricKey(a, b) && CanOpen(known, e)
    ensures known == a || known == b.secret
  {
    var pk :| TryDecrypt(DeriveSymmetricKey(known, pk), e).Some?;
    SameKeyIff(known, pk.secret, a, b.secret);
  }

  lemma EndOpens(known: Secret, e: EncryptedSecret, pk: ShareKey)
    requires e.key == DeriveSymmetricKey(known, pk)
    ensures CanOpen(known, e)
  {
    assert TryDecrypt(DeriveSymmetricKey(known, pk), e).Some?;
  }

  // ----- What is derivable -----

  lemma HeldDerivable(held: iset<Secret>, sealed: iset<EncryptedSecret>, s: Secret)
    requires s in held
    ensures Derivable(held, sealed, s)
  {
    assert Derivation(held, sealed, [s]);
  }

  lemma OneMore(held: iset<Secret>, sealed: iset<EncryptedSecret>, trace: seq<Secret>, s: Secret)
    requires Derivation(held, sealed, trace) && Obtained(held, sealed, trace, s)
    ensures Derivable(held, sealed, s)
  {
    hide Obtained;
    var longer := trace + [s];
    forall k | 0 <= k < |longer|
      ensures Obtained(held, sealed, longer[..k], longer[k])
    {
      if k < |trace| {
        assert longer[..k] == trace[..k];
      } else {
        assert longer[..k] == trace;
      }
    }
    assert s in longer;
  }

  lemma RatchetDerivable(held: iset<Secret>, sealed: iset<EncryptedSecret>, s: Secret)
    requires Derivable(held, sealed, s)
    ensures Derivable(held, sealed, Ratcheted(s))
  {
    hide Derivation;
    var trace :| Derivation(held, sealed, trace) && s in trace;
    OneMore(held, sealed, trace, Ratcheted(s));
  }

  lemma OpenDerivable(held: iset<Secret>, sealed: iset<EncryptedSecret>, p: Secret, e: EncryptedSecret)
    requires Derivable(held, sealed, p) && e in sealed && CanOpen(p, e)
    ensures Derivable(held, sealed, e.plaintext)
  {
    hide Derivation, CanOpen;
    var trace :| Derivation(held, sealed, trace) && p in trace;
    OneMore(held, sealed, trace, e.plaintext);
  }

  lemma {:induction false} RatchetNDerivable(held: iset<Secret>, sealed: iset<EncryptedSecret>, s: Secret, n: nat)
    requires Derivable(held, sealed, s)
    ensures Derivable(held, sealed, RatchetN(s, n))
  {
    hide Derivable;
    if n > 0 {
      RatchetNDerivable(held, sealed, s, n - 1);
      RatchetDerivable(held, sealed, RatchetN(s, n - 1));
    }
  }

  // ----- One store -----

  ghost predicate EntryOf(s: Store, e: EncryptedSecret) {
    exists w, n :: w in s.versions && n in w.sk && w.sk[n] == e
  }

  ghost function EntriesOf(s: Store): iset<EncryptedSecret> {
    iset e | EntryOf(s, e)
  }

  /** What can be reached by ratcheting alone. */
  ghost function Ratchets(held: iset<Secret>): iset<Secret> {
    iset s, k: nat | s in held :: RatchetN(s, k)
  }

  /** One of the secrets that lead to a new store: its own, the child's, that of a node it is
      sealed for or, when there is none, of the pair drawn for the purpose. */
  ghost predicate LeadsToStore(t: Tree, child: Node, childSk: Secret, paired: Secret, p: Secret) {
    var res := Resolution(t, Sibling(child));
    || p == Ratcheted(childSk) || p == childSk
    || (exists n :: n in res && p == PkAt(t, n).secret)
    || (res == [] && p == paired)
  }

  /** From a new store its secret can be had exactly by those who hold one of the secrets that
      lead to it, or can reach one by ratcheting. */
  lemma StoreSecretIff(t: Tree, child: Node, childSk: Secret, paired: Secret, held: iset<Secret>)
    ensures Derivable(held, EntriesOf(NewStore(t, child, childSk, paired)), Ratcheted(childSk))
            <==> exists p :: p in Ratchets(held) && LeadsToStore(t, child, childSk, paired, p)
  {
    hide *;
    if forall p :: p in Ratchets(held) ==> !LeadsToStore(t, child, childSk, paired, p) {
      StoreKeepsSecret(t, child, childSk, paired, held);
    } else {
      var p :| p in Ratchets(held) && LeadsToStore(t, child, childSk, paired, p);
      StoreGivesSecret(t, child, childSk, paired, held, p);
    }
  }

  lemma StoreKeepsSecret(t: Tree, child: Node, childSk: Secret, paired: Secret, held: iset<Secret>)
    requires forall p :: p in Ratchets(held) ==> !LeadsToStore(t, child, childSk, paired, p)
    ensures !Derivable(held, EntriesOf(NewStore(t, child, childSk, paired)), Ratcheted(childSk))
  {
    hide Resolution, PkAt, Skip, NewStore, Derivable, CanOpen, Ratchets;
    var s, inside := NewStore(t, child, childSk, paired), Ratchets(held);
    NewStoreSealed(t, child, childSk, paired);
    RatchetsTight(held);
    forall p, e | e in EntriesOf(s) && CanOpen(p, e)
      ensures p !in inside
    {
      var n :| n in s.versions[0].sk && e == s.versions[0].sk[n];
      OpenedByAnEnd(p, e, childSk, e.pairedPk);
    }
    if Derivable(held, EntriesOf(s), Ratcheted(childSk)) {
      DerivedStaysInside(held, EntriesOf(s), inside, Ratcheted(childSk));
    }
  }

  lemma StoreGivesSecret(t: Tree, child: Node, childSk: Secret, paired: Secret, held: iset<Secret>, p: Secret)
    requires p in Ratchets(held) && LeadsToStore(t, child, childSk, paired, p)
    ensures Derivable(held, EntriesOf(NewStore(t, child, childSk, paired)), Ratcheted(childSk))
  {
    hide Resolution, PkAt, Skip, NewStore, Derivable, CanOpen, Ratchets;
    var s := NewStore(t, child, childSk, paired);
    NewStoreSealed(t, child, childSk, paired);
    var w, res := s.versions[0], Resolution(t, Sibling(child));
    RatchetsDerivable(held, EntriesOf(s), p);
    if p == childSk {
      RatchetDerivable(held, EntriesOf(s), p);
    } else if p != Ratcheted(childSk) {
      var n :| n in w.sk && p == w.sk[n].pairedPk.secret;
      DiffieHellmanCommutes(childSk, p);
      EndOpens(p, w.sk[n], ShareKey(childSk));
      OpenDerivable(held, EntriesOf(s), p, w.sk[n]);
    }
  }

  lemma RatchetsTight(held: iset<Secret>)
    ensures held <= Ratchets(held) && forall s :: s in Ratchets(held) ==> Ratcheted(s) in Ratchets(held)
  {
    forall s | s in held
      ensures s in Ratchets(held)
    {
      assert RatchetN(s, 0) == s;
    }
    forall s | s in Ratchets(held)
      ensures Ratcheted(s) in Ratchets(held)
    {
      var p, k: nat :| p in held && s == RatchetN(p, k);
      assert RatchetN(p, k + 1) == Ratcheted(s);
    }
  }

  lemma RatchetsDerivable(held: iset<Secret>, sealed: iset<EncryptedSecret>, p: Secret)
    requires p in Ratchets(held)
    ensures Derivable(held, sealed, p)
  {
    hide Derivable, RatchetN;
    var s, k: nat :| s in held && p == RatchetN(s, k);
    HeldDerivable(held, sealed, s);
    RatchetNDerivable(held, sealed, s, k);
  }
}
