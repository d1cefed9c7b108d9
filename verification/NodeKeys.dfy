/** Keys and secret stores held at tree nodes (`keys.rs`, `secret_store.rs`). */
module NodeKeys {
  import opened Seqs
  import opened Results
  import opened Crypto
  import opened Nodes

  // ----- Node keys -----

  datatype NodeKey =
    | Single(pk: ShareKey)
    | Conflict(first: ShareKey, second: ShareKey, more: seq<ShareKey>)

  function Keys(k: NodeKey): seq<ShareKey> {
    match k
    case Single(pk) => [pk]
    case Conflict(first, second, more) => [first, second] + more
  }

  predicate ContainsKey(k: NodeKey, pk: ShareKey) {
    match k
    case Single(own) => pk == own
    case Conflict(first, second, more) => first == pk || second == pk || pk in more
  }

  function FromKeys(keys: seq<ShareKey>): (k: NodeKey)
    requires keys != []
    ensures Keys(k) == keys
  {
    if |keys| == 1 then Single(keys[0]) else Conflict(keys[0], keys[1], keys[2..])
  }

  function InsertKey(k: ShareKey, keys: seq<ShareKey>): seq<ShareKey> {
    if keys == [] || KeyLe(k, keys[0]) then [k] + keys else [keys[0]] + InsertKey(k, keys[1..])
  }

  function SortKeys(keys: seq<ShareKey>): seq<ShareKey> {
    if keys == [] then [] else InsertKey(keys[0], SortKeys(keys[1..]))
  }

  function Without(keys: seq<ShareKey>, removed: set<ShareKey>): seq<ShareKey> {
    if keys == [] then []
    else (if keys[0] in removed then [] else [keys[0]]) + Without(keys[1..], removed)
  }

  /** `NodeKey::merge`: the new keys together with the keys not superseded. */
  function MergeKey(k: NodeKey, newKey: NodeKey, removed: set<ShareKey>): NodeKey {
    match k
    case Single(pk) =>
      if pk in removed then newKey
      else SortKeysKeepsAll(Keys(newKey) + [pk]); FromKeys(SortKeys(Keys(newKey) + [pk]))
    case Conflict(_, _, _) =>
      SortKeysKeepsAll(Keys(newKey) + Without(Keys(k), removed));
      FromKeys(SortKeys(Keys(newKey) + Without(Keys(k), removed)))
  }

  predicate SortedKeys(keys: seq<ShareKey>) {
    forall i, j :: 0 <= i < j < |keys| ==> KeyLe(keys[i], keys[j])
  }

  lemma {:induction false} InsertKeyKeepsAll(k: ShareKey, keys: seq<ShareKey>)
    ensures multiset(InsertKey(k, keys)) == multiset(keys) + multiset{k}
  {
    if keys != [] && !KeyLe(k, keys[0]) {
      InsertKeyKeepsAll(k, keys[1..]);
      assert keys == [keys[0]] + keys[1..];
    }
  }

  lemma SortedCons(k: ShareKey, keys: seq<ShareKey>)
    requires SortedKeys(keys) && forall x :: x in keys ==> KeyLe(k, x)
    ensures SortedKeys([k] + keys)
  {
    var all := [k] + keys;
    forall i, j | 0 <= i < j < |all|
      ensures KeyLe(all[i], all[j])
    {
      assert all[j] == keys[j - 1];
    }
  }

  lemma {:induction false} InsertKeySorts(k: ShareKey, keys: seq<ShareKey>)
    requires SortedKeys(keys)
    ensures SortedKeys(InsertKey(k, keys))
  {
    if keys == [] {
    } else if KeyLe(k, keys[0]) {
      forall x | x in keys
        ensures KeyLe(k, x)
      {
        KeyLeIsTotalOrder(k, keys[0], x);
      }
      SortedCons(k, keys);
    } else {
      var rest := InsertKey(k, keys[1..]);
      InsertKeySorts(k, keys[1..]);
      InsertKeyKeepsAll(k, keys[1..]);
      KeyLeIsTotalOrder(k, keys[0], k);
      forall x | x in rest
        ensures KeyLe(keys[0], x)
      {
        assert x in multiset(rest);
      }
      SortedCons(keys[0], rest);
    }
  }

  lemma {:induction false} SortKeysKeepsAll(keys: seq<ShareKey>)
    ensures multiset(SortKeys(keys)) == multiset(keys)
    ensures |SortKeys(keys)| == |keys|
    ensures SortedKeys(SortKeys(keys))
  {
    if keys != [] {
      SortKeysKeepsAll(keys[1..]);
      InsertKeyKeepsAll(keys[0], SortKeys(keys[1..]));
      InsertKeySorts(keys[0], SortKeys(keys[1..]));
      assert keys == [keys[0]] + keys[1..];
      assert |multiset(SortKeys(keys))| == |multiset(keys)|;
    }
  }

  lemma {:induction false} WithoutMeans(keys: seq<ShareKey>, removed: set<ShareKey>, k: ShareKey)
    ensures multiset(Without(keys, removed))[k] == if k in removed then 0 else multiset(keys)[k]
  {
    if keys != [] {
      WithoutMeans(keys[1..], removed, k);
      assert keys == [keys[0]] + keys[1..];
    }
  }

  /** What a merged node key holds: every new key, and every old key not superseded;
      in a conflict, sorted. */
  lemma MergeKeyMeans(k: NodeKey, newKey: NodeKey, removed: set<ShareKey>, pk: ShareKey)
    ensures multiset(Keys(MergeKey(k, newKey, removed)))[pk]
         == multiset(Keys(newKey))[pk] + (if pk in removed then 0 else multiset(Keys(k))[pk])
    ensures newKey.Single? ==> SortedKeys(Keys(MergeKey(k, newKey, removed)))
  {
    if k.Conflict? || k.pk !in removed {
      SortKeysKeepsAll(Keys(newKey) + (if k.Single? then [k.pk] else Without(Keys(k), removed)));
    }
    if k.Conflict? {
      WithoutMeans(Keys(k), removed, pk);
    }
  }

  // ----- Secret stores -----

  /** One version of an inner node: its public key, its secret sealed for the nodes
      listed in `sk`, and the public key of the child that sealed it. */
  datatype Version = Version(pk: ShareKey, sk: map<Node, EncryptedSecret>, encrypterPk: ShareKey)

  datatype SecretStore = SecretStore(versions: seq<Version>)

  /** A store always has at least one version. */
  type Store = s: SecretStore | s.versions != []
    witness SecretStore([Version(ShareKey(Fresh(0)), map[], ShareKey(Fresh(0)))])

  predicate HasConflict(s: Store) {
    |s.versions| > 1
  }

  function VersionKeys(vs: seq<Version>): (keys: seq<ShareKey>)
    ensures |keys| == |vs| && forall i :: 0 <= i < |vs| ==> keys[i] == vs[i].pk
  {
    if vs == [] then [] else [vs[0].pk] + VersionKeys(vs[1..])
  }

  function StoreKey(s: Store): NodeKey {
    FromKeys(VersionKeys(s.versions))
  }

  /** `remove_keys_from`: drop superseded versions, keeping the order. */
  function KeepVersions(vs: seq<Version>, removed: set<ShareKey>): seq<Version> {
    if vs == [] then []
    else (if vs[0].pk in removed then [] else [vs[0]]) + KeepVersions(vs[1..], removed)
  }

  function MergeStore(s: Store, other: Store, removed: set<ShareKey>): Store {
    SecretStore(KeepVersions(s.versions, removed) + other.versions)
  }

  lemma {:induction false} KeepVersionsMeans(vs: seq<Version>, removed: set<ShareKey>, w: Version)
    ensures w in KeepVersions(vs, removed) <==> w in vs && w.pk !in removed
  {
    if vs != [] {
      KeepVersionsMeans(vs[1..], removed, w);
      assert vs == [vs[0]] + vs[1..];
    }
  }

  lemma {:induction false} KeepVersionsDistinct(vs: seq<Version>, removed: set<ShareKey>)
    requires Distinct(vs)
    ensures Distinct(KeepVersions(vs, removed))
  {
    if vs != [] {
      KeepVersionsDistinct(vs[1..], removed);
      KeepVersionsMeans(vs[1..], removed, vs[0]);
    }
  }

  // ----- Opening a store -----

  /** The most recently seen node that the version has an entry for. */
  function Lookup(w: Version, seen: seq<Node>): Option<Node> {
    if seen == [] then None
    else if seen[|seen| - 1] in w.sk then Some(seen[|seen| - 1])
    else Lookup(w, seen[..|seen| - 1])
  }

  function OrError(s: Option<Secret>): Result<Secret> {
    match s
    case Some(v) => Ok(v)
    case None => Err(Decryption)
  }

  /** `SecretStoreVersion::decrypt_secret`. */
  function DecryptVersion(w: Version, childKey: NodeKey, sks: ShareKeyMap, seen: seq<Node>): Result<Secret> {
    match Lookup(w, seen)
    case None => Err(EncryptedSecretNotFound)
    case Some(n) =>
      if n !in w.sk then Err(EncryptedSecretNotFound)
      else
        var e := w.sk[n];
        if ContainsKey(childKey, w.encrypterPk) then
          if w.encrypterPk !in sks then Err(SecretKeyNotFound)
          else OrError(TryDecrypt(DeriveSymmetricKey(sks[w.encrypterPk], e.pairedPk), e))
        else
          if e.pairedPk !in sks then Err(SecretKeyNotFound)
          else OrError(TryDecrypt(DeriveSymmetricKey(sks[e.pairedPk], w.encrypterPk), e))
  }

  /** `SecretStore::decrypt_secret`. */
  function DecryptStore(s: Store, childKey: NodeKey, sks: ShareKeyMap, seen: seq<Node>): Result<Secret> {
    if HasConflict(s) then Err(UnexpectedKeyConflict)
    else DecryptVersion(s.versions[0], childKey, sks, seen)
  }

  /** Position `k` is the last one seen that the version has an entry for. */
  ghost predicate LastEntry(w: Version, seen: seq<Node>, k: nat) {
    k < |seen| && seen[k] in w.sk && forall j :: k < j < |seen| ==> seen[j] !in w.sk
  }

  lemma {:induction false} LookupMeans(w: Version, seen: seq<Node>)
    ensures Lookup(w, seen).None? <==> forall k :: 0 <= k < |seen| ==> seen[k] !in w.sk
    ensures Lookup(w, seen).Some? ==> Lookup(w, seen).value in w.sk
    ensures forall k: nat :: LastEntry(w, seen, k) ==> Lookup(w, seen) == Some(seen[k])
  {
    if seen != [] && seen[|seen| - 1] !in w.sk {
      var init := seen[..|seen| - 1];
      LookupMeans(w, init);
      assert forall k :: 0 <= k < |init| ==> init[k] == seen[k];
      forall k: nat | LastEntry(w, seen, k)
        ensures Lookup(w, seen) == Some(seen[k])
      {
        assert LastEntry(w, init, k);
      }
    }
  }

  /** Opening a version: without an entry for any node seen it is not found; otherwise the
      entry of the node seen last counts, and it opens exactly for a holder of the sealing
      key, when the child key is that key, or of the paired key, when it is not. */
  lemma DecryptVersionMeans(w: Version, childKey: NodeKey, sks: ShareKeyMap, seen: seq<Node>)
    requires Sound(sks)
    ensures DecryptVersion(w, childKey, sks, seen) == Err(EncryptedSecretNotFound)
            <==> forall k :: 0 <= k < |seen| ==> seen[k] !in w.sk
    ensures forall k: nat :: LastEntry(w, seen, k) ==>
              var e := w.sk[seen[k]];
              var sealer := w.encrypterPk in Keys(childKey);
              var mine := if sealer then w.encrypterPk else e.pairedPk;
              var theirs := if sealer then e.pairedPk else w.encrypterPk;
              DecryptVersion(w, childKey, sks, seen)
              == if mine !in sks then Err(SecretKeyNotFound)
                 else if e.key == DeriveSymmetricKey(mine.secret, theirs) then Ok(e.plaintext)
                 else Err(Decryption)
  {
    LookupMeans(w, seen);
  }

  /** An entry that holds secret `s` and can be opened by the holder of `pk`: either
      `pk` is the child key that sealed the version, or the entry was paired with it. */
  ghost predicate EntryOpens(w: Version, n: Node, pk: ShareKey, s: Secret) {
    && n in w.sk
    && w.sk[n].plaintext == s
    && (|| (pk == w.encrypterPk && w.sk[n].key == DeriveSymmetricKey(pk.secret, w.sk[n].pairedPk))
        || (pk == w.sk[n].pairedPk && w.sk[n].key == DeriveSymmetricKey(w.encrypterPk.secret, pk)))
  }

  lemma EntryDecrypts(w: Version, childKey: NodeKey, sks: ShareKeyMap, seen: seq<Node>, s: Secret)
    requires seen != [] && childKey.Single? && Sound(sks) && childKey.pk in sks
    requires EntryOpens(w, seen[|seen| - 1], childKey.pk, s)
    ensures DecryptVersion(w, childKey, sks, seen) == Ok(s)
  {
    var pk := childKey.pk;
    DiffieHellmanCommutes(pk.secret, w.encrypterPk.secret);
  }
}
