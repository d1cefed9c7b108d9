/** Key agreement in one tree: who can open which node, why an update keeps every node
    readable, and why a readable tree decrypts to the encrypter's root secret. */
module Agreement {
  import opened Results
  import opened Nodes
  import opened Crypto
  import opened NodeKeys
  import opened KeyTree
  import opened PathUpdate

  /** The highest node a member has passed that is neither blank nor in conflict,
      at level `k` or below on the way up from its leaf `i`. */
  function Top(t: Tree, i: nat, k: nat): Node {
    if k == 0 || !Skip(t, Anc(i, k)) then Anc(i, k) else Top(t, i, k - 1)
  }

  lemma {:induction false} TopIsResolved(t: Tree, i: nat, k: nat)
    requires i in t.leaves
    ensures !Skip(t, Top(t, i, k)) && Top(t, i, k).level <= k
    ensures Top(t, i, k) in Resolution(t, Anc(i, k))
  {
    var n := Anc(i, k);
    if k > 0 && Skip(t, n) {
      TopIsResolved(t, i, k - 1);
      UnderChild(i, n);
      assert Resolution(t, n) == Resolution(t, Left(n)) + Resolution(t, Right(n));
    }
  }

  /** The member at leaf `i` can open its ancestor at level `k` with the key it last
      obtained below it. */
  ghost predicate Opens(t: Tree, i: nat, k: nat)
    requires i in t.leaves && k > 0 && !Skip(t, Anc(i, k))
  {
    TopIsResolved(t, i, k - 1);
    var w := t.inner[Anc(i, k)].versions[0];
    var key := KeyAt(t, Top(t, i, k - 1));
    key.Single? && EntryOpens(w, Top(t, i, k - 1), key.pk, w.pk.secret)
  }

  /** The member at leaf `i` can open every non-blank, non-conflict node above it. */
  ghost predicate Readable(t: Tree, i: nat)
    requires i in t.leaves
  {
    t.leaves[i].pk.Single? && forall k :: 0 < k <= t.depth && !Skip(t, Anc(i, k)) ==> Opens(t, i, k)
  }

  // ----- Opening depends only on the nodes passed -----

  ghost predicate SameAt(t: Tree, u: Tree, n: Node) {
    && Skip(t, n) == Skip(u, n)
    && (!Skip(t, n) ==> if n.level == 0 then t.leaves[n.pos] == u.leaves[n.pos] else t.inner[n] == u.inner[n])
  }

  ghost predicate SameBelow(t: Tree, u: Tree, i: nat, k: nat) {
    forall j :: 0 <= j <= k ==> SameAt(t, u, Anc(i, j))
  }

  lemma {:induction false} SameTop(t: Tree, u: Tree, i: nat, k: nat)
    requires SameBelow(t, u, i, k) && i in t.leaves
    ensures i in u.leaves && Top(t, i, k) == Top(u, i, k)
    ensures !Skip(t, Top(t, i, k)) && !Skip(u, Top(t, i, k)) && KeyAt(t, Top(t, i, k)) == KeyAt(u, Top(t, i, k))
  {
    assert SameAt(t, u, Anc(i, 0));
    assert SameAt(t, u, Anc(i, k));
    TopIsResolved(t, i, k);
    if k > 0 {
      SameTop(t, u, i, k - 1);
    }
  }

  lemma SameOpens(t: Tree, u: Tree, i: nat, k: nat)
    requires SameBelow(t, u, i, k) && i in t.leaves && k > 0 && !Skip(t, Anc(i, k)) && Opens(t, i, k)
    ensures i in u.leaves && !Skip(u, Anc(i, k)) && Opens(u, i, k)
  {
    assert SameAt(t, u, Anc(i, k));
    SameTop(t, u, i, k - 1);
  }

  // ----- An update is readable by everyone -----

  /** Off the encrypter's path nothing changes. */
  lemma {:induction false} UpdateLeavesOthers(t: Tree, id: MemberId, sk: Secret, draw: nat -> Secret, i: nat, k: nat)
    requires id in t.ids && t.ids[id] in t.leaves && Anc(i, k) != Anc(t.ids[id], k)
    ensures SameBelow(t, EncryptedTree(t, id, sk, draw), i, k)
  {
    var e := t.ids[id];
    var u := EncryptedTree(t, id, sk, draw);
    forall j | 0 <= j <= k
      ensures SameAt(t, u, Anc(i, j))
    {
      if Anc(i, j) == Anc(e, j) {
        MeetAbove(i, e, j, k);
      }
      OverwriteMeans(t.inner, NewPath(t, e, sk, draw, t.depth), e, Anc(i, j));
    }
  }

  lemma {:induction false} KeyedIsSingle(t: Tree, i: nat, n: Node)
    requires !Skip(t, n) && (n.level == 0 ==> t.leaves[n.pos].pk.Single?)
    ensures KeyAt(t, n) == Single(PkAt(t, n))
    ensures n.level > 0 ==> PkAt(t, n) == t.inner[n].versions[0].pk
  {}

  /** A member below the encrypter's sibling finds an entry for the node it resolves to. */
  lemma SiblingOpens(t: Tree, child: Node, childSk: Secret, paired: Secret, i: nat)
    requires i in t.leaves && t.leaves[i].pk.Single? && Anc(i, child.level) == Sibling(child)
    ensures var n := Top(t, i, child.level); var w := NewStore(t, child, childSk, paired).versions[0];
            && !Skip(t, n) && KeyAt(t, n).Single?
            && EntryOpens(w, n, KeyAt(t, n).pk, w.pk.secret)
  {
    TopIsResolved(t, i, child.level);
    var n := Top(t, i, child.level);
    var res := Resolution(t, Sibling(child));
    if n.level == 0 {
      TopAtLeaf(t, i, child.level);
    }
    KeyedIsSingle(t, i, n);
    assert n != child by {
      TopOnPath(t, i, child.level);
    }
    assert NewEntries(t, child, childSk, paired)[n] == EncryptSecret(Ratcheted(childSk), childSk, PkAt(t, n));
  }

  lemma {:induction false} TopOnPath(t: Tree, i: nat, k: nat)
    ensures Top(t, i, k) == Anc(i, Top(t, i, k).level) && Top(t, i, k).level <= k
  {
    if k > 0 {
      TopOnPath(t, i, k - 1);
    }
  }

  lemma TopAtLeaf(t: Tree, i: nat, k: nat)
    requires Top(t, i, k).level == 0
    ensures Top(t, i, k) == Leaf(i)
  {
    TopOnPath(t, i, k);
  }

  /** The encrypter's own child finds its entry too. */
  lemma OwnChildOpens(t: Tree, child: Node, childSk: Secret, paired: Secret)
    ensures var w := NewStore(t, child, childSk, paired).versions[0];
            EntryOpens(w, child, ShareKey(childSk), w.pk.secret)
  {}

  lemma UpdateOpensOwnSide(t: Tree, id: MemberId, sk: Secret, draw: nat -> Secret, i: nat, k: nat)
    requires id in t.ids && t.ids[id] in t.leaves && 0 < k <= t.depth && i in t.leaves
    requires Anc(i, k - 1) == Anc(t.ids[id], k - 1)
    ensures var u := EncryptedTree(t, id, sk, draw); !Skip(u, Anc(i, k)) && Opens(u, i, k)
  {
    hide NewEntries, Resolution, NewPath, Overwrite, EntryOpens;
    var child := Anc(i, k - 1);
    NewPathAt(t, id, sk, draw, k);
    NewPathIsKeyed(t, id, sk, draw, k - 1);
    OwnChildOpens(t, child, RatchetN(sk, k - 1), draw(k - 1));
    assert Top(EncryptedTree(t, id, sk, draw), i, k - 1) == child;
  }

  lemma UpdateOpensOtherSide(t: Tree, id: MemberId, sk: Secret, draw: nat -> Secret, i: nat, k: nat)
    requires id in t.ids && t.ids[id] in t.leaves && 0 < k <= t.depth
    requires i in t.leaves && t.leaves[i].pk.Single?
    requires Anc(i, k) == Anc(t.ids[id], k) && Anc(i, k - 1) != Anc(t.ids[id], k - 1)
    ensures var u := EncryptedTree(t, id, sk, draw); !Skip(u, Anc(i, k)) && Opens(u, i, k)
  {
    hide NewEntries, Resolution, NewPath, Overwrite, EntryOpens;
    NewPathAt(t, id, sk, draw, k);
    SiblingsMeet(t.ids[id], i, k);
    UpdateLeavesOthers(t, id, sk, draw, i, k - 1);
    SameTop(t, EncryptedTree(t, id, sk, draw), i, k - 1);
    SiblingOpens(t, Anc(t.ids[id], k - 1), RatchetN(sk, k - 1), draw(k - 1), i);
  }

  /** Every member below a node of a fresh path opens it, whatever mix of blank and
      conflict nodes lies between. */
  lemma UpdateOpens(t: Tree, id: MemberId, sk: Secret, draw: nat -> Secret, i: nat, k: nat)
    requires id in t.ids && t.ids[id] in t.leaves && 0 < k <= t.depth
    requires i in t.leaves && (i != t.ids[id] ==> t.leaves[i].pk.Single?)
    requires Anc(i, k) == Anc(t.ids[id], k)
    ensures var u := EncryptedTree(t, id, sk, draw); !Skip(u, Anc(i, k)) && Opens(u, i, k)
  {
    if Anc(i, k - 1) == Anc(t.ids[id], k - 1) {
      UpdateOpensOwnSide(t, id, sk, draw, i, k);
    } else {
      UpdateOpensOtherSide(t, id, sk, draw, i, k);
    }
  }

  /** One update keeps the tree readable for every member who could read it before. */
  lemma UpdateStaysReadable(t: Tree, id: MemberId, sk: Secret, draw: nat -> Secret, i: nat)
    requires id in t.ids && t.ids[id] in t.leaves && i in t.leaves && Readable(t, i)
    ensures Readable(EncryptedTree(t, id, sk, draw), i)
  {
    var e := t.ids[id];
    var u := EncryptedTree(t, id, sk, draw);
    forall k | 0 < k <= u.depth && !Skip(u, Anc(i, k))
      ensures Opens(u, i, k)
    {
      if Anc(i, k) == Anc(e, k) {
        UpdateOpens(t, id, sk, draw, i, k);
      } else {
        UpdateLeavesOthers(t, id, sk, draw, i, k);
        assert SameAt(t, u, Anc(i, k));
        SameOpens(t, u, i, k);
      }
    }
  }

  // ----- A readable tree decrypts -----

  /** Every node above leaf `e` has one version, and its secret is the leaf secret `s`
      ratcheted once per level. */
  ghost predicate Chained(t: Tree, e: nat, s: Secret) {
    && e in t.leaves
    && forall k :: 0 <= k <= t.depth ==> !Skip(t, Anc(e, k)) && KeyAt(t, Anc(e, k)) == Single(ShareKey(RatchetN(s, k)))
  }

  lemma UpdateIsChained(t: Tree, id: MemberId, sk: Secret, draw: nat -> Secret)
    requires id in t.ids && t.ids[id] in t.leaves
    ensures Chained(EncryptedTree(t, id, sk, draw), t.ids[id], sk)
  {
    forall k | 0 <= k <= t.depth
      ensures var u := EncryptedTree(t, id, sk, draw);
              !Skip(u, Anc(t.ids[id], k)) && KeyAt(u, Anc(t.ids[id], k)) == Single(ShareKey(RatchetN(sk, k)))
    {
      NewPathIsKeyed(t, id, sk, draw, k);
    }
  }

  /** The walk has the secret of the last resolved node it passed. */
  ghost predicate Climbing(t: Tree, i: nat, k: nat, key: NodeKey, seen: seq<Node>, sks: ShareKeyMap) {
    && i in t.leaves
    && seen != [] && seen[|seen| - 1] == Top(t, i, k)
    && (TopIsResolved(t, i, k); key == KeyAt(t, Top(t, i, k)))
    && key.Single? && key.pk in sks && Sound(sks)
  }

  /** One step of the walk opens the parent, from the key map or from its entry. */
  lemma StepOpens(t: Tree, i: nat, k: nat, key: NodeKey, seen: seq<Node>, sks: ShareKeyMap)
    requires Climbing(t, i, k, key, seen, sks) && !Skip(t, Anc(i, k + 1)) && Opens(t, i, k + 1)
    ensures var p := Anc(i, k + 1);
            && KeyAt(t, p) == Single(PkAt(t, p))
            && (PkAt(t, p) !in sks ==> DecryptStore(t.inner[p], key, sks, seen) == Ok(PkAt(t, p).secret))
  {
    var p := Anc(i, k + 1);
    KeyedIsSingle(t, i, p);
    var w := t.inner[p].versions[0];
    EntryDecrypts(w, key, sks, seen, w.pk.secret);
  }

  /** The walk passes over a blank or conflict parent. */
  lemma ClimbSkips(t: Tree, i: nat, k: nat, key: NodeKey, seen: seq<Node>, sks: ShareKeyMap, lca: Node,
                   last: Option<Secret>)
    requires k < t.depth && HasRootKey(t) && Anc(i, t.depth) == Root(t.depth) && Skip(t, Anc(i, k + 1))
    ensures Climb(t, i, k, key, seen, sks, lca, last) == Climb(t, i, k + 1, key, seen, sks, lca, last)
  {
    hide Skip, Opened, RatchetN, KeyAt;
  }

  /** It stops at a parent it cannot open or at the meeting point, and goes on otherwise. */
  lemma ClimbOpens(t: Tree, i: nat, k: nat, key: NodeKey, seen: seq<Node>, sks: ShareKeyMap, lca: Node,
                   last: Option<Secret>)
    requires k < t.depth && HasRootKey(t) && Anc(i, t.depth) == Root(t.depth) && !Skip(t, Anc(i, k + 1))
    ensures var p := Anc(i, k + 1); var got := Opened(t, p, key, seen, sks);
            Climb(t, i, k, key, seen, sks, lca, last)
            == if got.Err? then (Err(got.error), sks)
               else if p == lca then (Ok(RatchetN(got.value, t.depth - (k + 1))), sks[PkAt(t, p) := got.value])
               else Climb(t, i, k + 1, KeyAt(t, p), seen + [p], sks[PkAt(t, p) := got.value], lca, Some(got.value))
  {
    hide Skip, Opened, RatchetN, KeyAt, PkAt;
  }

  lemma {:induction false} ClimbSucceeds(t: Tree, i: nat, k: nat, key: NodeKey, seen: seq<Node>, sks: ShareKeyMap,
                                         m: nat, last: Option<Secret>, s: Secret)
    requires k < m <= t.depth && HasRootKey(t) && Anc(i, t.depth) == Root(t.depth)
    requires Climbing(t, i, k, key, seen, sks) && Readable(t, i)
    requires !Skip(t, Anc(i, m)) && KeyAt(t, Anc(i, m)) == Single(ShareKey(RatchetN(s, m)))
    ensures var r := Climb(t, i, k, key, seen, sks, Anc(i, m), last);
            && r.0 == Ok(RatchetN(s, t.depth))
            && Sound(r.1) && sks.Keys <= r.1.Keys
    decreases t.depth - k
  {
    hide StoreKey, Climb, RatchetN, HasRootKey, Climbing, KeyAt;
    var p := Anc(i, k + 1);
    if Skip(t, p) {
      ClimbSkips(t, i, k, key, seen, sks, Anc(i, m), last);
      SkippedClimbing(t, i, k, key, seen, sks);
      ClimbSucceeds(t, i, k + 1, key, seen, sks, m, last, s);
    } else {
      ClimbOpens(t, i, k, key, seen, sks, Anc(i, m), last);
      StepOpens(t, i, k, key, seen, sks);
      OpenedIsSound(t, i, k, key, seen, sks);
      var pk := PkAt(t, p);
      if p == Anc(i, m) {
        RatchetAdds(s, m, t.depth - m);
      } else {
        ClimbSucceeds(t, i, k + 1, KeyAt(t, p), seen + [p], sks[pk := pk.secret], m, Some(pk.secret), s);
      }
    }
  }

  lemma SkippedClimbing(t: Tree, i: nat, k: nat, key: NodeKey, seen: seq<Node>, sks: ShareKeyMap)
    requires Climbing(t, i, k, key, seen, sks) && Skip(t, Anc(i, k + 1))
    ensures Climbing(t, i, k + 1, key, seen, sks)
  {
    hide KeyAt;
  }

  /** What the walk obtains from a parent is its secret, and the walk goes on from there. */
  lemma OpenedIsSound(t: Tree, i: nat, k: nat, key: NodeKey, seen: seq<Node>, sks: ShareKeyMap)
    requires Climbing(t, i, k, key, seen, sks) && !Skip(t, Anc(i, k + 1))
    requires var p := Anc(i, k + 1);
             && KeyAt(t, p) == Single(PkAt(t, p))
             && (PkAt(t, p) !in sks ==> DecryptStore(t.inner[p], key, sks, seen) == Ok(PkAt(t, p).secret))
    ensures var p := Anc(i, k + 1); var pk := PkAt(t, p);
            && Opened(t, p, key, seen, sks) == Ok(pk.secret) && Sound(sks[pk := pk.secret])
            && Climbing(t, i, k + 1, KeyAt(t, p), seen + [p], sks[pk := pk.secret])
  {
    hide KeyAt, PkAt, DecryptStore;
  }

  /** Every member who can read the tree decrypts exactly the encrypter's root secret. */
  lemma DecryptsToRoot(t: Tree, id: MemberId, sks: ShareKeyMap, s: Secret)
    requires id in t.ids && t.ids[id] in t.leaves && t.ids[id] < Pow2(t.depth) && t.depth > 0
    requires t.encrypter.Some? && t.encrypter.value < Pow2(t.depth) && Chained(t, t.encrypter.value, s)
    requires Readable(t, t.ids[id]) && t.leaves[t.ids[id]].pk.pk in sks && Sound(sks)
    ensures HasRootKey(t)
    ensures var r := DecryptTreeSecret(t, id, sks);
            && r.0 == Ok(RatchetN(s, t.depth))
            && Sound(r.1) && sks.Keys <= r.1.Keys
  {
    var i, e := t.ids[id], t.encrypter.value;
    AncRoot(i, t.depth);
    AncRoot(e, t.depth);
    assert !Skip(t, Anc(e, t.depth));
    if i == e {
      assert KeyAt(t, Anc(e, 0)) == Single(ShareKey(s));
    } else {
      var m := MeetLevel(i, e);
      MeetLevelIsFirst(i, e, t.depth);
      MeetLevelIsFirst(i, e, m);
      assert !Skip(t, Anc(e, m));
      ClimbSucceeds(t, i, 0, t.leaves[i].pk, [Leaf(i)], sks, m, None, s);
    }
  }
}
