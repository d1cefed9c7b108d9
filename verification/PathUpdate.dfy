/** What writing or merging a path does to each node, and why the member who encrypts
    a path and the members who apply it end up with the same tree. */
module PathUpdate {
  import opened Seqs
  import opened Nodes
  import opened Crypto
  import opened NodeKeys
  import opened KeyTree

  /** The path runs up from leaf `i`, one node per level. */
  predicate Climbs(path: seq<(Node, Store)>, i: nat) {
    forall j :: 0 <= j < |path| ==> path[j].0 == Anc(i, j + 1)
  }

  /** A path up from a leaf of the tree stays inside it. */
  lemma ClimbsInside(t: Tree, c: PathChange)
    requires Climbs(c.path, c.leafIdx) && c.leafIdx < Pow2(t.depth)
    ensures PathStop(t, c).None?
  {
    forall k | 0 <= k < |c.path| <= t.depth
      ensures Inner(c.path[k].0, t.depth)
    {
      AncInTree(c.leafIdx, k + 1, t.depth);
    }
  }

  /** The node is one of the first `k` above leaf `i`. */
  predicate OnPath(n: Node, i: nat, k: nat) {
    0 < n.level <= k && Under(i, n)
  }

  lemma {:induction false} OverwriteMeans(inner: map<Node, Store>, path: seq<(Node, Store)>, i: nat, n: Node)
    requires Climbs(path, i)
    ensures var out := Overwrite(inner, path);
            if OnPath(n, i, |path|) then n in out && out[n] == path[n.level - 1].1
            else (n in out <==> n in inner) && (n in inner ==> out[n] == inner[n])
  {
    if path != [] {
      OverwriteMeans(inner, path[..|path| - 1], i, n);
    }
  }

  lemma {:induction false} MergeMeans(inner: map<Node, Store>, path: seq<(Node, Store)>, removed: set<ShareKey>,
                                      i: nat, n: Node)
    requires Climbs(path, i)
    ensures var out := MergePath(inner, path, removed);
            if OnPath(n, i, |path|) then n in out && out[n] == MergeAt(inner, n, path[n.level - 1].1, removed)
            else (n in out <==> n in inner) && (n in inner ==> out[n] == inner[n])
  {
    if path != [] {
      MergeMeans(inner, path[..|path| - 1], removed, i, n);
    }
  }

  lemma {:induction false} PathKeysInclude(t: Tree, i: nat, k: nat, j: nat, w: Version)
    requires 0 < j <= k && Anc(i, j) in t.inner && w in t.inner[Anc(i, j)].versions
    ensures w.pk in PathKeys(t, i, k)
  {
    if j < k {
      PathKeysInclude(t, i, k - 1, j, w);
    } else {
      var vs := t.inner[Anc(i, j)].versions;
      var x :| 0 <= x < |vs| && vs[x] == w;
      assert VersionKeys(vs)[x] == w.pk;
    }
  }

  /** A key listed for the path is the key of some version on it. */
  lemma {:induction false} PathKeysOnly(t: Tree, i: nat, k: nat, pk: ShareKey) returns (j: nat, w: Version)
    requires pk in PathKeys(t, i, k)
    ensures 0 < j <= k && Anc(i, j) in t.inner && w in t.inner[Anc(i, j)].versions && w.pk == pk
  {
    if pk in PathKeys(t, i, k - 1) {
      j, w := PathKeysOnly(t, i, k - 1, pk);
    } else {
      var vs := t.inner[Anc(i, k)].versions;
      var x :| 0 <= x < |vs| && VersionKeys(vs)[x] == pk;
      j, w := k, vs[x];
    }
  }

  lemma {:induction false} KeepNone(vs: seq<Version>, removed: set<ShareKey>)
    requires forall w :: w in vs ==> w.pk in removed
    ensures KeepVersions(vs, removed) == []
  {
    if vs != [] {
      KeepNone(vs[1..], removed);
    }
  }

  lemma NewPathClimbs(t: Tree, i: nat, sk: Secret, draw: nat -> Secret, k: nat)
    ensures Climbs(NewPath(t, i, sk, draw, k), i)
  {}

  /** Every version the path meets is superseded. */
  ghost predicate Supersedes(inner: map<Node, Store>, i: nat, k: nat, removed: set<ShareKey>) {
    forall n, w :: n in inner && OnPath(n, i, k) && w in inner[n].versions ==> w.pk in removed
  }

  lemma MergeIsOverwrite(inner: map<Node, Store>, path: seq<(Node, Store)>, removed: set<ShareKey>, i: nat)
    requires Climbs(path, i) && Supersedes(inner, i, |path|, removed)
    ensures MergePath(inner, path, removed) == Overwrite(inner, path)
  {
    var a, b := MergePath(inner, path, removed), Overwrite(inner, path);
    forall n: Node
      ensures (n in a <==> n in b) && (n in a ==> a[n] == b[n])
    {
      MergeMeans(inner, path, removed, i, n);
      OverwriteMeans(inner, path, i, n);
      if OnPath(n, i, |path|) && n in inner {
        KeepNone(inner[n].versions, removed);
        assert [] + path[n.level - 1].1.versions == path[n.level - 1].1.versions;
      }
    }
  }

  lemma ChangeSupersedes(t: Tree, id: MemberId, sk: Secret, draw: nat -> Secret)
    requires id in t.ids && t.ids[id] in t.leaves
    ensures Supersedes(t.inner, t.ids[id], t.depth, ToSet(EncryptedChange(t, id, sk, draw).removed))
  {
    var i := t.ids[id];
    forall n, w | n in t.inner && OnPath(n, i, t.depth) && w in t.inner[n].versions
      ensures w.pk in PathKeys(t, i, t.depth)
    {
      PathKeysInclude(t, i, t.depth, n.level, w);
    }
  }

  lemma LeafKeyReplaced(t: Tree, id: MemberId, sk: Secret, draw: nat -> Secret)
    requires id in t.ids && t.ids[id] in t.leaves
    ensures var c := EncryptedChange(t, id, sk, draw);
            MergeKey(t.leaves[t.ids[id]].pk, c.leafPk, ToSet(c.removed)) == Single(ShareKey(sk))
  {
    var c := EncryptedChange(t, id, sk, draw);
    var before := t.leaves[t.ids[id]].pk;
    var removed := ToSet(c.removed);
    assert forall k :: k in Keys(before) ==> k in removed;
    if before.Conflict? {
      WithoutAll(Keys(before), removed);
      assert Keys(c.leafPk) + [] == [ShareKey(sk)];
      assert SortKeys([ShareKey(sk)]) == [ShareKey(sk)];
    }
  }

  lemma {:induction false} WithoutAll(keys: seq<ShareKey>, removed: set<ShareKey>)
    requires forall k :: k in keys ==> k in removed
    ensures Without(keys, removed) == []
  {
    if keys != [] {
      WithoutAll(keys[1..], removed);
    }
  }

  /** What the sender's tree holds `k` levels above the leaf. */
  lemma NewPathAt(t: Tree, id: MemberId, sk: Secret, draw: nat -> Secret, k: nat)
    requires id in t.ids && t.ids[id] in t.leaves && 0 < k <= t.depth
    ensures var u := EncryptedTree(t, id, sk, draw); var n := Anc(t.ids[id], k);
            n in u.inner && u.inner[n] == PathStore(t, t.ids[id], sk, draw, k - 1).1
  {
    var i := t.ids[id];
    OverwriteMeans(t.inner, NewPath(t, i, sk, draw, t.depth), i, Anc(i, k));
  }

  /** Every node of a freshly encrypted path has a single version: the leaf secret
      ratcheted once per level. */
  lemma NewPathIsKeyed(t: Tree, id: MemberId, sk: Secret, draw: nat -> Secret, k: nat)
    requires id in t.ids && t.ids[id] in t.leaves && k <= t.depth
    ensures var u := EncryptedTree(t, id, sk, draw); var n := Anc(t.ids[id], k);
            !Skip(u, n) && KeyAt(u, n) == Single(ShareKey(RatchetN(sk, k)))
  {
    if k > 0 {
      NewPathAt(t, id, sk, draw, k);
    }
  }

  /** A second update removes the keys of the first. */
  lemma SecondRemoves(t: Tree, id: MemberId, sk: Secret, draw: nat -> Secret, sk': Secret, draw': nat -> Secret,
                      pk: ShareKey)
    requires id in t.ids && t.ids[id] in t.leaves
    requires pk in EncryptedChange(EncryptedTree(t, id, sk, draw), id, sk', draw').removed
    ensures exists k :: pk == ShareKey(RatchetN(sk, k))
  {
    var u, i := EncryptedTree(t, id, sk, draw), t.ids[id];
    if pk in PathKeys(u, i, u.depth) {
      var k, w := PathKeysOnly(u, i, u.depth, pk);
      NewPathIsKeyed(t, id, sk, draw, k);
      OneKey(u.inner[Anc(i, k)], w);
    } else {
      assert pk == ShareKey(RatchetN(sk, 0));
    }
  }

  lemma OneKey(s: Store, w: Version)
    requires !HasConflict(s) && w in s.versions
    ensures StoreKey(s).Single? && StoreKey(s).pk == w.pk
  {}

  /** Sender and receiver agree: applying the emitted change to the tree it was made
      from gives exactly the sender's tree, whatever blank and conflict nodes or
      conflict leaf key the path held. */
  lemma SenderReceiverAgree(t: Tree, id: MemberId, sk: Secret, draw: nat -> Secret)
    requires id in t.ids && t.ids[id] in t.leaves && t.ids[id] < Pow2(t.depth) && t.depth > 0
    ensures ApplyPath(t, EncryptedChange(t, id, sk, draw)) == EncryptedTree(t, id, sk, draw)
  {
    var c := EncryptedChange(t, id, sk, draw);
    ChangeSupersedes(t, id, sk, draw);
    MergeIsOverwrite(t.inner, c.path, ToSet(c.removed), t.ids[id]);
    LeafKeyReplaced(t, id, sk, draw);
    NewPathIsKeyed(t, id, sk, draw, t.depth);
    AncRoot(t.ids[id], t.depth);
  }
}
