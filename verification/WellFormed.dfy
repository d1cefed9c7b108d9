/** Well-formedness of the key tree, kept by every operation. */
module WellFormed {
  import opened Seqs
  import opened Nodes
  import opened Crypto
  import opened NodeKeys
  import opened KeyTree
  import opened PathUpdate

  /** Ids point at their own leaves, and slots from `nextLeaf` on are blank. */
  ghost predicate Linked(t: Tree) {
    && (forall id :: id in t.ids ==> t.ids[id] in t.leaves && t.leaves[t.ids[id]].id == id)
    && (forall i :: i in t.leaves ==> i < t.nextLeaf)
  }

  /** Some member sits below the node. */
  ghost predicate Inhabited(t: Tree, n: Node) {
    exists i :: i in t.leaves && Under(i, n)
  }

  /** The shape of a reachable tree: room for every leaf, ids and non-blank leaves mutual
      inverses, the last used slot occupied, inner nodes inside the tree and above some
      member, and a current encrypter exactly when there is a root key. */
  ghost predicate WF(t: Tree) {
    && t.depth > 0
    && 0 < t.nextLeaf <= Pow2(t.depth) && t.nextLeaf - 1 in t.leaves
    && Linked(t)
    && (forall i :: i in t.leaves ==> t.leaves[i].id in t.ids && t.ids[t.leaves[i].id] == i)
    && (forall n :: n in t.inner ==> n.level > 0 && InTree(n, t.depth) && Inhabited(t, n))
    && (t.encrypter.Some? <==> HasRootKey(t))
    && (t.encrypter.Some? ==> t.encrypter.value in t.leaves)
  }

  lemma InTreeGrows(n: Node, d: nat, e: nat)
    requires InTree(n, d) && d <= e
    ensures InTree(n, e)
  {
    Pow2Monotone(d - n.level, e - n.level);
  }

  lemma RootUnder(i: nat, depth: nat)
    requires i < Pow2(depth)
    ensures Under(i, Root(depth))
  {
    AncRoot(i, depth);
  }

  lemma PushLeafLinked(t: Tree, id: MemberId, pk: NodeKey)
    requires Linked(t)
    ensures Linked(PushLeaf(t, id, pk))
  {}

  /** Only the new member's slot and id are set, the tree doubles when it is full, and exactly
      the nodes above the new slot are blanked. */
  ghost predicate MemberAdded(t: Tree, id: MemberId, pk: NodeKey, u: Tree) {
    var l := t.nextLeaf;
    && u.nextLeaf == l + 1 && u.leaves == t.leaves[l := LeafNode(id, pk)] && u.ids == t.ids[id := l]
    && u.encrypter.None? && u.depth == t.depth + (if l < Pow2(t.depth) then 0 else 1)
    && (forall n :: n in u.inner <==> n in t.inner && !Under(l, n))
    && forall n :: n in u.inner ==> u.inner[n] == t.inner[n]
  }

  lemma PushLeafAdds(t: Tree, id: MemberId, pk: NodeKey)
    ensures MemberAdded(t, id, pk, PushLeaf(t, id, pk))
  {}

  /** Only the member's slot and id are cleared; the next free slot follows the last member;
      and exactly the nodes above the cleared slot, or above a slot given up with it, are
      blanked. */
  ghost predicate MemberRemoved(t: Tree, id: MemberId, u: Tree)
    requires id in t.ids
  {
    var l := t.ids[id];
    && u.depth == t.depth && u.ids == t.ids - {id} && u.leaves == t.leaves - {l} && u.encrypter.None?
    && u.nextLeaf <= t.nextLeaf && (forall j :: u.nextLeaf <= j < t.nextLeaf ==> j !in u.leaves)
    && (u.nextLeaf == 0 || u.nextLeaf - 1 in u.leaves)
    && (forall n :: n in u.inner <==>
                      n in t.inner && !Under(l, n) && forall j :: u.nextLeaf <= j < t.nextLeaf ==> !Under(j, n))
    && forall n :: n in u.inner ==> u.inner[n] == t.inner[n]
  }

  lemma RemoveLeafRemoves(t: Tree, id: MemberId)
    requires id in t.ids
    ensures MemberRemoved(t, id, RemoveLeaf(t, id))
  {
    hide Under, Trim, Range;
    var u, l := RemoveLeaf(t, id), t.ids[id];
    forall n
      ensures n in u.inner <==>
              n in t.inner && !Under(l, n) && forall j :: u.nextLeaf <= j < t.nextLeaf ==> !Under(j, n)
    {
      assert forall j :: j in RemovedLeaves(t, l) <==> j == l || u.nextLeaf <= j < t.nextLeaf;
    }
  }

  /** Adding an absent id keeps the tree well formed; at most one doubling makes room. */
  lemma PushLeafWF(t: Tree, id: MemberId, pk: NodeKey)
    requires id !in t.ids && (WF(t) || t == EmptyTree())
    ensures WF(PushLeaf(t, id, pk))
  {
    var u := PushLeaf(t, id, pk);
    var l := t.nextLeaf;
    assert Pow2(1) == 2;
    assert l < Pow2(u.depth);
    RootUnder(l, u.depth);
    assert Root(u.depth) !in u.inner;
    forall n | n in u.inner
      ensures InTree(n, u.depth) && Inhabited(u, n)
    {
      InTreeGrows(n, t.depth, u.depth);
      var i :| i in t.leaves && Under(i, n);
      assert i in u.leaves;
    }
  }

  /** Removing a member keeps the tree well formed. The collection of tombstones stops
      above slot zero, because another member remains. */
  lemma RemoveLeafWF(t: Tree, id: MemberId)
    requires WF(t) && id in t.ids && |t.ids| != 1
    ensures WF(RemoveLeaf(t, id))
  {
    var u := RemoveLeaf(t, id);
    var l := t.ids[id];
    var other := OtherMember(t, id);
    assert t.ids[other] in u.leaves;
    RootUnder(l, t.depth);
    forall n | n in u.inner
      ensures Inhabited(u, n)
    {
      assert l in RemovedLeaves(t, l);
      var i :| i in t.leaves && Under(i, n);
      assert i in u.leaves;
    }
  }

  lemma OtherMember(t: Tree, id: MemberId) returns (other: MemberId)
    requires id in t.ids && |t.ids| != 1
    ensures other in t.ids && other != id
  {
    assert t.ids.Keys != {id};
    other :| other in t.ids && other != id;
  }

  lemma RemoveLeafLinked(t: Tree, id: MemberId)
    requires Linked(t) && id in t.ids
    ensures Linked(RemoveLeaf(t, id))
  {}

  lemma ApplyPathLinked(t: Tree, c: PathChange)
    requires Linked(t)
    ensures Linked(ApplyPath(t, c))
  {}

  lemma ApplyPathInner(t: Tree, c: PathChange, n: Node)
    requires WF(t) && Climbs(c.path, c.leafIdx) && c.leafId in t.ids && n in ApplyPath(t, c).inner
    ensures n.level > 0 && InTree(n, t.depth) && Inhabited(t, n)
  {
    hide MergeKey;
    var i := t.ids[c.leafId];
    if ValidPath(t, c) {
      MergeMeans(t.inner, c.path, ToSet(c.removed), i, n);
      if OnPath(n, i, |c.path|) {
        AncInTree(i, n.level, t.depth);
      }
    }
  }

  /** Applying any change that runs up its own leaf's path keeps the tree well formed,
      whether the path is still valid or only the leaf is updated. */
  lemma ApplyPathWF(t: Tree, c: PathChange)
    requires WF(t) && Climbs(c.path, c.leafIdx)
    ensures WF(ApplyPath(t, c))
  {
    hide MergeKey, MergePath, InTree, Under;
    if c.leafId in t.ids {
      var u := ApplyPath(t, c);
      var i := t.ids[c.leafId];
      assert u.leaves.Keys == t.leaves.Keys;
      RootUnder(i, t.depth);
      forall n | n in u.inner
        ensures n.level > 0 && InTree(n, u.depth) && Inhabited(u, n)
      {
        ApplyPathInner(t, c, n);
        var j :| j in t.leaves && Under(j, n);
        assert j in u.leaves;
      }
      if !ValidPath(t, c) {
        assert Root(u.depth) !in u.inner;
      }
    }
  }

  lemma EncryptedTreeWF(t: Tree, id: MemberId, sk: Secret, draw: nat -> Secret)
    requires WF(t) && id in t.ids
    ensures WF(EncryptedTree(t, id, sk, draw))
  {
    SenderReceiverAgree(t, id, sk, draw);
    NewPathClimbs(t, t.ids[id], sk, draw, t.depth);
    ApplyPathWF(t, EncryptedChange(t, id, sk, draw));
  }
}
