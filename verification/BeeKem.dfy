/** `BeeKem`: the key tree kept in two vectors and updated in place.

    Node coordinates stand for the code's tree indices (module TreeMath proves the index
    arithmetic); `InnerIndex` is the slot of an inner node in its vector. */
module BeeKemTree {
  import opened Seqs
  import opened Results
  import opened Nodes
  import opened TreeMath
  import opened Crypto
  import opened NodeKeys
  import opened KeyTree
  import opened PathUpdate
  import opened WellFormed
  import opened Vectors
  import opened Agreement
  import opened Recovery
  import opened Resolutions
  import Normalise

  /** Leaf counts the `u32` arithmetic of `TreeSize` can take. */
  const LEAF_LIMIT: nat := 0x4000_0000

  lemma LeafLimit()
    ensures Pow2(30) == LEAF_LIMIT
  {
    assert Pow2(10) == 0x400;
    assert Pow2(20) == 0x10_0000;
  }

  /** A full tree below the limit can double. */
  lemma RoomFor(n: nat, depth: nat)
    requires n < LEAF_LIMIT && n == Pow2(depth) && depth <= 30
    ensures depth < 30 && n < Pow2(depth + 1)
  {
    LeafLimit();
  }

  lemma BlankedNone(inner: map<Node, Store>, n: nat)
    ensures Blanked(inner, Range(n, n)) == inner
  {}

  /** Another member's leaf survives the removal. */
  lemma RemainingLeaf(t: Tree, id: MemberId) returns (other: nat)
    requires Linked(t) && id in t.ids && |t.ids| != 1
    ensures other in t.leaves - {t.ids[id]} && other < t.nextLeaf
  {
    var m := OtherMember(t, id);
    other := t.ids[m];
  }

  lemma Unlink(t: Tree, id: MemberId)
    requires Linked(t) && id in t.ids
    ensures Linked(t.(ids := t.ids - {id})) && t.ids[id] in t.leaves && t.ids[id] < t.nextLeaf
    ensures forall m :: m in t.ids - {id} ==> (t.ids - {id})[m] != t.ids[id]
  {}

  lemma MergeStart(inner: map<Node, Store>, path: seq<(Node, Store)>, removed: set<ShareKey>)
    ensures MergePath(inner, path[..0], removed) == inner
  {}

  lemma MergeNext(inner: map<Node, Store>, path: seq<(Node, Store)>, removed: set<ShareKey>, j: nat)
    requires j < |path|
    ensures var rest := MergePath(inner, path[..j], removed);
            MergePath(inner, path[..j + 1], removed) == rest[path[j].0 := MergeAt(rest, path[j].0, path[j].1, removed)]
  {
    assert path[..j + 1][..j] == path[..j];
  }

  lemma LeafInTree(i: nat, depth: nat)
    ensures InTree(Leaf(i), depth) <==> i < Pow2(depth)
    ensures Index(Leaf(i)) == 2 * i
    ensures depth <= 30 ==> Pow2(depth) < 0x8000_0000
  {
    Pow2Constants();
    if depth <= 30 {
      Pow2Monotone(depth, 30);
    }
  }

  lemma SlotBound(n: Node, depth: nat)
    requires n.level > 0
    ensures InTree(n, depth) <==> InnerIndex(n) < Pow2(depth) - 1
  {
    hide Index, NodeAt, Level;
    if InTree(n, depth) {
      IndexInBounds(n, depth);
    } else if InnerIndex(n) < Pow2(depth) - 1 {
      var v := SlotIsNode(InnerIndex(n), depth);
      InnerIndexInjective(n, v);
    }
  }

  // ----- Steps of `encrypt_path` -----

  /** Entries for the first `j` nodes of the resolution, and one for the child. */
  ghost predicate Sealed(t: Tree, child: Node, childSk: Secret, res: seq<Node>, j: nat,
                         entries: map<Node, EncryptedSecret>)
    requires j <= |res| && forall n :: n in res ==> !Skip(t, n)
  {
    && (forall n :: n in entries <==> n in res[..j] || (n == child && j > 0))
    && (forall n :: n in res[..j] ==> entries[n] == EncryptSecret(Ratcheted(childSk), childSk, PkAt(t, n)))
    && (j > 0 ==> entries[child] == EncryptSecret(Ratcheted(childSk), childSk, PkAt(t, res[0])))
  }

  lemma SealStart(t: Tree, child: Node, childSk: Secret, res: seq<Node>)
    requires forall n :: n in res ==> !Skip(t, n)
    ensures Sealed(t, child, childSk, res, 0, map[])
  {}

  lemma SealStep(t: Tree, child: Node, childSk: Secret, res: seq<Node>, j: nat, entries: map<Node, EncryptedSecret>)
    requires j < |res| && (forall n :: n in res ==> !Skip(t, n)) && child !in res &&
             Sealed(t, child, childSk, res, j, entries)
    ensures var sealed := EncryptSecret(Ratcheted(childSk), childSk, PkAt(t, res[j]));
            var kept := if j == 0 then entries[child := sealed] else entries;
            Sealed(t, child, childSk, res, j + 1, kept[res[j] := sealed])
  {
    hide Skip, PkAt;
    assert res[..j + 1] == res[..j] + [res[j]];
  }

  lemma SealDone(t: Tree, child: Node, childSk: Secret, res: seq<Node>, entries: map<Node, EncryptedSecret>)
    requires res == Resolution(t, Sibling(child)) && res != [] && child !in res
    requires Sealed(t, child, childSk, res, |res|, entries)
    ensures entries == NewEntries(t, child, childSk, childSk)
  {
    hide Skip, PkAt, Resolution;
    assert res[..|res|] == res;
  }

  lemma RekeyStart(t: Tree, i: nat, sk: Secret, draw: nat -> Secret)
    ensures NewPath(t, i, sk, draw, 0) == [] && Overwrite(t.inner, []) == t.inner
    ensures PathKeys(t, i, 0) == [] && PathCost(t, i, 0) == 0 && RatchetN(sk, 0) == sk
  {}

  /** The next level: computed from the tree as re-keyed so far, but the same as from the
      tree before the update. */
  lemma RekeyStep(t: Tree, u: Tree, i: nat, k: nat, sk: Secret, draw: nat -> Secret, id: MemberId, pk: ShareKey)
    requires i in t.leaves && ResolvesToSingles(t, Sibling(Anc(i, k)))
    requires u == t.(leaves := t.leaves[i := LeafNode(id, Single(pk))],
                     inner := Overwrite(t.inner, NewPath(t, i, sk, draw, k)))
    ensures Get(u.inner, Anc(i, k + 1)) == Get(t.inner, Anc(i, k + 1))
    ensures ResolvesToSingles(u, Sibling(Anc(i, k)))
    ensures RatchetN(sk, k + 1) == Ratcheted(RatchetN(sk, k))
    ensures var s := NewStore(u, Anc(i, k), RatchetN(sk, k), draw(k));
            && NewPath(t, i, sk, draw, k + 1) == NewPath(t, i, sk, draw, k) + [(Anc(i, k + 1), s)]
            && Overwrite(t.inner, NewPath(t, i, sk, draw, k + 1))
               == Overwrite(t.inner, NewPath(t, i, sk, draw, k))[Anc(i, k + 1) := s]
    ensures var n := Anc(i, k + 1);
            PathKeys(t, i, k + 1) == PathKeys(t, i, k) + (if n in t.inner then Keys(StoreKey(t.inner[n])) else [])
    ensures PathCost(t, i, k + 1) == PathCost(t, i, k) + StoreCost(u, Anc(i, k))
  {
    hide NewStore, StoreCost, NewPath, Overwrite, ResolvesToSingles, SameOffPath, StoreKey;
    var path := NewPath(t, i, sk, draw, k);
    NewPathClimbs(t, i, sk, draw, k);
    RekeyedOffPath(t, u, i, path, LeafNode(id, Single(pk)));
    SameNewStore(t, u, i, k, RatchetN(sk, k), draw(k));
    OverwriteMeans(t.inner, path, i, Anc(i, k + 1));
    SameSingles(t, u, i, k);
    LongerPath(t, i, k, sk, draw);
  }

  lemma SiblingSingles(t: Tree, i: nat, k: nat)
    requires CanEncrypt(t, i) && k < t.depth
    ensures ResolvesToSingles(t, Sibling(Anc(i, k)))
  {}

  lemma LongerPath(t: Tree, i: nat, k: nat, sk: Secret, draw: nat -> Secret)
    ensures var s := NewStore(t, Anc(i, k), RatchetN(sk, k), draw(k));
            && NewPath(t, i, sk, draw, k + 1) == NewPath(t, i, sk, draw, k) + [(Anc(i, k + 1), s)]
            && Overwrite(t.inner, NewPath(t, i, sk, draw, k + 1))
               == Overwrite(t.inner, NewPath(t, i, sk, draw, k))[Anc(i, k + 1) := s]
  {
    hide NewStore;
    var path := NewPath(t, i, sk, draw, k);
    assert NewPath(t, i, sk, draw, k + 1)[..k] == path;
  }

  // ----- Steps of `decrypt_tree_secret` and `conflict_node_count` -----

  lemma MeetIsInner(i: nat, e: nat)
    requires i != e
    ensures Anc(i, MeetLevel(i, e)).level > 0
  {}

  lemma ClimbEnds(t: Tree, i: nat, key: NodeKey, seen: seq<Node>, sks: ShareKeyMap, lca: Node, last: Option<Secret>)
    requires KeyTree.HasRootKey(t) && Anc(i, t.depth) == Root(t.depth)
    ensures Climb(t, i, t.depth, key, seen, sks, lca, last)
         == (if last.Some? then Ok(last.value) else Err(NoRootKey), sks)
  {}

  lemma RootIsKeyed(t: Tree, i: nat, k: nat)
    requires KeyTree.HasRootKey(t) && Anc(i, t.depth) == Root(t.depth) && k <= t.depth && Skip(t, Anc(i, k))
    ensures k < t.depth
  {}

  lemma KeyOfResolved(t: Tree, n: Node)
    requires n.level > 0 && !Skip(t, n)
    ensures n in t.inner && KeyAt(t, n) == StoreKey(t.inner[n])
  {}

  lemma ConflictSlots(t: Tree, j: nat, n: Node)
    requires n.level > 0 && InnerIndex(n) == j && forall v :: v in t.inner ==> v.level > 0
    ensures forall v :: v in ConflictNodes(t) ==> (InnerIndex(v) < j + 1 <==> InnerIndex(v) < j || v == n)
  {
    forall v | v in ConflictNodes(t) && InnerIndex(v) == j
      ensures v == n
    {
      InnerIndexInjective(v, n);
    }
  }

  // ----- Steps of the normalisation -----

  lemma BlankRemovedNone(t: Tree)
    ensures Normalise.BlankRemoved(t, Normalise.Slots({})) == t
  {
    assert Normalise.Slots({}) == {};
  }

  lemma BlankRemovedStep(t: Tree, done: set<(MemberId, nat)>, r: (MemberId, nat))
    ensures Normalise.BlankRemoved(t, Normalise.Slots(done + {r}))
         == Normalise.BlankLeafAndPath(Normalise.BlankRemoved(t, Normalise.Slots(done)), r.1)
    ensures Normalise.RemovedIds(done + {r}) == Normalise.RemovedIds(done) + {r.0}
  {
    var slots := Normalise.Slots(done);
    assert Normalise.Slots(done + {r}) == slots + {r.1};
    BlankedTwice(t.inner, slots, {r.1});
    assert t.leaves - slots - {r.1} == t.leaves - (slots + {r.1});
    assert slots == {} ==> slots + {r.1} == {r.1};
  }

  lemma PopMore(t: Tree, added: set<MemberId>, popped: seq<LeafNode>)
    requires added != {} && t.nextLeaf > 0
    ensures var i := t.nextLeaf - 1;
            var more := if i in t.leaves then [t.leaves[i]] else [];
            var rest := Normalise.Pop(Normalise.BlankLeafAndPath(t, i).(nextLeaf := i),
              if i in t.leaves then added - {t.leaves[i].id} else added);
            Normalise.Pop(t, added).0 == rest.0 && popped + Normalise.Pop(t, added).1 == (popped + more) + rest.1
    ensures popped + [] == popped
  {}

  lemma PopDone(t: Tree, added: set<MemberId>, popped: seq<LeafNode>)
    requires added == {} || t.nextLeaf == 0
    ensures Normalise.Pop(t, added) == (t, []) && popped + [] == popped
  {}

  lemma {:induction false} SortKeepsLength(ls: seq<LeafNode>)
    ensures |Normalise.SortById(ls)| == |ls|
  {
    if ls != [] {
      SortKeepsLength(ls[1..]);
      InsertKeepsLength(ls[0], Normalise.SortById(ls[1..]));
    }
  }

  lemma {:induction false} InsertKeepsLength(leaf: LeafNode, ls: seq<LeafNode>)
    ensures |Normalise.InsertLeaf(leaf, ls)| == |ls| + 1
  {
    if ls != [] && leaf.id > ls[0].id {
      InsertKeepsLength(leaf, ls[1..]);
    }
  }

  class BeeKem {
    var nextLeafIdx: nat
    var leaves: seq<Option<LeafNode>>
    var innerNodes: seq<Option<Store>>
    var treeSize: nat
    var idToLeafIdx: map<MemberId, nat>
    var encrypterIdx: Option<nat>
    /** The tree the fields hold. */
    ghost var model: Tree

    ghost predicate Valid()
      reads this
    {
      && 0 < model.depth <= 30 && treeSize == SizeOf(model.depth)
      && nextLeafIdx == model.nextLeaf <= Pow2(model.depth)
      && LeavesMatch(leaves, model.leaves, model.depth)
      && InnerMatch(innerNodes, model.inner, model.depth)
      && idToLeafIdx == model.ids && encrypterIdx == model.encrypter
    }

    lemma Bounds()
      requires Valid()
      ensures 0 < model.depth <= 30 && nextLeafIdx == model.nextLeaf <= Pow2(model.depth)
      ensures forall n :: n in model.inner ==> Inner(n, model.depth)
    {}

    constructor (id: MemberId, pk: ShareKey)
      ensures Valid() && model == NewTree(id, pk)
    {
      nextLeafIdx, treeSize, idToLeafIdx, encrypterIdx := 0, 3, map[], None;
      leaves, innerNodes := [None, None], [None];
      model := EmptyTree();
      new;
      assert Pow2(1) == 2 && Pow2(2) == 4;
      var l := PushLeaf(id, Single(pk));
    }

    // ----- Reading -----

    method IsRoot(n: Node) returns (b: bool)
      requires Valid() && InTree(n, model.depth)
      ensures b <==> n.level == model.depth
      ensures b <==> n == Root(model.depth)
    {
      Pow2Constants();
      Pow2Monotone(model.depth + 1, 31);
      var r := ComputeRoot(treeSize, model.depth);
      BelowRoot(n, model.depth);
      b := Index(n) == r;
    }

    method InnerNode(n: Node) returns (s: Option<Store>)
      requires Valid() && Inner(n, model.depth)
      ensures s == Get(model.inner, n)
    {
      ReadInner(innerNodes, model.inner, model.depth, n);
      s := innerNodes[InnerIndex(n)];
    }

    /** `should_skip_for_resolution`. */
    method ShouldSkip(n: Node) returns (b: bool)
      requires Valid() && InTree(n, model.depth)
      ensures b <==> Skip(model, n)
    {
      if n.level == 0 {
        b := leaves[n.pos].None?;
      } else {
        var s := InnerNode(n);
        b := s.None? || HasConflict(s.value);
      }
    }

    /** `has_root_key`. */
    method HasRootKey() returns (b: bool)
      requires Valid()
      ensures b <==> KeyTree.HasRootKey(model)
    {
      Pow2Constants();
      Pow2Monotone(model.depth + 1, 31);
      var r := ComputeRoot(treeSize, model.depth);
      IndexRoundTrip(Root(model.depth));
      var skip := ShouldSkip(NodeAt(r));
      b := !skip;
    }

    /** `append_resolution`, with its accumulator. */
    method AppendResolution(n: Node, acc: seq<Node>) returns (all: seq<Node>)
      requires Valid() && InTree(n, model.depth)
      ensures all == acc + Resolution(model, n)
      decreases n.level
    {
      hide Valid, Skip, InTree;
      var skip := ShouldSkip(n);
      all := acc;
      if skip {
        if n.level > 0 {
          ChildrenInTree(n, model.depth);
          all := AppendResolution(Left(n), all);
          all := AppendResolution(Right(n), all);
        }
      } else {
        all := all + [n];
      }
    }

    /** `node_key_for_index`. */
    method NodeKeyForIndex(n: Node) returns (r: Result<NodeKey>)
      requires Valid() && InTree(n, model.depth)
      ensures n.level == 0 ==> r == if n.pos in model.leaves then Ok(model.leaves[n.pos].pk) else Err(ShareKeyNotFound)
      ensures n.level > 0 ==> r == if n in model.inner then Ok(StoreKey(model.inner[n])) else Err(ShareKeyNotFound)
    {
      if n.level == 0 {
        var leaf := leaves[n.pos];
        return if leaf.Some? then Ok(leaf.value.pk) else Err(ShareKeyNotFound);
      }
      var s := InnerNode(n);
      return if s.Some? then Ok(StoreKey(s.value)) else Err(ShareKeyNotFound);
    }

    // ----- Blanking, adding and removing -----

    method BlankInnerNode(n: Node)
      requires Valid() && Inner(n, model.depth)
      modifies this`innerNodes, this`model
      ensures Valid() && model == old(model).(inner := old(model).inner - {n})
    {
      hide LeavesMatch, InnerMatch, InnerIndex, InTree;
      ClearInner(innerNodes, model.inner, model.depth, n);
      innerNodes := innerNodes[InnerIndex(n) := None];
      model := model.(inner := model.inner - {n});
    }

    /** `blank_path` from above leaf `i`. */
    method BlankPath(i: nat)
      requires Valid() && i < Pow2(model.depth)
      modifies this`innerNodes, this`encrypterIdx, this`model
      ensures Valid() && model == KeyTree.BlankPath(old(model), i)
    {
      hide Valid, BlankedTo, Blanked, InTree;
      ghost var t := model;
      Bounds();
      BlankedAll(t.inner, i, t.depth);
      var n := Parent(Leaf(i));
      AncInTree(i, 1, t.depth);
      var root := IsRoot(n);
      while !root
        invariant Valid() && 0 < n.level <= t.depth && n == Anc(i, n.level) && InTree(n, t.depth)
        invariant root <==> n.level == t.depth
        invariant model == t.(inner := BlankedTo(t.inner, i, n.level - 1))
        decreases t.depth - n.level
      {
        BlankInnerNode(n);
        BlankStep(t.inner, i, n.level - 1);
        AncInTree(i, n.level + 1, t.depth);
        n := Parent(n);
        root := IsRoot(n);
      }
      BlankInnerNode(n);
      BlankStep(t.inner, i, n.level - 1);
      DropEncrypter();
    }

    method DropEncrypter()
      requires Valid()
      modifies this`encrypterIdx, this`model
      ensures Valid() && model == old(model).(encrypter := None)
    {
      hide LeavesMatch, InnerMatch;
      encrypterIdx := None;
      model := model.(encrypter := None);
    }

    /** `maybe_grow_tree`: one doubling always makes room. */
    method MaybeGrowTree()
      requires Valid() && nextLeafIdx < LEAF_LIMIT
      modifies this`leaves, this`innerNodes, this`treeSize, this`model
      ensures Valid() && nextLeafIdx < Pow2(model.depth)
      ensures var d := old(model).depth;
              model == old(model).(depth := if nextLeafIdx < Pow2(d) then d else d + 1)
    {
      hide Pow2, SizeOf, LeavesMatch, InnerMatch;
      var needed := FromLeafCount(nextLeafIdx);
      if treeSize >= needed {
        return;
      }
      RoomFor(nextLeafIdx, model.depth);
      IncDoubles(model.depth);
      IncDoubles(model.depth + 1);
      treeSize := 2 * treeSize + 1;
      GrowTreeToSize();
    }

    /** `grow_tree_to_size`. */
    method GrowTreeToSize()
      requires model.depth < 30 && treeSize / 2 == Pow2(model.depth + 1) - 1
      requires LeavesMatch(leaves, model.leaves, model.depth) && InnerMatch(innerNodes, model.inner, model.depth)
      modifies this`leaves, this`innerNodes, this`model
      ensures model == old(model).(depth := old(model).depth + 1)
      ensures LeavesMatch(leaves, model.leaves, model.depth) && InnerMatch(innerNodes, model.inner, model.depth)
    {
      var extraLeaves: seq<Option<LeafNode>> := seq(treeSize / 2 + 1 - |leaves|, _ => None);
      var extraInner: seq<Option<Store>> := seq(treeSize / 2 - |innerNodes|, _ => None);
      GrowLeaves(leaves, model.leaves, model.depth, extraLeaves);
      GrowInner(innerNodes, model.inner, model.depth, extraInner);
      hide LeavesMatch, InnerMatch;
      leaves := leaves + extraLeaves;
      innerNodes := innerNodes + extraInner;
      model := model.(depth := model.depth + 1);
    }

    /** `push_leaf`. */
    method PushLeaf(id: MemberId, pk: NodeKey) returns (l: nat)
      requires Valid() && nextLeafIdx < LEAF_LIMIT
      modifies this
      ensures Valid() && l == old(nextLeafIdx) && model == KeyTree.PushLeaf(old(model), id, pk)
      ensures MemberAdded(old(model), id, pk, model)
    {
      ghost var t := model;
      PushLeafAdds(t, id, pk);
      hide MemberAdded;
      MaybeGrowTree();
      l := nextLeafIdx;
      WriteLeaf(leaves, model.leaves, model.depth, l, LeafNode(id, pk));
      nextLeafIdx := nextLeafIdx + 1;
      leaves := leaves[l := Some(LeafNode(id, pk))];
      idToLeafIdx := idToLeafIdx[id := l];
      model := model.(nextLeaf := l + 1, leaves := model.leaves[l := LeafNode(id, pk)], ids := model.ids[id := l]);
      BlankPath(l);
    }

    /** `blank_leaf_and_path`. */
    method BlankLeafAndPath(i: nat)
      requires Valid() && i < Pow2(model.depth)
      modifies this`leaves, this`innerNodes, this`encrypterIdx, this`model
      ensures Valid() && model == KeyTree.BlankPath(old(model).(leaves := old(model).leaves - {i}), i)
    {
      ClearLeaf(leaves, model.leaves, model.depth, i);
      leaves := leaves[i := None];
      model := model.(leaves := model.leaves - {i});
      BlankPath(i);
    }

    /** The public keys on the path above leaf `i`, as `remove_id` collects them. */
    method KeysOnPath(i: nat) returns (keys: seq<ShareKey>)
      requires Valid() && i < Pow2(model.depth)
      ensures keys == PathKeys(model, i, model.depth)
    {
      hide Valid, StoreKey;
      Bounds();
      keys := [];
      var n := Leaf(i);
      var root := IsRoot(n);
      while !root
        invariant n.level <= model.depth && n == Anc(i, n.level) && InTree(n, model.depth)
        invariant root <==> n.level == model.depth
        invariant keys == PathKeys(model, i, n.level)
        decreases model.depth - n.level
      {
        AncInTree(i, n.level + 1, model.depth);
        n := Parent(n);
        var s := InnerNode(n);
        if s.Some? {
          keys := keys + Keys(StoreKey(s.value));
        }
        root := IsRoot(n);
      }
    }

    /** `remove_id`. Collecting tombstones never runs below slot zero: another member's
        leaf remains. */
    method RemoveId(id: MemberId) returns (r: Result<(nat, seq<ShareKey>)>)
      requires Valid() && Linked(model)
      modifies this
      ensures Valid()
      ensures |old(model).ids| == 1 ==> r == Err(RemoveLastMember) && model == old(model)
      ensures |old(model).ids| != 1 && id !in old(model).ids ==> r == Err(IdentifierNotFound) && model == old(model)
      ensures |old(model).ids| != 1 && id in old(model).ids ==>
                && model == RemoveLeaf(old(model), id) && MemberRemoved(old(model), id, model)
                && r == Ok((old(model).ids[id], PathKeys(old(model), old(model).ids[id], old(model).depth)))
    {
      if |idToLeafIdx| == 1 {
        return Err(RemoveLastMember);
      }
      if id !in idToLeafIdx {
        return Err(IdentifierNotFound);
      }
      var l := idToLeafIdx[id];
      var keys := KeysOnPath(l);
      RemoveLeafRemoves(model, id);
      RemoveLinkedLeaf(id);
      r := Ok((l, keys));
    }

    /** The in-place part of `remove_id`. */
    method RemoveLinkedLeaf(id: MemberId)
      requires Valid() && Linked(model) && id in model.ids && |model.ids| != 1
      modifies this
      ensures Valid() && model == RemoveLeaf(old(model), id)
    {
      hide LeavesMatch, InnerMatch, Blanked;
      ghost var t := model;
      var l := idToLeafIdx[id];
      ghost var other := RemainingLeaf(t, id);
      idToLeafIdx := idToLeafIdx - {id};
      model := t.(ids := t.ids - {id});
      Unlink(t, id);
      BlankLeafAndPath(l);
      CollectTombstones(other);
      BlankedTwice(t.inner, {l}, Range(Trim(t.leaves - {l}, t.nextLeaf), t.nextLeaf));
    }

    /** The closing loop of `remove_id`. */
    method CollectTombstones(ghost other: nat)
      requires Valid() && model.encrypter == None && other in model.leaves && other < model.nextLeaf
      modifies this`nextLeafIdx, this`innerNodes, this`encrypterIdx, this`model
      ensures Valid()
      ensures var m := Trim(old(model).leaves, old(model).nextLeaf);
              model == old(model).(nextLeaf := m, inner := Blanked(old(model).inner, Range(m, old(model).nextLeaf)))
    {
      hide Valid, Blanked;
      Bounds();
      ghost var t := model;
      BlankedNone(t.inner, t.nextLeaf);
      var last := LeafAt(nextLeafIdx - 1);
      while last.None?
        invariant Valid() && other < nextLeafIdx <= t.nextLeaf && last == Get(t.leaves, nextLeafIdx - 1)
        invariant forall j :: nextLeafIdx <= j < t.nextLeaf ==> j !in t.leaves
        invariant model == t.(nextLeaf := nextLeafIdx, inner := Blanked(t.inner, Range(nextLeafIdx, t.nextLeaf)))
        decreases nextLeafIdx
      {
        BlankedTwice(t.inner, Range(nextLeafIdx, t.nextLeaf), {nextLeafIdx - 1});
        assert Range(nextLeafIdx, t.nextLeaf) + {nextLeafIdx - 1} == Range(nextLeafIdx - 1, t.nextLeaf);
        DropTombstone();
        Bounds();
        last := LeafAt(nextLeafIdx - 1);
      }
      TrimUnique(t.leaves, t.nextLeaf, nextLeafIdx);
    }

    method LeafAt(i: nat) returns (leaf: Option<LeafNode>)
      requires Valid() && i < Pow2(model.depth)
      ensures leaf == Get(model.leaves, i)
    {
      leaf := leaves[i];
    }

    /** Give up the last slot, which is blank, and blank its path. */
    method DropTombstone()
      requires Valid() && nextLeafIdx > 0 && nextLeafIdx - 1 !in model.leaves
      modifies this`nextLeafIdx, this`innerNodes, this`encrypterIdx, this`model
      ensures Valid() && nextLeafIdx == old(nextLeafIdx) - 1
      ensures model == KeyTree.BlankPath(old(model), nextLeafIdx).(nextLeaf := nextLeafIdx)
    {
      hide LeavesMatch, InnerMatch;
      BlankPath(nextLeafIdx - 1);
      nextLeafIdx := nextLeafIdx - 1;
      model := model.(nextLeaf := nextLeafIdx);
    }

    // ----- Applying a path -----

    /** `insert_leaf_at`. */
    method InsertLeafAt(i: nat, leaf: LeafNode)
      requires Valid() && i < Pow2(model.depth)
      modifies this`leaves, this`model
      ensures Valid() && model == old(model).(leaves := old(model).leaves[i := leaf])
    {
      hide InnerMatch;
      WriteLeaf(leaves, model.leaves, model.depth, i, leaf);
      leaves := leaves[i := Some(leaf)];
      model := model.(leaves := model.leaves[i := leaf]);
    }

    method InsertInnerNodeAt(n: Node, s: Store)
      requires Valid() && Inner(n, model.depth)
      modifies this`innerNodes, this`model
      ensures Valid() && model == old(model).(inner := old(model).inner[n := s])
    {
      hide LeavesMatch, InnerMatch, InnerIndex, InTree;
      WriteInner(innerNodes, model.inner, model.depth, n, s);
      innerNodes := innerNodes[InnerIndex(n) := Some(s)];
      model := model.(inner := model.inner[n := s]);
    }

    /** `is_valid_path`. */
    method IsValidPath(c: PathChange) returns (r: Result<bool>)
      requires Valid() && c.leafId in model.ids
      ensures r == if Strays(model, c) then Err(ShiftOverflow) else Ok(ValidPath(model, c))
    {
      LeafInTree(c.leafIdx, model.depth);
      if c.leafIdx >= 0x8000_0000 {
        return Err(ShiftOverflow);
      }
      var length := PathLengthFor(Leaf(c.leafIdx));
      if length.None? {
        return Err(ShiftOverflow);
      }
      r := Ok(|c.path| == length.value && idToLeafIdx[c.leafId] == c.leafIdx);
    }

    /** `apply_path`. */
    method ApplyPath(c: PathChange) returns (r: Result<()>)
      requires Valid() && Linked(model)
      modifies this
      ensures Valid()
      ensures var stop := PathStop(old(model), c);
              if stop.Some? then r == Err(stop.value) else r == Ok(()) && model == KeyTree.ApplyPath(old(model), c)
    {
      hide LeavesMatch, InnerMatch, MergeKey, MergePath, Climbs;
      r := Ok(());
      if c.leafId !in idToLeafIdx {
        return;
      }
      ghost var t := model;
      var i := idToLeafIdx[c.leafId];
      var valid := IsValidPath(c);
      if valid.Err? {
        return Err(valid.error);
      }
      var leaf := LeafAt(i);
      InsertLeafAt(i, LeafNode(c.leafId, MergeKey(leaf.value.pk, c.leafPk, ToSet(c.removed))));
      if !valid.value {
        BlankPath(i);
        return;
      }
      var merged := MergeNodes(c.path, ToSet(c.removed));
      if !merged {
        return Err(IndexOutOfBounds);
      }
      var root := HasRootKey();
      encrypterIdx := if root then Some(i) else None;
      model := model.(encrypter := encrypterIdx);
    }

    /** The loop of `apply_path` over the nodes of the path, up to the first outside the
        tree. */
    method MergeNodes(path: seq<(Node, Store)>, removed: set<ShareKey>) returns (ok: bool)
      requires Valid()
      modifies this`innerNodes, this`model
      ensures Valid() && model.depth == old(model).depth
      ensures ok <==> forall k :: 0 <= k < |path| ==> Inner(path[k].0, old(model).depth)
      ensures ok ==> model == old(model).(inner := MergePath(old(model).inner, path, removed))
    {
      hide LeavesMatch, InnerMatch, MergePath;
      ghost var t := model;
      MergeStart(t.inner, path, removed);
      var j := 0;
      while j < |path|
        invariant 0 <= j <= |path| && Valid()
        invariant model == t.(inner := MergePath(t.inner, path[..j], removed))
        invariant forall k :: 0 <= k < j ==> Inner(path[k].0, t.depth)
      {
        var (n, s) := path[j];
        var inside := InBounds(n);
        if !inside {
          return false;
        }
        var current := InnerNode(n);
        MergeNext(t.inner, path, removed, j);
        if current.Some? {
          InsertInnerNodeAt(n, MergeStore(current.value, s, removed));
        } else {
          InsertInnerNodeAt(n, s);
        }
        j := j + 1;
      }
      assert path[..j] == path;
      ok := true;
    }

    /** Indexing the inner nodes succeeds exactly inside the tree. */
    method InBounds(n: Node) returns (b: bool)
      requires Valid()
      ensures b <==> Inner(n, model.depth)
    {
      hide LeavesMatch;
      if n.level > 0 {
        SlotBound(n, model.depth);
        b := InnerIndex(n) < |innerNodes|;
      } else {
        b := false;
      }
    }

    // ----- Encrypting a path -----

    /** `encrypt_new_secret_store_for_parent`. Leaves in a resolution must hold a single
        key; `encryptions` counts the secrets sealed. */
    method EncryptNewSecretStore(child: Node, childPk: ShareKey, childSk: Secret, paired: Secret)
      returns (store: Store, ghost encryptions: nat)
      requires Valid() && InTree(child, model.depth) && child.level < model.depth && childPk == ShareKey(childSk)
      requires ResolvesToSingles(model, Sibling(child))
      ensures store == NewStore(model, child, childSk, paired)
      ensures SealedExactly(model, child, childSk, paired, store)
      ensures encryptions == StoreCost(model, child)
    {
      NewStoreSealed(model, child, childSk, paired);
      hide SealedExactly;
      SiblingInTree(child, model.depth);
      var parentSk := Ratcheted(childSk);
      var res := AppendResolution(Sibling(child), []);
      assert res == Resolution(model, Sibling(child));
      var entries: map<Node, EncryptedSecret> := map[];
      if res == [] {
        entries := entries[child := EncryptSecret(parentSk, childSk, ShareKey(paired))];
        encryptions := 1;
      } else {
        entries, encryptions := SealForAll(child, childSk, res);
      }
      store := SecretStore([Version(ShareKey(parentSk), entries, childPk)]);
    }

    /** The loop over the sibling's resolution. */
    method SealForAll(child: Node, childSk: Secret, res: seq<Node>)
      returns (entries: map<Node, EncryptedSecret>, ghost encryptions: nat)
      requires Valid() && res == Resolution(model, Sibling(child)) && res != [] &&
               ResolvesToSingles(model, Sibling(child))
      requires InTree(Sibling(child), model.depth)
      ensures entries == NewEntries(model, child, childSk, childSk) && encryptions == |res|
    {
      hide Valid, Resolution, Skip, Sealed, NewEntries, ResolvesToSingles, InTree, PkAt, EncryptSecret;
      ChildNotResolved(model, child);
      var parentSk := Ratcheted(childSk);
      entries, encryptions := map[], 0;
      SealStart(model, child, childSk, res);
      var usedPairedSibling := false;
      var j := 0;
      while j < |res|
        invariant 0 <= j <= |res| && encryptions == j && usedPairedSibling == (j > 0)
        invariant Sealed(model, child, childSk, res, j, entries)
      {
        var nextPk := SingleKeyAt(res[j], Sibling(child));
        var sealed := EncryptSecret(parentSk, childSk, nextPk);
        encryptions := encryptions + 1;
        SealStep(model, child, childSk, res, j, entries);
        if !usedPairedSibling {
          entries := entries[child := sealed];
          usedPairedSibling := true;
        }
        entries := entries[res[j] := sealed];
        j := j + 1;
      }
      SealDone(model, child, childSk, res, entries);
    }

    /** The one key of a resolved node. */
    method SingleKeyAt(n: Node, ghost m: Node) returns (pk: ShareKey)
      requires Valid() && InTree(m, model.depth) && n in Resolution(model, m) && ResolvesToSingles(model, m)
      ensures !Skip(model, n) && pk == PkAt(model, n)
    {
      ResolutionInTree(model, m, model.depth, n);
      var key := NodeKeyForIndex(n);
      pk := key.value.pk;
    }

    /** `encrypt_path`: the root secret and the change to send, the tree re-keyed in
        place. An unknown id changes nothing; a missing secret key is only noticed after
        the leaf was replaced. No sibling on the path may resolve to a leaf with several
        keys. */
    method EncryptPath(id: MemberId, pk: ShareKey, sks: ShareKeyMap, draw: nat -> Secret)
      returns (r: Result<(Secret, PathChange)>, ghost encryptions: nat)
      requires Valid() && Linked(model) && Sound(sks)
      requires id in model.ids && pk in sks ==> CanEncrypt(model, model.ids[id])
      modifies this
      ensures Valid()
      ensures id !in old(model).ids ==> r == Err(IdentifierNotFound) && model == old(model)
      ensures id in old(model).ids && pk !in sks ==>
                && r == Err(SecretKeyNotFound)
                && model == old(model).(leaves := old(model).leaves[old(model).ids[id] := LeafNode(id, Single(pk))])
      ensures id in old(model).ids && pk in sks ==>
                && model == EncryptedTree(old(model), id, sks[pk], draw)
                && r == Ok((RatchetN(sks[pk], old(model).depth), EncryptedChange(old(model), id, sks[pk], draw)))
                && encryptions == PathCost(old(model), old(model).ids[id], old(model).depth)
    {
      hide LeavesMatch, InnerMatch, NewPath, Overwrite, PathKeys, PathCost, RatchetN;
      encryptions := 0;
      if id !in idToLeafIdx {
        return Err(IdentifierNotFound), 0;
      }
      ghost var t := model;
      var i := idToLeafIdx[id];
      var leaf := LeafAt(i);
      var removed := Keys(leaf.value.pk);
      InsertLeafAt(i, LeafNode(id, Single(pk)));
      if pk !in sks {
        return Err(SecretKeyNotFound), 0;
      }
      var secret, path, keys;
      secret, path, keys, encryptions := RekeyPath(i, id, pk, sks[pk], draw, t);
      encrypterIdx := Some(i);
      model := model.(encrypter := Some(i));
      r := Ok((secret, PathChange(id, i, Single(pk), path, removed + keys)));
    }

    /** The loop of `encrypt_path`, after the leaf was replaced in tree `t`. */
    method RekeyPath(i: nat, id: MemberId, pk: ShareKey, sk: Secret, draw: nat -> Secret, ghost t: Tree)
      returns (secret: Secret, path: seq<(Node, Store)>, removed: seq<ShareKey>, ghost encryptions: nat)
      requires Valid() && i in t.leaves && i < Pow2(t.depth) && pk == ShareKey(sk)
      requires model == t.(leaves := t.leaves[i := LeafNode(id, Single(pk))])
      requires CanEncrypt(t, i)
      modifies this`innerNodes, this`model
      ensures Valid() && model == old(model).(inner := Overwrite(t.inner, path))
      ensures secret == RatchetN(sk, t.depth) && path == NewPath(t, i, sk, draw, t.depth)
      ensures removed == PathKeys(t, i, t.depth) && encryptions == PathCost(t, i, t.depth)
    {
      hide LeavesMatch, InnerMatch, NewPath, Overwrite, PathKeys, PathCost, RatchetN, InTree, StoreCost, NewStore,
           CanEncrypt, ResolvesToSingles, SealedExactly, StoreKey, Keys, Pow2;
      RekeyStart(t, i, sk, draw);
      path, removed, encryptions := [], [], 0;
      var child, childPk, childSk := Leaf(i), pk, sk;
      AncInTree(i, 0, t.depth);
      var root := IsRoot(child);
      while !root
        invariant Valid() && child.level <= t.depth && child == Anc(i, child.level) && InTree(child, t.depth)
        invariant root <==> child.level == t.depth
        invariant childSk == RatchetN(sk, child.level) && childPk == ShareKey(childSk)
        invariant path == NewPath(t, i, sk, draw, child.level)
        invariant model == t.(leaves := t.leaves[i := LeafNode(id, Single(pk))], inner := Overwrite(t.inner, path))
        invariant removed == PathKeys(t, i, child.level) && encryptions == PathCost(t, i, child.level)
        decreases t.depth - child.level
      {
        var parent := Parent(child);
        AncInTree(i, child.level + 1, t.depth);
        SiblingSingles(t, i, child.level);
        RekeyStep(t, model, i, child.level, sk, draw, id, pk);
        var current := InnerNode(parent);
        if current.Some? {
          removed := removed + Keys(StoreKey(current.value));
        }
        var store;
        ghost var cost;
        store, cost := EncryptNewSecretStore(child, childPk, childSk, draw(child.level));
        encryptions := encryptions + cost;
        InsertInnerNodeAt(parent, store);
        path := path + [(parent, store)];
        child, childSk := parent, Ratcheted(childSk);
        childPk := ShareKey(childSk);
        root := IsRoot(child);
      }
      secret := childSk;
    }

    // ----- Decrypting -----

    /** `maybe_decrypt_parent_key`: the secret of a single-key parent, from the key map if
        it is there, and filed in it otherwise. */
    method MaybeDecryptParentKey(child: Node, childKey: NodeKey, seen: seq<Node>, sks: ShareKeyMap)
      returns (r: Result<Option<Secret>>, sks': ShareKeyMap)
      requires Valid() && Inner(Parent(child), model.depth)
      ensures Skip(model, Parent(child)) ==> r == Ok(None) && sks' == sks
      ensures !Skip(model, Parent(child)) ==>
                var got := Opened(model, Parent(child), childKey, seen, sks);
                if got.Err? then r == Err(got.error) && sks' == sks
                else r == Ok(Some(got.value)) && sks' == sks[PkAt(model, Parent(child)) := got.value]
    {
      hide LeavesMatch, InnerMatch, DecryptStore;
      var parent := InnerNode(Parent(child));
      if parent.None? {
        return Ok(None), sks;
      }
      match StoreKey(parent.value) {
        case Conflict(_, _, _) =>
          return Ok(None), sks;
        case Single(parentPk) =>
          if parentPk in sks {
            return Ok(Some(sks[parentPk])), sks;
          }
          var secret := DecryptStore(parent.value, childKey, sks, seen);
          if secret.Err? {
            return Err(secret.error), sks;
          }
          return Ok(Some(secret.value)), sks[parentPk := secret.value];
      }
    }

    /** `decrypt_tree_secret`. A tree with a root key must know its encrypter. */
    method DecryptTreeSecret(id: MemberId, sks: ShareKeyMap) returns (r: Result<Secret>, sks': ShareKeyMap)
      requires Valid() && Linked(model)
      requires KeyTree.HasRootKey(model) ==> model.encrypter.Some? && model.encrypter.value < Pow2(model.depth)
      ensures (r, sks') == KeyTree.DecryptTreeSecret(model, id, sks)
      ensures id !in model.ids ==> r == Err(IdentifierNotFound) && sks' == sks
      ensures id in model.ids && !KeyTree.HasRootKey(model) ==> r == Err(NoRootKey) && sks' == sks
    {
      hide LeavesMatch, InnerMatch;
      if id !in idToLeafIdx {
        return Err(IdentifierNotFound), sks;
      }
      var i := idToLeafIdx[id];
      var root := HasRootKey();
      if !root {
        return Err(NoRootKey), sks;
      }
      var leaf := LeafAt(i);
      var key := leaf.value.pk;
      if encrypterIdx == Some(i) {
        if !key.Single? || key.pk !in sks {
          return Err(ShareKeyNotFound), sks;
        }
        var length := PathLengthInTree(Leaf(i));
        return Ok(RatchetN(sks[key.pk], length)), sks;
      }
      AncRoot(i, model.depth);
      r, sks' := WalkUp(i, key, encrypterIdx.value, sks);
    }

    /** The two nested loops of `decrypt_tree_secret`, from a leaf that is not the
        encrypter's. */
    method WalkUp(i: nat, leafKey: NodeKey, e: nat, sks: ShareKeyMap) returns (r: Result<Secret>, sks': ShareKeyMap)
      requires Valid() && KeyTree.HasRootKey(model) && i < Pow2(model.depth) && e < Pow2(model.depth) && e != i
      requires Anc(i, model.depth) == Root(model.depth)
      ensures (r, sks') == Climb(model, i, 0, leafKey, [Leaf(i)], sks, Anc(i, MeetLevel(i, e)), None)
    {
      hide Valid, Skip, InTree, RatchetN, InnerIndex, StoreKey, Opened, Climb, PkAt, KeyAt, KeyTree.HasRootKey;
      Bounds();
      var lca := LowestCommonAncestor(i, e, model.depth);
      ghost var meet := Anc(i, MeetLevel(i, e));
      MeetIsInner(i, e);
      ghost var goal := Climb(model, i, 0, leafKey, [Leaf(i)], sks, meet, None);
      var child, key, seen, last := Leaf(i), leafKey, [Leaf(i)], None;
      sks' := sks;
      AncInTree(i, 0, model.depth);
      var root := IsRoot(child);
      while !root
        invariant child.level <= model.depth && child == Anc(i, child.level) && InTree(child, model.depth)
        invariant root <==> child.level == model.depth
        invariant goal == Climb(model, i, child.level, key, seen, sks', meet, last)
        decreases model.depth - child.level
      {
        child := SkipBlanks(i, child, key, seen, sks', meet, last);
        var parent := Parent(child);
        AncInTree(i, parent.level, model.depth);
        ClimbOpens(model, i, child.level, key, seen, sks', meet, last);
        var outcome;
        outcome, sks' := MaybeDecryptParentKey(child, key, seen, sks');
        if outcome.Err? {
          return Err(outcome.error), sks';
        }
        last := outcome.value;
        if InnerIndex(parent) == lca {
          InnerIndexInjective(parent, meet);
          var above := PathLengthInTree(parent);
          return Ok(RatchetN(last.value, above)), sks';
        }
        seen := seen + [parent];
        child := parent;
        var next := NodeKeyForIndex(child);
        KeyOfResolved(model, child);
        key := next.value;
        root := IsRoot(child);
      }
      ClimbEnds(model, i, key, seen, sks', meet, last);
      r := if last.Some? then Ok(last.value) else Err(NoRootKey);
    }

    /** The inner loop: past blank and conflict parents. The root is neither, so the loop
        stops below it. */
    method SkipBlanks(i: nat, start: Node, ghost key: NodeKey, ghost seen: seq<Node>, ghost sks: ShareKeyMap,
                      ghost lca: Node, ghost last: Option<Secret>)
      returns (child: Node)
      requires Valid() && KeyTree.HasRootKey(model) && i < Pow2(model.depth) && Anc(i, model.depth) == Root(model.depth)
      requires start.level < model.depth && start == Anc(i, start.level)
      ensures start.level <= child.level < model.depth && child == Anc(i, child.level) && !Skip(model, Parent(child))
      ensures Climb(model, i, child.level, key, seen, sks, lca, last)
           == Climb(model, i, start.level, key, seen, sks, lca, last)
    {
      hide Valid, Skip, InTree, Climb;
      child := start;
      AncInTree(i, child.level + 1, model.depth);
      var skip := ShouldSkip(Parent(child));
      while skip
        invariant start.level <= child.level < model.depth && child == Anc(i, child.level)
        invariant skip <==> Skip(model, Parent(child))
        invariant Climb(model, i, child.level, key, seen, sks, lca, last)
               == Climb(model, i, start.level, key, seen, sks, lca, last)
        decreases model.depth - child.level
      {
        RootIsKeyed(model, i, child.level + 1);
        ClimbSkips(model, i, child.level, key, seen, sks, lca, last);
        child := Parent(child);
        AncInTree(i, child.level + 1, model.depth);
        skip := ShouldSkip(Parent(child));
      }
    }

    /** `path_length_for`: the length of the direct path. */
    method PathLengthFor(n: Node) returns (length: Option<nat>)
      requires Valid() && (InTree(n, model.depth) || Index(n) < 0xFFFF_FFFF)
      ensures length == if InTree(n, model.depth) then Some(model.depth - n.level) else None
    {
      Pow2Constants();
      Pow2Monotone(model.depth + 1, 31);
      if InTree(n, model.depth) {
        IndexFits(n, model.depth);
      }
      var path := DirectPath(Index(n), treeSize, n, model.depth);
      length := if path.Some? then Some(|path.value|) else None;
    }

    method PathLengthInTree(n: Node) returns (length: nat)
      requires Valid() && InTree(n, model.depth)
      ensures length == model.depth - n.level
    {
      hide Valid;
      var found := PathLengthFor(n);
      length := found.value;
    }

    /** `conflict_node_count`. */
    method ConflictNodeCount() returns (count: nat)
      requires Valid()
      ensures count == |ConflictNodes(model)|
    {
      count := 0;
      ghost var found: set<Node> := {};
      var j := 0;
      while j < |innerNodes|
        invariant 0 <= j <= |innerNodes| && count == |found|
        invariant forall n :: n in found <==> n in ConflictNodes(model) && InnerIndex(n) < j
      {
        ghost var n := SlotIsNode(j, model.depth);
        ReadInner(innerNodes, model.inner, model.depth, n);
        ConflictSlots(model, j, n);
        if innerNodes[j].Some? && HasConflict(innerNodes[j].value) {
          count := count + 1;
          found := found + {n};
        }
        j := j + 1;
      }
      forall n | n in ConflictNodes(model)
        ensures InnerIndex(n) < j
      {
        IndexInBounds(n, model.depth);
      }
      assert found == ConflictNodes(model);
    }

    // ----- Concurrent membership changes -----

    /** `sort_leaves_and_blank_paths_for_concurrent_membership_changes`. The code asserts
        that the removed slots are blank. */
    method SortLeavesAndBlankPaths(addedIds: set<MemberId>, removedIds: set<(MemberId, nat)>)
      requires Valid()
      requires forall i :: i in Normalise.Slots(removedIds) ==> i < Pow2(model.depth) && i !in model.leaves
      modifies this
      ensures Valid() && model == Normalise.SortLeaves(old(model), addedIds, removedIds)
    {
      hide Valid, Normalise.Pop, Normalise.PushAll, Normalise.SortById;
      var wanted := BlankRemovedSlots(addedIds, removedIds);
      ghost var t := model;
      ghost var m := Normalise.PopMeans(t, wanted);
      Normalise.LeavesFromCount(t.leaves, m, t.nextLeaf);
      Bounds();
      var leavesToSort := PopLeaves(wanted);
      Bounds();
      LeafLimit();
      Pow2Monotone(t.depth, 30);
      SortKeepsLength(leavesToSort);
      PushLeaves(Normalise.SortById(leavesToSort));
    }

    /** The loop over the removed ids. */
    method BlankRemovedSlots(addedIds: set<MemberId>, removedIds: set<(MemberId, nat)>) returns (wanted: set<MemberId>)
      requires Valid() && forall i :: i in Normalise.Slots(removedIds) ==> i < Pow2(model.depth)
      modifies this`leaves, this`innerNodes, this`encrypterIdx, this`model
      ensures Valid() && model == Normalise.BlankRemoved(old(model), Normalise.Slots(removedIds))
      ensures wanted == addedIds - Normalise.RemovedIds(removedIds)
    {
      hide Valid, Blanked;
      ghost var t := model;
      wanted := addedIds;
      var todo := removedIds;
      ghost var done: set<(MemberId, nat)> := {};
      BlankRemovedNone(t);
      while todo != {}
        invariant Valid() && done + todo == removedIds && wanted == addedIds - Normalise.RemovedIds(done)
        invariant model == Normalise.BlankRemoved(t, Normalise.Slots(done))
        decreases |todo|
      {
        var r :| r in todo;
        assert r in removedIds && r.1 in Normalise.Slots(removedIds);
        BlankRemovedStep(t, done, r);
        wanted := wanted - {r.0};
        BlankLeafAndPath(r.1);
        todo, done := todo - {r}, done + {r};
      }
      assert done == removedIds;
    }

    /** The loop that takes leaves off the right. */
    method PopLeaves(addedIds: set<MemberId>) returns (popped: seq<LeafNode>)
      requires Valid()
      modifies this`leaves, this`innerNodes, this`encrypterIdx, this`nextLeafIdx, this`model
      ensures Valid() && (model, popped) == Normalise.Pop(old(model), addedIds)
    {
      hide Valid, Normalise.Pop, Normalise.BlankLeafAndPath;
      ghost var goal := Normalise.Pop(model, addedIds);
      var wanted := addedIds;
      popped := [];
      Bounds();
      assert [] + goal.1 == goal.1;
      while wanted != {} && nextLeafIdx > 0
        invariant Valid() && nextLeafIdx == model.nextLeaf
        invariant goal == (Normalise.Pop(model, wanted).0, popped + Normalise.Pop(model, wanted).1)
        decreases nextLeafIdx
      {
        Bounds();
        PopMore(model, wanted, popped);
        var leaf := LeafAt(nextLeafIdx - 1);
        if leaf.Some? {
          wanted := wanted - {leaf.value.id};
          popped := popped + [leaf.value];
        }
        GiveUpLast();
      }
      PopDone(model, wanted, popped);
    }

    /** Blank the last slot with its path, and give it up. */
    method GiveUpLast()
      requires Valid() && nextLeafIdx > 0
      modifies this`leaves, this`innerNodes, this`encrypterIdx, this`nextLeafIdx, this`model
      ensures Valid() && nextLeafIdx == old(nextLeafIdx) - 1
      ensures model == Normalise.BlankLeafAndPath(old(model), nextLeafIdx).(nextLeaf := nextLeafIdx)
    {
      hide LeavesMatch, InnerMatch;
      BlankLeafAndPath(nextLeafIdx - 1);
      nextLeafIdx := nextLeafIdx - 1;
      model := model.(nextLeaf := nextLeafIdx);
    }

    /** The loop that pushes the sorted leaves. */
    method PushLeaves(ls: seq<LeafNode>)
      requires Valid() && nextLeafIdx + |ls| <= LEAF_LIMIT
      modifies this
      ensures Valid() && model == Normalise.PushAll(old(model), ls)
    {
      hide Valid, Blanked;
      ghost var t := model;
      var j := 0;
      while j < |ls|
        invariant 0 <= j <= |ls| && Valid() && nextLeafIdx == old(nextLeafIdx) + j
        invariant model == Normalise.PushAll(t, ls[..j])
      {
        assert ls[..j + 1][..j] == ls[..j];
        Bounds();
        var l := PushLeaf(ls[j].id, ls[j].pk);
        Bounds();
        j := j + 1;
      }
      assert ls[..j] == ls;
    }
  }
}
