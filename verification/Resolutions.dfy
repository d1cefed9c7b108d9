/** Resolutions: which leaves they cover, and what an update costs. */
module Resolutions {
  import opened Seqs
  import opened Nodes
  import opened Crypto
  import opened NodeKeys
  import opened KeyTree
  import opened PathUpdate
  import opened WellFormed
  import opened Agreement

  // ----- The leaves below a node -----

  /** First leaf below a node, and the first one to its right. */
  function Lo(n: Node): nat {
    n.pos * Pow2(n.level)
  }

  function Hi(n: Node): nat {
    (n.pos + 1) * Pow2(n.level)
  }

  lemma ChildSpans(n: Node)
    requires n.level > 0
    ensures Lo(Left(n)) == Lo(n) && Hi(Left(n)) == Lo(Right(n)) && Hi(Right(n)) == Hi(n)
    ensures Lo(n) < Hi(Left(n)) < Hi(n)
  {
    var half := Pow2(n.level - 1);
    assert Lo(n) == n.pos * (2 * half) == 2 * n.pos * half;
    assert Hi(n) == (n.pos + 1) * (2 * half) == (2 * n.pos + 2) * half;
    assert (2 * n.pos + 1) * half == 2 * n.pos * half + half;
    assert (2 * n.pos + 2) * half == 2 * n.pos * half + half + half;
  }

  lemma {:induction false} SpanIsUnder(i: nat, n: Node)
    ensures Under(i, n) <==> Lo(n) <= i < Hi(n)
    decreases n.level
  {
    if n.level > 0 {
      ChildSpans(n);
      SpanIsUnder(i, Left(n));
      SpanIsUnder(i, Right(n));
      if Under(i, n) {
        UnderChild(i, n);
      }
    }
  }

  /** Node `n` lies in the subtree of `m`. */
  predicate Within(n: Node, m: Node) {
    n.level <= m.level && Lo(m) <= Lo(n) && Hi(n) <= Hi(m)
  }

  lemma {:induction false} ResolutionWithin(t: Tree, m: Node, n: Node)
    requires n in Resolution(t, m)
    ensures Within(n, m) && (n.level == m.level ==> n == m)
    decreases m.level
  {
    if Skip(t, m) && m.level > 0 {
      ChildSpans(m);
      if n in Resolution(t, Left(m)) {
        ResolutionWithin(t, Left(m), n);
      } else {
        ResolutionWithin(t, Right(m), n);
      }
    }
  }

  lemma {:induction false} ResolutionInTree(t: Tree, m: Node, depth: nat, n: Node)
    requires InTree(m, depth) && n in Resolution(t, m)
    ensures InTree(n, depth)
    decreases m.level
  {
    if Skip(t, m) && m.level > 0 {
      ChildrenInTree(m, depth);
      if n in Resolution(t, Left(m)) {
        ResolutionInTree(t, Left(m), depth, n);
      } else {
        ResolutionInTree(t, Right(m), depth, n);
      }
    }
  }

  // ----- Cover -----

  /** The listed nodes are disjoint and run from left to right. */
  predicate LeftToRight(nodes: seq<Node>) {
    forall x, y :: 0 <= x < y < |nodes| ==> Hi(nodes[x]) <= Lo(nodes[y])
  }

  lemma JoinLeftToRight(a: seq<Node>, b: seq<Node>, mid: nat)
    requires LeftToRight(a) && LeftToRight(b)
    requires (forall n :: n in a ==> Hi(n) <= mid) && (forall n :: n in b ==> mid <= Lo(n))
    ensures LeftToRight(a + b)
  {
    hide Hi, Lo;
    var all := a + b;
    forall x, y | 0 <= x < y < |all|
      ensures Hi(all[x]) <= Lo(all[y])
    {
      if x < |a| <= y {
        assert all[x] in a && all[y] in b;
      } else if |a| <= x {
        assert all[x] == b[x - |a|] && all[y] == b[y - |a|];
      }
    }
  }

  lemma {:induction false} ResolutionOrdered(t: Tree, m: Node)
    ensures LeftToRight(Resolution(t, m))
    decreases m.level
  {
    if Skip(t, m) && m.level > 0 {
      ChildSpans(m);
      var a, b := Resolution(t, Left(m)), Resolution(t, Right(m));
      ResolutionOrdered(t, Left(m));
      ResolutionOrdered(t, Right(m));
      forall n | n in a
        ensures Hi(n) <= Hi(Left(m))
      {
        ResolutionWithin(t, Left(m), n);
      }
      forall n | n in b
        ensures Lo(Right(m)) <= Lo(n)
      {
        ResolutionWithin(t, Right(m), n);
      }
      JoinLeftToRight(a, b, Hi(Left(m)));
    }
  }

  /** The resolution of a node covers each member leaf below it exactly once, by disjoint
      nodes listed from left to right, none of them blank or in conflict. */
  lemma ResolutionCovers(t: Tree, m: Node, i: nat) returns (x: nat)
    requires i in t.leaves && Under(i, m)
    ensures LeftToRight(Resolution(t, m))
    ensures x < |Resolution(t, m)| && !Skip(t, Resolution(t, m)[x]) && Under(i, Resolution(t, m)[x])
    ensures forall y :: 0 <= y < |Resolution(t, m)| && Under(i, Resolution(t, m)[y]) ==> y == x
  {
    hide Lo, Hi, Skip;
    var res := Resolution(t, m);
    ResolutionOrdered(t, m);
    TopIsResolved(t, i, m.level);
    TopOnPath(t, i, m.level);
    x :| 0 <= x < |res| && res[x] == Top(t, i, m.level);
    forall y | 0 <= y < |res| && Under(i, res[y])
      ensures y == x
    {
      SpanIsUnder(i, res[x]);
      SpanIsUnder(i, res[y]);
    }
  }

  // ----- Cost -----

  function MembersBelow(t: Tree, n: Node): set<nat> {
    set i | i in t.leaves && Under(i, n)
  }

  lemma ChildMembers(t: Tree, n: Node)
    requires n.level > 0
    ensures MembersBelow(t, n) == MembersBelow(t, Left(n)) + MembersBelow(t, Right(n))
    ensures MembersBelow(t, Left(n)) !! MembersBelow(t, Right(n))
  {
    forall i | i in t.leaves
      ensures Under(i, n) <==> Under(i, Left(n)) || Under(i, Right(n))
    {
      SpanIsUnder(i, n);
      SpanIsUnder(i, Left(n));
      SpanIsUnder(i, Right(n));
      ChildSpans(n);
    }
  }

  /** A resolution is no longer than the number of members it covers. */
  lemma {:induction false} ResolutionCount(t: Tree, n: Node)
    requires forall v :: v in t.inner ==> Inhabited(t, v)
    ensures |Resolution(t, n)| <= |MembersBelow(t, n)|
    decreases n.level
  {
    if !Skip(t, n) {
      var i: nat;
      if n.level == 0 {
        i := n.pos;
      } else {
        assert Inhabited(t, n);
        i :| i in t.leaves && Under(i, n);
      }
      assert i in MembersBelow(t, n);
    } else if n.level > 0 {
      ChildMembers(t, n);
      ResolutionCount(t, Left(n));
      ResolutionCount(t, Right(n));
    }
  }

  /** Secrets encrypted for one parent: one per resolved node of the sibling, and one for
      a throwaway key when there is none. */
  function StoreCost(t: Tree, child: Node): nat {
    var res := Resolution(t, Sibling(child));
    if res == [] then 1 else |res|
  }

  /** Secrets encrypted on the first `k` levels of the path of leaf `i`. */
  function PathCost(t: Tree, i: nat, k: nat): nat {
    if k == 0 then 0 else PathCost(t, i, k - 1) + StoreCost(t, Anc(i, k - 1))
  }

  lemma SiblingMembers(t: Tree, n: Node)
    ensures MembersBelow(t, Parent(n)) == MembersBelow(t, n) + MembersBelow(t, Sibling(n))
    ensures MembersBelow(t, n) !! MembersBelow(t, Sibling(n))
  {
    var p := Parent(n);
    ChildMembers(t, p);
    assert (n == Left(p) && Sibling(n) == Right(p)) || (n == Right(p) && Sibling(n) == Left(p));
  }

  lemma OwnMember(t: Tree, i: nat)
    requires i in t.leaves
    ensures MembersBelow(t, Leaf(i)) == {i}
  {}

  /** The cost of an update is at least the length of the path and at most that plus the
      number of other members. */
  lemma {:induction false} PathCostBound(t: Tree, i: nat, k: nat)
    requires i in t.leaves && forall v :: v in t.inner ==> Inhabited(t, v)
    ensures k <= PathCost(t, i, k) <= k + |MembersBelow(t, Anc(i, k))| - 1
  {
    hide MembersBelow, Resolution;
    if k == 0 {
      OwnMember(t, i);
    } else {
      PathCostBound(t, i, k - 1);
      SiblingMembers(t, Anc(i, k - 1));
      ResolutionCount(t, Sibling(Anc(i, k - 1)));
    }
  }

  lemma UpdateCost(t: Tree, i: nat)
    requires WF(t) && i in t.leaves
    ensures t.depth <= PathCost(t, i, t.depth) <= t.depth + |t.ids| - 1
  {
    PathCostBound(t, i, t.depth);
    assert MembersBelow(t, Anc(i, t.depth)) <= t.leaves.Keys;
    SubsetCount(MembersBelow(t, Anc(i, t.depth)), t.leaves.Keys);
    LeavesAreMembers(t);
  }

  lemma LeavesAreMembers(t: Tree)
    requires WF(t)
    ensures |t.leaves.Keys| <= |t.ids|
  {
    InverseCount(t.leaves.Keys, t);
  }

  lemma {:induction false} InverseCount(s: set<nat>, t: Tree)
    requires WF(t) && s <= t.leaves.Keys
    ensures |s| == |set i | i in s :: t.leaves[i].id|
    ensures |s| <= |t.ids|
  {
    var image := set i | i in s :: t.leaves[i].id;
    if s != {} {
      var i :| i in s;
      InverseCount(s - {i}, t);
      assert image == (set j | j in s - {i} :: t.leaves[j].id) + {t.leaves[i].id};
    }
    assert image <= t.ids.Keys;
    SubsetCount(image, t.ids.Keys);
  }

  /** Without conflicts or blanks to work around, the cost is exactly the path length:
      logarithmic in the number of leaves. */
  lemma {:induction false} ExactCost(t: Tree, i: nat, k: nat)
    ensures PathCost(t, i, k) == k <==> forall j :: 0 <= j < k ==> SiblingResolvesToOne(t, Anc(i, j))
    ensures PathCost(t, i, k) >= k
  {
    hide SiblingResolvesToOne, StoreCost;
    if k > 0 {
      ExactCost(t, i, k - 1);
      CostOfOne(t, Anc(i, k - 1));
      assert PathCost(t, i, k) == PathCost(t, i, k - 1) + StoreCost(t, Anc(i, k - 1));
      OneMoreLevel(t, i, k - 1);
    }
  }

  lemma {:induction false} OneMoreLevel(t: Tree, i: nat, k: nat)
    ensures (forall j :: 0 <= j < k + 1 ==> SiblingResolvesToOne(t, Anc(i, j)))
            <==> (forall j :: 0 <= j < k ==> SiblingResolvesToOne(t, Anc(i, j))) && SiblingResolvesToOne(t, Anc(i, k))
  {
    hide SiblingResolvesToOne, Anc;
  }

  /** The resolution off the path holds at most one node. */
  predicate SiblingResolvesToOne(t: Tree, child: Node) {
    |Resolution(t, Sibling(child))| <= 1
  }

  lemma CostOfOne(t: Tree, child: Node)
    ensures 1 <= StoreCost(t, child) && (SiblingResolvesToOne(t, child) <==> StoreCost(t, child) == 1)
  {}

  // ----- Resolutions off a path -----

  /** The trees differ only on the path of leaf `i`. */
  ghost predicate SameOffPath(t: Tree, u: Tree, i: nat) {
    forall v: Node :: !Under(i, v) ==> SameAt(t, u, v)
  }

  lemma ChildUnder(i: nat, n: Node)
    requires n.level > 0
    ensures Under(i, Left(n)) || Under(i, Right(n)) ==> Under(i, n)
  {}

  lemma {:induction false} SameResolution(t: Tree, u: Tree, i: nat, n: Node)
    requires SameOffPath(t, u, i) && !Under(i, n)
    ensures Resolution(t, n) == Resolution(u, n)
    ensures forall v :: v in Resolution(t, n) ==> PkAt(t, v) == PkAt(u, v) && KeyAt(t, v) == KeyAt(u, v)
    decreases n.level
  {
    assert SameAt(t, u, n);
    if n.level > 0 && Skip(t, n) {
      ChildUnder(i, n);
      SameResolution(t, u, i, Left(n));
      SameResolution(t, u, i, Right(n));
    }
  }

  /** A new store on the path depends only on what lies off the path. */
  lemma SameNewStore(t: Tree, u: Tree, i: nat, k: nat, sk: Secret, paired: Secret)
    requires SameOffPath(t, u, i)
    ensures NewStore(t, Anc(i, k), sk, paired) == NewStore(u, Anc(i, k), sk, paired)
    ensures StoreCost(t, Anc(i, k)) == StoreCost(u, Anc(i, k))
  {
    hide Resolution, Skip, SameOffPath, NewEntries;
    var child := Anc(i, k);
    assert Sibling(child) != child;
    SameResolution(t, u, i, Sibling(child));
    SameEntries(t, u, child, sk, paired);
  }

  lemma RekeyedOffPath(t: Tree, u: Tree, i: nat, path: seq<(Node, Store)>, leaf: LeafNode)
    requires Climbs(path, i) && u.leaves == t.leaves[i := leaf] && u.inner == Overwrite(t.inner, path)
    ensures SameOffPath(t, u, i)
  {
    forall v: Node | !Under(i, v)
      ensures SameAt(t, u, v)
    {
      OverwriteMeans(t.inner, path, i, v);
    }
  }

  /** Who could update can update again. */
  lemma CanEncryptAgain(t: Tree, id: MemberId, sk: Secret, draw: nat -> Secret)
    requires id in t.ids && t.ids[id] in t.leaves && CanEncrypt(t, t.ids[id])
    ensures CanEncrypt(EncryptedTree(t, id, sk, draw), t.ids[id])
  {
    var i, u := t.ids[id], EncryptedTree(t, id, sk, draw);
    NewPathClimbs(t, i, sk, draw, t.depth);
    RekeyedOffPath(t, u, i, NewPath(t, i, sk, draw, t.depth), LeafNode(id, Single(ShareKey(sk))));
    forall k | 0 <= k < t.depth
      ensures ResolvesToSingles(u, Sibling(Anc(i, k)))
    {
      hide ResolvesToSingles, EncryptedTree, SameOffPath;
      SameSingles(t, u, i, k);
    }
  }

  lemma SameSingles(t: Tree, u: Tree, i: nat, k: nat)
    requires SameOffPath(t, u, i) && ResolvesToSingles(t, Sibling(Anc(i, k)))
    ensures ResolvesToSingles(u, Sibling(Anc(i, k)))
  {
    hide Resolution, SameOffPath;
    var m := Sibling(Anc(i, k));
    SameResolution(t, u, i, m);
    forall n | n in Resolution(u, m) && n.level == 0
      ensures u.leaves[n.pos].pk.Single?
    {
      assert KeyAt(t, n) == KeyAt(u, n);
    }
  }

  // ----- For whom a new store is sealed -----

  /** One version, whose secret is the child's ratcheted once. There is an entry for the child
      and for every node of the sibling's resolution, and no other; each holds that secret
      under the key agreed between the child's secret and the public key of the node, for
      the child that of the first node. When nobody is on the other side, the only entry is
      the child's, paired with a key drawn for the purpose. */
  ghost predicate SealedExactly(t: Tree, child: Node, childSk: Secret, paired: Secret, s: Store) {
    var res := Resolution(t, Sibling(child));
    && |s.versions| == 1
    && var w := s.versions[0];
       && w.pk == ShareKey(Ratcheted(childSk)) && w.encrypterPk == ShareKey(childSk)
       && (forall n :: n in w.sk <==> n == child || n in res)
       && (forall n :: n in w.sk ==>
             w.sk[n].plaintext == Ratcheted(childSk) &&
             w.sk[n].key == DeriveSymmetricKey(childSk, w.sk[n].pairedPk))
       && (forall n :: n in res ==> w.sk[n].pairedPk == PkAt(t, n))
       && w.sk[child].pairedPk == if res == [] then ShareKey(paired) else PkAt(t, res[0])
  }

  lemma NewStoreSealed(t: Tree, child: Node, childSk: Secret, paired: Secret)
    ensures SealedExactly(t, child, childSk, paired, NewStore(t, child, childSk, paired))
  {
    hide Resolution, PkAt, Skip, NewEntries;
    ChildNotResolved(t, child);
    NewEntriesMean(t, child, childSk, paired);
  }

  lemma ChildNotResolved(t: Tree, child: Node)
    ensures child !in Resolution(t, Sibling(child))
  {
    if child in Resolution(t, Sibling(child)) {
      ResolutionWithin(t, Sibling(child), child);
    }
  }

  lemma NewEntriesMean(t: Tree, child: Node, childSk: Secret, paired: Secret)
    requires child !in Resolution(t, Sibling(child))
    ensures var res, es := Resolution(t, Sibling(child)), NewEntries(t, child, childSk, paired);
            && (forall n :: n in es <==> n == child || n in res)
            && (forall n :: n in res ==> es[n] == EncryptSecret(Ratcheted(childSk), childSk, PkAt(t, n)))
            && es[child] == EncryptSecret(Ratcheted(childSk), childSk,
                                          if res == [] then ShareKey(paired) else PkAt(t, res[0]))
  {
    hide Resolution, PkAt, Skip;
  }

  // ----- Leaves with conflicting keys -----

  /** The leaf holds conflicting keys and every node above it, up to but not including
      the first it shares with leaf `i`, is blank or in conflict. */
  ghost predicate Exposed(t: Tree, i: nat, j: nat) {
    && j in t.leaves && j != i && t.leaves[j].pk.Conflict?
    && forall k :: 0 < k < MeetLevel(i, j) ==> Skip(t, Anc(j, k))
  }

  /** A member can update its path exactly when no conflicting leaf of the tree is exposed
      to it. */
  lemma CanEncryptIff(t: Tree, i: nat)
    requires i < Pow2(t.depth)
    ensures CanEncrypt(t, i) <==> forall j :: 0 <= j < Pow2(t.depth) ==> !Exposed(t, i, j)
  {
    hide Exposed, ResolvesToSingles;
    forall j | 0 <= j < Pow2(t.depth) && Exposed(t, i, j)
      ensures !CanEncrypt(t, i)
    {
      ExposedLeafStops(t, i, j);
    }
    forall k | 0 <= k < t.depth && !ResolvesToSingles(t, Sibling(Anc(i, k)))
      ensures exists j :: 0 <= j < Pow2(t.depth) && Exposed(t, i, j)
    {
      var j := StoppedByExposed(t, i, k);
    }
  }

  lemma SinglesCanEncrypt(t: Tree, i: nat)
    requires forall j :: j in t.leaves ==> t.leaves[j].pk.Single?
    ensures CanEncrypt(t, i)
  {
    hide Resolution;
  }

  lemma ExposedLeafStops(t: Tree, i: nat, j: nat)
    requires i < Pow2(t.depth) && j < Pow2(t.depth) && Exposed(t, i, j)
    ensures !CanEncrypt(t, i)
  {
    hide Resolution, Skip;
    var k := MeetBelow(i, j, t.depth);
    TopIsLeaf(t, j, k);
    TopIsResolved(t, j, k);
    assert Leaf(j) in Resolution(t, Sibling(Anc(i, k)));
    assert !ResolvesToSingles(t, Sibling(Anc(i, k)));
  }

  lemma MeetBelow(i: nat, j: nat, depth: nat) returns (k: nat)
    requires i < Pow2(depth) && j < Pow2(depth) && i != j
    ensures k + 1 == MeetLevel(i, j) <= depth && Anc(j, k) == Sibling(Anc(i, k))
  {
    AncRoot(i, depth);
    AncRoot(j, depth);
    MeetLevelIsFirst(i, j, depth);
    k := MeetLevel(i, j) - 1;
    MeetLevelIsFirst(i, j, k + 1);
    MeetLevelIsFirst(i, j, k);
  }

  lemma {:induction false} TopIsLeaf(t: Tree, j: nat, k: nat)
    requires forall m :: 0 < m <= k ==> Skip(t, Anc(j, m))
    ensures Top(t, j, k) == Leaf(j)
  {
    if k > 0 {
      TopIsLeaf(t, j, k - 1);
    }
  }

  lemma StoppedByExposed(t: Tree, i: nat, k: nat) returns (j: nat)
    requires i < Pow2(t.depth) && k < t.depth && !ResolvesToSingles(t, Sibling(Anc(i, k)))
    ensures j < Pow2(t.depth) && Exposed(t, i, j)
  {
    hide Resolution;
    var m := Sibling(Anc(i, k));
    var n :| n in Resolution(t, m) && n.level == 0 && !t.leaves[n.pos].pk.Single?;
    j := n.pos;
    AncInTree(i, k, t.depth);
    SiblingInTree(Anc(i, k), t.depth);
    ResolutionInTree(t, m, t.depth, n);
    ResolvedLeaf(t, j, m);
    MeetAtSibling(i, j, k);
  }

  lemma MeetAtSibling(i: nat, j: nat, k: nat)
    requires Anc(j, k) == Sibling(Anc(i, k))
    ensures MeetLevel(i, j) == k + 1
  {
    MeetLevelIsFirst(i, j, k);
    MeetLevelIsFirst(i, j, k + 1);
  }

  /** A leaf in a resolution has only blank and conflict nodes up to the node resolved. */
  lemma {:induction false} ResolvedLeaf(t: Tree, j: nat, m: Node)
    requires Leaf(j) in Resolution(t, m)
    ensures j in t.leaves && Under(j, m) && forall k :: 0 < k <= m.level ==> Skip(t, Anc(j, k))
    decreases m.level
  {
    if m.level > 0 {
      assert Skip(t, m);
      var c := if Leaf(j) in Resolution(t, Left(m)) then Left(m) else Right(m);
      ResolvedLeaf(t, j, c);
      assert Anc(j, m.level) == Parent(c);
    }
  }

  lemma SameEntries(t: Tree, u: Tree, child: Node, sk: Secret, paired: Secret)
    requires Resolution(t, Sibling(child)) == Resolution(u, Sibling(child))
    requires forall v :: v in Resolution(t, Sibling(child)) ==> PkAt(t, v) == PkAt(u, v)
    ensures NewEntries(t, child, sk, paired) == NewEntries(u, child, sk, paired)
  {
    hide Resolution, Skip, PkAt;
  }
}
