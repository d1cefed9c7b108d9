/** Whole-run results for the group: replicas that applied the same operations agree, and
    whenever there is a root key every member decrypts it. */
module GroupAgreement {
  import opened Seqs
  import opened Results
  import opened Nodes
  import opened Crypto
  import opened NodeKeys
  import opened KeyTree
  import opened PathUpdate
  import opened Agreement
  import opened WellFormed
  import opened Operations
  import opened History
  import opened Convergence

  // ----- The order of application does not matter -----

  /** Equal trees up to the order of the versions inside a store. */
  ghost predicate SameTree(t: Tree, u: Tree) {
    && SameShape(t, u) && t.leaves == u.leaves && t.encrypter == u.encrypter
    && forall v :: multiset(Versions(t, v)) == multiset(Versions(u, v))
  }

  lemma {:induction false} DistinctMultiset<T>(s: seq<T>, x: T)
    requires Distinct(s)
    ensures multiset(s)[x] == if x in s then 1 else 0
  {
    if s != [] {
      DistinctMultiset(s[1..], x);
      assert s == [s[0]] + s[1..];
    }
  }

  lemma SameElements<T>(s: seq<T>, r: seq<T>)
    requires Distinct(s) && Distinct(r) && forall x :: x in s <==> x in r
    ensures multiset(s) == multiset(r)
    ensures |s| == |r| && (|s| == 1 ==> s == r)
  {
    forall x: T
      ensures multiset(s)[x] == multiset(r)[x]
    {
      DistinctMultiset(s, x);
      DistinctMultiset(r, x);
    }
    assert multiset(s) == multiset(r);
    assert |multiset(s)| == |multiset(r)|;
    if |s| == 1 {
      assert s[0] in r;
    }
  }

  lemma SameVersions(h: History, live: set<Digest>, v: Node, s: seq<Version>, r: seq<Version>)
    requires live <= h.events.Keys && VersionsOf(h, live, s, v) && VersionsOf(h, live, r, v)
    ensures multiset(s) == multiset(r) && |s| == |r| && (|s| == 1 ==> s == r)
  {
    OneWay(h, live, v, s, r);
    OneWay(h, live, v, r, s);
    SameElements(s, r);
  }

  lemma OneWay(h: History, live: set<Digest>, v: Node, s: seq<Version>, r: seq<Version>)
    requires live <= h.events.Keys && VersionsOf(h, live, s, v) && VersionsOf(h, live, r, v)
    ensures forall w :: w in s ==> w in r
  {
    hide Distinct;
    forall w | w in s
      ensures w in r
    {
      var d :| d in live && IsVersion(h.events[d], v, w);
      var w' :| w' in r && IsVersion(h.events[d], v, w');
    }
  }

  lemma SameLeaf(h: History, ds: set<Digest>, es: set<Digest>, t: Tree, u: Tree, i: nat)
    requires Valid(h) && Closed(h, ds) && Closed(h, es) && Live(h, ds, Leaf(i)) == Live(h, es, Leaf(i))
    requires LeafMatch(h, ds, t, i) && LeafMatch(h, es, u, i)
    ensures (i in t.leaves <==> i in u.leaves) && (i in t.leaves ==> t.leaves[i] == u.leaves[i])
  {
    hide Valid, Through;
  }

  lemma SameAtNode(h: History, ds: set<Digest>, t: Tree, u: Tree, v: Node)
    requires Valid(h) && Closed(h, ds) && Represents(h, ds, t) && Represents(h, ds, u) && t.depth == u.depth
    ensures multiset(Versions(t, v)) == multiset(Versions(u, v))
    ensures |Versions(t, v)| == 1 ==> Versions(t, v) == Versions(u, v)
  {
    hide Valid, VersionsOf, Live, LeafMatch;
    if v.level > 0 && InTree(v, t.depth) {
      MatchAt(h, ds, t, v);
      MatchAt(h, ds, u, v);
      SameVersions(h, Live(h, ds, v), v, Versions(t, v), Versions(u, v));
    } else {
      assert v !in t.inner && v !in u.inner;
    }
  }

  lemma SameEncrypter(h: History, ds: set<Digest>, t: Tree, u: Tree)
    requires Valid(h) && Closed(h, ds) && Represents(h, ds, t) && Represents(h, ds, u) && t.depth == u.depth
    requires |Versions(t, Root(t.depth))| == 1 ==> Versions(t, Root(t.depth)) == Versions(u, Root(t.depth))
    requires |Versions(t, Root(t.depth))| == |Versions(u, Root(t.depth))|
    ensures t.encrypter == u.encrypter
  {
    hide Valid, VersionsMatch, LeafMatch, Live, Shaped, Bounded, EncrypterMatch;
    assert HasRootKey(t) <==> HasRootKey(u);
    if HasRootKey(t) {
      var a := RootIsLast(h, ds, t);
      var b := RootIsLast(h, ds, u);
    }
  }

  /** The only version at a node was written by the only operation live there. */
  lemma SingleVersionIsLast(h: History, ds: set<Digest>, t: Tree, v: Node) returns (a: Digest)
    requires Valid(h) && Closed(h, ds) && Represents(h, ds, t) && v.level > 0 && !Skip(t, v)
    ensures a in ds && a in h.events && h.events[a].op.Update? && Live(h, ds, v) == {a}
    ensures IsVersion(h.events[a], v, t.inner[v].versions[0])
  {
    hide Valid, Represents, Live;
    var w := t.inner[v].versions[0];
    a := OwnerOf(h, ds, t, v, w);
    forall d | d in Live(h, ds, v)
      ensures d == a
    {
      SingleOwner(h, ds, t, v, w, a, d);
    }
  }

  lemma SingleOwner(h: History, ds: set<Digest>, t: Tree, v: Node, w: Version, a: Digest, d: Digest)
    requires Valid(h) && Closed(h, ds) && Represents(h, ds, t)
    requires v in t.inner && t.inner[v].versions == [w] && a in Live(h, ds, v) && d in Live(h, ds, v)
    requires a in h.events && IsVersion(h.events[a], v, w)
    ensures d == a
  {
    LiveIsApplied(h, ds, v, d);
    LiveIsApplied(h, ds, v, a);
    if h.events[d].op.Update? {
      MatchAt(h, ds, t, v);
      var w' :| w' in Versions(t, v) && IsVersion(h.events[d], v, w');
      VersionIdentifies(h, d, v, w', a, v, w);
    } else {
      assert Comparable(h, d, a);
    }
  }

  /** The current encrypter is the author of the only update live at the root. */
  lemma RootIsLast(h: History, ds: set<Digest>, t: Tree) returns (a: Digest)
    requires Valid(h) && Closed(h, ds) && Represents(h, ds, t) && HasRootKey(t)
    ensures a in ds && a in h.events && h.events[a].op.Update? && Live(h, ds, Root(t.depth)) == {a}
    ensures t.encrypter == Some(h.events[a].op.change.leafIdx)
    ensures t.depth <= |h.events[a].op.change.path|
  {
    a := SingleVersionIsLast(h, ds, t, Root(t.depth));
    assert EncrypterMatch(h, ds, t);
  }

  /** Replicas that applied the same operations, in any causal orders, have the same tree. */
  lemma OrderDoesNotMatter(h: History, o1: seq<Digest>, o2: seq<Digest>)
    requires Valid(h) && Causal(h, o1) && Causal(h, o2) && ToSet(o1) == ToSet(o2)
    ensures SameTree(Run(h, o1), Run(h, o2))
  {
    RunRepresents(h, o1);
    RunRepresents(h, o2);
    RepresentativesAgree(h, ToSet(o1), Run(h, o1), Run(h, o2));
  }

  lemma RepresentativesAgree(h: History, ds: set<Digest>, t: Tree, u: Tree)
    requires Valid(h) && Closed(h, ds) && Represents(h, ds, t) && Represents(h, ds, u)
    ensures SameTree(t, u)
  {
    hide Valid, VersionsMatch, LeafMatch, Live, Bounded, EncrypterMatch, WF;
    SameShapes(h, ds, t, u);
    forall v: Node
      ensures multiset(Versions(t, v)) == multiset(Versions(u, v))
    {
      SameAtNode(h, ds, t, u, v);
    }
    forall i: nat
      ensures (i in t.leaves <==> i in u.leaves) && (i in t.leaves ==> t.leaves[i] == u.leaves[i])
    {
      assert LeafMatch(h, ds, t, i) && LeafMatch(h, ds, u, i);
      SameLeaf(h, ds, ds, t, u, i);
    }
    SameAtNode(h, ds, t, u, Root(t.depth));
    assert |multiset(Versions(t, Root(t.depth)))| == |multiset(Versions(u, Root(t.depth)))|;
    SameEncrypter(h, ds, t, u);
  }

  lemma SameShapes(h: History, ds: set<Digest>, t: Tree, u: Tree)
    requires Valid(h) && Closed(h, ds) && Shaped(h, ds, t) && Shaped(h, ds, u)
    ensures SameShape(t, u)
  {
    var m :| IsLastMember(h, ds, m) && SameShape(t, Post(h, m));
    var n :| IsLastMember(h, ds, n) && SameShape(u, Post(h, n));
    LastMemberUnique(h, ds, m, n);
  }

  // ----- A single-version node's subtree is what its encrypter saw -----

  /** Everything an operation's creator had applied, and the operation itself. */
  ghost function UpTo(h: History, a: Digest): set<Digest>
    requires a in h.events
  {
    Past(h, a) + {a}
  }

  lemma PostRepresents(h: History, a: Digest)
    requires Valid(h) && a in h.events && a != h.root
    ensures Closed(h, UpTo(h, a)) && Represents(h, UpTo(h, a), Post(h, a))
    ensures Known(h, h.events[a].order) && Closed(h, Past(h, a)) && Represents(h, Past(h, a), Run(h, h.events[a].order))
  {
    hide Valid, Represents, Causal, Step, Run;
    CreatorIsCausal(h, a);
    PastIsKnown(h, a);
    PastClosed(h, a);
    ReadyForOwn(h, a);
    RunRepresents(h, h.events[a].order);
    StepRepresents(h, Past(h, a), Run(h, h.events[a].order), a);
  }

  lemma CreatorIsCausal(h: History, a: Digest)
    requires Valid(h) && a in h.events && a != h.root
    ensures Causal(h, h.events[a].order)
  {
    assert ValidEvent(h, a);
  }

  lemma ReadyForOwn(h: History, a: Digest)
    requires Valid(h) && a in h.events && Closed(h, Past(h, a))
    ensures Ready(h, Past(h, a), a) && Closed(h, UpTo(h, a))
  {
    hide Valid, Known;
    PastIsKnown(h, a);
  }

  /** Below a node with one live operation `a`, the same operations are live as for `a`'s creator. */
  lemma LiveBelow(h: History, ds: set<Digest>, i: nat, k: nat, a: Digest, j: nat)
    requires Valid(h) && Closed(h, ds) && Live(h, ds, Anc(i, k)) == {a} && a in h.events && Closed(h, UpTo(h, a)) &&
             j <= k
    ensures UpTo(h, a) <= ds && Live(h, ds, Anc(i, j)) == Live(h, UpTo(h, a), Anc(i, j))
  {
    hide Valid, Through;
    LiveIsApplied(h, ds, Anc(i, k), a);
    forall d | d in ds && (PastIsKnown(h, d); Through(h, d, Anc(i, j)))
      ensures d in UpTo(h, a)
    {
      ThroughAbove(h, d, i, j, k);
      OnlyLiveIsLast(h, ds, Anc(i, k), a, d);
    }
  }

  lemma ThroughAbove(h: History, d: Digest, i: nat, j: nat, k: nat)
    requires Valid(h) && d in h.events && j <= k && (PastIsKnown(h, d); Through(h, d, Anc(i, j)))
    ensures Known(h, h.events[d].order) && Through(h, d, Anc(i, k))
  {
    PastIsKnown(h, d);
    var l :| l in Touched(h, d) && Under(l, Anc(i, j));
    MeetAbove(l, i, j, k);
  }

  /** The same versions at a node, in whatever order, and hence the same key if there is one. */
  ghost predicate SameKeys(t: Tree, u: Tree, v: Node) {
    SameAt(t, u, v) && (v.level > 0 ==> multiset(Versions(t, v)) == multiset(Versions(u, v)))
  }

  lemma SameAtBelow(h: History, ds: set<Digest>, t: Tree, es: set<Digest>, u: Tree, v: Node)
    requires Valid(h) && Closed(h, ds) && Represents(h, ds, t) && Closed(h, es) && Represents(h, es, u)
    requires Live(h, ds, v) == Live(h, es, v) && InTree(v, t.depth) && InTree(v, u.depth)
    ensures SameKeys(t, u, v)
  {
    hide Valid, VersionsOf, Live, LeafMatch, WF;
    if v.level == 0 {
      assert LeafMatch(h, ds, t, v.pos) && LeafMatch(h, es, u, v.pos) && v == Leaf(v.pos);
      SameLeaf(h, ds, es, t, u, v.pos);
    } else {
      MatchAt(h, ds, t, v);
      MatchAt(h, es, u, v);
      SameVersions(h, Live(h, ds, v), v, Versions(t, v), Versions(u, v));
    }
  }

  /** Where a member's ancestor has a single version, the whole subtree below it is as the
      encrypter of that version left it. */
  lemma SubtreeIsEncrypters(h: History, ds: set<Digest>, t: Tree, i: nat, k: nat) returns (a: Digest)
    requires Valid(h) && Closed(h, ds) && Represents(h, ds, t) && i in t.leaves && 0 < k <= t.depth &&
             !Skip(t, Anc(i, k))
    ensures a in ds && a in h.events && h.events[a].op.Update? && Live(h, ds, Anc(i, k)) == {a}
    ensures k <= |h.events[a].op.change.path| && Under(h.events[a].op.change.leafIdx, Anc(i, k))
    ensures forall x, j :: Under(x, Anc(i, k)) && 0 <= j <= k ==> SameKeys(t, Post(h, a), Anc(x, j))
    ensures SameBelow(t, Post(h, a), i, k)
  {
    hide Valid, Represents, Live;
    var v := Anc(i, k);
    a := SingleVersionIsLast(h, ds, t, v);
    UpdateFacts(h, a);
    PostRepresents(h, a);
    SingleIsOnPath(h, ds, v, a);
    PathInPost(h, a, v);
    TreeBounds(h, ds, t, i, k);
    forall x, j | Under(x, v) && 0 <= j <= k
      ensures SameKeys(t, Post(h, a), Anc(x, j))
    {
      UnderInTree(x, k, t.depth);
      UnderInTree(x, k, Post(h, a).depth);
      LiveBelow(h, ds, x, k, a, j);
      SameAtBelow(h, ds, t, UpTo(h, a), Post(h, a), Anc(x, j));
    }
    assert Under(i, v);
  }

  lemma TreeBounds(h: History, ds: set<Digest>, t: Tree, i: nat, k: nat)
    requires Valid(h) && Closed(h, ds) && Represents(h, ds, t) && i in t.leaves && k <= t.depth
    ensures InTree(Anc(i, k), t.depth)
  {
    AncInTree(i, k, t.depth);
  }

  lemma SingleIsOnPath(h: History, ds: set<Digest>, v: Node, a: Digest)
    requires Valid(h) && Closed(h, ds) && Live(h, ds, v) == {a} && a in h.events && h.events[a].op.Update?
    ensures Under(h.events[a].op.change.leafIdx, v)
  {
    LiveIsApplied(h, ds, v, a);
    assert Touched(h, a) == {h.events[a].op.change.leafIdx};
  }

  lemma PathInPost(h: History, a: Digest, v: Node)
    requires Valid(h) && a in h.events && h.events[a].op.Update? && Closed(h, Past(h, a))
    requires Known(h, h.events[a].order) && Represents(h, Past(h, a), Run(h, h.events[a].order))
    requires v.level <= |h.events[a].op.change.path| && Under(h.events[a].op.change.leafIdx, v)
    ensures InTree(v, Post(h, a).depth) && Post(h, a).depth == |h.events[a].op.change.path|
  {
    hide Valid, VersionsMatch, LeafMatch, Shaped, Bounded, EncrypterMatch, ApplyOp, Step, ApplyPath;
    UpdateFacts(h, a);
    var u := Run(h, h.events[a].order);
    ClimbingApplies(u, h.events[a].op);
    UpdateKeepsShape(u, h.events[a].op.change);
    AncInTree(h.events[a].op.change.leafIdx, v.level, u.depth);
  }

  // ----- Every member reads every replica's tree -----

  /** The creator of an update, having applied it, is left with the tree it encrypted. */
  lemma PostIsEncrypted(h: History, a: Digest) returns (draw: nat -> Secret)
    requires Valid(h) && a in h.events && h.events[a].op.Update? && Closed(h, Past(h, a))
    requires Known(h, h.events[a].order) && Represents(h, Past(h, a), Run(h, h.events[a].order))
    ensures var u := Run(h, h.events[a].order); var id := h.events[a].op.memberId;
            && id in u.ids && u.ids[id] in u.leaves && u.ids[id] == h.events[a].op.change.leafIdx
            && Post(h, a) == EncryptedTree(u, id, Fresh(h.events[a].seed), draw)
  {
    assert ValidEvent(h, a);
    hide Valid, VersionsMatch, LeafMatch, Shaped, Bounded, EncrypterMatch, ApplyOp, EncryptedTree, EncryptedChange;
    var u := Run(h, h.events[a].order);
    var e := h.events[a];
    draw :| e.op.change == EncryptedChange(u, e.op.memberId, Fresh(e.seed), draw);
    OwnUpdateApplies(u, e.op.memberId, Fresh(e.seed), draw, e.op.preds);
  }

  lemma LeafIsSingle(h: History, ds: set<Digest>, t: Tree, i: nat)
    requires Valid(h) && Closed(h, ds) && LeafMatch(h, ds, t, i) && i in t.leaves
    ensures t.leaves[i].pk.Single?
  {}

  /** Every member below a node an update wrote can open it. */
  lemma PostOpens(h: History, a: Digest, i: nat, k: nat)
    requires Valid(h) && a in h.events && h.events[a].op.Update?
    requires 0 < k <= |h.events[a].op.change.path| && Under(h.events[a].op.change.leafIdx, Anc(i, k))
    requires i in Post(h, a).leaves
    ensures !Skip(Post(h, a), Anc(i, k)) && Opens(Post(h, a), i, k)
  {
    hide Valid, Represents, Opens, EncryptedTree, Step, Skip;
    UpdateFacts(h, a);
    PostRepresents(h, a);
    var draw := PostIsEncrypted(h, a);
    var u := Run(h, h.events[a].order);
    CreatorHasLeaf(h, a, i);
    UpdateOpens(u, h.events[a].op.memberId, Fresh(h.events[a].seed), draw, i, k);
  }

  lemma CreatorHasLeaf(h: History, a: Digest, i: nat)
    requires Valid(h) && a in h.events && h.events[a].op.Update? && Closed(h, Past(h, a)) && i in Post(h, a).leaves
    requires Known(h, h.events[a].order) && Represents(h, Past(h, a), Run(h, h.events[a].order))
    ensures var u := Run(h, h.events[a].order); i in u.leaves && u.leaves[i].pk.Single?
  {
    hide Valid, VersionsMatch, LeafMatch, Shaped, Bounded, EncrypterMatch;
    var u := Run(h, h.events[a].order);
    UpdateKeepsShape(u, h.events[a].op.change);
    assert LeafMatch(h, Past(h, a), u, i);
    LeafIsSingle(h, Past(h, a), u, i);
  }

  /** In every replica's tree, every member can open every non-blank, non-conflict node
      above its leaf. */
  lemma AlwaysReadable(h: History, ds: set<Digest>, t: Tree, i: nat)
    requires Valid(h) && Closed(h, ds) && Represents(h, ds, t) && i in t.leaves
    ensures Readable(t, i)
  {
    hide Valid, VersionsMatch, LeafMatch, Shaped, Bounded, EncrypterMatch, WF, Opens;
    assert LeafMatch(h, ds, t, i);
    LeafIsSingle(h, ds, t, i);
    forall k | 0 < k <= t.depth && !Skip(t, Anc(i, k))
      ensures Opens(t, i, k)
    {
      NodeReadable(h, ds, t, i, k);
    }
  }

  lemma NodeReadable(h: History, ds: set<Digest>, t: Tree, i: nat, k: nat)
    requires Valid(h) && Closed(h, ds) && Represents(h, ds, t) && i in t.leaves && 0 < k <= t.depth &&
             !Skip(t, Anc(i, k))
    ensures Opens(t, i, k)
  {
    hide Valid, Represents, Opens, Live, Post;
    var a := SubtreeIsEncrypters(h, ds, t, i, k);
    assert SameAt(t, Post(h, a), Anc(i, 0));
    PostOpens(h, a, i, k);
    SameBelowSymmetric(t, Post(h, a), i, k);
    SameOpens(Post(h, a), t, i, k);
  }

  lemma SameBelowSymmetric(t: Tree, u: Tree, i: nat, k: nat)
    requires SameBelow(t, u, i, k)
    ensures SameBelow(u, t, i, k)
  {
    forall j | 0 <= j <= k
      ensures SameAt(u, t, Anc(i, j))
    {
      assert SameAt(t, u, Anc(i, j));
    }
  }

  // ----- The root key -----

  /** Every operation passes through the root. */
  lemma EverythingThroughRoot(h: History, ds: set<Digest>, t: Tree, d: Digest)
    requires Valid(h) && Closed(h, ds) && Bounded(h, ds, t) && d in ds
    ensures Known(h, h.events[d].order) && Through(h, d, Root(t.depth))
  {
    PastIsKnown(h, d);
    hide Valid, Run;
    var op := h.events[d].op;
    var i := match op case Add(_, _, l, _, _) => l case Remove(_, l, _, _) => l case Update(_, c, _) => c.leafIdx;
    assert i in Touched(h, d);
    RootUnder(i, t.depth);
  }

  /** A root key exists exactly when some applied update has every other applied operation
      in its causal past. */
  lemma RootKeyIffLastUpdate(h: History, ds: set<Digest>, t: Tree)
    requires Valid(h) && Closed(h, ds) && Represents(h, ds, t)
    ensures HasRootKey(t) <==> exists a :: a in ds && h.events[a].op.Update? && ds == UpTo(h, a)
  {
    hide Valid, Represents, Live, HasRootKey;
    if HasRootKey(t) {
      var a := RootIsLast(h, ds, t);
      forall d | d in ds
        ensures d in UpTo(h, a)
      {
        RepresentsBounds(h, ds, t);
        EverythingThroughRoot(h, ds, t, d);
        OnlyLiveIsLast(h, ds, Root(t.depth), a, d);
      }
      assert ds == UpTo(h, a);
    }
    if a :| a in ds && h.events[a].op.Update? && ds == UpTo(h, a) {
      LastUpdateKeysRoot(h, ds, t, a);
    }
  }

  lemma RepresentsBounds(h: History, ds: set<Digest>, t: Tree)
    requires Valid(h) && Closed(h, ds) && Represents(h, ds, t)
    ensures Bounded(h, ds, t) && WF(t)
  {}

  lemma LastUpdateKeysRoot(h: History, ds: set<Digest>, t: Tree, a: Digest)
    requires Valid(h) && Closed(h, ds) && Represents(h, ds, t)
    requires a in ds && h.events[a].op.Update? && ds == UpTo(h, a)
    ensures HasRootKey(t)
  {
    hide Valid, Represents, Live, WF;
    UpdateFacts(h, a);
    PostRepresents(h, a);
    RepresentativesAgree(h, ds, t, Post(h, a));
    var draw := PostIsEncrypted(h, a);
    var u := Run(h, h.events[a].order);
    var id := h.events[a].op.memberId;
    NewPathIsKeyed(u, id, Fresh(h.events[a].seed), draw, u.depth);
    RepresentsBounds(h, Past(h, a), u);
    RootOfWF(u, u.ids[id]);
    assert |multiset(Versions(t, Root(t.depth)))| == |multiset(Versions(Post(h, a), Root(t.depth)))|;
  }

  lemma RootOfWF(u: Tree, i: nat)
    requires WF(u) && i in u.leaves
    ensures Anc(i, u.depth) == Root(u.depth) && u.depth > 0
  {
    AncRoot(i, u.depth);
  }

  lemma SingletonEqual<T>(s: seq<T>, r: seq<T>)
    requires multiset(s) == multiset(r) && |s| == 1
    ensures s == r
  {
    assert |multiset(s)| == |multiset(r)|;
    assert s[0] in multiset(r);
  }

  lemma ChainCarriesOver(t: Tree, u: Tree, e: nat, s: Secret)
    requires SameTree(t, u) && Chained(u, e, s)
    ensures Chained(t, e, s)
  {
    forall k | 0 <= k <= t.depth
      ensures !Skip(t, Anc(e, k)) && KeyAt(t, Anc(e, k)) == Single(ShareKey(RatchetN(s, k)))
    {
      var v := Anc(e, k);
      assert !Skip(u, v) && KeyAt(u, v) == Single(ShareKey(RatchetN(s, k)));
      if k > 0 {
        SingletonEqual(Versions(u, v), Versions(t, v));
      }
    }
  }

  /** With a root key, every node on the current encrypter's path has one version: the
      encrypter's leaf secret ratcheted once per level. */
  lemma RootChain(h: History, ds: set<Digest>, t: Tree) returns (a: Digest)
    requires Valid(h) && Closed(h, ds) && Represents(h, ds, t) && HasRootKey(t)
    ensures a in ds && a in h.events && h.events[a].op.Update? && ds == UpTo(h, a)
    ensures t.depth == |h.events[a].op.change.path|
    ensures t.encrypter == Some(h.events[a].op.change.leafIdx)
    ensures Chained(t, h.events[a].op.change.leafIdx, Fresh(h.events[a].seed))
  {
    hide Valid, Represents, Live, WF, HasRootKey, Chained, SameShape;
    RootKeyIffLastUpdate(h, ds, t);
    a :| a in ds && h.events[a].op.Update? && ds == UpTo(h, a);
    var b := RootIsLast(h, ds, t);
    RepresentsBounds(h, ds, t);
    EverythingThroughRoot(h, ds, t, a);
    LastIsUnique(h, ds, a, b, Root(t.depth));
    UpdateFacts(h, a);
    PostRepresents(h, a);
    var draw := PostIsEncrypted(h, a);
    var u := Run(h, h.events[a].order);
    UpdateIsChained(u, h.events[a].op.memberId, Fresh(h.events[a].seed), draw);
    RepresentativesAgree(h, ds, t, Post(h, a));
    ChainCarriesOver(t, Post(h, a), h.events[a].op.change.leafIdx, Fresh(h.events[a].seed));
    DepthsAgree(t, Post(h, a), u, h.events[a].op.change);
  }

  lemma DepthsAgree(t: Tree, p: Tree, u: Tree, c: PathChange)
    requires SameShape(t, p) && |c.path| == u.depth && p.depth == u.depth
    ensures t.depth == |c.path|
  {}

  lemma LastIsUnique(h: History, ds: set<Digest>, a: Digest, b: Digest, v: Node)
    requires Valid(h) && Closed(h, ds) && a in ds && ds == UpTo(h, a) && Live(h, ds, v) == {b}
    requires b in ds && (PastIsKnown(h, a); Through(h, a, v))
    ensures a == b
  {
    OnlyLiveIsLast(h, ds, v, b, a);
    if a != b {
      PastIsClosed(h, b, a);
    }
  }

  /** The root secret the author of update `a` got from `encrypt_path`. */
  ghost function RootSecretOf(h: History, a: Digest): Secret
    requires a in h.events && h.events[a].op.Update?
  {
    RatchetN(Fresh(h.events[a].seed), |h.events[a].op.change.path|)
  }

  /** The key map holds the secret of the member's current leaf key. */
  ghost predicate HoldsLeafKey(t: Tree, id: MemberId, sks: ShareKeyMap) {
    && Sound(sks) && id in t.ids && t.ids[id] in t.leaves
    && t.leaves[t.ids[id]].pk.Single? && t.leaves[t.ids[id]].pk.pk in sks
  }

  /** Whole-run key agreement: in every replica's tree that has a root key, whatever
      concurrent updates and membership changes led to it, every member's decryption
      succeeds and gives the secret the current encrypter's `encrypt_path` returned. */
  lemma KeyAgreement(h: History, order: seq<Digest>) returns (a: Digest)
    requires Valid(h) && Causal(h, order) && HasRootKey(Run(h, order))
    ensures a in order && a in h.events && h.events[a].op.Update? && ToSet(order) == UpTo(h, a)
    ensures WF(Run(h, order))
    ensures forall id, sks :: HoldsLeafKey(Run(h, order), id, sks) ==>
              DecryptTreeSecret(Run(h, order), id, sks).0 == Ok(RootSecretOf(h, a))
  {
    hide Valid, Represents, WF, Chained, Readable, DecryptTreeSecret;
    var t := Run(h, order);
    RunRepresents(h, order);
    a := RootChain(h, ToSet(order), t);
    RepresentsBounds(h, ToSet(order), t);
    forall id, sks | HoldsLeafKey(t, id, sks)
      ensures WF(t) && DecryptTreeSecret(t, id, sks).0 == Ok(RootSecretOf(h, a))
    {
      AlwaysReadable(h, ToSet(order), t, t.ids[id]);
      WFBounds(t, id);
      DecryptsToRoot(t, id, sks, Fresh(h.events[a].seed));
    }
  }

  lemma WFBounds(t: Tree, id: MemberId)
    requires WF(t) && id in t.ids
    ensures t.ids[id] in t.leaves && t.ids[id] < Pow2(t.depth) && t.depth > 0
    ensures t.encrypter.Some? ==> t.encrypter.value < Pow2(t.depth)
    ensures HasRootKey(t) ==> t.encrypter.Some?
  {}
}
