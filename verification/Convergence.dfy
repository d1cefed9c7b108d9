/** Versions are the causal maxima: whatever causal order a replica applies operations in,
    its tree holds exactly the keys of the operations nothing has superseded. */
module Convergence {
  import opened Seqs
  import opened Results
  import opened Nodes
  import opened Crypto
  import opened NodeKeys
  import opened KeyTree
  import opened PathUpdate
  import opened WellFormed
  import opened Operations
  import opened History

  function Versions(t: Tree, v: Node): seq<Version> {
    if v in t.inner then t.inner[v].versions else []
  }

  /** `w` is what update `e` wrote at node `v`. */
  ghost predicate IsVersion(e: Event, v: Node, w: Version) {
    && e.op.Update?
    && 0 < v.level <= |e.op.change.path|
    && w == e.op.change.path[v.level - 1].1.versions[0]
  }

  /** `vs` lists the versions the given updates wrote at `v`, each once. */
  ghost predicate VersionsOf(h: History, ds: set<Digest>, vs: seq<Version>, v: Node)
    requires ds <= h.events.Keys
  {
    && Distinct(vs)
    && (forall w :: w in vs ==> exists d :: d in ds && IsVersion(h.events[d], v, w))
    && (forall d :: d in ds && h.events[d].op.Update? ==> exists w :: w in vs && IsVersion(h.events[d], v, w))
  }

  /** The versions at an inner node are those of the live updates through it. */
  ghost predicate VersionsMatch(h: History, ds: set<Digest>, t: Tree, v: Node)
    requires Valid(h) && Closed(h, ds)
  {
    VersionsOf(h, Live(h, ds, v), Versions(t, v), v)
  }

  function Author(op: Op): MemberId {
    match op
    case Add(id, _, _, _, _) => id
    case Remove(id, _, _, _) => id
    case Update(id, _, _) => id
  }

  /** The leaf an add or update leaves behind. */
  function LeafOf(e: Event): LeafNode {
    LeafNode(Author(e.op), Single(ShareKey(Fresh(e.seed))))
  }

  ghost predicate LeafMatch(h: History, ds: set<Digest>, t: Tree, i: nat)
    requires Valid(h) && Closed(h, ds)
  {
    && (i in t.leaves ==>
          exists d :: d in Live(h, ds, Leaf(i)) && !h.events[d].op.Remove? && t.leaves[i] == LeafOf(h.events[d]))
    && (forall d :: d in Live(h, ds, Leaf(i)) && !h.events[d].op.Remove? ==>
          i in t.leaves && t.leaves[i] == LeafOf(h.events[d]))
  }

  /** The last membership change applied. */
  ghost predicate IsLastMember(h: History, ds: set<Digest>, m: Digest)
    requires Closed(h, ds)
  {
    && m in ds && IsMembership(h.events[m].op)
    && forall d :: d in ds && IsMembership(h.events[d].op) ==> d == m || d in Past(h, m)
  }

  ghost predicate SameShape(t: Tree, u: Tree) {
    t.depth == u.depth && t.nextLeaf == u.nextLeaf && t.ids == u.ids && t.leaves.Keys == u.leaves.Keys
  }

  /** The tree of an operation's creator once it has applied the operation itself. */
  ghost function Post(h: History, d: Digest): (t: Tree)
    requires Valid(h) && d in h.events
    ensures Linked(t)
  {
    PastIsKnown(h, d);
    Step(Run(h, h.events[d].order), h.events[d].op)
  }

  ghost predicate Shaped(h: History, ds: set<Digest>, t: Tree)
    requires Valid(h) && Closed(h, ds)
  {
    exists m :: IsLastMember(h, ds, m) && SameShape(t, Post(h, m))
  }

  ghost predicate Bounded(h: History, ds: set<Digest>, t: Tree)
    requires Valid(h) && Closed(h, ds)
  {
    forall d, i :: d in ds && (PastIsKnown(h, d); i in Touched(h, d)) ==> i < Pow2(t.depth)
  }

  ghost predicate EncrypterMatch(h: History, ds: set<Digest>, t: Tree)
    requires Valid(h) && Closed(h, ds)
  {
    t.encrypter.Some? ==>
      exists a :: a in Live(h, ds, Root(t.depth)) && h.events[a].op.Update?
                  && h.events[a].op.change.leafIdx == t.encrypter.value
  }

  /** Tree `t` is what the set `ds` of applied operations amounts to, in whatever order
      they were applied. */
  ghost predicate Represents(h: History, ds: set<Digest>, t: Tree)
    requires Valid(h) && Closed(h, ds)
  {
    && WF(t)
    && Shaped(h, ds, t)
    && Bounded(h, ds, t)
    && EncrypterMatch(h, ds, t)
    && (forall v: Node :: v.level > 0 && InTree(v, t.depth) ==> VersionsMatch(h, ds, t, v))
    && (forall i :: LeafMatch(h, ds, t, i))
  }

  // ----- Keys identify their updates -----

  lemma UpdateFacts(h: History, d: Digest)
    requires Valid(h) && d in h.events && h.events[d].op.Update?
    ensures d != h.root && Causal(h, h.events[d].order)
    ensures var t := Run(h, h.events[d].order); var op := h.events[d].op;
            && op.memberId in t.ids && op.change.leafId == op.memberId
            && op.change.leafIdx == t.ids[op.memberId] && |op.change.path| == t.depth
            && op.change.leafPk == Single(ShareKey(Fresh(h.events[d].seed)))
            && op.change.removed == Keys(t.leaves[op.change.leafIdx].pk) + PathKeys(t, op.change.leafIdx, t.depth)
            && Climbs(op.change.path, op.change.leafIdx)
  {
    assert ValidEvent(h, d);
    var t := Run(h, h.events[d].order);
    var e := h.events[d];
    var draw: nat -> Secret :| e.op.change == EncryptedChange(t, e.op.memberId, Fresh(e.seed), draw);
    NewPathClimbs(t, t.ids[e.op.memberId], Fresh(e.seed), draw, t.depth);
  }

  lemma UpdateStore(h: History, d: Digest, k: nat)
    requires Valid(h) && d in h.events && h.events[d].op.Update? && 0 < k <= |h.events[d].op.change.path|
    ensures var s := h.events[d].op.change.path[k - 1].1;
            |s.versions| == 1 && s.versions[0].pk == ShareKey(RatchetN(Fresh(h.events[d].seed), k))
  {
    assert ValidEvent(h, d);
    var t := Run(h, h.events[d].order);
    var e := h.events[d];
    var draw: nat -> Secret :| e.op.change == EncryptedChange(t, e.op.memberId, Fresh(e.seed), draw);
    assert e.op.change.path[k - 1] == PathStore(t, t.ids[e.op.memberId], Fresh(e.seed), draw, k - 1);
  }

  lemma VersionIdentifies(h: History, d: Digest, v: Node, w: Version, d': Digest, v': Node, w': Version)
    requires Valid(h) && d in h.events && d' in h.events
    requires IsVersion(h.events[d], v, w) && IsVersion(h.events[d'], v', w') && w.pk == w'.pk
    ensures d == d' && v.level == v'.level
  {
    UpdateStore(h, d, v.level);
    UpdateStore(h, d', v'.level);
    RatchetInjective(h.events[d].seed, v.level, h.events[d'].seed, v'.level);
    assert BothKeyed(h.events[d].op, h.events[d'].op);
  }

  // ----- The last membership change -----

  lemma LastMemberUnique(h: History, ds: set<Digest>, m: Digest, n: Digest)
    requires Valid(h) && Closed(h, ds) && IsLastMember(h, ds, m) && IsLastMember(h, ds, n)
    ensures m == n
  {
    if m != n {
      PastIsClosed(h, m, n);
    }
  }

  /** A membership change already applied is in the past of every operation not yet applied. */
  lemma MemberIsPast(h: History, ds: set<Digest>, b: Digest, m: Digest)
    requires Valid(h) && Closed(h, ds) && b in h.events && b !in ds && m in ds
    requires IsMembership(h.events[m].op) || IsMembership(h.events[b].op)
    ensures m in Past(h, b)
  {
    assert Comparable(h, m, b) || Comparable(h, b, m);
  }

  lemma PastClosed(h: History, b: Digest)
    requires Valid(h) && b in h.events
    ensures Closed(h, Past(h, b))
  {
    forall d | d in Past(h, b)
      ensures d in h.events && Past(h, d) <= Past(h, b)
    {
      PastIsClosed(h, b, d);
    }
  }

  /** A replica about to apply `b` has a tree of the same shape as `b`'s creator had. */
  lemma ShapeAgrees(h: History, ds: set<Digest>, t: Tree, b: Digest, u: Tree)
    requires Valid(h) && Closed(h, ds) && b in h.events && b !in ds && Past(h, b) <= ds
    requires Closed(h, Past(h, b)) && Shaped(h, ds, t) && Shaped(h, Past(h, b), u)
    ensures SameShape(t, u)
  {
    var m :| IsLastMember(h, ds, m) && SameShape(t, Post(h, m));
    var n :| IsLastMember(h, Past(h, b), n) && SameShape(u, Post(h, n));
    MemberIsPast(h, ds, b, m);
    assert IsLastMember(h, Past(h, b), m);
    LastMemberUnique(h, Past(h, b), m, n);
  }

  // ----- Applying an update -----

  /** A replica that has applied `ds` may apply `b` next: it is new and its past is there. */
  ghost predicate Ready(h: History, ds: set<Digest>, b: Digest)
    requires Valid(h)
  {
    Closed(h, ds) && b in h.events && b !in ds && Past(h, b) <= ds && Closed(h, Past(h, b))
  }

  /** An update live here and known to a later updater was live there too. */
  lemma LiveInPast(h: History, ds: set<Digest>, b: Digest, v: Node, d: Digest)
    requires Valid(h) && Ready(h, ds, b) && d in Live(h, ds, v) && d in Past(h, b)
    ensures d in Live(h, Past(h, b), v)
  {
    hide Valid, Through;
  }

  /** The tree on which update `b` was created, which represents `b`'s past. */
  ghost predicate CreatorTree(h: History, b: Digest, u: Tree)
    requires Valid(h) && b in h.events
  {
    && h.events[b].op.Update? && Closed(h, Past(h, b))
    && u == (UpdateFacts(h, b); Run(h, h.events[b].order)) && Represents(h, Past(h, b), u)
  }

  lemma PastIsRemoved(h: History, ds: set<Digest>, b: Digest, u: Tree, v: Node, d: Digest, w: Version)
    requires Valid(h) && Ready(h, ds, b) && CreatorTree(h, b, u)
    requires OnPath(v, h.events[b].op.change.leafIdx, u.depth)
    requires d in Live(h, ds, v) && IsVersion(h.events[d], v, w) && d in Past(h, b)
    ensures w.pk in h.events[b].op.change.removed
  {
    hide Valid, Live, Versions, Through, WF;
    UpdateFacts(h, b);
    var i := h.events[b].op.change.leafIdx;
    LeafInBounds(u, i);
    AncInTree(i, v.level, u.depth);
    assert VersionsMatch(h, Past(h, b), u, v);
    LiveInPast(h, ds, b, v, d);
    var w' :| w' in Versions(u, v) && IsVersion(h.events[d], v, w');
    VersionPresent(u, i, v.level, w');
  }

  lemma LeafInBounds(u: Tree, i: nat)
    requires WF(u) && i in u.leaves
    ensures i < Pow2(u.depth)
  {}

  /** Every version in a replica's tree was written there by a live update. */
  lemma OwnerOf(h: History, ds: set<Digest>, t: Tree, v: Node, w: Version) returns (d: Digest)
    requires Valid(h) && Closed(h, ds) && Represents(h, ds, t)
    requires v in t.inner && w in t.inner[v].versions
    ensures d in ds && d in h.events && d in Live(h, ds, v) && IsVersion(h.events[d], v, w)
  {
    hide Valid, Through, InTree;
    assert VersionsMatch(h, ds, t, v);
    assert w in Versions(t, v);
    d :| d in Live(h, ds, v) && IsVersion(h.events[d], v, w);
  }

  lemma PathKeyIsPast(h: History, b: Digest, u: Tree, v: Node, d: Digest, w: Version)
    requires Valid(h) && b in h.events && CreatorTree(h, b, u) && d in h.events && IsVersion(h.events[d], v, w)
    requires w.pk in PathKeys(u, h.events[b].op.change.leafIdx, u.depth)
    ensures d in Past(h, b)
  {
    hide Valid, Represents, IsVersion, PathKeys;
    var i := h.events[b].op.change.leafIdx;
    var j, w' := PathKeysOnly(u, i, u.depth, w.pk);
    var d' := OwnerOf(h, Past(h, b), u, Anc(i, j), w');
    VersionIdentifies(h, d, v, w, d', Anc(i, j), w');
  }

  /** The keys an update removes are exactly those of the versions its author saw: at a
      node of the path, a live version is removed if and only if it is in the update's past. */
  lemma RemovedIffPast(h: History, ds: set<Digest>, b: Digest, u: Tree, v: Node, d: Digest, w: Version)
    requires Valid(h) && Ready(h, ds, b) && CreatorTree(h, b, u)
    requires OnPath(v, h.events[b].op.change.leafIdx, u.depth)
    requires d in Live(h, ds, v) && IsVersion(h.events[d], v, w)
    ensures w.pk in h.events[b].op.change.removed <==> d in Past(h, b)
  {
    hide Valid, Live, Versions, Through, WF, VersionsMatch;
    UpdateFacts(h, b);
    var i := h.events[b].op.change.leafIdx;
    LiveIsApplied(h, ds, v, d);
    if d in Past(h, b) {
      PastIsRemoved(h, ds, b, u, v, d, w);
    } else if w.pk in h.events[b].op.change.removed {
      LeafKeyIsFresh(h, Past(h, b), u, i, d, v, w);
      PathKeyIsPast(h, b, u, v, d, w);
    }
  }

  lemma LiveIsApplied(h: History, ds: set<Digest>, v: Node, d: Digest)
    requires Valid(h) && Closed(h, ds) && d in Live(h, ds, v)
    ensures d in ds && d in h.events && (PastIsKnown(h, d); Through(h, d, v))
  {}

  lemma VersionPresent(u: Tree, i: nat, k: nat, w: Version)
    requires 0 < k <= u.depth && w in Versions(u, Anc(i, k))
    ensures w.pk in PathKeys(u, i, u.depth)
  {
    PathKeysInclude(u, i, u.depth, k, w);
  }

  /** Leaf keys are fresh, inner keys are ratcheted: they never coincide. */
  lemma LeafKeyIsFresh(h: History, ds: set<Digest>, u: Tree, i: nat, d: Digest, v: Node, w: Version)
    requires Valid(h) && Closed(h, ds) && LeafMatch(h, ds, u, i) && i in u.leaves
    requires d in h.events && IsVersion(h.events[d], v, w)
    ensures w.pk !in Keys(u.leaves[i].pk)
  {
    hide Valid, Through;
    var x :| x in Live(h, ds, Leaf(i)) && u.leaves[i] == LeafOf(h.events[x]);
    UpdateStore(h, d, v.level);
  }

  /** What applying a valid path leaves at each node. */
  lemma AppliedVersions(t: Tree, c: PathChange, v: Node)
    requires Linked(t) && c.leafId in t.ids && ValidPath(t, c) && Climbs(c.path, c.leafIdx)
    ensures Versions(ApplyPath(t, c), v)
         == if OnPath(v, c.leafIdx, t.depth)
            then KeepVersions(Versions(t, v), ToSet(c.removed)) + c.path[v.level - 1].1.versions
            else Versions(t, v)
  {
    hide MergeKey, Skip;
    MergeMeans(t.inner, c.path, ToSet(c.removed), c.leafIdx, v);
  }

  lemma ThroughIsOnPath(h: History, b: Digest, v: Node, depth: nat)
    requires Valid(h) && b in h.events && h.events[b].op.Update? && 0 < v.level <= depth
    ensures Known(h, h.events[b].order)
    ensures Through(h, b, v) <==> OnPath(v, h.events[b].op.change.leafIdx, depth)
  {
    PastIsKnown(h, b);
    assert Touched(h, b) == {h.events[b].op.change.leafIdx};
  }

  /** Dropping the versions of superseded updates and appending a new one. */
  lemma FilteredVersions(h: History, live: set<Digest>, vs: seq<Version>, v: Node, past: set<Digest>,
                         removed: set<ShareKey>, b: Digest, wb: Version)
    requires live <= h.events.Keys && b in h.events && IsVersion(h.events[b], v, wb)
    requires VersionsOf(h, live, vs, v)
    requires forall d, w :: d in live && IsVersion(h.events[d], v, w) ==> (w.pk in removed <==> d in past) && w != wb
    ensures VersionsOf(h, (live - past) + {b}, KeepVersions(vs, removed) + [wb], v)
  {
    hide IsVersion, KeepVersions;
    var kept := KeepVersions(vs, removed);
    KeepVersionsDistinct(vs, removed);
    forall w | w in kept
      ensures w != wb && exists d :: d in (live - past) + {b} && IsVersion(h.events[d], v, w)
    {
      KeepVersionsMeans(vs, removed, w);
      var d :| d in live && IsVersion(h.events[d], v, w);
      assert d in (live - past) + {b};
    }
    forall d | d in (live - past) + {b} && h.events[d].op.Update?
      ensures exists w :: w in kept + [wb] && IsVersion(h.events[d], v, w)
    {
      assert wb in kept + [wb];
      if d != b {
        var w :| w in vs && IsVersion(h.events[d], v, w);
        KeepVersionsMeans(vs, removed, w);
        assert w in kept + [wb];
      }
    }
    DistinctAppend(kept, wb);
    assert b in (live - past) + {b};
  }

  lemma MatchAt(h: History, ds: set<Digest>, t: Tree, v: Node)
    requires Valid(h) && Closed(h, ds) && Represents(h, ds, t) && v.level > 0 && InTree(v, t.depth)
    ensures VersionsMatch(h, ds, t, v)
    ensures Live(h, ds, v) <= ds && ds <= h.events.Keys
  {}

  /** The change still fits the tree it is applied to: same leaf, same path length. */
  lemma UpdateFits(h: History, ds: set<Digest>, t: Tree, b: Digest, u: Tree)
    requires Valid(h) && Ready(h, ds, b) && CreatorTree(h, b, u) && Represents(h, ds, t)
    ensures SameShape(t, u) && WF(t) && Linked(t)
    ensures var c := h.events[b].op.change;
            && c.leafId == h.events[b].op.memberId && c.leafId in t.ids && c.leafId in u.ids &&
              t.ids[c.leafId] in t.leaves
            && ValidPath(t, c) && |c.path| == u.depth && Climbs(c.path, c.leafIdx) && c.leafIdx < Pow2(t.depth)
            && ApplyOp(t, h.events[b].op) == Ok(ApplyPath(t, c)) && Step(t, h.events[b].op) == ApplyPath(t, c)
  {
    hide Valid, VersionsMatch, LeafMatch, ApplyOp, Step, ApplyPath;
    UpdateFacts(h, b);
    ShapeAgrees(h, ds, t, b, u);
    ClimbingApplies(t, h.events[b].op);
  }

  /** At a node of the path, the versions kept and the new one are those of the updates
      live once `b` is applied. */
  lemma PathVersionsMatch(h: History, ds: set<Digest>, t: Tree, b: Digest, u: Tree, v: Node)
    requires Valid(h) && Ready(h, ds, b) && CreatorTree(h, b, u) && Represents(h, ds, t)
    requires Closed(h, ds + {b}) && InTree(v, t.depth) && OnPath(v, h.events[b].op.change.leafIdx, t.depth)
    ensures VersionsMatch(h, ds + {b}, Step(t, h.events[b].op), v)
  {
    hide Valid, Through, Represents, KeepVersions, Live, VersionsOf, Past, ApplyOp, Step, ApplyPath;
    UpdateFits(h, ds, t, b, u);
    var c := h.events[b].op.change;
    var live, removed := Live(h, ds, v), ToSet(c.removed);
    MatchAt(h, ds, t, v);
    UpdateStore(h, b, v.level);
    var wb := c.path[v.level - 1].1.versions[0];
    forall d, w | d in live && IsVersion(h.events[d], v, w)
      ensures (w.pk in removed <==> d in Past(h, b)) && w != wb
    {
      RemovedIffPast(h, ds, b, u, v, d, w);
      if w == wb {
        VersionIdentifies(h, d, v, w, b, v, wb);
      }
    }
    FilteredVersions(h, live, Versions(t, v), v, Past(h, b), removed, b, wb);
    assert c.path[v.level - 1].1.versions == [wb];
    AppliedVersions(t, c, v);
    LiveStep(h, ds, b, v);
    ThroughIsOnPath(h, b, v, t.depth);
  }

  lemma UpdateVersionsMatch(h: History, ds: set<Digest>, t: Tree, b: Digest, u: Tree, v: Node)
    requires Valid(h) && Ready(h, ds, b) && CreatorTree(h, b, u) && Represents(h, ds, t)
    requires Closed(h, ds + {b}) && v.level > 0 && InTree(v, t.depth)
    ensures VersionsMatch(h, ds + {b}, Step(t, h.events[b].op), v)
  {
    hide Valid, Through, Represents, Live, VersionsOf, ApplyOp, Step, ApplyPath;
    UpdateFits(h, ds, t, b, u);
    var c := h.events[b].op.change;
    if OnPath(v, c.leafIdx, t.depth) {
      PathVersionsMatch(h, ds, t, b, u, v);
    } else {
      AppliedVersions(t, c, v);
      LiveStep(h, ds, b, v);
      ThroughIsOnPath(h, b, v, t.depth);
      MatchAt(h, ds, t, v);
    }
  }

  /** Members' own operations at a leaf are in the past of a later update there. */
  lemma LeafLiveIsPast(h: History, ds: set<Digest>, t: Tree, b: Digest, i: nat, d: Digest)
    requires Valid(h) && Ready(h, ds, b) && h.events[b].op.Update? && LeafMatch(h, ds, t, i)
    requires i in t.leaves && t.leaves[i].id == h.events[b].op.memberId && d in Live(h, ds, Leaf(i))
    ensures d in Past(h, b)
  {
    LiveIsApplied(h, ds, Leaf(i), d);
    if IsMembership(h.events[d].op) {
      MemberIsPast(h, ds, b, d);
    } else {
      assert SameAuthor(h.events[d].op, h.events[b].op);
      assert Comparable(h, d, b);
    }
  }

  lemma UpdateLeafKey(h: History, ds: set<Digest>, t: Tree, b: Digest, u: Tree)
    requires Valid(h) && Ready(h, ds, b) && CreatorTree(h, b, u) && Represents(h, ds, t)
    requires var c := h.events[b].op.change; t.ids == u.ids && c.leafId in t.ids && t.ids[c.leafId] == c.leafIdx
    ensures var c := h.events[b].op.change;
            && c.leafIdx in t.leaves && MergedLeaf(t, c.leafIdx, c) == LeafOf(h.events[b])
            && Live(h, ds, Leaf(c.leafIdx)) <= Past(h, b)
  {
    hide Valid, Through, VersionsMatch, Shaped, Bounded, EncrypterMatch;
    UpdateFacts(h, b);
    var c := h.events[b].op.change;
    var i := c.leafIdx;
    assert LeafMatch(h, ds, t, i) && LeafMatch(h, Past(h, b), u, i);
    forall d | d in Live(h, ds, Leaf(i))
      ensures d in Past(h, b)
    {
      LeafLiveIsPast(h, ds, t, b, i, d);
    }
    var d :| d in Live(h, ds, Leaf(i)) && !h.events[d].op.Remove? && t.leaves[i] == LeafOf(h.events[d]);
    LiveInPast(h, ds, b, Leaf(i), d);
    assert t.leaves[i] == u.leaves[i];
    assert ShareKey(Fresh(h.events[d].seed)) in Keys(u.leaves[i].pk);
  }

  lemma UpdateLeafMatch(h: History, ds: set<Digest>, t: Tree, b: Digest, u: Tree, i: nat)
    requires Valid(h) && Ready(h, ds, b) && CreatorTree(h, b, u) && Represents(h, ds, t) && Closed(h, ds + {b})
    ensures LeafMatch(h, ds + {b}, Step(t, h.events[b].op), i)
  {
    hide Valid, Through, Live, VersionsMatch, MergePath, MergeKey, Shaped, Bounded, EncrypterMatch, WF, ApplyOp, Step;
    UpdateFits(h, ds, t, b, u);
    UpdateLeafKey(h, ds, t, b, u);
    var c := h.events[b].op.change;
    LiveStep(h, ds, b, Leaf(i));
    ThroughLeaf(h, b, i);
    assert LeafMatch(h, ds, t, i);
    if i == c.leafIdx {
      assert Live(h, ds + {b}, Leaf(i)) == {b};
    }
  }

  lemma ThroughLeaf(h: History, b: Digest, i: nat)
    requires Valid(h) && b in h.events && h.events[b].op.Update?
    ensures Known(h, h.events[b].order) && (Through(h, b, Leaf(i)) <==> i == h.events[b].op.change.leafIdx)
  {
    PastIsKnown(h, b);
    assert Touched(h, b) == {h.events[b].op.change.leafIdx};
  }

  lemma UpdateKeepsShape(t: Tree, c: PathChange)
    requires Linked(t)
    ensures SameShape(ApplyPath(t, c), t)
  {
    hide MergeKey, MergePath;
    assert c.leafId in t.ids ==> ApplyPath(t, c).leaves.Keys == t.leaves.Keys;
  }

  lemma UpdateShaped(h: History, ds: set<Digest>, t: Tree, b: Digest)
    requires Valid(h) && Ready(h, ds, b) && h.events[b].op.Update? && Linked(t) && Shaped(h, ds, t)
    requires Closed(h, ds + {b})
    ensures Shaped(h, ds + {b}, Step(t, h.events[b].op))
  {
    hide Valid;
    var m :| IsLastMember(h, ds, m) && SameShape(t, Post(h, m));
    UpdateKeepsShape(t, h.events[b].op.change);
    assert IsLastMember(h, ds + {b}, m);
  }

  lemma UpdateBounded(h: History, ds: set<Digest>, t: Tree, b: Digest)
    requires Valid(h) && Ready(h, ds, b) && h.events[b].op.Update? && Linked(t) && Bounded(h, ds, t)
    requires Closed(h, ds + {b}) && h.events[b].op.change.leafIdx < Pow2(t.depth)
    ensures Bounded(h, ds + {b}, Step(t, h.events[b].op))
  {
    hide Valid;
    PastIsKnown(h, b);
    UpdateKeepsShape(t, h.events[b].op.change);
    assert Touched(h, b) == {h.events[b].op.change.leafIdx};
  }

  lemma UpdateEncrypter(h: History, ds: set<Digest>, t: Tree, b: Digest)
    requires Valid(h) && Ready(h, ds, b) && h.events[b].op.Update? && WF(t)
    requires var c := h.events[b].op.change;
             c.leafId in t.ids && ValidPath(t, c) && c.leafIdx < Pow2(t.depth) && Climbs(c.path, c.leafIdx)
    requires Closed(h, ds + {b})
    ensures EncrypterMatch(h, ds + {b}, Step(t, h.events[b].op))
  {
    hide Valid, Live, MergeKey, MergePath, ApplyOp, Step;
    var c := h.events[b].op.change;
    ClimbingApplies(t, h.events[b].op);
    LiveStep(h, ds, b, Root(t.depth));
    ThroughIsOnPath(h, b, Root(t.depth), t.depth);
    AncRoot(c.leafIdx, t.depth);
    assert b in Live(h, ds + {b}, Root(t.depth));
  }

  /** Applying an update whose past has been applied. */
  lemma UpdateRepresents(h: History, ds: set<Digest>, t: Tree, b: Digest, u: Tree)
    requires Valid(h) && Ready(h, ds, b) && CreatorTree(h, b, u) && Represents(h, ds, t) && Closed(h, ds + {b})
    ensures Represents(h, ds + {b}, Step(t, h.events[b].op))
  {
    hide Valid, VersionsMatch, LeafMatch, Shaped, Bounded, EncrypterMatch, WF, MergeKey, MergePath;
    UpdateFits(h, ds, t, b, u);
    var c := h.events[b].op.change;
    ApplyPathWF(t, c);
    UpdateKeepsShape(t, c);
    UpdateShaped(h, ds, t, b);
    UpdateBounded(h, ds, t, b);
    UpdateEncrypter(h, ds, t, b);
    forall v: Node | v.level > 0 && InTree(v, t.depth)
      ensures VersionsMatch(h, ds + {b}, Step(t, h.events[b].op), v)
    {
      UpdateVersionsMatch(h, ds, t, b, u, v);
    }
    forall i: nat
      ensures LeafMatch(h, ds + {b}, Step(t, h.events[b].op), i)
    {
      UpdateLeafMatch(h, ds, t, b, u, i);
    }
  }

  // ----- Applying a membership change -----

  lemma {:induction false} TrimSame(a: map<nat, LeafNode>, b: map<nat, LeafNode>, n: nat)
    requires a.Keys == b.Keys
    ensures Trim(a, n) == Trim(b, n)
  {
    if n > 0 && n - 1 !in a {
      TrimSame(a, b, n - 1);
    }
  }

  ghost function MemberLeaves(e: Event, u: Tree): set<nat>
    requires IsMembership(e.op)
  {
    if e.op.Add? then {e.op.leafIndex} else RemovedLeaves(u, e.op.leafIdx)
  }

  /** What a membership change created on `u` does to a tree `t`. */
  ghost predicate MemberEffect(e: Event, u: Tree, t: Tree, t': Tree)
    requires IsMembership(e.op)
  {
    && WF(t') && t'.encrypter == None
    && t.depth <= t'.depth <= t.depth + 1 && (t'.depth > t.depth ==> e.op.Add?)
    && t'.inner == Blanked(t.inner, MemberLeaves(e, u))
    && (forall i :: i in MemberLeaves(e, u) ==> i < Pow2(t'.depth))
    && t'.leaves == if e.op.Add? then t.leaves[e.op.leafIndex := LeafOf(e)] else t.leaves - MemberLeaves(e, u)
  }

  lemma AddStep(t: Tree, u: Tree, e: Event)
    requires WF(t) && WF(u) && SameShape(t, u) && e.op.Add? && CreatedFrom(e, u)
    ensures MemberEffect(e, u, t, Step(t, e.op)) && SameShape(Step(t, e.op), Step(u, e.op))
  {
    PushLeafWF(t, e.op.addedId, Single(e.op.pk));
    assert Step(t, e.op).leaves.Keys == Step(u, e.op).leaves.Keys;
  }

  lemma RemovedLeavesSame(t: Tree, u: Tree, l: nat)
    requires t.leaves.Keys == u.leaves.Keys && t.nextLeaf == u.nextLeaf && l in t.leaves
    ensures RemovedLeaves(t, l) == RemovedLeaves(u, l)
    ensures Trim(t.leaves - {l}, t.nextLeaf) == Trim(u.leaves - {l}, u.nextLeaf)
    ensures t.leaves - {l} == t.leaves - RemovedLeaves(t, l)
  {
    assert (t.leaves - {l}).Keys == (u.leaves - {l}).Keys;
    TrimSame(t.leaves - {l}, u.leaves - {l}, t.nextLeaf);
  }

  lemma RemoveStep(t: Tree, u: Tree, e: Event)
    requires WF(t) && WF(u) && SameShape(t, u) && e.op.Remove? && CreatedFrom(e, u)
    ensures MemberEffect(e, u, t, Step(t, e.op)) && SameShape(Step(t, e.op), Step(u, e.op))
  {
    hide RemovedLeaves, Trim;
    var l := e.op.leafIdx;
    RemovedLeavesSame(t, u, l);
    RemovedInBounds(t, l);
    RemoveLeafWF(t, e.op.id);
    hide WF;
    assert (t.leaves - {l}).Keys == (u.leaves - {l}).Keys;
  }

  lemma RemovedInBounds(t: Tree, l: nat)
    requires WF(t) && l in t.leaves
    ensures forall i :: i in RemovedLeaves(t, l) ==> i < Pow2(t.depth)
  {}

  /** Everything a replica has applied is in the past of the next membership change. */
  lemma AllIsPast(h: History, ds: set<Digest>, b: Digest)
    requires Valid(h) && Ready(h, ds, b) && IsMembership(h.events[b].op)
    ensures Past(h, b) == ds
  {
    forall d | d in ds
      ensures d in Past(h, b)
    {
      MemberIsPast(h, ds, b, d);
    }
  }

  lemma MemberTouched(h: History, b: Digest)
    requires Valid(h) && b in h.events && IsMembership(h.events[b].op)
    ensures Known(h, h.events[b].order)
    ensures Touched(h, b) == MemberLeaves(h.events[b], Run(h, h.events[b].order))
  {
    PastIsKnown(h, b);
  }

  /** Outside the old tree no operation has written anything. */
  lemma NothingOutside(h: History, ds: set<Digest>, t: Tree, v: Node)
    requires Valid(h) && Closed(h, ds) && Bounded(h, ds, t) && v.level <= t.depth && !InTree(v, t.depth)
    ensures Live(h, ds, v) == {}
  {
    hide Valid;
    forall d | d in Live(h, ds, v)
      ensures false
    {
      LiveIsApplied(h, ds, v, d);
      var i :| i in Touched(h, d) && Under(i, v);
      AncInTree(i, v.level, t.depth);
    }
  }

  /** A membership change applied on a replica: `u` is the creator's tree, `t` the replica's. */
  ghost predicate MemberSetting(h: History, ds: set<Digest>, t: Tree, b: Digest, u: Tree)
    requires Valid(h)
  {
    && Ready(h, ds, b) && IsMembership(h.events[b].op) && b != h.root && Closed(h, ds + {b})
    && Represents(h, ds, t) && (PastIsKnown(h, b); u == Run(h, h.events[b].order)) && Represents(h, Past(h, b), u)
  }

  lemma MemberFits(h: History, ds: set<Digest>, t: Tree, b: Digest, u: Tree)
    requires Valid(h) && MemberSetting(h, ds, t, b, u)
    ensures WF(t) && Past(h, b) == ds
    ensures MemberEffect(h.events[b], u, t, Step(t, h.events[b].op))
    ensures SameShape(Step(t, h.events[b].op), Post(h, b))
  {
    hide VersionsMatch, LeafMatch, WF, Bounded;
    AllIsPast(h, ds, b);
    ShapeAgrees(h, ds, t, b, u);
    assert ValidEvent(h, b);
    WFLinked(t);
    if h.events[b].op.Add? {
      AddStep(t, u, h.events[b]);
    } else {
      RemoveStep(t, u, h.events[b]);
    }
  }

  lemma WFLinked(t: Tree)
    requires WF(t)
    ensures Linked(t)
  {}

  lemma BlankedVersions(t: Tree, t': Tree, touched: set<nat>, v: Node)
    requires t'.inner == Blanked(t.inner, touched)
    ensures Versions(t', v) == if exists i :: i in touched && Under(i, v) then [] else Versions(t, v)
  {
    hide Under;
  }

  lemma MemberVersionsMatch(h: History, ds: set<Digest>, t: Tree, b: Digest, u: Tree, v: Node)
    requires Valid(h) && MemberSetting(h, ds, t, b, u) && Linked(t)
    requires v.level > 0 && InTree(v, Step(t, h.events[b].op).depth)
    ensures VersionsMatch(h, ds + {b}, Step(t, h.events[b].op), v)
  {
    hide Valid, WF, VersionsOf, Live, Represents, Step, InTree, RemovedLeaves;
    MemberFits(h, ds, t, b, u);
    var t' := Step(t, h.events[b].op);
    MemberTouched(h, b);
    LiveStep(h, ds, b, v);
    BlankedVersions(t, t', Touched(h, b), v);
    LiveApplied(h, ds, v);
    if Through(h, b, v) {
      assert Live(h, ds + {b}, v) == {b};
      NoVersions(h, {b}, v);
    } else if InTree(v, t.depth) {
      MatchAt(h, ds, t, v);
    } else {
      NewSlotIsBlank(h, ds, t, b, u, v);
      NoVersions(h, {}, v);
    }
  }

  lemma LiveApplied(h: History, ds: set<Digest>, v: Node)
    requires Valid(h) && Closed(h, ds)
    ensures Live(h, ds, v) <= ds
  {}

  lemma NoVersions(h: History, ds: set<Digest>, v: Node)
    requires ds <= h.events.Keys && forall d :: d in ds ==> !h.events[d].op.Update?
    ensures VersionsOf(h, ds, [], v)
  {}

  /** A node added by growing the tree, away from the new leaf, is blank and untouched. */
  lemma NewSlotIsBlank(h: History, ds: set<Digest>, t: Tree, b: Digest, u: Tree, v: Node)
    requires Valid(h) && MemberSetting(h, ds, t, b, u) && Linked(t) && Known(h, h.events[b].order)
    requires MemberEffect(h.events[b], u, t, Step(t, h.events[b].op)) && Touched(h, b) == MemberLeaves(h.events[b], u)
    requires v.level > 0 && InTree(v, Step(t, h.events[b].op).depth) && !InTree(v, t.depth) && !Through(h, b, v)
    ensures Live(h, ds, v) == {} && Versions(t, v) == []
  {
    hide Valid, VersionsMatch, LeafMatch, Live, Step, RemovedLeaves;
    var t' := Step(t, h.events[b].op);
    if v.level > t.depth {
      assert t'.depth == t.depth + 1 && v == Root(t'.depth);
      var l := h.events[b].op.leafIndex;
      RootUnder(l, t'.depth);
    } else {
      NothingOutside(h, ds, t, v);
    }
  }

  lemma MemberLeafMatch(h: History, ds: set<Digest>, t: Tree, b: Digest, u: Tree, i: nat)
    requires Valid(h) && MemberSetting(h, ds, t, b, u) && Linked(t)
    ensures LeafMatch(h, ds + {b}, Step(t, h.events[b].op), i)
  {
    hide Valid, WF, VersionsMatch, Live, Step, RemovedLeaves, Shaped, Bounded, EncrypterMatch;
    MemberFits(h, ds, t, b, u);
    MemberTouched(h, b);
    LiveStep(h, ds, b, Leaf(i));
    LiveApplied(h, ds, Leaf(i));
    assert Through(h, b, Leaf(i)) <==> i in Touched(h, b) by {
      if i in Touched(h, b) {
        assert Under(i, Leaf(i));
      }
    }
    assert LeafMatch(h, ds, t, i);
    if i in Touched(h, b) {
      assert Live(h, ds + {b}, Leaf(i)) == {b};
    }
  }

  lemma MemberBounded(h: History, ds: set<Digest>, t: Tree, b: Digest, u: Tree)
    requires Valid(h) && MemberSetting(h, ds, t, b, u) && Linked(t)
    ensures Bounded(h, ds + {b}, Step(t, h.events[b].op))
  {
    hide Valid, WF, VersionsMatch, LeafMatch, Step, RemovedLeaves, Touched;
    MemberFits(h, ds, t, b, u);
    MemberTouched(h, b);
    Pow2Monotone(t.depth, Step(t, h.events[b].op).depth);
  }

  /** Applying a membership change whose past has been applied. */
  lemma MemberRepresents(h: History, ds: set<Digest>, t: Tree, b: Digest, u: Tree)
    requires Valid(h) && MemberSetting(h, ds, t, b, u) && Linked(t)
    ensures Represents(h, ds + {b}, Step(t, h.events[b].op))
  {
    hide Valid, WF, VersionsMatch, LeafMatch, Step, RemovedLeaves, Bounded, InTree;
    MemberFits(h, ds, t, b, u);
    MemberBounded(h, ds, t, b, u);
    var t' := Step(t, h.events[b].op);
    assert IsLastMember(h, ds + {b}, b);
    forall v: Node | v.level > 0 && InTree(v, t'.depth)
      ensures VersionsMatch(h, ds + {b}, t', v)
    {
      MemberVersionsMatch(h, ds, t, b, u, v);
    }
    forall i: nat
      ensures LeafMatch(h, ds + {b}, t', i)
    {
      MemberLeafMatch(h, ds, t, b, u, i);
    }
  }

  // ----- Every causal order -----

  lemma RootFacts(h: History)
    requires Valid(h)
    ensures var r := h.root; var e := h.events[r];
            && e.op.Add? && e.op.leafIndex == 0 && e.order == [] && e.op.pk == ShareKey(Fresh(e.seed))
            && Closed(h, {r}) && Known(h, [r]) && Run(h, [r]) == NewTree(e.op.addedId, e.op.pk) == Post(h, r)
            && Known(h, e.order) && Touched(h, r) == {0}
  {
    var r := h.root;
    assert ValidEvent(h, r);
    assert [r][..0] == [];
    assert Run(h, [r]) == Step(Run(h, []), h.events[r].op);
  }

  lemma NewTreeShape(id: MemberId, pk: ShareKey)
    ensures var t := NewTree(id, pk);
            && WF(t) && t.depth == 1 && t.inner == map[] && t.encrypter == None
            && t.leaves == map[0 := LeafNode(id, Single(pk))]
  {
    PushLeafWF(EmptyTree(), id, Single(pk));
  }

  lemma RootLeafMatch(h: History, t: Tree, i: nat)
    requires Valid(h) && Closed(h, {h.root}) && Known(h, h.events[h.root].order) && Touched(h, h.root) == {0}
    requires h.events[h.root].op.Add? && t.leaves == map[0 := LeafOf(h.events[h.root])]
    ensures LeafMatch(h, {h.root}, t, i)
  {
    hide Valid, Touched, LeafOf;
    var r := h.root;
    LiveApplied(h, {r}, Leaf(i));
    PastIsKnown(h, r);
    if i == 0 {
      assert Under(0, Leaf(0));
      assert IsLive(h, {r}, Leaf(0), r);
    }
  }

  lemma RootVersionsMatch(h: History, t: Tree, v: Node)
    requires Valid(h) && Closed(h, {h.root}) && h.events[h.root].op.Add? && t.inner == map[]
    ensures VersionsMatch(h, {h.root}, t, v)
  {
    hide Valid, VersionsOf;
    LiveApplied(h, {h.root}, v);
    NoVersions(h, Live(h, {h.root}, v), v);
  }

  lemma RootShaped(h: History, t: Tree)
    requires Valid(h) && Closed(h, {h.root}) && Known(h, h.events[h.root].order) && Touched(h, h.root) == {0}
    requires IsMembership(h.events[h.root].op) && t == Post(h, h.root) && t.depth == 1 && t.encrypter == None
    ensures Shaped(h, {h.root}, t) && Bounded(h, {h.root}, t) && EncrypterMatch(h, {h.root}, t)
  {
    hide Valid, Touched, Post;
    assert IsLastMember(h, {h.root}, h.root);
    assert Pow2(1) == 2;
  }

  lemma RootRepresents(h: History)
    requires Valid(h)
    ensures Known(h, [h.root]) && Closed(h, {h.root}) && Represents(h, {h.root}, Run(h, [h.root]))
  {
    RootFacts(h);
    hide Valid, Run, LeafMatch, VersionsMatch, WF, NewTree, Touched, Post, Shaped, Bounded, EncrypterMatch;
    var r := h.root;
    var e := h.events[r];
    var t := Run(h, [r]);
    NewTreeShape(e.op.addedId, e.op.pk);
    RootShaped(h, t);
    forall v: Node
      ensures VersionsMatch(h, {r}, t, v)
    {
      RootVersionsMatch(h, t, v);
    }
    forall i: nat
      ensures LeafMatch(h, {r}, t, i)
    {
      RootLeafMatch(h, t, i);
    }
  }

  lemma LastIsNew(h: History, order: seq<Digest>)
    requires Causal(h, order) && |order| > 1
    ensures var init := order[..|order| - 1]; var b := order[|order| - 1];
            && b in h.events && b !in init && b != h.root && Past(h, b) <= ToSet(init)
            && ToSet(order) == ToSet(init) + {b}
  {
    assert order == order[..|order| - 1] + [order[|order| - 1]];
  }

  lemma LastIsReady(h: History, order: seq<Digest>)
    requires Valid(h) && Causal(h, order) && |order| > 1
    ensures var init := order[..|order| - 1]; var b := order[|order| - 1];
            && Causal(h, init) && Known(h, init) && Ready(h, ToSet(init), b) && b != h.root
            && Causal(h, h.events[b].order) && Known(h, h.events[b].order) && |h.events[b].order| <= |init|
            && ToSet(order) == ToSet(init) + {b} && Closed(h, ToSet(order))
  {
    var init, b := order[..|order| - 1], order[|order| - 1];
    LastIsNew(h, order);
    CausalPrefix(h, order, |order| - 1);
    CausalIsClosed(h, init);
    CausalIsClosed(h, order);
    assert Distinct(init);
    hide Causal;
    assert ValidEvent(h, b);
    PastClosed(h, b);
    PastIsShorter(h, b, init);
  }

  /** Main result: the tree of every replica, whatever causal order it applied its
      operations in, is what the set of those operations amounts to. */
  lemma {:induction false} RunRepresents(h: History, order: seq<Digest>)
    requires Valid(h) && Causal(h, order)
    ensures Closed(h, ToSet(order)) && Represents(h, ToSet(order), Run(h, order))
    decreases |order|
  {
    hide Valid, Represents, Ready, Causal, Closed, Step, ToSet, Linked;
    CausalIsClosed(h, order);
    if |order| <= 1 {
      OnlyRoot(h, order);
      RootRepresents(h);
    } else {
      LastIsReady(h, order);
      var init, b := order[..|order| - 1], order[|order| - 1];
      RunRepresents(h, init);
      RunRepresents(h, h.events[b].order);
      StepRepresents(h, ToSet(init), Run(h, init), b);
    }
  }

  lemma OnlyRoot(h: History, order: seq<Digest>)
    requires Causal(h, order) && |order| <= 1
    ensures order == [h.root] && ToSet(order) == {h.root}
  {}

  lemma StepRepresents(h: History, ds: set<Digest>, t: Tree, b: Digest)
    requires Valid(h) && Ready(h, ds, b) && b != h.root && Closed(h, ds + {b}) && Known(h, h.events[b].order)
    requires Linked(t) && Represents(h, ds, t) && Represents(h, Past(h, b), Run(h, h.events[b].order))
    ensures Represents(h, ds + {b}, Step(t, h.events[b].op))
  {
    hide Valid, Represents;
    var u := Run(h, h.events[b].order);
    if h.events[b].op.Update? {
      UpdateRepresents(h, ds, t, b, u);
    } else {
      MemberRepresents(h, ds, t, b, u);
    }
  }
}
