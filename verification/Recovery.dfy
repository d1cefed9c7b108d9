/** After concurrent updates have been merged, one further update by each of their authors
    clears every conflict. */
module Recovery {
  import opened Seqs
  import opened Nodes
  import opened NodeKeys
  import opened KeyTree
  import opened Operations
  import opened History
  import opened Convergence

  /** The nodes counted by `conflict_node_count`. */
  function ConflictNodes(t: Tree): set<Node> {
    set v | v in t.inner && HasConflict(t.inner[v])
  }

  lemma ConflictMeansTwoLive(h: History, ds: set<Digest>, t: Tree, v: Node) returns (x: Digest, y: Digest)
    requires Valid(h) && Closed(h, ds) && Represents(h, ds, t) && v in ConflictNodes(t)
    ensures x != y && x in Live(h, ds, v) && y in Live(h, ds, v)
    ensures x in h.events && y in h.events && h.events[x].op.Update? && h.events[y].op.Update?
  {
    hide Valid, Represents, Live;
    var vs := t.inner[v].versions;
    x := OwnerOf(h, ds, t, v, vs[0]);
    y := OwnerOf(h, ds, t, v, vs[1]);
    DistinctAt(h, ds, t, v);
    assert vs[0] != vs[1];
  }

  lemma DistinctAt(h: History, ds: set<Digest>, t: Tree, v: Node)
    requires Valid(h) && Closed(h, ds) && Represents(h, ds, t) && v in t.inner
    ensures Distinct(t.inner[v].versions) && v.level > 0 && InTree(v, t.depth)
  {
    hide Valid, Live;
    MatchAt(h, ds, t, v);
  }

  lemma TwoLiveMeansConflict(h: History, ds: set<Digest>, t: Tree, v: Node, x: Digest, y: Digest)
    requires Valid(h) && Closed(h, ds) && Represents(h, ds, t) && v.level > 0 && InTree(v, t.depth)
    requires x != y && x in Live(h, ds, v) && y in Live(h, ds, v)
    requires x in h.events && y in h.events && h.events[x].op.Update? && h.events[y].op.Update?
    ensures v in ConflictNodes(t)
  {
    hide Valid, Represents, Live;
    MatchAt(h, ds, t, v);
    var w :| w in Versions(t, v) && IsVersion(h.events[x], v, w);
    var w' :| w' in Versions(t, v) && IsVersion(h.events[y], v, w');
    if w == w' {
      VersionIdentifies(h, x, v, w, y, v, w');
    }
  }

  /** An operation live among more operations is live among fewer that include it. */
  lemma LiveInSubset(h: History, ds: set<Digest>, es: set<Digest>, v: Node, x: Digest)
    requires Valid(h) && Closed(h, ds) && Closed(h, es) && es <= ds && x in Live(h, ds, v) && x in es
    ensures x in Live(h, es, v)
  {
    hide Valid, Through;
  }

  /** An update that has seen everything clears the conflicts on its path and adds none. */
  lemma UpdateClearsPath(h: History, order: seq<Digest>, v: Node)
    requires Valid(h) && Causal(h, order) && |order| > 1
    requires var init := order[..|order| - 1]; var r := order[|order| - 1];
             Known(h, init) && h.events[r].op.Update? && Past(h, r) == ToSet(init)
    requires v in ConflictNodes(Run(h, order))
    ensures v in ConflictNodes(Run(h, order[..|order| - 1]))
    ensures var r := order[|order| - 1]; Known(h, h.events[r].order) && !Through(h, r, v)
  {
    hide Valid, Represents, Live, Causal, ConflictNodes, Through;
    var init, r := order[..|order| - 1], order[|order| - 1];
    LastIsReady(h, order);
    RunRepresents(h, order);
    RunRepresents(h, init);
    var x, y := ConflictMeansTwoLive(h, ToSet(order), Run(h, order), v);
    LiveStep(h, ToSet(init), r, v);
    LiveApplied(h, ToSet(init), v);
    ShapeKept(h, order);
    ConflictInTree(h, ToSet(order), Run(h, order), v);
    TwoLiveMeansConflict(h, ToSet(init), Run(h, init), v, x, y);
  }

  lemma ConflictInTree(h: History, ds: set<Digest>, t: Tree, v: Node)
    requires Valid(h) && Closed(h, ds) && Represents(h, ds, t) && v in ConflictNodes(t)
    ensures v.level > 0 && InTree(v, t.depth)
  {}

  lemma ShapeKept(h: History, order: seq<Digest>)
    requires Valid(h) && Causal(h, order) && |order| > 1 && Known(h, order[..|order| - 1])
    requires h.events[order[|order| - 1]].op.Update?
    ensures SameShape(Run(h, order), Run(h, order[..|order| - 1]))
  {
    UpdateKeepsShape(Run(h, order[..|order| - 1]), h.events[order[|order| - 1]].op.change);
  }

  // ----- A recovery pass -----

  ghost predicate AllUpdates(h: History, order: seq<Digest>)
    requires Known(h, order)
  {
    forall d :: d in order ==> h.events[d].op.Update?
  }

  /** Each update of `rs` was made by a member who had applied `base` and the updates before it. */
  ghost predicate Sequential(h: History, base: seq<Digest>, rs: seq<Digest>)
    requires Known(h, rs)
  {
    forall j :: 0 <= j < |rs| ==> Past(h, rs[j]) == ToSet(base + rs[..j])
  }

  lemma {:induction false} ShapeKeptAll(h: History, base: seq<Digest>, rs: seq<Digest>)
    requires Valid(h) && Causal(h, base + rs) && base != [] && Known(h, base) && Known(h, rs) && AllUpdates(h, rs)
    ensures SameShape(Run(h, base + rs), Run(h, base))
    decreases |rs|
  {
    if rs == [] {
      assert base + rs == base;
    } else {
      var all := base + rs;
      assert all[..|all| - 1] == base + rs[..|rs| - 1];
      CausalPrefix(h, all, |all| - 1);
      ShapeKept(h, all);
      ShapeKeptAll(h, base, rs[..|rs| - 1]);
    }
  }

  lemma LastAuthorsLeaf(h: History, order: seq<Digest>)
    requires Valid(h) && Causal(h, order) && |order| > 1 && Known(h, order[..|order| - 1])
    requires h.events[order[|order| - 1]].op.Update?
    ensures var t := Run(h, order[..|order| - 1]); var op := h.events[order[|order| - 1]].op;
            op.memberId in t.ids && op.change.leafIdx == t.ids[op.memberId]
  {
    hide Valid, Represents, Causal, Run;
    var init, d := order[..|order| - 1], order[|order| - 1];
    LastIsReady(h, order);
    UpdateFacts(h, d);
    RunRepresents(h, init);
    RunRepresents(h, h.events[d].order);
    RepresentsShaped(h, ToSet(init), Run(h, init));
    RepresentsShaped(h, Past(h, d), Run(h, h.events[d].order));
    ShapeAgrees(h, ToSet(init), Run(h, init), d, Run(h, h.events[d].order));
  }

  /** The leaf an update writes is its author's leaf in any replica's tree of that period. */
  lemma AuthorsLeaf(h: History, base: seq<Digest>, rs: seq<Digest>, d: Digest)
    requires Valid(h) && Causal(h, base + rs) && base != [] && Known(h, base) && Known(h, rs) && AllUpdates(h, rs) &&
             d in rs
    ensures var t := Run(h, base); var op := h.events[d].op;
            op.memberId in t.ids && op.change.leafIdx == t.ids[op.memberId]
  {
    hide Valid, Run, Causal;
    var j :| 0 <= j < |rs| && rs[j] == d;
    PassPrefix(h, base, rs, j + 1);
    LastAuthorsLeaf(h, base + rs[..j + 1]);
    ShapeKeptAll(h, base, rs[..j]);
  }

  lemma PassPrefix(h: History, base: seq<Digest>, rs: seq<Digest>, j: nat)
    requires Causal(h, base + rs) && base != [] && 0 < j <= |rs|
    ensures Causal(h, base + rs[..j]) && Causal(h, base + rs[..j - 1])
    ensures Known(h, base + rs[..j]) && Known(h, base + rs[..j - 1]) && Known(h, rs[..j - 1]) && Known(h, base)
    ensures var upto := base + rs[..j]; upto[..|upto| - 1] == base + rs[..j - 1] && upto[|upto| - 1] == rs[j - 1]
  {
    var upto := base + rs[..j];
    assert upto == (base + rs)[..|base| + j];
    CausalPrefix(h, base + rs, |base| + j);
    assert upto[..|upto| - 1] == base + rs[..j - 1];
    CausalPrefix(h, upto, |upto| - 1);
  }

  lemma RepresentsShaped(h: History, ds: set<Digest>, t: Tree)
    requires Valid(h) && Closed(h, ds) && Represents(h, ds, t)
    ensures Shaped(h, ds, t)
  {}

  /** Conflicts never spread during the pass, and a node still in conflict was missed by it. */
  lemma {:induction false} ConflictsShrink(h: History, base: seq<Digest>, rs: seq<Digest>, v: Node)
    requires Valid(h) && Causal(h, base + rs) && base != [] && Known(h, base) && Known(h, rs)
    requires AllUpdates(h, rs) && Sequential(h, base, rs) && v in ConflictNodes(Run(h, base + rs))
    ensures v in ConflictNodes(Run(h, base))
    ensures forall r :: r in rs ==> Known(h, h.events[r].order) && !Through(h, r, v)
    decreases |rs|
  {
    hide Valid, Run, ConflictNodes, Through;
    if rs == [] {
      assert base + rs == base;
    } else {
      var all := base + rs;
      var init := rs[..|rs| - 1];
      assert all[..|all| - 1] == base + init && all[|all| - 1] == rs[|rs| - 1];
      CausalPrefix(h, all, |all| - 1);
      UpdateClearsPath(h, all, v);
      assert Sequential(h, base, init) by {
        assert forall j :: 0 <= j < |init| ==> init[..j] == rs[..j];
      }
      ConflictsShrink(h, base, init, v);
    }
  }

  /** Merging updates into a conflict-free tree: a node in conflict is on the path of one
      of the merged updates. */
  lemma ConflictHasCulprit(h: History, before: seq<Digest>, merged: seq<Digest>, v: Node) returns (x: Digest)
    requires Valid(h) && Causal(h, before) && Causal(h, before + merged) && Known(h, merged) && AllUpdates(h, merged)
    requires ConflictNodes(Run(h, before)) == {} && v in ConflictNodes(Run(h, before + merged))
    ensures x in merged && Known(h, h.events[x].order) && Through(h, x, v)
  {
    hide Valid, Represents, Run, Through, Live;
    RunRepresents(h, before);
    RunRepresents(h, before + merged);
    ShapeKeptAll(h, before, merged);
    var ds, es := ToSet(before + merged), ToSet(before);
    ConflictInTree(h, ds, Run(h, before + merged), v);
    var a, b := ConflictMeansTwoLive(h, ds, Run(h, before + merged), v);
    LiveIsApplied(h, ds, v, a);
    LiveIsApplied(h, ds, v, b);
    if a in before && b in before {
      LiveInSubset(h, ds, es, v, a);
      LiveInSubset(h, ds, es, v, b);
      TwoLiveMeansConflict(h, es, Run(h, before), v, a, b);
    }
    x := if a in merged then a else b;
    PastIsKnown(h, x);
  }

  /** Step `j` of the pass leaves no more nodes in conflict than there were before it. */
  ghost predicate NoNewConflict(h: History, base: seq<Digest>, rs: seq<Digest>, j: nat)
    requires 0 < j <= |rs|
  {
    && Known(h, base + rs[..j]) && Known(h, base + rs[..j - 1])
    && ConflictNodes(Run(h, base + rs[..j])) <= ConflictNodes(Run(h, base + rs[..j - 1]))
  }

  /** One recovery pass suffices: after merging any concurrent updates into a conflict-free
      tree, one sequential update by each of their authors, in any order, leaves no node in
      conflict, and no step of the pass adds one. */
  lemma RecoveryPass(h: History, before: seq<Digest>, merged: seq<Digest>, rs: seq<Digest>)
    requires Valid(h) && Causal(h, before) && Causal(h, before + merged) && Causal(h, before + merged + rs)
    requires Known(h, merged) && Known(h, rs) && AllUpdates(h, merged) && AllUpdates(h, rs)
    requires ConflictNodes(Run(h, before)) == {} && Sequential(h, before + merged, rs)
    requires forall d :: d in merged ==> exists r :: r in rs && h.events[r].op.memberId == h.events[d].op.memberId
    ensures ConflictNodes(Run(h, before + merged + rs)) == {}
    ensures forall j :: 0 < j <= |rs| ==> NoNewConflict(h, before + merged, rs, j)
  {
    hide Valid, Run, ConflictNodes, Through, NoNewConflict;
    var base := before + merged;
    forall v | v in ConflictNodes(Run(h, base + rs))
      ensures false
    {
      ConflictsShrink(h, base, rs, v);
      var x := ConflictHasCulprit(h, before, merged, v);
      var r :| r in rs && h.events[r].op.memberId == h.events[x].op.memberId;
      SamePath(h, before, merged, rs, x, r, v);
    }
    forall j | 0 < j <= |rs|
      ensures NoNewConflict(h, base, rs, j)
    {
      StepShrinks(h, base, rs, j);
    }
  }

  lemma SamePath(h: History, before: seq<Digest>, merged: seq<Digest>, rs: seq<Digest>, x: Digest, r: Digest, v: Node)
    requires Valid(h) && Causal(h, before) && Causal(h, before + merged + rs) && Known(h, merged) && Known(h, rs)
    requires AllUpdates(h, merged) && AllUpdates(h, rs) && x in merged && r in rs
    requires h.events[r].op.memberId == h.events[x].op.memberId
    requires Known(h, h.events[x].order) && Known(h, h.events[r].order)
    ensures Through(h, x, v) <==> Through(h, r, v)
  {
    hide Valid, Run;
    assert before + merged + rs == before + (merged + rs);
    AuthorsLeaf(h, before, merged + rs, x);
    AuthorsLeaf(h, before, merged + rs, r);
    assert Touched(h, x) == Touched(h, r);
  }

  lemma StepShrinks(h: History, base: seq<Digest>, rs: seq<Digest>, j: nat)
    requires Valid(h) && Causal(h, base + rs) && base != [] && Known(h, rs)
    requires AllUpdates(h, rs) && Sequential(h, base, rs) && 0 < j <= |rs|
    ensures NoNewConflict(h, base, rs, j)
  {
    hide Valid, Run, ConflictNodes;
    PassPrefix(h, base, rs, j);
    var upto := base + rs[..j];
    forall v | v in ConflictNodes(Run(h, upto))
      ensures v in ConflictNodes(Run(h, base + rs[..j - 1]))
    {
      UpdateClearsPath(h, upto, v);
    }
  }
}
