/** Two replicas that add the same member: the member gets two leaves, and removing it takes
    away only one of them. */
module DoubleAdds {
  import opened Results
  import opened Nodes
  import opened Crypto
  import opened NodeKeys
  import opened KeyTree
  import opened WellFormed
  import opened Operations
  import opened Agreement
  import opened Resolutions
  import opened Normalise
  import opened Epochs
  import opened Graph
  import opened Replay
  import opened ReplicaSteps
  import opened EpochOutcomes
  import opened Continuation

  // ----- The tree -----

  /** The member sits in slots `n` and `n + 1`, is found in the second, and nothing above the
      first is keyed. */
  ghost predicate Doubled(v: Tree, e: MemberId, n: nat, first: ShareKey) {
    && n in v.leaves && v.leaves[n] == LeafNode(e, Single(first)) && n + 1 in v.leaves && v.leaves[n + 1].id == e
    && e in v.ids && v.ids[e] == n + 1 && forall w :: w in v.inner ==> !Under(n, w)
  }

  function PushTwice(t: Tree, e: MemberId, first: ShareKey, second: ShareKey): Tree {
    PushLeaf(PushLeaf(t, e, Single(first)), e, Single(second))
  }

  lemma PushedTwice(t: Tree, e: MemberId, first: ShareKey, second: ShareKey)
    ensures var u := PushTwice(t, e, first, second);
            && Doubled(u, e, t.nextLeaf, first) && u.nextLeaf == t.nextLeaf + 2
            && u.ids.Keys == t.ids.Keys + {e} && u.leaves[t.nextLeaf + 1] == LeafNode(e, Single(second))
            && (t.nextLeaf <= Pow2(t.depth) && t.depth > 0 ==> t.nextLeaf + 2 <= Pow2(u.depth))
  {
    if t.nextLeaf <= Pow2(t.depth) && t.depth > 0 {
      assert Pow2(t.depth + 1) == 2 * Pow2(t.depth) && Pow2(t.depth) >= 2;
    }
  }

  /** The sort takes the second leaf off and puts it back. */
  lemma SortDoubled(u: Tree, e: MemberId, n: nat, first: ShareKey)
    requires Linked(u) && Doubled(u, e, n, first) && u.nextLeaf == n + 2 <= Pow2(u.depth)
    ensures var v := SortLeaves(u, {e}, {});
            Doubled(v, e, n, first) && v.ids == u.ids && v.nextLeaf == u.nextLeaf && v.depth == u.depth
  {
    hide Blanked;
    var leaf := u.leaves[n + 1];
    assert Slots({}) == {} && RemovedIds({}) == {} && {e} - {} == {e} && {e} - {e} == {};
    var cut := BlankLeafAndPath(u, n + 1).(nextLeaf := n + 1);
    assert Pop(cut, {}) == (cut, []);
    assert Pop(u, {e}) == (cut, [leaf] + []);
    assert [leaf] + [] == [leaf] && SortById([leaf]) == [leaf] && [leaf][..0] == [];
    assert PushAll(cut, [leaf]) == PushLeaf(cut, e, leaf.pk);
    BlankedIsPart(u.inner, {n + 1});
    BlankedIsPart(cut.inner, {n + 1});
    assert u.ids[e := n + 1] == u.ids;
  }

  lemma BlankedIsPart(inner: map<Node, Store>, touched: set<nat>)
    ensures Blanked(inner, touched).Keys <= inner.Keys
  {}

  /** Removing the member takes the second leaf only. */
  lemma RemoveDoubled(v: Tree, e: MemberId, n: nat, first: ShareKey)
    requires Linked(v) && Doubled(v, e, n, first)
    ensures var w := RemoveLeaf(v, e);
            && e !in w.ids && n in w.leaves && w.leaves[n] == LeafNode(e, Single(first)) && w.depth == v.depth
            && forall x :: x in w.inner ==> !Under(n, x)
  {}

  /** Whoever updates seals a secret of its new path for a leaf that has no key above it. */
  lemma SealsFor(t: Tree, i: nat, n: nat, pk: ShareKey, sk: Secret, draw: nat -> Secret)
    requires i < Pow2(t.depth) && n < Pow2(t.depth) && i != n && n in t.leaves && t.leaves[n].pk == Single(pk)
    requires forall w :: w in t.inner ==> !Under(n, w)
    ensures exists k :: 0 <= k < t.depth && Sealed(NewPath(t, i, sk, draw, t.depth)[k].1, n, sk, k, pk)
  {
    hide NewPath, NewEntries, Resolution;
    var k := MeetBelow(i, n, t.depth);
    forall j | 0 < j <= k
      ensures Skip(t, Anc(n, j))
    {
      assert Under(n, Anc(n, j));
    }
    TopIsLeaf(t, n, k);
    TopIsResolved(t, n, k);
    EntryFor(t, Anc(i, k), Leaf(n), RatchetN(sk, k), draw(k));
    assert NewPath(t, i, sk, draw, t.depth)[k] == PathStore(t, i, sk, draw, k);
    assert Sealed(NewPath(t, i, sk, draw, t.depth)[k].1, n, sk, k, pk);
  }

  /** The store at level `k + 1` holds its secret sealed for leaf `n`. */
  ghost predicate Sealed(s: Store, n: nat, sk: Secret, k: nat, pk: ShareKey) {
    && Leaf(n) in s.versions[0].sk
    && s.versions[0].sk[Leaf(n)] == EncryptSecret(RatchetN(sk, k + 1), RatchetN(sk, k), pk)
  }

  /** The member's next update seals a secret for leaf `n` somewhere on its path. */
  ghost predicate UpdateSealsFor(t: Tree, id: MemberId, sk: Secret, draw: nat -> Secret, n: nat, pk: ShareKey)
    requires id in t.ids && Linked(t)
  {
    var path := EncryptedChange(t, id, sk, draw).path;
    exists k :: 0 <= k < |path| && Sealed(path[k].1, n, sk, k, pk)
  }

  lemma EntryFor(t: Tree, child: Node, n: Node, sk: Secret, paired: Secret)
    requires n in Resolution(t, Sibling(child)) && n != child
    ensures var es := NewEntries(t, child, sk, paired);
            !Skip(t, n) && n in es && es[n] == EncryptSecret(Ratcheted(sk), sk, PkAt(t, n))
  {
    hide Resolution, PkAt, Skip;
  }

  // ----- The replay -----

  lemma DoubleAddEpoch(ops: map<Digest, Op>, steps: seq<Change>, t: Tree, p: Digest, q: Digest) returns (v: Tree)
    requires Covered(ops, steps) && RunSteps(ops, steps) == Ok(t) && {p, q} <= ops.Keys && t.nextLeaf <= Pow2(t.depth)
    requires ops[p].Add? && ops[q].Add? && ops[p].addedId == ops[q].addedId && t.depth > 0
    ensures (forall d :: d in [p, q] ==> d in ops) && Covered(ops, steps + EpochSteps(ops, [p, q]))
    ensures RunSteps(ops, steps + EpochSteps(ops, [p, q])) == Ok(v)
    ensures Doubled(v, ops[p].addedId, t.nextLeaf, ops[p].pk) && v.ids.Keys == t.ids.Keys + {ops[p].addedId}
  {
    hide RunSteps, PushLeaf, SortLeaves, Doubled, Linked;
    var e, u := ops[p].addedId, PushTwice(t, ops[p].addedId, ops[p].pk, ops[q].pk);
    PushedTwice(t, e, ops[p].pk, ops[q].pk);
    TwoAdds(ops, steps, t, p, q);
    var epoch := [p, q];
    assert epoch[0] == p && ops[p].Add? && p in epoch;
    assert AddedIn(ops, epoch) == {e} && RemovedIn(ops, epoch) == {};
    hide ApplyEach;
    var c := Sort({e}, {});
    assert steps + EpochSteps(ops, epoch) == (steps + ApplyEach(epoch)) + [c];
    RunStepsSnoc(ops, steps + ApplyEach(epoch), c);
    assert Slots({}) == {};
    SortDoubled(u, e, t.nextLeaf, ops[p].pk);
    v := SortLeaves(u, {e}, {});
  }

  lemma TwoAdds(ops: map<Digest, Op>, steps: seq<Change>, t: Tree, p: Digest, q: Digest)
    requires Covered(ops, steps) && RunSteps(ops, steps) == Ok(t) && {p, q} <= ops.Keys
    requires ops[p].Add? && ops[q].Add? && ops[p].addedId == ops[q].addedId
    ensures Covered(ops, steps + ApplyEach([p, q]))
    ensures RunSteps(ops, steps + ApplyEach([p, q])) == Ok(PushTwice(t, ops[p].addedId, ops[p].pk, ops[q].pk))
  {
    hide RunSteps, PushLeaf;
    var epoch := [p, q];
    assert ApplyEach(epoch) == [Apply(p), Apply(q)] by {
      EachSnoc(epoch, 0);
      EachSnoc(epoch, 1);
      assert epoch[..2] == epoch && ApplyEach(epoch[..0]) == [];
    }
    RunStepsSnoc(ops, steps, Apply(p));
    RunStepsSnoc(ops, steps + [Apply(p)], Apply(q));
    assert steps + [Apply(p)] + [Apply(q)] == steps + ApplyEach(epoch);
  }

  /** Whoever holds two adds of one absent member, made concurrently after the head, ends up
      with both leaves, the one with the smaller digest first. */
  lemma DoubleAddOutcome(g: OpGraph, g': OpGraph, h: Digest, t: Tree, x: Digest, y: Digest)
    requires Fork(g, g', h, {x, y}, {}, x, y) && Down(g.preds, g.ops.Keys) && OutcomeFor(g, g.ops.Keys) == Ok(t)
    requires {x, y} <= g'.ops.Keys && g'.ops[x].Add? && g'.ops[y].Add? && g'.ops[x].addedId == g'.ops[y].addedId
    requires x != y
    ensures Down(g'.preds, g'.ops.Keys)
    ensures var out, e, p := OutcomeFor(g', g'.ops.Keys), g'.ops[x].addedId, if x < y then x else y;
            && out.Ok? && Doubled(out.value, e, t.nextLeaf, g'.ops[p].pk) && out.value.ids.Keys == t.ids.Keys + {e}
            && !Tidy(out.value)
  {
    hide Fork, Down, OutcomeFor, RunSteps, EpochSteps, Sorted, SoundGraph;
    ForkIsSound(g, g', h, {x, y}, {}, x, y);
    OutcomeFits(g, t);
    var steps := ForkContinues(g, g', h, t, {x, y}, {}, x, y);
    NothingSorted();
    var p, q := if x < y then x else y, if x < y then y else x;
    assert {p, q} == {x, y};
    SortedPair(p, q);
    assert [p, q] + [] == [p, q];
    var v := DoubleAddEpoch(g'.ops, steps, t, p, q);
  }

  lemma OutcomeFits(g: OpGraph, t: Tree)
    requires SoundGraph(g) && Down(g.preds, g.ops.Keys) && OutcomeFor(g, g.ops.Keys) == Ok(t)
    ensures t.nextLeaf <= Pow2(t.depth) && t.depth > 0
  {
    hide SoundGraph, Down, OutcomeFor;
    OutcomeSettled(g, g.ops.Keys);
  }

  // ----- ... as replicas do it -----

  lemma SecondIsAdmissible(g: OpGraph, h: Digest, x: Digest, opx: Op, y: Digest, opy: Op)
    requires SoundGraph(g) && g.heads == {h} && x !in g.ops && y !in g.ops && x != y
    requires NamesHeads(g, opx) && NamesHeads(g, opy)
    ensures Admissible(AddOp(g, x, opx, None), y, opy)
  {
    hide SoundGraph;
    LocalExtends(g, h, x, opx);
    HeadIsKnown(g, h);
    var g' := AddOp(g, x, opx, None);
    AddHeadsKnown(g);
    forall past | opy.Add? && IsPast(g'.preds, past)
      ensures opy.addPreds <= opy.preds + Behind(past, opy.preds)
    {
      forall z | z in opy.addPreds
        ensures z in {h} + Behind(past, {h})
      {
        HeadOfPart(g, g', past, h, z);
      }
    }
  }

  lemma AddHeadsKnown(g: OpGraph)
    requires SoundGraph(g)
    ensures g.addHeads <= g.ops.Keys
  {}

  /** Two operations made on one replica's state, one of them received by the maker of the
      other. */
  lemma PairFork(g: OpGraph, h: Digest, x: Digest, opx: Op, y: Digest, opy: Op)
    requires SoundGraph(g) && g.heads == {h} && x !in g.ops && y !in g.ops && x != y
    requires NamesHeads(g, opx) && NamesHeads(g, opy)
    ensures var g1 := AddOp(g, x, opx, None); var g' := AddOp(g1, y, opy, Some({h}));
            && SoundGraph(g') && Fork(g, g', h, {x, y}, {}, x, y) && g'.heads == {x, y} && Admissible(g1, y, opy)
  {
    hide SoundGraph, Fork, AddOp, Admissible;
    HeadIsKnown(g, h);
    SecondIsAdmissible(g, h, x, opx, y, opy);
    PairShape(g, h, x, opx, y, opy);
    AddOpSound(g, x, opx, None);
    AddOpSound(AddOp(g, x, opx, None), y, opy, Some({h}));
    ForkHere(g, AddOp(AddOp(g, x, opx, None), y, opy, Some({h})), h, {x, y}, {}, x, y);
  }

  lemma PairShape(g: OpGraph, h: Digest, x: Digest, opx: Op, y: Digest, opy: Op)
    requires g.heads == {h} && h in g.ops && x !in g.ops && y !in g.ops && x != y
    requires opx.preds == {h} && opy.preds == {h}
    ensures var g1 := AddOp(g, x, opx, None); var g' := AddOp(g1, y, opy, Some({h}));
            && g'.ops.Keys == g.ops.Keys + {x, y} + {} && g'.heads == {x, y} && |{x, y}| == 2 && y !in g1.ops
            && (forall d :: d in g.ops ==> g'.ops[d] == g.ops[d])
            && forall d :: d in {x, y} ==> g'.ops[d].preds == {h}
  {
    var ops := g.ops[x := opx][y := opy];
    assert ops.Keys == g.ops.Keys + {x, y} + {};
    assert ({x} - {h}) + {y} == {x, y};
  }

  /** Two replicas in one state add the same member; one receives the other's add, and then
      the member is removed. It is gone from the members, but one of its leaves is left, and
      every update from then on seals a secret of its path for that leaf. */
  lemma DoubleAddRun(s: State, h: Digest, e: MemberId, pk1: ShareKey, pk2: ShareKey, x: Digest, y: Digest, rm: Digest)
    returns (a1: State, a2: State, a3: State, a4: State, op1: Op, op2: Op, rmOp: Op)
    requires Steady(s, h) && e !in s.tree.ids && s.tree.ids.Keys != {}
    requires x !in s.graph.ops && y !in s.graph.ops && x != y
    ensures Sensible(s) && AddsMember(s, e, pk1, x, a1, Ok(Some(op1))) && Sensible(a1)
    ensures AddsMember(s, e, pk2, y, a2, Ok(Some(op2)))
    ensures Merges(a1, y, op2, a3, Ok(true)) && Sensible(a3) && Base(a3).Ok? && !Tidy(Base(a3).value)
    ensures RemovesMember(a3, e, rm, a4, Ok(Some(rmOp)))
    ensures var t, n, key := a4.tree, s.tree.nextLeaf, if x < y then pk1 else pk2;
            && e !in t.ids && n in t.leaves && t.leaves[n] == LeafNode(e, Single(key)) && Linked(t)
            && forall id, sk, draw :: id in t.ids ==> UpdateSealsFor(t, id, sk, draw, n, key)
  {
    hide Steady, SoundGraph, Down, PushLeaf, RemoveLeaf, OutcomeFor, Linked, RosterOf, ApplyOp, AddsMember,
         RemovesMember, Merges, Base, Doubled, Fork, Tidy, UpdateSealsFor, NamesHeads, Admissible;
    SteadyParts(s, h);
    SteadyFacts(s, h);
    a1, op1 := AddRuns(s, h, e, pk1, x);
    SteadyParts(a1, x);
    a2, op2 := AddRuns(s, h, e, pk2, y);
    NamesBoth(s.graph, op1, op2, h);
    PairFork(s.graph, h, x, op1, y, op2);
    a3 := ChangeDeferred(a1, x, y, op2, h);
    SteadyOutcome(s, h);
    var t := OutcomeFor(s.graph, s.graph.ops.Keys).value;
    RosterFacts(t);
    RosterFacts(s.tree);
    DoubleAddOutcome(s.graph, a3.graph, h, t, x, y);
    DeferredBase(a3);
    HasPushed(s.tree, e, pk1);
    a4, rmOp := RemoveAfterReplay(a3, e, rm);
    SoundHere(a3);
    OutcomeFits(a3.graph, Base(a3).value);
    StillSealed(a4.tree, Base(a3).value, e, s.tree.nextLeaf, if x < y then pk1 else pk2);
  }

  lemma NamesBoth(g: OpGraph, op1: Op, op2: Op, h: Digest)
    requires op1.Add? && op2.Add? && g.heads == {h} && op1.preds == {h} && op2.preds == {h}
    requires op1.addPreds == g.addHeads && op2.addPreds == g.addHeads
    ensures NamesHeads(g, op1) && NamesHeads(g, op2)
  {}

  lemma HasPushed(t: Tree, e: MemberId, pk: ShareKey)
    ensures e in PushLeaf(t, e, Single(pk)).ids
  {}

  /** A membership change that did not see the only head is kept for later. */
  lemma ChangeDeferred(s: State, x: Digest, y: Digest, op: Op, h: Digest) returns (s': State)
    requires Sensible(s) && s.graph.heads == {x} && y !in s.graph.ops && IsMembership(op) && op.preds == {h} && x != h
    requires h in s.graph.ops && Admissible(s.graph, y, op)
    ensures Merges(s, y, op, s', Ok(true)) && Sensible(s') && s'.pending && s'.tree == s.tree
    ensures s'.graph == AddOp(s.graph, y, op, Some({h})) && s'.owner == s.owner && s'.sks == s.sks
  {
    hide SoundGraph, Linked, Admissible, Base;
    s' := s.(graph := AddOp(s.graph, y, op, Some(op.preds)), pending := true);
    AddOpSound(s.graph, y, op, Some(op.preds));
    SoundIsDown(s'.graph);
  }

  lemma RemoveAfterReplay(s: State, e: MemberId, d: Digest) returns (s': State, op: Op)
    requires Sensible(s) && e in s.tree.ids && Base(s).Ok? && e in Base(s).value.ids && |Base(s).value.ids| > 1
    ensures RemovesMember(s, e, d, s', Ok(Some(op))) && s'.tree == RemoveLeaf(Base(s).value, e)
  {
    hide SoundGraph, Down, RemoveLeaf, Base;
    var t := Base(s).value;
    op := Remove(e, t.ids[e], PathKeys(t, t.ids[e], t.depth), s.graph.heads);
    s' := s.(graph := AddOp(s.graph, d, op, None), tree := RemoveLeaf(t, e), pending := false);
  }

  lemma StillSealed(w: Tree, v: Tree, e: MemberId, n: nat, key: ShareKey)
    requires Linked(v) && Doubled(v, e, n, key) && w == RemoveLeaf(v, e) && v.nextLeaf <= Pow2(v.depth)
    ensures Linked(w) && e !in w.ids && n in w.leaves && w.leaves[n] == LeafNode(e, Single(key))
    ensures forall id, sk, draw :: id in w.ids ==> UpdateSealsFor(w, id, sk, draw, n, key)
  {
    RemoveDoubled(v, e, n, key);
    RemoveLeafLinked(v, e);
    RemovedFits(v, e);
    hide RemoveLeaf, Doubled, UpdateSealsFor;
    forall id, sk, draw | id in w.ids
      ensures UpdateSealsFor(w, id, sk, draw, n, key)
    {
      MemberSeals(w, id, e, n, key, sk, draw);
    }
  }

  lemma RemovedFits(v: Tree, e: MemberId)
    requires e in v.ids && v.nextLeaf <= Pow2(v.depth)
    ensures RemoveLeaf(v, e).nextLeaf <= Pow2(RemoveLeaf(v, e).depth)
  {
    hide Blanked;
  }

  lemma MemberSeals(w: Tree, id: MemberId, e: MemberId, n: nat, key: ShareKey, sk: Secret, draw: nat -> Secret)
    requires Linked(w) && w.nextLeaf <= Pow2(w.depth) && id in w.ids && e !in w.ids && n in w.leaves
    requires w.leaves[n] == LeafNode(e, Single(key)) && forall x :: x in w.inner ==> !Under(n, x)
    ensures UpdateSealsFor(w, id, sk, draw, n, key)
  {
    hide NewPath, PathKeys, Sealed;
    assert w.leaves[w.ids[id]].id == id;
    SealsFor(w, w.ids[id], n, key, sk, draw);
  }

  lemma SoundHere(s: State)
    requires Sensible(s)
    ensures SoundGraph(s.graph) && Down(s.graph.preds, s.graph.ops.Keys)
  {}
}
