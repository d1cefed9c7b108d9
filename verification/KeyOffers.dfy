/** When a replica offers the root key: exactly with a root key, an operation that follows all
    others, and not two adds that no add has seen. After two members are added concurrently,
    no key is offered even once an update has seen both. */
module KeyOffers {
  import opened Results
  import opened Nodes
  import opened Crypto
  import opened NodeKeys
  import opened KeyTree
  import opened PathUpdate
  import opened WellFormed
  import opened Operations
  import opened Resolutions
  import opened Normalise
  import opened Epochs
  import opened Graph
  import opened Replay
  import opened ReplicaSteps
  import opened EpochOutcomes
  import opened Continuation
  import opened DoubleAdds

  // ----- Exactly when -----

  /** Every other operation of the graph is before this one. */
  ghost predicate FollowsAll(g: OpGraph, h: Digest) {
    h in g.ops && forall past, z :: IsPast(g.preds, past) && z in g.ops && z != h ==> h in past && z in past[h]
  }

  /** An add that no other add has seen. */
  ghost predicate LooseAdd(ops: map<Digest, Op>, x: Digest) {
    x in ops && ops[x].Add? && forall e :: e in ops && ops[e].Add? ==> x !in ops[e].addPreds
  }

  ghost predicate OneLooseAdd(ops: map<Digest, Op>) {
    forall x, y :: LooseAdd(ops, x) && LooseAdd(ops, y) ==> x == y
  }

  ghost predicate OneEnd(g: OpGraph) {
    exists h :: FollowsAll(g, h)
  }

  /** The key is offered exactly when the tree has a root key, one operation follows all others
      and no two adds are unseen by every add. */
  lemma KeyOfferedIff(s: State)
    requires SoundGraph(s.graph)
    ensures HasKey(s) <==> HasRootKey(s.tree) && OneEnd(s.graph) && OneLooseAdd(s.graph.ops)
  {
    hide HasRootKey, SoundGraph, OneEnd, OneLooseAdd;
    OneHeadIff(s.graph);
    OneAddHeadIff(s.graph);
  }

  lemma OneHeadIff(g: OpGraph)
    requires SoundGraph(g)
    ensures |g.heads| == 1 <==> OneEnd(g)
  {
    hide SoundGraph, IsPast;
    if |g.heads| == 1 {
      var h :| h in g.heads;
      OneElement(g.heads, h);
      HeadIsKnown(g, h);
      forall past, z | IsPast(g.preds, past) && z in g.ops && z != h
        ensures h in past && z in past[h]
      {
        OnlyHead(g, past, h, z);
      }
      assert FollowsAll(g, h);
    }
    if OneEnd(g) {
      var h :| FollowsAll(g, h);
      LastIsHead(g, h);
    }
  }

  lemma OneElement(s: set<Digest>, h: Digest)
    requires |s| == 1 && h in s
    ensures s == {h}
  {
    assert |s - {h}| == 0;
    assert s == (s - {h}) + {h};
  }

  lemma LastIsHead(g: OpGraph, h: Digest)
    requires SoundGraph(g) && FollowsAll(g, h)
    ensures g.heads == {h}
  {
    hide IsPast;
    var past := SomePast(g);
    forall z
      ensures z in g.heads <==> z == h
    {
      if z in g.heads && z != h {
        NamedByOne(g, past, h, z);
      }
      if z == h {
        NothingNames(g, past, h);
      }
    }
  }

  /** What is before an operation is named by one. */
  lemma {:induction false} NamedByOne(g: OpGraph, past: Preds, h: Digest, z: Digest)
    requires SoundGraph(g) && IsPast(g.preds, past) && h in g.ops && z in past[h]
    ensures exists e :: e in g.ops && z in g.ops[e].preds
    decreases |past[h]|
  {
    if z !in g.preds[h] {
      var m :| m in g.preds[h] && m in past && z in past[m];
      PredIsSmaller(g.preds, past, h, m);
      assert m in g.preds;
      NamedByOne(g, past, m, z);
    } else {
      assert z in g.ops[h].preds;
    }
  }

  lemma NothingNames(g: OpGraph, past: Preds, h: Digest)
    requires SoundGraph(g) && IsPast(g.preds, past) && FollowsAll(g, h)
    ensures h in g.heads
  {
    forall e | e in g.ops
      ensures h !in g.ops[e].preds
    {
      if h in g.ops[e].preds {
        assert e in g.preds && h in g.preds[e];
        PredIsSmaller(g.preds, past, e, h);
        if e != h {
          PastTransitive(g.preds, past, h, e);
        }
      }
    }
  }

  lemma OneAddHeadIff(g: OpGraph)
    requires SoundGraph(g)
    ensures |g.addHeads| < 2 <==> OneLooseAdd(g.ops)
  {
    assert forall x :: x in g.addHeads <==> LooseAdd(g.ops, x);
    if |g.addHeads| < 2 {
      forall x, y | x in g.addHeads && y in g.addHeads
        ensures x == y
      {
        OneElement(g.addHeads, x);
      }
    }
    if OneLooseAdd(g.ops) && g.addHeads != {} {
      var x :| x in g.addHeads;
      assert g.addHeads == {x};
    }
  }

  // ----- Two adds, then an update -----

  /** Every leaf has one key. */
  predicate Singles(t: Tree) {
    forall i :: i in t.leaves ==> t.leaves[i].pk.Single?
  }

  lemma SortKeepsSingles(t: Tree, added: set<MemberId>)
    requires Singles(t)
    ensures Singles(SortLeaves(t, added, {}))
  {
    hide Pop, PushAll, SortById, LeavesFrom, Blanked, IdsFrom;
    assert Slots({}) == {} && RemovedIds({}) == {};
    var m := PopMeans(t, added - {});
    var ls := LeavesFrom(t.leaves, m, t.nextLeaf);
    SortKeepsElements(ls);
    PushAllMeans(Cut(t, m), SortById(ls));
    forall x | x in SortById(ls)
      ensures x.pk.Single?
    {
      LeavesFromMeans(t.leaves, m, t.nextLeaf, x);
    }
  }

  /** The two added members are there, and every leaf still has one key. */
  lemma AddsEpoch(ops: map<Digest, Op>, steps: seq<Change>, t: Tree, p: Digest, q: Digest) returns (v: Tree)
    requires Covered(ops, steps) && RunSteps(ops, steps) == Ok(t) && {p, q} <= ops.Keys && p != q
    requires ops[p].Add? && ops[q].Add? && Singles(t)
    ensures (forall d :: d in [p, q] ==> d in ops) && Covered(ops, steps + EpochSteps(ops, [p, q]))
    ensures RunSteps(ops, steps + EpochSteps(ops, [p, q])) == Ok(v) && Singles(v) && t.ids.Keys <= v.ids.Keys
  {
    hide RunSteps, SortLeaves, Linked, Singles;
    var u := PushLeaf(PushLeaf(t, ops[p].addedId, Single(ops[p].pk)), ops[q].addedId, Single(ops[q].pk));
    var epoch := [p, q];
    assert ApplyEach(epoch) == [Apply(p), Apply(q)] by {
      EachSnoc(epoch, 0);
      EachSnoc(epoch, 1);
      assert epoch[..2] == epoch && ApplyEach(epoch[..0]) == [];
    }
    hide ApplyEach;
    RunStepsSnoc(ops, steps, Apply(p));
    RunStepsSnoc(ops, steps + [Apply(p)], Apply(q));
    assert steps + [Apply(p)] + [Apply(q)] == steps + ApplyEach(epoch);
    assert epoch[0] == p && p in epoch && ops[p].Add?;
    var c := Sort(AddedIn(ops, epoch), {});
    assert RemovedIn(ops, epoch) == {};
    assert steps + EpochSteps(ops, epoch) == (steps + ApplyEach(epoch)) + [c];
    RunStepsSnoc(ops, steps + ApplyEach(epoch), c);
    assert Slots({}) == {};
    PushKeepsSingles(t, ops[p].addedId, ops[p].pk);
    PushKeepsSingles(PushLeaf(t, ops[p].addedId, Single(ops[p].pk)), ops[q].addedId, ops[q].pk);
    SortKeepsSingles(u, c.added);
    v := SortLeaves(u, c.added, {});
    SortKeepsMembers(u, c.added);
  }

  lemma PushKeepsSingles(t: Tree, id: MemberId, pk: ShareKey)
    requires Singles(t)
    ensures Singles(PushLeaf(t, id, Single(pk)))
  {}

  lemma SortKeepsMembers(t: Tree, added: set<MemberId>)
    ensures t.ids.Keys <= SortLeaves(t, added, {}).ids.Keys
  {
    hide Pop, PushAll, SortById, LeavesFrom, Blanked, IdsFrom;
    assert Slots({}) == {} && RemovedIds({}) == {};
    var m := PopMeans(t, added - {});
    PushKeepsMembers(Cut(t, m), SortById(LeavesFrom(t.leaves, m, t.nextLeaf)));
  }

  lemma {:induction false} PushKeepsMembers(t: Tree, ls: seq<LeafNode>)
    ensures t.ids.Keys <= PushAll(t, ls).ids.Keys
  {
    if ls != [] {
      PushKeepsMembers(t, ls[..|ls| - 1]);
    }
  }

  lemma AddsOutcome(g: OpGraph, g': OpGraph, h: Digest, t: Tree, x: Digest, y: Digest)
    requires Fork(g, g', h, {x, y}, {}, x, y) && Down(g.preds, g.ops.Keys) && OutcomeFor(g, g.ops.Keys) == Ok(t)
    requires {x, y} <= g'.ops.Keys && x != y && g'.ops[x].Add? && g'.ops[y].Add? && Singles(t)
    ensures Down(g'.preds, g'.ops.Keys)
    ensures var out := OutcomeFor(g', g'.ops.Keys);
            out.Ok? && Singles(out.value) && t.ids.Keys <= out.value.ids.Keys && Settled(out.value)
  {
    hide Fork, Down, OutcomeFor, RunSteps, EpochSteps, Sorted, SoundGraph, Singles, Settled;
    ForkIsSound(g, g', h, {x, y}, {}, x, y);
    var steps := ForkContinues(g, g', h, t, {x, y}, {}, x, y);
    NothingSorted();
    var p, q := if x < y then x else y, if x < y then y else x;
    assert {p, q} == {x, y};
    SortedPair(p, q);
    assert [p, q] + [] == [p, q];
    var v := AddsEpoch(g'.ops, steps, t, p, q);
    OutcomeSettled(g', g'.ops.Keys);
  }

  /** Two replicas in one state each add a member; one receives the other's add and then updates.
      The update follows every operation and the tree has a root key, but neither add has seen
      the other, so no key is offered. */
  lemma HiddenKeyRun(s: State, h: Digest, e1: MemberId, pk1: ShareKey, e2: MemberId, pk2: ShareKey, sk: Secret,
                     draw: nat -> Secret, x: Digest, y: Digest, u: Digest)
    returns (a1: State, a2: State, a3: State, a4: State, op1: Op, op2: Op, up: Op, secret: Secret)
    requires Steady(s, h) && s.owner in s.tree.ids && Singles(OutcomeFor(s.graph, s.graph.ops.Keys).value)
    requires e1 !in s.tree.ids && e2 !in s.tree.ids && {x, y, u} !! s.graph.ops.Keys
    requires x != y && x != u && y != u
    ensures Sensible(s) && AddsMember(s, e1, pk1, x, a1, Ok(Some(op1))) && Sensible(a1)
    ensures AddsMember(s, e2, pk2, y, a2, Ok(Some(op2)))
    ensures Merges(a1, y, op2, a3, Ok(true)) && Sensible(a3)
    ensures UpdatesOwn(a3, sk, draw, u, a4, Ok((secret, up)))
    ensures HasRootKey(a4.tree) && FollowsAll(a4.graph, u) && a4.graph.ops[u].Update?
    ensures LooseAdd(a4.graph.ops, x) && LooseAdd(a4.graph.ops, y) && !HasKey(a4)
  {
    hide Steady, SoundGraph, Down, PushLeaf, OutcomeFor, Linked, RosterOf, ApplyOp, AddsMember, UpdatesOwn, Merges,
         Base, Fork, NamesHeads, Admissible, Singles, HasRootKey, FollowsAll, LooseAdd, Settled, RatchetN;
    SteadyParts(s, h);
    SteadyFacts(s, h);
    SteadyOutcome(s, h);
    a1, op1 := AddRuns(s, h, e1, pk1, x);
    SteadyParts(a1, x);
    a2, op2 := AddRuns(s, h, e2, pk2, y);
    NamesBoth(s.graph, op1, op2, h);
    PairFork(s.graph, h, x, op1, y, op2);
    HeadIsKnown(s.graph, h);
    a3 := ChangeDeferred(a1, x, y, op2, h);
    var t := OutcomeFor(s.graph, s.graph.ops.Keys).value;
    RosterFacts(t);
    RosterFacts(s.tree);
    AddsOutcome(s.graph, a3.graph, h, t, x, y);
    DeferredBase(a3);
    a4, up, secret := UpdateAfterReplay(a3, sk, draw, u);
    KeyHidden(s.graph, a3.graph, x, op1, y, op2, h, a4, u, up);
  }

  /** The replica's own update, after a replay. */
  lemma UpdateAfterReplay(s: State, sk: Secret, draw: nat -> Secret, d: Digest)
    returns (s': State, op: Op, secret: Secret)
    requires Sensible(s) && Base(s).Ok? && s.owner in Base(s).value.ids && Singles(Base(s).value)
    requires Settled(Base(s).value)
    ensures UpdatesOwn(s, sk, draw, d, s', Ok((secret, op))) && HasRootKey(s'.tree) && op.Update?
    ensures op.preds == s.graph.heads && s'.graph == AddOp(s.graph, d, op, None)
  {
    hide SoundGraph, Down, Base, EncryptedTree, EncryptedChange, CanEncrypt, ApplyOp, RatchetN, HasRootKey, Pow2;
    var t := Base(s).value;
    var i := t.ids[s.owner];
    SinglesCanEncrypt(t, i);
    op := Update(s.owner, EncryptedChange(t, s.owner, sk, draw), s.graph.heads);
    secret := RatchetN(sk, t.depth);
    OwnUpdateApplies(t, s.owner, sk, draw, s.graph.heads);
    EncryptedHasRoot(t, s.owner, sk, draw);
    s' := State(AddOp(s.graph, d, op, None), EncryptedTree(t, s.owner, sk, draw), false, s.owner,
                s.sks[ShareKey(sk) := sk]);
  }

  lemma EncryptedHasRoot(t: Tree, id: MemberId, sk: Secret, draw: nat -> Secret)
    requires id in t.ids && t.ids[id] in t.leaves && t.ids[id] < Pow2(t.depth) && t.depth > 0
    ensures HasRootKey(EncryptedTree(t, id, sk, draw))
  {
    hide NewPath, Overwrite;
    NewPathIsKeyed(t, id, sk, draw, t.depth);
    AncRoot(t.ids[id], t.depth);
  }

  lemma KeyHidden(g: OpGraph, g3: OpGraph, x: Digest, op1: Op, y: Digest, op2: Op, h: Digest, s: State, u: Digest,
                  up: Op)
    requires SoundGraph(g) && g.heads == {h} && {x, y, u} !! g.ops.Keys && x != y && x != u && y != u
    requires op1.Add? && op2.Add? && op1.addPreds == g.addHeads && op2.addPreds == g.addHeads
    requires g3 == AddOp(AddOp(g, x, op1, None), y, op2, Some({h})) && SoundGraph(g3)
    requires up.Update? && up.preds == g3.heads && s.graph == AddOp(g3, u, up, None)
    ensures FollowsAll(s.graph, u) && LooseAdd(s.graph.ops, x) && LooseAdd(s.graph.ops, y) && !HasKey(s)
    ensures u in s.graph.ops && s.graph.ops[u] == up
  {
    hide SoundGraph, HasRootKey, FollowsAll, LooseAdd, IsPast;
    AddHeadsKnown(g);
    UpdateNamesHeads(g3, up);
    assert u !in g3.ops;
    AddOpSound(g3, u, up, None);
    assert s.graph.heads == {u} && s.graph.addHeads == ({x} - g.addHeads) + {y};
    assert x !in g.addHeads;
    LooseHere(s.graph, x);
    LooseHere(s.graph, y);
    HeadFollows(s.graph, u);
    assert |{x, y}| == 2 && s.graph.addHeads == {x, y};
  }

  lemma LooseHere(g: OpGraph, x: Digest)
    requires SoundGraph(g) && x in g.addHeads
    ensures LooseAdd(g.ops, x)
  {}

  lemma HeadFollows(g: OpGraph, h: Digest)
    requires SoundGraph(g) && g.heads == {h}
    ensures FollowsAll(g, h)
  {
    hide SoundGraph, IsPast;
    HeadIsKnown(g, h);
    forall past, z | IsPast(g.preds, past) && z in g.ops && z != h
      ensures h in past && z in past[h]
    {
      OnlyHead(g, past, h, z);
    }
  }

  /** The smallest case: a founder, and two members added at the same time. */
  lemma HiddenKeyExample(draw: nat -> Secret)
    returns (s: State, a1: State, a2: State, a3: State, a4: State, op1: Op, op2: Op, up: Op, secret: Secret)
    ensures s == First(0, ShareKey(Fresh(0)), 0, map[]) && Sensible(s)
    ensures AddsMember(s, 1, ShareKey(Fresh(1)), 1, a1, Ok(Some(op1))) && Sensible(a1)
    ensures AddsMember(s, 2, ShareKey(Fresh(2)), 2, a2, Ok(Some(op2)))
    ensures Merges(a1, 2, op2, a3, Ok(true)) && Sensible(a3)
    ensures UpdatesOwn(a3, Fresh(3), draw, 3, a4, Ok((secret, up))) && HasRootKey(a4.tree) && !HasKey(a4)
  {
    s := First(0, ShareKey(Fresh(0)), 0, map[]);
    FirstIsSteady(0, ShareKey(Fresh(0)), 0, map[]);
    FirstReplays(0, ShareKey(Fresh(0)), 0, map[]);
    FounderAlone(s);
    hide Steady, First, AddsMember, UpdatesOwn, Merges, Sensible, Singles, OutcomeFor, HasKey, HasRootKey;
    a1, a2, a3, a4, op1, op2, up, secret :=
      HiddenKeyRun(s, 0, 1, ShareKey(Fresh(1)), 2, ShareKey(Fresh(2)), Fresh(3), draw, 1, 2, 3);
  }

  lemma FounderAlone(s: State)
    requires s == First(0, ShareKey(Fresh(0)), 0, map[]) && Steady(s, 0)
    requires OutcomeFor(s.graph, s.graph.ops.Keys) == Ok(NewTree(0, ShareKey(Fresh(0))))
    ensures s.owner == 0 && s.tree.ids == map[0 := 0] && s.graph.ops.Keys == {0}
    ensures Singles(OutcomeFor(s.graph, s.graph.ops.Keys).value)
  {
    hide SoundGraph, Down, OutcomeFor;
  }
}
