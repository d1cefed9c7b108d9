/** What happens after a single head: the operations that follow it are sorted and replayed
    on their own, from the tree the head left. */
module Continuation {
  import opened Results
  import opened Nodes
  import opened Crypto
  import opened NodeKeys
  import opened KeyTree
  import opened PathUpdate
  import opened WellFormed
  import opened Operations
  import opened Epochs
  import opened Graph
  import opened Replay
  import opened ReplicaSteps
  import opened EpochOutcomes

  // ----- Graphs -----

  /** `g'` holds the operations of `g`, which has the one head `h`, and others that follow it. */
  ghost predicate Extends(g: OpGraph, g': OpGraph, h: Digest) {
    && SoundGraph(g) && SoundGraph(g') && g.heads == {h} && g.ops.Keys <= g'.ops.Keys
    && (forall d :: d in g.ops ==> g'.ops[d] == g.ops[d])
    && (forall d :: d in g'.ops && d !in g.ops ==> g'.ops[d].preds != {})
    && forall d, x :: d in g'.ops && d !in g.ops && x in g'.ops[d].preds && x in g.ops ==> x == h
  }

  lemma HasFollower(g: OpGraph, h: Digest, z: Digest) returns (e: Digest)
    requires SoundGraph(g) && g.heads == {h} && z in g.ops && z != h
    ensures e in g.ops && z in g.ops[e].preds
  {
    assert z !in Ends(g.ops);
    e :| e in g.ops && z in g.ops[e].preds;
  }

  lemma HeadIsKnown(g: OpGraph, h: Digest)
    requires SoundGraph(g) && g.heads == {h}
    ensures h in g.ops
  {
    assert h in g.heads;
  }

  lemma {:induction false} HeadOfPart(g: OpGraph, g': OpGraph, past: Preds, h: Digest, z: Digest)
    requires Extends(g, g', h) && IsPast(g'.preds, past) && z in g.ops
    ensures h in g.ops && h in past && (z == h || z in past[h])
    decreases |g'.preds| - |past[z]|
  {
    hide SoundGraph, IsPast;
    WholePreds(g');
    HeadIsKnown(g, h);
    PastKeys(g'.preds, past);
    if z != h {
      var e := HasFollower(g, h, z);
      PredIsSmaller(g'.preds, past, e, z);
      PastFits(g'.preds, past, e);
      HeadOfPart(g, g', past, h, e);
      PastHolds(g'.preds, past, e, z);
      if e != h {
        PastTransitive(g'.preds, past, h, e);
      }
    }
  }

  lemma PastHolds(preds: Preds, past: Preds, e: Digest, z: Digest)
    requires IsPast(preds, past) && e in preds && z in preds[e]
    ensures z in past[e]
  {}

  lemma PartIsDown(g: OpGraph, g': OpGraph, h: Digest)
    requires Extends(g, g', h)
    ensures Down(g.preds, g.ops.Keys) && Down(g'.preds, g.ops.Keys) && Down(g'.preds, g'.ops.Keys)
    ensures forall x :: x in g.ops ==> g.preds[x] == g'.preds[x]
    ensures Beyond(g'.preds, g.ops.Keys, g'.ops.Keys, h)
  {
    WholePreds(g);
    WholePreds(g');
    SoundIsDown(g);
    SoundIsDown(g');
  }

  lemma SoundIsDown(g: OpGraph)
    requires SoundGraph(g)
    ensures Down(g.preds, g.ops.Keys)
  {}

  /** The epochs of the longer graph begin with those of the shorter one. */
  lemma EpochsContinue(g: OpGraph, g': OpGraph, h: Digest)
    requires Extends(g, g', h)
    ensures Down(g.preds, g.ops.Keys) && Down(g'.preds, g'.ops.Keys)
    ensures EpochsOf(g'.preds, g'.ops.Keys)
            == EpochsOf(g.preds, g.ops.Keys) + CutFrom(g'.preds, g'.ops.Keys, g.ops.Keys, [])
  {
    hide CutFrom, IsPast, Beyond, Down;
    PartIsDown(g, g', h);
    var past := SomePast(g');
    forall z | z in g.ops
      ensures h in g.ops && h in past && (z == h || z in past[h])
    {
      HeadOfPart(g, g', past, h, z);
    }
    assert h in g.heads;
    HeadsKnown(g);
    SplitAtHead(g'.preds, past, g.ops.Keys, g'.ops.Keys, h);
    SameEpochs(g.preds, g'.preds, g.ops.Keys, {}, []);
  }

  lemma SomePast(g: OpGraph) returns (past: Preds)
    requires SoundGraph(g)
    ensures IsPast(g.preds, past)
  {
    past :| IsPast(g.preds, past) && AddsInPast(g.ops, past);
  }

  lemma {:induction false} SameReplay(ops: map<Digest, Op>, ops': map<Digest, Op>, epochs: seq<seq<Digest>>)
    requires (forall d :: d in ops ==> d in ops' && ops'[d] == ops[d]) && (forall d :: d in Flat(epochs) ==> d in ops)
    ensures ReplaySteps(ops, epochs) == ReplaySteps(ops', epochs)
  {
    if epochs != [] {
      var init, last := epochs[..|epochs| - 1], epochs[|epochs| - 1];
      FlatInit(epochs);
      SameReplay(ops, ops', init);
      SameEpochSteps(ops, ops', last);
    }
  }

  lemma SameEpochSteps(ops: map<Digest, Op>, ops': map<Digest, Op>, epoch: seq<Digest>)
    requires forall d :: d in epoch ==> d in ops && d in ops' && ops'[d] == ops[d]
    ensures EpochSteps(ops, epoch) == EpochSteps(ops', epoch)
  {
    hide ApplyEach;
    assert AddedIn(ops, epoch) == AddedIn(ops', epoch) && RemovedIn(ops, epoch) == RemovedIn(ops', epoch);
  }

  /** When what follows the head is one epoch, replaying the longer graph is replaying that
      epoch from the outcome of the shorter one. */
  lemma OutcomeContinues(g: OpGraph, g': OpGraph, h: Digest, t: Tree, epoch: seq<Digest>) returns (steps: seq<Change>)
    requires Extends(g, g', h) && Down(g.preds, g.ops.Keys) && OutcomeFor(g, g.ops.Keys) == Ok(t)
    requires Down(g'.preds, g'.ops.Keys) && CutFrom(g'.preds, g'.ops.Keys, g.ops.Keys, []) == [epoch]
    ensures (forall d :: d in epoch ==> d in g'.ops) && Covered(g'.ops, steps) && RunSteps(g'.ops, steps) == Ok(t)
    ensures Covered(g'.ops, steps + EpochSteps(g'.ops, epoch))
    ensures OutcomeFor(g', g'.ops.Keys) == RunSteps(g'.ops, steps + EpochSteps(g'.ops, epoch))
  {
    hide CutFrom, Down, SoundGraph, EpochsOf, RunSteps, EpochSteps, Flat;
    EpochsContinue(g, g', h);
    AncestorsCovered(g, g.ops.Keys);
    AncestorsCovered(g', g'.ops.Keys);
    var es, all := EpochsOf(g.preds, g.ops.Keys), EpochsOf(g'.preds, g'.ops.Keys);
    assert all[..|all| - 1] == es && all[|all| - 1] == epoch;
    FlatInit(all);
    SameReplay(g.ops, g'.ops, es);
    steps := ReplaySteps(g.ops, es);
    RunStepsExtends(g.ops, g'.ops, steps);
  }

  // ----- Forks -----

  /** After the head come the operations of `l1`, each naming only it, and those of `l2`,
      which name some of `l1`; `e1` and `e2` are ends. */
  ghost predicate Fork(g: OpGraph, g': OpGraph, h: Digest, l1: set<Digest>, l2: set<Digest>, e1: Digest, e2: Digest) {
    Extends(g, g', h) && g'.ops.Keys == g.ops.Keys + l1 + l2 && Forks(g'.preds, g.ops.Keys, h, l1, l2, e1, e2)
  }

  lemma ForkHere(g: OpGraph, g': OpGraph, h: Digest, l1: set<Digest>, l2: set<Digest>, e1: Digest, e2: Digest)
    requires SoundGraph(g) && SoundGraph(g') && g.heads == {h} && g'.ops.Keys == g.ops.Keys + l1 + l2
    requires l1 !! g.ops.Keys && l2 !! g.ops.Keys && l1 !! l2 && |l1| >= 2
    requires forall d :: d in g.ops ==> g'.ops[d] == g.ops[d]
    requires forall x :: x in l1 ==> g'.ops[x].preds == {h}
    requires forall x :: x in l2 ==> g'.ops[x].preds != {} && g'.ops[x].preds <= l1
    requires e1 in l1 + l2 && e2 in l1 + l2 && e1 != e2
    requires forall x :: x in l2 ==> e1 !in g'.ops[x].preds && e2 !in g'.ops[x].preds
    ensures Fork(g, g', h, l1, l2, e1, e2)
  {
    hide SoundGraph, Down, Forks, Extends;
    HeadIsKnown(g, h);
    SoundIsDown(g);
    WholePreds(g);
    WholePreds(g');
    assert Extends(g, g', h) by {
      NewFollow(g, g', h, l1, l2);
      ExtendsHere(g, g', h);
    }
    assert Forks(g'.preds, g.ops.Keys, h, l1, l2, e1, e2) by {
      SameIsDown(g.preds, g'.preds, g.ops.Keys);
      ForksHere(g', g.ops.Keys, h, l1, l2, e1, e2);
    }
  }

  lemma ExtendsHere(g: OpGraph, g': OpGraph, h: Digest)
    requires SoundGraph(g) && SoundGraph(g') && g.heads == {h} && g.ops.Keys <= g'.ops.Keys
    requires forall d :: d in g.ops ==> g'.ops[d] == g.ops[d]
    requires forall d :: d in g'.ops && d !in g.ops ==> g'.ops[d].preds != {}
    requires forall d, x :: d in g'.ops && d !in g.ops && x in g'.ops[d].preds && x in g.ops ==> x == h
    ensures Extends(g, g', h)
  {}

  lemma ForksHere(g: OpGraph, a: set<Digest>, h: Digest, l1: set<Digest>, l2: set<Digest>, e1: Digest, e2: Digest)
    requires Down(g.preds, a) && h in a && l1 !! a && l2 !! a && l1 !! l2 && |l1| >= 2 && l1 + l2 <= g.ops.Keys
    requires g.preds.Keys == g.ops.Keys && forall d :: d in g.ops ==> g.preds[d] == g.ops[d].preds
    requires forall x :: x in l1 ==> g.ops[x].preds == {h}
    requires forall x :: x in l2 ==> g.ops[x].preds != {} && g.ops[x].preds <= l1
    requires e1 in l1 + l2 && e2 in l1 + l2 && e1 != e2
    requires forall x :: x in l2 ==> e1 !in g.ops[x].preds && e2 !in g.ops[x].preds
    ensures Forks(g.preds, a, h, l1, l2, e1, e2)
  {
    hide Down;
  }

  lemma SameIsDown(preds: Preds, preds': Preds, a: set<Digest>)
    requires Down(preds, a) && a <= preds'.Keys && forall x :: x in a ==> preds'[x] == preds[x]
    ensures Down(preds', a)
  {}

  lemma NewFollow(g: OpGraph, g': OpGraph, h: Digest, l1: set<Digest>, l2: set<Digest>)
    requires g'.ops.Keys == g.ops.Keys + l1 + l2 && l1 !! g.ops.Keys
    requires forall x :: x in l1 ==> g'.ops[x].preds == {h}
    requires forall x :: x in l2 ==> g'.ops[x].preds != {} && g'.ops[x].preds <= l1
    ensures forall d :: d in g'.ops && d !in g.ops ==> g'.ops[d].preds != {}
    ensures forall d, x :: d in g'.ops && d !in g.ops && x in g'.ops[d].preds && x in g.ops ==> x == h
  {}

  lemma ForkIsSound(g: OpGraph, g': OpGraph, h: Digest, l1: set<Digest>, l2: set<Digest>, e1: Digest, e2: Digest)
    requires Fork(g, g', h, l1, l2, e1, e2)
    ensures SoundGraph(g) && SoundGraph(g')
  {
    hide SoundGraph, Forks;
  }

  /** Replaying then continues with one epoch, the two layers in turn. */
  lemma ForkContinues(g: OpGraph, g': OpGraph, h: Digest, t: Tree, l1: set<Digest>, l2: set<Digest>, e1: Digest,
                      e2: Digest) returns (steps: seq<Change>)
    requires Fork(g, g', h, l1, l2, e1, e2) && Down(g.preds, g.ops.Keys) && OutcomeFor(g, g.ops.Keys) == Ok(t)
    ensures Down(g'.preds, g'.ops.Keys) && Covered(g'.ops, steps) && RunSteps(g'.ops, steps) == Ok(t)
    ensures var epoch := Sorted(l1) + Sorted(l2);
            && (forall d :: d in epoch ==> d in g'.ops) && Covered(g'.ops, steps + EpochSteps(g'.ops, epoch))
            && OutcomeFor(g', g'.ops.Keys) == RunSteps(g'.ops, steps + EpochSteps(g'.ops, epoch))
  {
    hide CutFrom, Sorted, SoundGraph, Down, Extends, Forks, RunSteps, EpochSteps, OutcomeFor;
    ForkEpoch(g'.preds, g.ops.Keys, h, l1, l2, e1, e2);
    steps := OutcomeContinues(g, g', h, t, Sorted(l1) + Sorted(l2));
  }

  // ----- Replicas with a single head -----

  /** The replica has one head and nothing pending, and its tree has the members in the slots
      a replay would give them. */
  ghost predicate Steady(s: State, h: Digest) {
    && Sensible(s) && !s.pending && s.graph.heads == {h}
    && var out := OutcomeFor(s.graph, s.graph.ops.Keys); out.Ok? && RosterOf(out.value) == RosterOf(s.tree)
  }

  lemma SteadyFacts(s: State, h: Digest)
    requires Steady(s, h)
    ensures Base(s) == Ok(s.tree) && Linked(s.tree) && h in s.graph.ops && s.tree.nextLeaf <= Pow2(s.tree.depth)
    ensures 0 < s.tree.depth && forall id :: id in s.tree.ids ==> s.tree.ids[id] < s.tree.nextLeaf
  {
    hide SoundGraph, Down;
    HeadIsKnown(s.graph, h);
    OutcomeSettled(s.graph, s.graph.ops.Keys);
  }

  lemma OutcomeSettled(g: OpGraph, a: set<Digest>)
    requires SoundGraph(g) && Down(g.preds, a) && a <= g.ops.Keys && OutcomeFor(g, a).Ok?
    ensures Settled(OutcomeFor(g, a).value)
  {
    hide SoundGraph, Down, EpochsOf, ReplaySteps, RunSteps, Settled;
    AncestorsCovered(g, a);
    RunStepsSettled(g.ops, ReplaySteps(g.ops, EpochsOf(g.preds, a)));
  }

  lemma LocalExtends(g: OpGraph, h: Digest, d: Digest, op: Op)
    requires SoundGraph(g) && g.heads == {h} && d !in g.ops && NamesHeads(g, op)
    ensures var g' := AddOp(g, d, op, None);
            && Extends(g, g', h) && g'.ops == g.ops[d := op] && g'.preds == g.preds[d := {h}] && g'.heads == {d}
            && Down(g'.preds, g'.ops.Keys)
  {
    hide SoundGraph;
    AddOpSound(g, d, op, None);
    SoundIsDown(AddOp(g, d, op, None));
  }

  /** One more operation after the head is an epoch of its own. */
  lemma OneMoreEpoch(preds: Preds, past: Preds, a: set<Digest>, d: Digest)
    requires Down(preds, a + {d}) && d !in a && Down(preds, a) && IsPast(preds, past) && IsHead(past, a + {d}, d)
    ensures CutFrom(preds, a + {d}, a, []) == [[d]]
  {
    hide Open, Ready, IsPast, Down, IsHead;
    HeadLayer(preds, past, a + {d}, a, d);
    LastLayer(preds, a, d);
    OpenAtHead(preds, past, a + {d}, d);
    AtMostOne(Open(preds, a + {d}, a + {d}), d);
    SortedSingle(d);
    NothingLeft(preds, a + {d});
  }

  lemma LastLayer(preds: Preds, a: set<Digest>, d: Digest)
    requires Down(preds, a + {d}) && d !in a && Ready(preds, a + {d}, a) != {}
    ensures Ready(preds, a + {d}, a) == {d}
  {
    var x :| x in Ready(preds, a + {d}, a);
    assert Ready(preds, a + {d}, a) <= {d};
  }

  /** A local operation on a steady replica leaves it steady. */
  lemma SteadyGrows(s: State, h: Digest, d: Digest, op: Op, s': State)
    requires Steady(s, h) && d !in s.graph.ops && NamesHeads(s.graph, op)
    requires ApplyOp(s.tree, op) == Ok(s'.tree) && s'.graph == AddOp(s.graph, d, op, None) && !s'.pending
    ensures Steady(s', d)
  {
    hide SoundGraph, Down, RunSteps, EpochSteps, Extends, ApplyOp, RosterOf, OutcomeFor, CutFrom, Linked, NamesHeads,
         Accepts, After;
    var g, g' := s.graph, s'.graph;
    LocalExtends(g, h, d, op);
    NewHead(g, d, op);
    var t := OutcomeFor(g, g.ops.Keys).value;
    var steps := OutcomeContinues(g, g', h, t, [d]);
    OneStep(g'.ops, steps, t, d);
    OpOnRoster(t, op);
    OpOnRoster(s.tree, op);
    StaysLinked(s.tree, op);
    ExtendsIsSound(g, g', h);
  }

  lemma ExtendsIsSound(g: OpGraph, g': OpGraph, h: Digest)
    requires Extends(g, g', h)
    ensures SoundGraph(g')
  {}

  lemma StaysLinked(t: Tree, op: Op)
    requires Linked(t) && ApplyOp(t, op).Ok?
    ensures Linked(ApplyOp(t, op).value)
  {}

  lemma NewHead(g: OpGraph, d: Digest, op: Op)
    requires SoundGraph(g) && d !in g.ops && NamesHeads(g, op)
    ensures var g' := AddOp(g, d, op, None);
            && Down(g.preds, g.ops.Keys) && Down(g'.preds, g'.ops.Keys) && g'.ops.Keys == g.ops.Keys + {d}
            && CutFrom(g'.preds, g'.ops.Keys, g.ops.Keys, []) == [[d]]
  {
    hide CutFrom, SoundGraph, Down, IsPast;
    AddOpSound(g, d, op, None);
    var g' := AddOp(g, d, op, None);
    SoundIsDown(g);
    SoundIsDown(g');
    WholePreds(g);
    OldIsDown(g, d, op);
    var past := SomePast(g');
    assert IsHead(past, g'.ops.Keys, d) by {
      forall z | z in g'.ops
        ensures d in past && (z == d || z in past[d])
      {
        OnlyHead(g', past, d, z);
      }
    }
    assert g'.ops.Keys == g.ops.Keys + {d};
    OneMoreEpoch(g'.preds, past, g.ops.Keys, d);
  }

  lemma OldIsDown(g: OpGraph, d: Digest, op: Op)
    requires Down(g.preds, g.ops.Keys) && d !in g.ops && g.preds.Keys == g.ops.Keys
    ensures Down(AddOp(g, d, op, None).preds, g.ops.Keys)
  {}

  lemma OnlyHead(g: OpGraph, past: Preds, h: Digest, z: Digest)
    requires SoundGraph(g) && g.heads == {h} && IsPast(g.preds, past) && z in g.ops
    ensures h in past && (z == h || z in past[h])
  {
    hide SoundGraph, IsPast;
    HeadOfPart(g, g, past, h, z);
  }

  lemma OneStep(ops: map<Digest, Op>, steps: seq<Change>, t: Tree, d: Digest)
    requires Covered(ops, steps) && RunSteps(ops, steps) == Ok(t) && d in ops
    ensures Covered(ops, steps + EpochSteps(ops, [d]))
    ensures RunSteps(ops, steps + EpochSteps(ops, [d])) == ApplyOp(t, ops[d])
  {
    hide RunSteps, ApplyOp;
    assert ApplyEach([d]) == [Apply(d)] by {
      assert [d][..0] == [];
    }
    RunStepsSnoc(ops, steps, Apply(d));
  }

  // ----- Steps of a steady replica -----

  /** The same replica, in the hands of another member. */
  ghost function As(s: State, owner: MemberId, sks: ShareKeyMap): State {
    s.(owner := owner, sks := sks)
  }

  lemma AddRuns(s: State, h: Digest, id: MemberId, pk: ShareKey, d: Digest) returns (s': State, op: Op)
    requires Steady(s, h) && id !in s.tree.ids && d !in s.graph.ops
    ensures AddsMember(s, id, pk, d, s', Ok(Some(op))) && Steady(s', d)
    ensures op == Add(id, pk, s.tree.nextLeaf, {h}, s.graph.addHeads)
    ensures s'.tree == PushLeaf(s.tree, id, Single(pk)) && s'.graph == AddOp(s.graph, d, op, None)
    ensures s'.owner == s.owner
  {
    hide PushLeaf, Steady, Base, SoundGraph, Down;
    SteadyFacts(s, h);
    SteadyParts(s, h);
    op := Add(id, pk, s.tree.nextLeaf, s.graph.heads, s.graph.addHeads);
    s' := s.(graph := AddOp(s.graph, d, op, None), tree := PushLeaf(s.tree, id, Single(pk)), pending := false);
    SteadyGrows(s, h, d, op, s');
  }

  lemma SteadyParts(s: State, h: Digest)
    requires Steady(s, h)
    ensures Sensible(s) && s.graph.heads == {h} && !s.pending
  {}

  lemma RemoveRuns(s: State, h: Digest, id: MemberId, d: Digest) returns (s': State, op: Op)
    requires Steady(s, h) && id in s.tree.ids && |s.tree.ids| > 1 && d !in s.graph.ops
    ensures RemovesMember(s, id, d, s', Ok(Some(op))) && Steady(s', d)
    ensures op == Remove(id, s.tree.ids[id], PathKeys(s.tree, s.tree.ids[id], s.tree.depth), {h})
    ensures s'.tree == RemoveLeaf(s.tree, id) && s'.graph == AddOp(s.graph, d, op, None)
  {
    hide RemoveLeaf, Steady, Base, SoundGraph, Down;
    SteadyFacts(s, h);
    SteadyParts(s, h);
    op := Remove(id, s.tree.ids[id], PathKeys(s.tree, s.tree.ids[id], s.tree.depth), s.graph.heads);
    s' := s.(graph := AddOp(s.graph, d, op, None), tree := RemoveLeaf(s.tree, id), pending := false);
    SteadyGrows(s, h, d, op, s');
  }

  lemma UpdateRuns(s: State, h: Digest, sk: Secret, draw: nat -> Secret, d: Digest) returns (s': State, op: Op)
    requires Steady(s, h) && s.owner in s.tree.ids && CanEncrypt(s.tree, s.tree.ids[s.owner]) && d !in s.graph.ops
    ensures Linked(s.tree) && UpdatesOwn(s, sk, draw, d, s', Ok((RatchetN(sk, s.tree.depth), op))) && Steady(s', d)
    ensures op == Update(s.owner, EncryptedChange(s.tree, s.owner, sk, draw), {h}) && s'.owner == s.owner
    ensures s'.tree == EncryptedTree(s.tree, s.owner, sk, draw) && s'.graph == AddOp(s.graph, d, op, None)
    ensures op.change.leafId == s.owner && op.change.leafIdx == s.tree.ids[s.owner] < s.tree.nextLeaf
    ensures Climbs(op.change.path, op.change.leafIdx) && op.change.leafPk == Single(ShareKey(sk))
  {
    hide Steady, Base, SoundGraph, Down, EncryptedTree, EncryptedChange, ApplyOp, Climbs, CanEncrypt, RatchetN,
         NamesHeads;
    SteadyFacts(s, h);
    SteadyParts(s, h);
    op := Update(s.owner, EncryptedChange(s.tree, s.owner, sk, draw), s.graph.heads);
    OwnChange(s.tree, s.owner, sk, draw);
    UpdateNamesHeads(s.graph, op);
    OwnUpdateApplies(s.tree, s.owner, sk, draw, s.graph.heads);
    s' := State(AddOp(s.graph, d, op, None), EncryptedTree(s.tree, s.owner, sk, draw), false, s.owner,
                s.sks[ShareKey(sk) := sk]);
    SteadyGrows(s, h, d, op, s');
  }

  lemma UpdateNamesHeads(g: OpGraph, op: Op)
    requires op.Update? && op.preds == g.heads
    ensures NamesHeads(g, op)
  {}

  lemma OwnChange(t: Tree, id: MemberId, sk: Secret, draw: nat -> Secret)
    requires id in t.ids && t.ids[id] in t.leaves
    ensures var c := EncryptedChange(t, id, sk, draw);
            c.leafId == id && c.leafIdx == t.ids[id] && c.leafPk == Single(ShareKey(sk)) && Climbs(c.path, c.leafIdx)
  {
    hide NewPath, PathKeys;
    NewPathClimbs(t, t.ids[id], sk, draw, t.depth);
  }

  lemma SteadyAs(s: State, h: Digest, owner: MemberId, sks: ShareKeyMap)
    requires Steady(s, h)
    ensures Steady(As(s, owner, sks), h)
  {}

  lemma SteadyOutcome(s: State, h: Digest)
    requires Steady(s, h)
    ensures SoundGraph(s.graph) && Down(s.graph.preds, s.graph.ops.Keys)
    ensures var out := OutcomeFor(s.graph, s.graph.ops.Keys); out.Ok? && RosterOf(out.value) == RosterOf(s.tree)
  {}

  /** A membership change that did not see the only head is kept for later. */
  lemma DeferredMerge(s: State, d: Digest, op: Op, h: Digest, p: Digest, s': State)
    requires Sensible(s) && s.graph.heads == {h} && d !in s.graph.ops && op.Remove? && op.preds == {p}
    requires p in s.graph.ops && p != h
    requires s' == s.(graph := AddOp(s.graph, d, op, Some(op.preds)), pending := true)
    ensures Merges(s, d, op, s', Ok(true)) && Sensible(s')
  {
    hide SoundGraph, Linked;
    AddOpSound(s.graph, d, op, Some(op.preds));
    SoundIsDown(s'.graph);
  }

  lemma DeferredBase(s: State)
    requires Sensible(s) && s.pending && s.graph.heads != {}
    ensures Base(s) == OutcomeFor(s.graph, s.graph.ops.Keys)
  {}

  /** The replica of the first member. */
  ghost function First(id: MemberId, pk: ShareKey, d: Digest, sks: ShareKeyMap): State {
    State(AddOp(EmptyGraph(), d, InitAdd(id, pk), None), NewTree(id, pk), false, id, sks)
  }

  lemma FirstIsSteady(id: MemberId, pk: ShareKey, d: Digest, sks: ShareKeyMap)
    ensures Steady(First(id, pk, d, sks), d)
  {
    hide SoundGraph, Down, OutcomeFor;
    FirstReplays(id, pk, d, sks);
  }

  lemma FirstReplays(id: MemberId, pk: ShareKey, d: Digest, sks: ShareKeyMap)
    ensures var s := First(id, pk, d, sks);
            && Sensible(s) && s.graph.heads == {d}
            && OutcomeFor(s.graph, s.graph.ops.Keys) == Ok(NewTree(id, pk))
  {
    var s := First(id, pk, d, sks);
    FirstReflects(id, pk, d);
    var g := s.graph;
    SoundIsDown(g);
    assert g.ops.Keys == {d} && g.heads == {d};
    assert EmptyGraph().ops.Keys == {} && {} + {d} == {d};
    hide SoundGraph, CutFrom;
    EmptyIsSound();
    NewHead(EmptyGraph(), d, InitAdd(id, pk));
    assert EpochsOf(g.preds, {d}) == [[d]];
    FirstOutcome(g, id, pk, d);
  }

  lemma FirstOutcome(g: OpGraph, id: MemberId, pk: ShareKey, d: Digest)
    requires SoundGraph(g) && Down(g.preds, g.ops.Keys) && g.ops == map[d := InitAdd(id, pk)]
    requires EpochsOf(g.preds, g.ops.Keys) == [[d]]
    ensures OutcomeFor(g, g.ops.Keys) == Ok(NewTree(id, pk))
  {
    hide SoundGraph, Down, EpochsOf, RunSteps, EpochSteps, NewTree;
    AncestorsCovered(g, g.ops.Keys);
    var es := [[d]];
    assert es[..0] == [] && ReplaySteps(g.ops, []) == [];
    FlatInit(es);
    assert Flat([]) == [];
    assert ReplaySteps(g.ops, es) == [] + EpochSteps(g.ops, [d]);
    NoSteps(g.ops);
    OneStep(g.ops, [], EmptyTree(), d);
    ApplyInit(id, pk);
  }

  lemma NoSteps(ops: map<Digest, Op>)
    ensures Covered(ops, []) && RunSteps(ops, []) == Ok(EmptyTree())
  {}
}
