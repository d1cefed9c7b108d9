/** Replaying the operation graph: the steps by which a tree comes about. */
module Replay {
  import opened Seqs
  import opened Results
  import opened Nodes
  import opened NodeKeys
  import opened KeyTree
  import opened PathUpdate
  import opened WellFormed
  import opened Operations
  import opened Normalise
  import opened Epochs
  import opened Graph

  /** What is done to a tree: one operation applied, or the leaves put in order after an
      epoch with concurrent membership changes. */
  datatype Change =
    | Apply(d: Digest)
    | Sort(added: set<MemberId>, removed: set<(MemberId, nat)>)

  ghost predicate Covered(ops: map<Digest, Op>, steps: seq<Change>) {
    forall c :: c in steps && c.Apply? ==> c.d in ops
  }

  // ----- Sorting keeps ids linked -----

  /** Every id outside `todo` points at its own leaf. */
  ghost predicate LinkedExcept(t: Tree, todo: set<MemberId>) {
    && (forall id :: id in t.ids && id !in todo ==> t.ids[id] in t.leaves && t.leaves[t.ids[id]].id == id)
    && (forall i :: i in t.leaves ==> i < t.nextLeaf)
  }

  lemma {:induction false} PushAllLinks(t: Tree, ls: seq<LeafNode>, todo: set<MemberId>)
    requires LinkedExcept(t, todo)
    ensures LinkedExcept(PushAll(t, ls), todo - IdsOf(ls))
  {
    if ls != [] {
      var init, last := ls[..|ls| - 1], ls[|ls| - 1];
      PushAllLinks(t, init, todo);
      assert ls == init + [last];
      assert IdsOf(ls) == IdsOf(init) + {last.id};
    }
  }

  lemma CutLinks(t: Tree, m: nat)
    requires Linked(t) && m <= t.nextLeaf
    ensures LinkedExcept(Cut(t, m), IdsOf(LeavesFrom(t.leaves, m, t.nextLeaf)))
  {
    hide LeavesFrom, Blanked;
    var c := Cut(t, m);
    forall id | id in c.ids && id !in IdsOf(LeavesFrom(t.leaves, m, t.nextLeaf))
      ensures c.ids[id] in c.leaves && c.leaves[c.ids[id]].id == id
    {
      LeavesFromMeans(t.leaves, m, t.nextLeaf, t.leaves[t.ids[id]]);
      assert t.ids[id] < m;
    }
  }

  lemma SortKeepsIds(ls: seq<LeafNode>)
    ensures IdsOf(SortById(ls)) == IdsOf(ls)
  {
    SortKeepsElements(ls);
    assert forall x :: x in SortById(ls) <==> x in ls;
  }

  lemma {:induction false} SortKeepsElements(ls: seq<LeafNode>)
    ensures forall x :: x in SortById(ls) <==> x in ls
  {
    if ls != [] {
      SortKeepsElements(ls[1..]);
      InsertKeepsElements(ls[0], SortById(ls[1..]));
      assert ls == [ls[0]] + ls[1..];
    }
  }

  lemma {:induction false} InsertKeepsElements(leaf: LeafNode, ls: seq<LeafNode>)
    ensures forall x :: x in InsertLeaf(leaf, ls) <==> x in ls || x == leaf
  {
    if ls != [] && leaf.id > ls[0].id {
      InsertKeepsElements(leaf, ls[1..]);
      assert ls == [ls[0]] + ls[1..];
    }
  }

  lemma SortLeavesLinked(t: Tree, added: set<MemberId>, removed: set<(MemberId, nat)>)
    requires Linked(t) && forall i :: i in Slots(removed) ==> i !in t.leaves
    ensures Linked(SortLeaves(t, added, removed))
  {
    hide Pop, PushAll, SortById, LeavesFrom, Blanked, IdsFrom;
    var t0 := BlankRemoved(t, Slots(removed));
    assert t.leaves - Slots(removed) == t.leaves;
    var m := PopMeans(t0, added - RemovedIds(removed));
    CutLinks(t0, m);
    var ls := LeavesFrom(t.leaves, m, t.nextLeaf);
    SortKeepsIds(ls);
    PushAllLinks(Cut(t0, m), SortById(ls), IdsOf(ls));
  }

  // ----- Root key and encrypter -----

  /** Every leaf slot in use is inside the tree, and there is a current encrypter exactly
      when there is a root key. */
  ghost predicate Settled(t: Tree) {
    && t.depth > 0 && t.nextLeaf <= Pow2(t.depth)
    && (t.encrypter.Some? <==> HasRootKey(t))
    && (t.encrypter.Some? ==> t.encrypter.value < Pow2(t.depth))
  }

  lemma RootBlanked(inner: map<Node, Store>, touched: set<nat>, i: nat, depth: nat)
    requires i in touched && i < Pow2(depth)
    ensures Root(depth) !in Blanked(inner, touched)
  {
    RootUnder(i, depth);
  }

  lemma PushLeafSettled(t: Tree, id: MemberId, pk: NodeKey)
    requires t.depth > 0 && t.nextLeaf <= Pow2(t.depth)
    ensures Settled(PushLeaf(t, id, pk))
  {
    var u := PushLeaf(t, id, pk);
    RootBlanked(t.inner, {t.nextLeaf}, t.nextLeaf, u.depth);
  }

  lemma RemoveLeafSettled(t: Tree, id: MemberId)
    requires Linked(t) && Settled(t) && id in t.ids
    ensures Settled(RemoveLeaf(t, id))
  {
    var l := t.ids[id];
    RootBlanked(t.inner, RemovedLeaves(t, l), l, t.depth);
  }

  lemma ApplyPathSettled(t: Tree, c: PathChange)
    requires Linked(t) && Settled(t)
    ensures Settled(ApplyPath(t, c))
  {
    hide MergePath, MergeKey;
    if c.leafId in t.ids {
      RootBlanked(t.inner, {t.ids[c.leafId]}, t.ids[c.leafId], t.depth);
    }
  }

  lemma ApplyOpSettled(t: Tree, op: Op)
    requires Linked(t) && Settled(t) && ApplyOp(t, op).Ok?
    ensures Settled(ApplyOp(t, op).value)
  {
    match op
    case Add(id, pk, _, _, _) => PushLeafSettled(t, id, Single(pk));
    case Remove(id, _, _, _) => RemoveLeafSettled(t, id);
    case Update(_, change, _) => ApplyPathSettled(t, change);
  }

  lemma {:induction false} PushAllSettled(t: Tree, ls: seq<LeafNode>)
    requires Settled(t)
    ensures Settled(PushAll(t, ls))
  {
    if ls != [] {
      PushAllSettled(t, ls[..|ls| - 1]);
      PushLeafSettled(PushAll(t, ls[..|ls| - 1]), ls[|ls| - 1].id, ls[|ls| - 1].pk);
    }
  }

  lemma CutSettled(t: Tree, m: nat)
    requires Settled(t) && m <= t.nextLeaf
    ensures Settled(Cut(t, m))
  {
    if m < t.nextLeaf {
      RootBlanked(t.inner, Range(m, t.nextLeaf), m, t.depth);
    }
  }

  lemma SortLeavesSettled(t: Tree, added: set<MemberId>, removed: set<(MemberId, nat)>)
    requires Settled(t) && forall i :: i in Slots(removed) ==> i < Pow2(t.depth)
    ensures Settled(SortLeaves(t, added, removed))
  {
    hide Pop, PushAll, SortById, LeavesFrom, Blanked, IdsFrom;
    var slots := Slots(removed);
    var t0 := BlankRemoved(t, slots);
    if slots != {} {
      var i :| i in slots;
      RootBlanked(t.inner, slots, i, t.depth);
    }
    var m := PopMeans(t0, added - RemovedIds(removed));
    CutSettled(t0, m);
    PushAllSettled(Cut(t0, m), SortById(LeavesFrom(t0.leaves, m, t0.nextLeaf)));
  }

  // ----- Running steps -----

  /** One step; sorting stops the run if a removed slot is occupied, as the code asserts, or
      out of bounds. */
  ghost function Perform(ops: map<Digest, Op>, t: Tree, c: Change): (r: Result<Tree>)
    requires Linked(t) && (c.Apply? ==> c.d in ops)
    ensures r.Ok? ==> Linked(r.value)
  {
    match c
    case Apply(d) => ApplyOp(t, ops[d])
    case Sort(added, removed) =>
      if forall i :: i in Slots(removed) ==> i < Pow2(t.depth) && i !in t.leaves
      then SortLeavesLinked(t, added, removed); Ok(SortLeaves(t, added, removed))
      else Err(AssertionFailed)
  }

  /** Steps from the empty tree, up to the first error. */
  ghost function RunSteps(ops: map<Digest, Op>, steps: seq<Change>): (r: Result<Tree>)
    requires Covered(ops, steps)
    ensures r.Ok? ==> Linked(r.value)
  {
    if steps == [] then Ok(EmptyTree())
    else
      var before := RunSteps(ops, steps[..|steps| - 1]);
      if before.Err? then before else Perform(ops, before.value, steps[|steps| - 1])
  }

  lemma RunStepsSnoc(ops: map<Digest, Op>, steps: seq<Change>, c: Change)
    requires Covered(ops, steps) && (c.Apply? ==> c.d in ops)
    ensures Covered(ops, steps + [c])
    ensures var before := RunSteps(ops, steps);
            RunSteps(ops, steps + [c]) == if before.Err? then before else Perform(ops, before.value, c)
  {
    assert (steps + [c])[..|steps|] == steps;
  }

  /** In every tree reached, whatever happened concurrently, there is a current encrypter
      exactly when there is a root key. */
  lemma {:induction false} RunStepsSettled(ops: map<Digest, Op>, steps: seq<Change>)
    requires Covered(ops, steps) && RunSteps(ops, steps).Ok?
    ensures Settled(RunSteps(ops, steps).value)
  {
    hide Settled, SortLeaves, ApplyOp;
    if steps == [] {
      EmptySettled();
    } else {
      var init, c := steps[..|steps| - 1], steps[|steps| - 1];
      RunStepsSettled(ops, init);
      var t := RunSteps(ops, init).value;
      if c.Apply? {
        ApplyOpSettled(t, ops[c.d]);
      } else {
        SortLeavesSettled(t, c.added, c.removed);
      }
    }
  }

  lemma EmptySettled()
    ensures Settled(EmptyTree())
  {
    assert Pow2(1) == 2;
  }

  // ----- Members and leaves -----

  /** From a tree in which ids and leaves are inverse, an operation leads to another one
      exactly unless it adds someone who is there already. */
  lemma OpStaysTidyIff(t: Tree, op: Op)
    requires Tidy(t) && ApplyOp(t, op).Ok?
    ensures Tidy(ApplyOp(t, op).value) <==> !(op.Add? && op.addedId in t.ids)
  {
    hide Blanked, Trim, MergePath, MergeKey, HasRootKey, PathStop;
    var u := ApplyOp(t, op).value;
    match op
    case Add(id, _, _, _, _) =>
      if id in t.ids {
        assert t.ids[id] in u.leaves && u.ids[id] == t.nextLeaf;
      }
    case Remove(id, _, _, _) =>
      forall i | i in u.leaves
        ensures u.leaves[i].id in u.ids && u.ids[u.leaves[i].id] == i
      {
        assert i in t.leaves;
      }
    case Update(_, c, _) =>
      assert u.ids == t.ids && u.leaves.Keys == t.leaves.Keys;
      assert forall i :: i in t.leaves ==> u.leaves[i].id == t.leaves[i].id;
  }

  /** Step `k` adds someone who is in the tree by then. */
  ghost predicate AddsPresent(ops: map<Digest, Op>, steps: seq<Change>, k: nat)
    requires Covered(ops, steps) && k < |steps|
  {
    && steps[k].Apply? && ops[steps[k].d].Add? && RunSteps(ops, steps[..k]).Ok?
    && ops[steps[k].d].addedId in RunSteps(ops, steps[..k]).value.ids
  }

  /** Ids and leaves are inverse after the first `k` steps. */
  ghost predicate TidyAt(ops: map<Digest, Op>, steps: seq<Change>, k: nat)
    requires Covered(ops, steps) && k <= |steps|
  {
    RunSteps(ops, steps[..k]).Ok? && Tidy(RunSteps(ops, steps[..k]).value)
  }

  /** In a run, ids and leaves are inverse all along if and only if nobody is added while
      present. */
  lemma StaysTidyIff(ops: map<Digest, Op>, steps: seq<Change>)
    requires Covered(ops, steps) && RunSteps(ops, steps).Ok?
    ensures (forall k :: 0 <= k <= |steps| ==> TidyAt(ops, steps, k))
            <==> forall k :: 0 <= k < |steps| ==> !AddsPresent(ops, steps, k)
  {
    hide TidyAt, AddsPresent, RunSteps, Covered;
    if forall k :: 0 <= k <= |steps| ==> TidyAt(ops, steps, k) {
      forall k | 0 <= k < |steps|
        ensures !AddsPresent(ops, steps, k)
      {
        assert TidyAt(ops, steps, k) && TidyAt(ops, steps, k + 1);
        NextTidyIff(ops, steps, k);
      }
    }
    if forall k :: 0 <= k < |steps| ==> !AddsPresent(ops, steps, k) {
      forall k | 0 <= k <= |steps|
        ensures TidyAt(ops, steps, k)
      {
        TidyUpTo(ops, steps, k);
      }
    }
  }

  lemma {:induction false} TidyUpTo(ops: map<Digest, Op>, steps: seq<Change>, k: nat)
    requires Covered(ops, steps) && RunSteps(ops, steps).Ok? && k <= |steps|
    requires forall j :: 0 <= j < |steps| ==> !AddsPresent(ops, steps, j)
    ensures TidyAt(ops, steps, k)
  {
    if k == 0 {
      assert steps[..0] == [];
    } else {
      hide TidyAt, AddsPresent, RunSteps, Covered;
      TidyUpTo(ops, steps, k - 1);
      NextTidyIff(ops, steps, k - 1);
    }
  }

  lemma NextTidyIff(ops: map<Digest, Op>, steps: seq<Change>, k: nat)
    requires Covered(ops, steps) && RunSteps(ops, steps).Ok? && k < |steps| && TidyAt(ops, steps, k)
    ensures TidyAt(ops, steps, k + 1) <==> !AddsPresent(ops, steps, k)
  {
    hide Tidy, SortLeaves, ApplyOp, RunSteps, Covered;
    var init, c := steps[..k], steps[k];
    assert steps[..k + 1] == init + [c];
    CoveredPrefix(ops, init, steps);
    CoveredPrefix(ops, init + [c], steps);
    CoveredInit(ops, init, c);
    RunStepsSnoc(ops, init, c);
    if RunSteps(ops, init + [c]).Err? {
      ErrorsStayLater(ops, init + [c], steps);
    } else if c.Apply? {
      OpStaysTidyIff(RunSteps(ops, init).value, ops[c.d]);
    } else {
      SortLeavesTidy(RunSteps(ops, init).value, c.added, c.removed);
    }
  }

  // ----- Well-formed trees -----

  /** What the code relies on: an add brings an absent id, and a path climbs from its own
      leaf. */
  ghost predicate Fair(ops: map<Digest, Op>, steps: seq<Change>)
    requires Covered(ops, steps)
  {
    steps == [] ||
    var init, c := steps[..|steps| - 1], steps[|steps| - 1];
    && Fair(ops, init)
    && (c.Apply? && RunSteps(ops, init).Ok? ==>
          && (ops[c.d].Add? ==> ops[c.d].addedId !in RunSteps(ops, init).value.ids)
          && (ops[c.d].Update? ==> Climbs(ops[c.d].change.path, ops[c.d].change.leafIdx)))
  }

  /** Every tree reached by adds, removals, updates and sorts in any order is well formed,
      once it has a member. */
  lemma {:induction false} RunStepsWF(ops: map<Digest, Op>, steps: seq<Change>)
    requires Covered(ops, steps) && Fair(ops, steps) && RunSteps(ops, steps).Ok?
    ensures var t := RunSteps(ops, steps).value; WF(t) || t == EmptyTree()
  {
    hide WF, SortLeaves;
    if steps != [] {
      var init, c := steps[..|steps| - 1], steps[|steps| - 1];
      RunStepsWF(ops, init);
      var t := RunSteps(ops, init).value;
      if c.Apply? {
        OpKeepsWF(t, ops[c.d]);
      } else if t == EmptyTree() {
        SortEmpty(c.added, c.removed);
      } else {
        SortLeavesWF(t, c.added, c.removed);
      }
    }
  }

  lemma OpKeepsWF(t: Tree, op: Op)
    requires (WF(t) || t == EmptyTree()) && Linked(t) && ApplyOp(t, op).Ok?
    requires (op.Add? ==> op.addedId !in t.ids) && (op.Update? ==> Climbs(op.change.path, op.change.leafIdx))
    ensures WF(ApplyOp(t, op).value) || ApplyOp(t, op).value == EmptyTree()
  {
    hide WF;
    match op
    case Add(id, pk, _, _, _) => PushLeafWF(t, id, Single(pk));
    case Remove(id, _, _, _) =>
      if t != EmptyTree() {
        RemoveLeafWF(t, id);
      }
    case Update(_, change, _) =>
      if t != EmptyTree() {
        ApplyPathWF(t, change);
      }
  }

  /** Sorting a tree without members does nothing. */
  lemma SortEmpty(added: set<MemberId>, removed: set<(MemberId, nat)>)
    ensures SortLeaves(EmptyTree(), added, removed) == EmptyTree()
  {
    var t := EmptyTree();
    assert t.leaves - Slots(removed) == t.leaves;
    assert Blanked(t.inner, Slots(removed)) == t.inner;
    assert BlankRemoved(t, Slots(removed)) == t;
    assert Pop(t, added - RemovedIds(removed)) == (t, []);
  }

  /** An error ends the run. */
  lemma {:induction false} ErrorsStay(ops: map<Digest, Op>, steps: seq<Change>, more: seq<Change>)
    requires Covered(ops, steps + more) && Covered(ops, steps) && RunSteps(ops, steps).Err?
    ensures RunSteps(ops, steps + more) == RunSteps(ops, steps)
  {
    if more == [] {
      assert steps + more == steps;
    } else {
      var init, c := more[..|more| - 1], more[|more| - 1];
      assert steps + more == (steps + init) + [c];
      assert forall x :: x in steps + init ==> x in steps + more;
      assert c in steps + more;
      ErrorsStay(ops, steps, init);
      RunStepsSnoc(ops, steps + init, c);
    }
  }

  lemma ErrorsStayLater(ops: map<Digest, Op>, steps: seq<Change>, longer: seq<Change>)
    requires steps <= longer && Covered(ops, longer) && Covered(ops, steps) && RunSteps(ops, steps).Err?
    ensures RunSteps(ops, longer) == RunSteps(ops, steps)
  {
    assert longer == steps + longer[|steps|..];
    ErrorsStay(ops, steps, longer[|steps|..]);
  }

  /** More operations in the graph do not change what the steps do. */
  lemma {:induction false} RunStepsExtends(ops: map<Digest, Op>, ops': map<Digest, Op>, steps: seq<Change>)
    requires Covered(ops, steps) && (forall d :: d in ops ==> d in ops' && ops'[d] == ops[d])
    ensures Covered(ops', steps) && RunSteps(ops', steps) == RunSteps(ops, steps)
  {
    if steps != [] {
      RunStepsExtends(ops, ops', steps[..|steps| - 1]);
    }
  }

  /** The operations applied, in order. */
  function Applied(steps: seq<Change>): seq<Digest> {
    if steps == [] then []
    else Applied(steps[..|steps| - 1]) + (var c := steps[|steps| - 1]; if c.Apply? then [c.d] else [])
  }

  lemma AppliedSnoc(steps: seq<Change>, c: Change)
    ensures Applied(steps + [c]) == Applied(steps) + if c.Apply? then [c.d] else []
  {
    assert (steps + [c])[..|steps|] == steps;
  }

  lemma {:induction false} AppliedIsCovered(ops: map<Digest, Op>, steps: seq<Change>)
    requires forall d :: d in Applied(steps) ==> d in ops
    ensures Covered(ops, steps)
  {
    if steps != [] {
      var init, c := steps[..|steps| - 1], steps[|steps| - 1];
      AppliedSnoc(init, c);
      assert steps == init + [c];
      assert forall d :: d in Applied(init) ==> d in Applied(steps);
      AppliedIsCovered(ops, init);
      assert c.Apply? ==> c.d in Applied(steps);
    }
  }

  // ----- Trees that reflect a graph -----

  /** The tree is the outcome of applying every operation of the graph exactly once, each
      after its predecessors. */
  ghost predicate Reflects(g: OpGraph, steps: seq<Change>, t: Tree) {
    && Listing(g.preds, {}, Applied(steps)) && ToSet(Applied(steps)) == g.ops.Keys
    && Covered(g.ops, steps) && RunSteps(g.ops, steps) == Ok(t)
  }

  /** Applying one more operation, and adding it to the graph. */
  lemma ReflectsStep(g: OpGraph, steps: seq<Change>, t: Tree, d: Digest, op: Op, external: Option<set<Digest>>)
    requires SoundGraph(g) && Reflects(g, steps, t) && MayAdd(g, d, op, external) && Linked(t) && ApplyOp(t, op).Ok?
    ensures Reflects(AddOp(g, d, op, external), steps + [Apply(d)], ApplyOp(t, op).value)
  {
    hide ApplyOp, SoundGraph, RunSteps, Applied, Listing;
    var g' := AddOp(g, d, op, external);
    RunStepsExtends(g.ops, g'.ops, steps);
    RunStepsSnoc(g'.ops, steps, Apply(d));
    AppliedSnoc(steps, Apply(d));
    AddedShape(g, d, op, external);
    ListingSnoc(g.preds, Applied(steps), d, op.preds);
    assert Applied(steps + [Apply(d)]) == Applied(steps) + [d];
    ToSetSnoc(Applied(steps), d);
  }

  lemma ToSetSnoc<T>(s: seq<T>, x: T)
    ensures ToSet(s + [x]) == ToSet(s) + {x}
  {}

  lemma AddedShape(g: OpGraph, d: Digest, op: Op, external: Option<set<Digest>>)
    requires MayAdd(g, d, op, external)
    ensures var g' := AddOp(g, d, op, external);
            && g'.ops == g.ops[d := op] && g'.preds == g.preds[d := op.preds] && d !in g.ops && op.preds <= g.ops.Keys
            && g.preds.Keys == g.ops.Keys
  {
    MayAddIsAdmissible(g, d, op, external);
  }

  lemma ListingSnoc(preds: Preds, r: seq<Digest>, d: Digest, ps: set<Digest>)
    requires Listing(preds, {}, r) && d !in preds && ps <= ToSet(r)
    ensures Listing(preds[d := ps], {}, r + [d])
  {
    var rs := r + [d];
    forall k | 0 <= k < |rs|
      ensures rs[k] in preds[d := ps] && preds[d := ps][rs[k]] <= {} + ToSet(rs[..k])
    {
      if k < |r| {
        assert rs[..k] == r[..k];
        assert r[k] in preds;
      } else {
        assert rs[..k] == r;
      }
    }
  }

  // ----- The steps of a replay -----

  predicate AllUpdates(ops: map<Digest, Op>, epoch: seq<Digest>)
    requires forall d :: d in epoch ==> d in ops
  {
    forall d :: d in epoch ==> ops[d].Update?
  }

  function AddedIn(ops: map<Digest, Op>, epoch: seq<Digest>): set<MemberId>
    requires forall d :: d in epoch ==> d in ops
  {
    set d | d in epoch && ops[d].Add? :: ops[d].addedId
  }

  function RemovedIn(ops: map<Digest, Op>, epoch: seq<Digest>): set<(MemberId, nat)>
    requires forall d :: d in epoch ==> d in ops
  {
    set d | d in epoch && ops[d].Remove? :: (ops[d].id, ops[d].leafIdx)
  }

  function ApplyEach(epoch: seq<Digest>): seq<Change> {
    if epoch == [] then [] else ApplyEach(epoch[..|epoch| - 1]) + [Apply(epoch[|epoch| - 1])]
  }

  lemma EachSnoc(epoch: seq<Digest>, j: nat)
    requires j < |epoch|
    ensures ApplyEach(epoch[..j + 1]) == ApplyEach(epoch[..j]) + [Apply(epoch[j])]
  {
    assert epoch[..j + 1][..j] == epoch[..j];
  }

  lemma {:induction false} EachPrefix(epoch: seq<Digest>, j: nat)
    requires j <= |epoch|
    ensures ApplyEach(epoch[..j]) <= ApplyEach(epoch)
  {
    if j == |epoch| {
      assert epoch[..j] == epoch;
    } else {
      var init := epoch[..|epoch| - 1];
      EachPrefix(init, j);
      assert init[..j] == epoch[..j];
    }
  }

  lemma {:induction false} EachElement(epoch: seq<Digest>, c: Change)
    requires c in ApplyEach(epoch)
    ensures c.Apply? && c.d in epoch
  {
    if c in ApplyEach(epoch[..|epoch| - 1]) {
      EachElement(epoch[..|epoch| - 1], c);
    }
  }

  /** An epoch of several operations with a membership change among them is followed by a
      sort. */
  function EpochSteps(ops: map<Digest, Op>, epoch: seq<Digest>): seq<Change>
    requires forall d :: d in epoch ==> d in ops
  {
    if |epoch| == 1 || AllUpdates(ops, epoch) then ApplyEach(epoch)
    else ApplyEach(epoch) + [Sort(AddedIn(ops, epoch), RemovedIn(ops, epoch))]
  }

  /** `apply_epochs`. */
  function ReplaySteps(ops: map<Digest, Op>, epochs: seq<seq<Digest>>): seq<Change>
    requires forall d :: d in Flat(epochs) ==> d in ops
  {
    if epochs == [] then []
    else
      FlatInit(epochs);
      ReplaySteps(ops, epochs[..|epochs| - 1]) + EpochSteps(ops, epochs[|epochs| - 1])
  }

  lemma FlatInit(epochs: seq<seq<Digest>>)
    requires epochs != []
    ensures Flat(epochs) == Flat(epochs[..|epochs| - 1]) + epochs[|epochs| - 1]
  {
    var init, last := epochs[..|epochs| - 1], epochs[|epochs| - 1];
    assert epochs == init + [last];
    FlatAppend(init, [last]);
    assert Flat([last]) == last + Flat([last][1..]) == last;
  }

  lemma {:induction false} AppliedEach(steps: seq<Change>, epoch: seq<Digest>)
    ensures Applied(steps + ApplyEach(epoch)) == Applied(steps) + epoch
  {
    hide Applied;
    if epoch == [] {
      assert steps + [] == steps;
    } else {
      var init, last := epoch[..|epoch| - 1], epoch[|epoch| - 1];
      AppliedEach(steps, init);
      AppliedSnoc(steps + ApplyEach(init), Apply(last));
      assert ApplyEach(epoch) == ApplyEach(init) + [Apply(last)];
      hide ApplyEach;
      assert steps + ApplyEach(epoch) == steps + ApplyEach(init) + [Apply(last)];
      assert epoch == init + [last];
      assert Applied(steps) + init + [last] == Applied(steps) + epoch;
    }
  }

  /** A replay applies the operations in the order of the sorted graph. */
  lemma {:induction false} ReplayApplies(ops: map<Digest, Op>, epochs: seq<seq<Digest>>)
    requires forall d :: d in Flat(epochs) ==> d in ops
    ensures Applied(ReplaySteps(ops, epochs)) == Flat(epochs)
  {
    if epochs != [] {
      var init, last := epochs[..|epochs| - 1], epochs[|epochs| - 1];
      FlatInit(epochs);
      ReplayApplies(ops, init);
      var steps := ReplaySteps(ops, init);
      AppliedEach(steps, last);
      if !(|last| == 1 || AllUpdates(ops, last)) {
        var c := Sort(AddedIn(ops, last), RemovedIn(ops, last));
        AppliedSnoc(steps + ApplyEach(last), c);
        assert steps + (ApplyEach(last) + [c]) == steps + ApplyEach(last) + [c];
      }
    }
  }

  lemma CoveredInit(ops: map<Digest, Op>, steps: seq<Change>, c: Change)
    requires Covered(ops, steps + [c])
    ensures Covered(ops, steps) && (c.Apply? ==> c.d in ops)
  {
    assert c in steps + [c];
    assert forall x :: x in steps ==> x in steps + [c];
  }

  lemma CoveredPrefix(ops: map<Digest, Op>, steps: seq<Change>, longer: seq<Change>)
    requires steps <= longer && Covered(ops, longer)
    ensures Covered(ops, steps)
  {
    assert forall x :: x in steps ==> x in longer;
  }

  lemma EachIsCovered(ops: map<Digest, Op>, steps: seq<Change>, epoch: seq<Digest>)
    requires Covered(ops, steps) && forall d :: d in epoch ==> d in ops
    ensures Covered(ops, steps + ApplyEach(epoch))
  {
    hide ApplyEach;
    forall c | c in steps + ApplyEach(epoch) && c.Apply?
      ensures c.d in ops
    {
      if c !in steps {
        EachElement(epoch, c);
      }
    }
  }

  lemma EachSplit(epoch: seq<Digest>, k: nat)
    requires k <= |epoch|
    ensures ApplyEach(epoch) == ApplyEach(epoch[..k]) + ApplyEach(epoch[k..])
  {
    assert epoch == epoch[..k] + epoch[k..];
    EachAppend(epoch[..k], epoch[k..]);
  }

  lemma {:induction false} EachAppend(a: seq<Digest>, b: seq<Digest>)
    ensures ApplyEach(a + b) == ApplyEach(a) + ApplyEach(b)
  {
    if b == [] {
      assert a + b == a;
    } else {
      var init, last := b[..|b| - 1], b[|b| - 1];
      EachAppend(a, init);
      assert a + b == (a + init) + [last];
      assert (a + b)[..|a + b| - 1] == a + init;
    }
  }
}
