/** What the operations of a replica do, as relations between the states before and after.
    Class Cgka implements them. */
module ReplicaSteps {
  import opened Seqs
  import opened Results
  import opened Nodes
  import opened Crypto
  import opened KeyTree
  import opened WellFormed
  import opened Operations
  import opened Normalise
  import opened Epochs
  import opened Graph
  import opened OperationGraph
  import opened Replay

  // ----- Graphs with one root -----

  /** The initial add is the only operation without predecessors. */
  ghost predicate Rooted(g: OpGraph, root: Digest) {
    && root in g.ops && g.ops[root].preds == {}
    && forall d {:trigger HasPreds(g, d)} :: d in g.ops && d != root ==> HasPreds(g, d)
  }

  ghost predicate HasPreds(g: OpGraph, d: Digest)
    requires d in g.ops
  {
    g.ops[d].preds != {}
  }

  lemma RootedIsSingle(g: OpGraph, root: Digest)
    requires SoundGraph(g) && Rooted(g, root)
    ensures SingleRoot(g.preds) && g.heads <= g.ops.Keys && g.heads != {} && Down(g.preds, g.ops.Keys)
  {
    hide IsPast, AddsInPast, Ends, AddEnds, StatedPreds;
    var past :| IsPast(g.preds, past) && AddsInPast(g.ops, past);
    WholePreds(g);
    HeadsKnown(g);
    HeadsCover(g, past, root);
    AllIsDown(g.preds, past);
    forall d, e | d in g.preds && e in g.preds && g.preds[d] == {} && g.preds[e] == {}
      ensures d == e
    {
      assert d != root ==> HasPreds(g, d);
      assert e != root ==> HasPreds(g, e);
    }
  }

  lemma AllIsDown(preds: Preds, past: Preds)
    requires IsPast(preds, past)
    ensures Down(preds, preds.Keys)
  {}

  lemma HeadsReachAll(g: OpGraph, past: Preds)
    requires SoundGraph(g) && IsPast(g.preds, past)
    ensures Ancestors(past, g.heads) == g.ops.Keys
  {
    hide IsPast, AddsInPast, Ends, AddEnds, StatedPreds;
    HeadsKnown(g);
    WholePreds(g);
    PastKeys(g.preds, past);
    forall z | z in g.ops
      ensures z in Ancestors(past, g.heads)
    {
      HeadsCover(g, past, z);
    }
    forall z | z in Ancestors(past, g.heads)
      ensures z in g.ops
    {
      if z !in g.heads {
        var h :| h in g.heads && h in past && z in past[h];
        PastTransitive(g.preds, past, h, z);
      }
    }
  }

  // ----- Parts of a graph -----

  ghost function SubOps(ops: map<Digest, Op>, p: set<Digest>): map<Digest, Op> {
    map d | d in ops && d in p :: ops[d]
  }

  ghost predicate PartOf(g: OpGraph, whole: OpGraph, p: set<Digest>) {
    SoundGraph(g) && SoundGraph(whole) && g.ops == SubOps(whole.ops, p) && p <= whole.ops.Keys
  }

  /** The pasts in a part are those in the whole. */
  lemma {:induction false} PartPast(g: OpGraph, whole: OpGraph, p: set<Digest>, past: Preds, past': Preds, d: Digest)
    requires PartOf(g, whole, p) && IsPast(whole.preds, past) && IsPast(g.preds, past') && d in g.ops
    ensures d in past && d in past' && past[d] == past'[d]
    decreases |past[d]|
  {
    assert d in g.preds && d in whole.preds && g.preds[d] == whole.preds[d];
    forall q | q in g.preds[d]
      ensures q in past && q in past' && past[q] == past'[q]
    {
      PredIsSmaller(whole.preds, past, d, q);
      PartPast(g, whole, p, past, past', q);
    }
    SameBehind(past, past', g.preds[d]);
  }

  lemma SameBehind(past: Preds, past': Preds, ps: set<Digest>)
    requires forall q :: q in ps ==> q in past && q in past' && past[q] == past'[q]
    ensures Behind(past, ps) == Behind(past', ps)
  {
    forall q
      ensures q in Behind(past, ps) <==> q in Behind(past', ps)
    {
      if q in Behind(past, ps) {
        var p :| p in ps && p in past && q in past[p];
        assert p in past' && q in past'[p];
      }
      if q in Behind(past', ps) {
        var p :| p in ps && p in past' && q in past'[p];
        assert p in past && q in past[p];
      }
    }
  }

  /** An operation of the whole whose predecessors are in the part may be added to it. */
  lemma PartAdmits(g: OpGraph, whole: OpGraph, p: set<Digest>, d: Digest)
    requires PartOf(g, whole, p) && d in whole.ops && d !in p && whole.ops[d].preds <= p
    ensures Admissible(g, d, whole.ops[d])
  {
    hide SoundGraph, AddsInPast;
    var op := whole.ops[d];
    var past := PastOf(whole);
    WholePreds(whole);
    assert AddInPast(whole.ops, past, d) by {
      AddNames(whole.ops, past, d);
    }
    forall past' | op.Add? && IsPast(g.preds, past')
      ensures op.addPreds <= op.preds + Behind(past', op.preds)
    {
      PartBehind(g, whole, p, past, past', op.preds);
    }
    PartKeys(g, whole, p);
  }

  lemma PastOf(g: OpGraph) returns (past: Preds)
    requires SoundGraph(g)
    ensures IsPast(g.preds, past) && AddsInPast(g.ops, past)
  {
    past :| IsPast(g.preds, past) && AddsInPast(g.ops, past);
  }

  lemma AddNames(ops: map<Digest, Op>, past: Preds, d: Digest)
    requires AddsInPast(ops, past) && d in ops
    ensures AddInPast(ops, past, d)
  {}

  lemma PartKeys(g: OpGraph, whole: OpGraph, p: set<Digest>)
    requires PartOf(g, whole, p)
    ensures g.ops.Keys == p
  {}

  lemma PartBehind(g: OpGraph, whole: OpGraph, p: set<Digest>, past: Preds, past': Preds, ps: set<Digest>)
    requires PartOf(g, whole, p) && ps <= p && IsPast(whole.preds, past) && IsPast(g.preds, past')
    ensures Behind(past', ps) == Behind(past, ps)
  {
    hide IsPast, SoundGraph;
    forall q | q in ps
      ensures q in past && q in past' && past[q] == past'[q]
    {
      PartPast(g, whole, p, past, past', q);
    }
    SameBehind(past, past', ps);
  }

  lemma PartGrows(g: OpGraph, whole: OpGraph, p: set<Digest>, d: Digest)
    requires PartOf(g, whole, p) && d in whole.ops && d !in p && whole.ops[d].preds <= p
    ensures var op := whole.ops[d];
            MayAdd(g, d, op, Some(op.preds)) && PartOf(AddOp(g, d, op, Some(op.preds)), whole, p + {d})
  {
    hide SoundGraph, Admissible;
    var op := whole.ops[d];
    PartAdmits(g, whole, p, d);
    AddOpSound(g, d, op, Some(op.preds));
    assert SubOps(whole.ops, p)[d := op] == SubOps(whole.ops, p + {d});
  }

  lemma WholeIsWhole(g: OpGraph, whole: OpGraph)
    requires PartOf(g, whole, whole.ops.Keys)
    ensures g == whole
  {
    assert g.ops == whole.ops;
    GraphIsFunctionOfOps(g, whole);
  }

  lemma ListingPrefix(preds: Preds, a: seq<Digest>, b: seq<Digest>)
    requires Listing(preds, {}, a + b)
    ensures Listing(preds, {}, a)
    ensures b != [] ==> b[0] !in ToSet(a) && b[0] in preds && preds[b[0]] <= ToSet(a)
  {
    var r := a + b;
    forall k | 0 <= k < |a|
      ensures a[k] in preds && preds[a[k]] <= {} + ToSet(a[..k])
    {
      assert r[k] == a[k] && r[..k] == a[..k];
    }
    if b != [] {
      assert r[|a|] == b[0] && r[..|a|] == a;
      assert {} + ToSet(a) == ToSet(a);
    }
  }

  // ----- The initial state -----

  function InitAdd(id: MemberId, pk: ShareKey): Op {
    Add(id, pk, 0, {}, {})
  }

  // ----- Steps of a replica -----

  /** What a replica holds. */
  datatype State = State(graph: OpGraph, tree: Tree, pending: bool, owner: MemberId, sks: ShareKeyMap)

  ghost predicate Sensible(s: State) {
    SoundGraph(s.graph) && Down(s.graph.preds, s.graph.ops.Keys) && Linked(s.tree)
  }

  /** `should_replay`. */
  ghost predicate MustReplay(s: State) {
    s.graph.heads != {} && (s.pending || |s.graph.heads| != 1)
  }

  /** The tree that the next operation in causal order is applied to. */
  ghost function Base(s: State): (r: Result<Tree>)
    requires Sensible(s)
    ensures r.Ok? ==> Linked(r.value)
  {
    if MustReplay(s) then OutcomeFor(s.graph, s.graph.ops.Keys) else Ok(s.tree)
  }

  /** `merge_concurrent_operation`. A concurrent update is applied on arrival, a concurrent
      membership change and whatever is concurrent with it are deferred, and an operation
      that follows everything first resolves what is outstanding. */
  ghost predicate Merges(s: State, d: Digest, op: Op, s': State, r: Result<bool>)
    requires Sensible(s)
  {
    && s'.owner == s.owner && s'.sks == s.sks
    && if d in s.graph.ops then r == Ok(false) && s' == s
       else if !(op.preds <= s.graph.ops.Keys) then r == Err(OutOfOrderOperation) && s' == s
       else if !(s.graph.heads <= op.preds) && (s.pending || IsMembership(op)) then
         && r == Ok(true) && s'.graph == AddOp(s.graph, d, op, Some(op.preds))
         && s'.pending && s'.tree == s.tree
       else if !(s.graph.heads <= op.preds) then
         var after := ApplyOp(s.tree, op);
         if after.Err? then r == Err(after.error) && s' == s
         else
           && r == Ok(true) && s'.graph == AddOp(s.graph, d, op, Some(op.preds))
           && !s'.pending && s'.tree == after.value
       else
         var base := Base(s);
         if base.Err? then r == Err(base.error) && s' == s
         else
           var after := ApplyOp(base.value, op);
           && !s'.pending
           && if after.Err? then r == Err(after.error) && s'.tree == base.value && s'.graph == s.graph
              else r == Ok(true) && s'.tree == after.value && s'.graph == AddOp(s.graph, d, op, Some(op.preds))
  }

  /** `add`. */
  ghost predicate AddsMember(s: State, id: MemberId, pk: ShareKey, d: Digest, s': State, r: Result<Option<Op>>)
    requires Sensible(s)
  {
    && s'.owner == s.owner && s'.sks == s.sks
    && if id in s.tree.ids then r == Ok(None) && s' == s
       else
         var base := Base(s);
         if base.Err? then r == Err(base.error) && s' == s
         else
           var op := Add(id, pk, base.value.nextLeaf, s.graph.heads, s.graph.addHeads);
           && r == Ok(Some(op)) && !s'.pending && ApplyOp(base.value, op) == Ok(s'.tree)
           && s'.graph == AddOp(s.graph, d, op, None)
  }

  /** `remove`. */
  ghost predicate RemovesMember(s: State, id: MemberId, d: Digest, s': State, r: Result<Option<Op>>)
    requires Sensible(s)
  {
    && s'.owner == s.owner && s'.sks == s.sks
    && if id !in s.tree.ids then r == Ok(None) && s' == s
       else
         var base := Base(s);
         if base.Err? then r == Err(base.error) && s' == s
         else
           var t := base.value;
           && !s'.pending
           && if RemoveId(t, id).Err? then r == Err(RemoveId(t, id).error) && s'.tree == t && s'.graph == s.graph
              else
                && id in t.ids
                && var op := Remove(id, t.ids[id], PathKeys(t, t.ids[id], t.depth), s.graph.heads);
                && r == Ok(Some(op)) && ApplyOp(t, op) == Ok(s'.tree) && s'.graph == AddOp(s.graph, d, op, None)
  }

  /** `update`: the new root secret and the operation to send. When a leaf with conflicting
      keys stands in the way the code panics. */
  ghost predicate UpdatesOwn(s: State, sk: Secret, draw: nat -> Secret, d: Digest, s': State, r: Result<(Secret, Op)>)
    requires Sensible(s)
  {
    && s'.owner == s.owner
    && var base := Base(s);
       if base.Err? then r == Err(base.error) && s' == s
       else
         var t := base.value;
         && !s'.pending && s'.sks == s.sks[ShareKey(sk) := sk]
         && if s.owner !in t.ids then r == Err(IdentifierNotFound) && s'.tree == t && s'.graph == s.graph
            else if !CanEncrypt(t, t.ids[s.owner]) then
              r == Err(ConflictingLeaf) && s'.tree == t && s'.graph == s.graph
            else
              && t.ids[s.owner] in t.leaves
              && var op := Update(s.owner, EncryptedChange(t, s.owner, sk, draw), s.graph.heads);
              && r == Ok((RatchetN(sk, t.depth), op))
              && ApplyOp(t, op) == Ok(s'.tree) && s'.tree == EncryptedTree(t, s.owner, sk, draw)
              && s'.graph == AddOp(s.graph, d, op, None)
  }

  /** `has_pcs_key`. */
  ghost predicate HasKey(s: State) {
    HasRootKey(s.tree) && |s.graph.heads| == 1 && |s.graph.addHeads| < 2
  }

  /** `pcs_key_from_tree_root`. */
  ghost predicate ReadsKey(s: State, s': State, r: Result<Secret>) {
    && TreeReads(s.tree, s.owner)
    && (r, s'.sks) == DecryptTreeSecret(s.tree, s.owner, s.sks)
    && s' == s.(sks := s'.sks)
  }

  lemma StartEpoch(steps: seq<Change>, done: seq<Digest>, epoch: seq<Digest>)
    ensures done + epoch[..0] == done && steps + ApplyEach(epoch[..0]) == steps
  {}

  lemma MembershipSnoc(ops: map<Digest, Op>, epoch: seq<Digest>, j: nat)
    requires j < |epoch| && forall d :: d in epoch ==> d in ops
    ensures var op := ops[epoch[j]];
            && AddedIn(ops, epoch[..j + 1]) == AddedIn(ops, epoch[..j]) + (if op.Add? then {op.addedId} else {})
            && RemovedIn(ops, epoch[..j + 1])
               == RemovedIn(ops, epoch[..j]) + (if op.Remove? then {(op.id, op.leafIdx)} else {})
  {
    assert epoch[..j + 1] == epoch[..j] + [epoch[j]];
  }

  /** The removed slots are inside the tree and blank. */
  predicate SlotsFree(t: Tree, removed: set<(MemberId, nat)>) {
    forall x :: x in removed ==> x.1 < Pow2(t.depth) && x.1 !in t.leaves
  }

  lemma SlotsAreFree(t: Tree, removed: set<(MemberId, nat)>)
    ensures SlotsFree(t, removed) <==> forall i :: i in Slots(removed) ==> i < Pow2(t.depth) && i !in t.leaves
  {
    forall x | x in removed
      ensures x.1 in Slots(removed)
    {}
  }

  lemma SortReflects(g: OpGraph, steps: seq<Change>, t: Tree, added: set<MemberId>, removed: set<(MemberId, nat)>)
    requires Reflects(g, steps, t) && Linked(t) && SlotsFree(t, removed)
    ensures forall i :: i in Slots(removed) ==> i < Pow2(t.depth) && i !in t.leaves
    ensures Reflects(g, steps + [Sort(added, removed)], SortLeaves(t, added, removed))
  {
    hide Listing, RunSteps, SortLeaves;
    SlotsAreFree(t, removed);
    AppliedSnoc(steps, Sort(added, removed));
    assert Applied(steps) + [] == Applied(steps);
    RunStepsSnoc(g.ops, steps, Sort(added, removed));
  }

  /** The sort succeeds in the replay exactly when it does here. */
  lemma SortOutcome(g: OpGraph, whole: OpGraph, p: set<Digest>, steps: seq<Change>, t: Tree, added: set<MemberId>,
                    removed: set<(MemberId, nat)>)
    requires PartOf(g, whole, p) && Reflects(g, steps, t) && Linked(t)
    ensures Covered(whole.ops, steps + [Sort(added, removed)])
    ensures !SlotsFree(t, removed) ==> RunSteps(whole.ops, steps + [Sort(added, removed)]) == Err(AssertionFailed)
  {
    hide Listing, RunSteps, SortLeaves, SoundGraph;
    SlotsAreFree(t, removed);
    RunStepsExtends(g.ops, whole.ops, steps);
    RunStepsSnoc(whole.ops, steps, Sort(added, removed));
  }

  lemma EpochFails(ops: map<Digest, Op>, steps: seq<Change>, epoch: seq<Digest>)
    requires Covered(ops, steps + ApplyEach(epoch)) && RunSteps(ops, steps + ApplyEach(epoch)).Err?
    requires forall d :: d in epoch ==> d in ops
    ensures Covered(ops, steps + EpochSteps(ops, epoch))
    ensures RunSteps(ops, steps + EpochSteps(ops, epoch)) == RunSteps(ops, steps + ApplyEach(epoch))
  {
    hide ApplyEach, RunSteps;
    if !(|epoch| == 1 || AllUpdates(ops, epoch)) {
      var c := Sort(AddedIn(ops, epoch), RemovedIn(ops, epoch));
      assert steps + EpochSteps(ops, epoch) == steps + ApplyEach(epoch) + [c];
      RunStepsSnoc(ops, steps + ApplyEach(epoch), c);
    }
  }

  lemma HeadsKnown(g: OpGraph)
    requires SoundGraph(g)
    ensures g.heads <= g.ops.Keys
  {}

  /** A concurrent operation leaves another head beside it. */
  lemma StillTwoHeads(g: OpGraph, d: Digest, op: Op)
    requires d !in g.ops && !(g.heads <= op.preds) && g.heads <= g.ops.Keys
    ensures |AddOp(g, d, op, Some(op.preds)).heads| >= 2
  {
    var h :| h in g.heads && h !in op.preds;
    SubsetCount({h, d}, AddOp(g, d, op, Some(op.preds)).heads);
  }

  /** What decryption takes for granted of a tree. */
  ghost predicate TreeReads(t: Tree, id: MemberId) {
    && (id in t.ids ==> t.ids[id] in t.leaves && t.ids[id] < Pow2(t.depth))
    && (HasRootKey(t) ==> t.encrypter.Some?)
  }

  /** What replaying the ancestors `a` of some operations gives. */
  ghost function OutcomeFor(g: OpGraph, a: set<Digest>): (r: Result<Tree>)
    requires SoundGraph(g) && Down(g.preds, a) && a <= g.ops.Keys
    ensures r.Ok? ==> Linked(r.value)
  {
    AncestorsCovered(g, a);
    RunSteps(g.ops, ReplaySteps(g.ops, EpochsOf(g.preds, a)))
  }

  lemma AncestorsCovered(g: OpGraph, a: set<Digest>)
    requires SoundGraph(g) && Down(g.preds, a) && a <= g.ops.Keys
    ensures forall d :: d in Flat(EpochsOf(g.preds, a)) ==> d in g.ops
    ensures Covered(g.ops, ReplaySteps(g.ops, EpochsOf(g.preds, a)))
  {
    hide Listing, EpochsOf, ReplaySteps, Covered;
    var past :| IsPast(g.preds, past) && AddsInPast(g.ops, past);
    EpochsAreExact(g.preds, past, a);
    var flat := Flat(EpochsOf(g.preds, a));
    forall d | d in flat
      ensures d in g.ops
    {
      assert d in {} + ToSet(flat);
    }
    ReplayIsCovered(g.ops, EpochsOf(g.preds, a));
  }

  /** The ancestors of an operation do not depend on how its past is written down. */
  lemma SamePastsOnly(g: OpGraph, past: Preds, d: Digest)
    requires SoundGraph(g) && IsPast(g.preds, past) && d in g.ops
    ensures Down(g.preds, Ancestors(past, {d})) && Ancestors(past, {d}) <= g.ops.Keys
    ensures forall past' :: IsPast(g.preds, past') ==> Ancestors(past', {d}) == Ancestors(past, {d})
  {
    hide IsPast, Ancestors;
    WholePreds(g);
    AncestorsOfOne(g.preds, past, d);
    forall past' | IsPast(g.preds, past')
      ensures Ancestors(past', {d}) == Ancestors(past, {d})
    {
      PastUnique(g.preds, past, past', d);
      AncestorsOfOne(g.preds, past', d);
    }
  }

  lemma AncestorsOfOne(preds: Preds, past: Preds, d: Digest)
    requires IsPast(preds, past) && d in preds
    ensures d in past && Ancestors(past, {d}) == {d} + past[d] && Down(preds, Ancestors(past, {d}))
  {
    assert Behind(past, {d}) == past[d];
    forall x | x in {d} + past[d]
      ensures x in preds && preds[x] <= {d} + past[d]
    {
      if x != d {
        PastTransitive(preds, past, d, x);
      }
    }
  }

  lemma TwoHeads(heads: set<Digest>)
    ensures heads != {} && |heads| != 1 ==> |heads| >= 2
  {}

  // ----- Steps of a replay -----

  lemma FlatOne(e: seq<Digest>)
    ensures Flat([e]) == e
  {
    assert Flat([e]) == e + Flat([e][1..]);
  }

  lemma FirstReplayed(ops: map<Digest, Op>, epochs: seq<seq<Digest>>, root: Digest)
    requires epochs != [] && epochs[0] == [root] && forall d :: d in Flat(epochs) ==> d in ops
    ensures Flat(epochs[..1]) == [root] && root in ops && ToSet([root]) == {root}
    ensures ReplaySteps(ops, epochs[..1]) == [Apply(root)]
  {
    var first := epochs[..1];
    assert first == [[root]] && first[..0] == [];
    FlatOne([root]);
    assert root in Flat(epochs);
    assert ReplaySteps(ops, []) == [];
    assert ApplyEach([root]) == ApplyEach([]) + [Apply(root)];
    assert ReplaySteps(ops, first) == ReplaySteps(ops, first[..0]) + EpochSteps(ops, [root]);
  }

  lemma FlatUpTo(epochs: seq<seq<Digest>>, k: nat)
    requires k < |epochs|
    ensures Flat(epochs[..k + 1]) == Flat(epochs[..k]) + epochs[k]
    ensures Flat(epochs) == Flat(epochs[..k + 1]) + Flat(epochs[k + 1..])
  {
    FlatInit(epochs[..k + 1]);
    assert epochs[..k + 1][..k] == epochs[..k];
    FlatAppend(epochs[..k + 1], epochs[k + 1..]);
    assert epochs == epochs[..k + 1] + epochs[k + 1..];
  }

  lemma NextReplayed(ops: map<Digest, Op>, preds: Preds, epochs: seq<seq<Digest>>, k: nat)
    requires k < |epochs| && (forall d :: d in Flat(epochs) ==> d in ops) && Listing(preds, {}, Flat(epochs))
    ensures Listing(preds, {}, Flat(epochs[..k]) + epochs[k]) && Flat(epochs[..k + 1]) == Flat(epochs[..k]) + epochs[k]
    ensures (forall d :: d in Flat(epochs[..k]) ==> d in ops) && (forall d :: d in epochs[k] ==> d in ops)
    ensures forall d :: d in Flat(epochs[..k + 1]) ==> d in ops
    ensures ReplaySteps(ops, epochs[..k + 1]) == ReplaySteps(ops, epochs[..k]) + EpochSteps(ops, epochs[k])
  {
    hide Listing, Flat, EpochSteps;
    FlatUpTo(epochs, k);
    ListingPrefix(preds, Flat(epochs[..k + 1]), Flat(epochs[k + 1..]));
    forall d | d in Flat(epochs[..k + 1])
      ensures d in ops
    {
      assert d in Flat(epochs);
    }
    assert epochs[..k + 1][..k] == epochs[..k];
  }

  lemma ReplayIsCovered(ops: map<Digest, Op>, epochs: seq<seq<Digest>>)
    requires forall d :: d in Flat(epochs) ==> d in ops
    ensures Covered(ops, ReplaySteps(ops, epochs))
  {
    ReplayApplies(ops, epochs);
    AppliedIsCovered(ops, ReplaySteps(ops, epochs));
  }

  lemma {:induction false} ReplayPrefix(ops: map<Digest, Op>, epochs: seq<seq<Digest>>, k: nat)
    requires k <= |epochs| && (forall d :: d in Flat(epochs) ==> d in ops) &&
             (forall d :: d in Flat(epochs[..k]) ==> d in ops)
    ensures ReplaySteps(ops, epochs[..k]) <= ReplaySteps(ops, epochs)
    decreases |epochs|
  {
    hide EpochSteps;
    if k == |epochs| {
      assert epochs[..k] == epochs;
    } else {
      var init := epochs[..|epochs| - 1];
      FlatInit(epochs);
      assert init[..k] == epochs[..k];
      ReplayPrefix(ops, init, k);
    }
  }

  lemma ReplayFails(ops: map<Digest, Op>, epochs: seq<seq<Digest>>, k: nat)
    requires k <= |epochs| && (forall d :: d in Flat(epochs) ==> d in ops) &&
             (forall d :: d in Flat(epochs[..k]) ==> d in ops)
    requires Covered(ops, ReplaySteps(ops, epochs[..k])) && RunSteps(ops, ReplaySteps(ops, epochs[..k])).Err?
    ensures Covered(ops, ReplaySteps(ops, epochs))
    ensures RunSteps(ops, ReplaySteps(ops, epochs)) == RunSteps(ops, ReplaySteps(ops, epochs[..k]))
  {
    hide RunSteps, ReplaySteps;
    ReplayIsCovered(ops, epochs);
    ReplayPrefix(ops, epochs, k);
    ErrorsStayLater(ops, ReplaySteps(ops, epochs[..k]), ReplaySteps(ops, epochs));
  }

  /** The initial add is the first epoch. */
  lemma FirstEpoch(preds: Preds, past: Preds, a: set<Digest>, root: Digest)
    requires IsPast(preds, past) && SingleRoot(preds) && root in preds && preds[root] == {} && Down(preds, a) && a != {}
    ensures EpochsOf(preds, a) != [] && EpochsOf(preds, a)[0] == [root]
  {
    hide IsPast, SingleRoot, EpochsOf, Ready, CutFrom;
    FirstReady(preds, past, a, root);
    CutAtRoot(preds, a, root);
  }

  lemma FirstReady(preds: Preds, past: Preds, a: set<Digest>, root: Digest)
    requires IsPast(preds, past) && SingleRoot(preds) && root in preds && preds[root] == {} && Down(preds, a) && a != {}
    ensures root in a && Ready(preds, a, {}) == {root}
  {
    hide IsPast;
    var y :| y in a;
    if y != root {
      RootIsPast(preds, past, root, y);
      DownHoldsPast(preds, past, a, y);
    }
  }

  lemma CutAtRoot(preds: Preds, a: set<Digest>, root: Digest)
    requires Down(preds, a) && root in a && Ready(preds, a, {}) == {root}
    ensures EpochsOf(preds, a) != [] && EpochsOf(preds, a)[0] == [root]
  {
    hide Open, Ready, Down;
    assert {} + {root} == {root};
    SortedSingle(root);
    OpenIsTaken(preds, a, root);
    var rest := CutFrom(preds, a, {root}, []);
    assert CutFrom(preds, a, {}, []) == Flush([]) + [[root]] + rest;
  }

  lemma OpenIsTaken(preds: Preds, a: set<Digest>, root: Digest)
    requires Down(preds, a) && root in a
    ensures |Open(preds, a, {root})| <= 1
  {
    AtMostOne(Open(preds, a, {root}), root);
  }

  lemma EpochsListAll(whole: OpGraph, past: Preds, a: set<Digest>, root: Digest)
    requires SoundGraph(whole) && Rooted(whole, root) && IsPast(whole.preds, past) && Down(whole.preds, a) && a != {}
    ensures var epochs := EpochsOf(whole.preds, a);
            && Listing(whole.preds, {}, Flat(epochs)) && ToSet(Flat(epochs)) == a
            && (forall d :: d in Flat(epochs) ==> d in whole.ops) && epochs != [] && epochs[0] == [root]
  {
    hide Listing, EpochsOf, IsPast;
    RootedIsSingle(whole, root);
    FirstEpoch(whole.preds, past, a, root);
    EpochsAreExact(whole.preds, past, a);
    var flat := Flat(EpochsOf(whole.preds, a));
    assert {} + ToSet(flat) == ToSet(flat);
    forall d | d in flat
      ensures d in whole.ops
    {
      assert d in ToSet(flat);
    }
  }

  lemma InitIsPart(g: OpGraph, whole: OpGraph, root: Digest, op: Op)
    requires g == AddOp(EmptyGraph(), root, op, None) && SoundGraph(g) && SoundGraph(whole) && root in whole.ops &&
             whole.ops[root] == op
    ensures PartOf(g, whole, {root})
  {
    hide SoundGraph;
    assert g.ops == SubOps(whole.ops, {root});
  }

  lemma PartRuns(g: OpGraph, whole: OpGraph, p: set<Digest>, steps: seq<Change>, t: Tree)
    requires PartOf(g, whole, p) && Reflects(g, steps, t)
    ensures Covered(whole.ops, steps) && RunSteps(whole.ops, steps) == Ok(t)
  {
    hide SoundGraph;
    RunStepsExtends(g.ops, whole.ops, steps);
  }

  /** The next operation of the epoch may be applied. */
  lemma NextInEpoch(g: OpGraph, whole: OpGraph, root: Digest, done: seq<Digest>, epoch: seq<Digest>, j: nat)
    requires j < |epoch| && PartOf(g, whole, ToSet(done + epoch[..j])) && Listing(whole.preds, {}, done + epoch)
    requires Rooted(whole, root) && root in g.ops
    ensures var d := epoch[j]; var p := ToSet(done + epoch[..j]);
            && d in whole.ops && d !in g.ops && whole.ops[d].preds != {} && Admissible(g, d, whole.ops[d])
            && PartOf(AddOp(g, d, whole.ops[d], Some(whole.ops[d].preds)), whole, p + {d})
  {
    hide Listing, SoundGraph;
    var d, p := epoch[j], ToSet(done + epoch[..j]);
    assert done + epoch == (done + epoch[..j]) + epoch[j..];
    ListingPrefix(whole.preds, done + epoch[..j], epoch[j..]);
    WholePreds(whole);
    assert d != root ==> HasPreds(whole, d);
    PartAdmits(g, whole, p, d);
    PartGrows(g, whole, p, d);
  }

  lemma WholePreds(whole: OpGraph)
    requires SoundGraph(whole)
    ensures whole.preds.Keys == whole.ops.Keys && forall d :: d in whole.ops ==> whole.preds[d] == whole.ops[d].preds
  {}

  /** An operation that fails on arrival fails in the replay. */
  lemma FailsAt(g: OpGraph, whole: OpGraph, p: set<Digest>, steps: seq<Change>, t: Tree, steps0: seq<Change>,
                epoch: seq<Digest>, j: nat, e: CgkaError)
    requires PartOf(g, whole, p) && Reflects(g, steps, t) && Linked(t) && j < |epoch|
    requires steps == steps0 + ApplyEach(epoch[..j]) && (forall d :: d in epoch ==> d in whole.ops)
    requires ApplyOp(t, whole.ops[epoch[j]]) == Err(e)
    ensures Covered(whole.ops, steps0 + ApplyEach(epoch)) && RunSteps(whole.ops, steps0 + ApplyEach(epoch)) == Err(e)
  {
    hide SoundGraph, RunSteps, ApplyOp, ApplyEach, Covered;
    CoveredMore(g.ops, whole.ops, steps);
    RunStepsExtends(g.ops, whole.ops, steps);
    RunStepsSnoc(whole.ops, steps, Apply(epoch[j]));
    EachSnoc(epoch, j);
    EachPrefix(epoch, j + 1);
    EachCovered(whole.ops, steps0, epoch, j);
    ErrorsStayLater(whole.ops, steps + [Apply(epoch[j])], steps0 + ApplyEach(epoch));
  }

  lemma CoveredMore(ops: map<Digest, Op>, ops': map<Digest, Op>, steps: seq<Change>)
    requires Covered(ops, steps) && ops.Keys <= ops'.Keys
    ensures Covered(ops', steps)
  {}

  lemma EachCovered(ops: map<Digest, Op>, steps: seq<Change>, epoch: seq<Digest>, j: nat)
    requires j <= |epoch| && Covered(ops, steps + ApplyEach(epoch[..j])) && forall d :: d in epoch ==> d in ops
    ensures Covered(ops, steps + ApplyEach(epoch))
  {
    hide ApplyEach;
    forall c | c in steps + ApplyEach(epoch) && c.Apply?
      ensures c.d in ops
    {
      if c in steps {
        assert c in steps + ApplyEach(epoch[..j]);
      } else {
        EachElement(epoch, c);
      }
    }
  }

  lemma EpochKnown(g: OpGraph, whole: OpGraph, done: seq<Digest>, epoch: seq<Digest>)
    requires SoundGraph(whole) && Listing(whole.preds, {}, done + epoch)
    ensures forall d :: d in epoch ==> d in whole.ops
  {
    forall d | d in epoch
      ensures d in whole.ops
    {
      var k :| 0 <= k < |epoch| && epoch[k] == d;
      assert (done + epoch)[|done| + k] == d;
    }
  }

  lemma FirstReflects(id: MemberId, pk: ShareKey, d: Digest)
    ensures var g := AddOp(EmptyGraph(), d, InitAdd(id, pk), None);
            && MayAdd(EmptyGraph(), d, InitAdd(id, pk), None) && SoundGraph(g) && Rooted(g, d)
            && Linked(NewTree(id, pk)) && Settled(NewTree(id, pk)) && Reflects(g, [Apply(d)], NewTree(id, pk))
  {
    hide SoundGraph, NewTree, Settled, Linked;
    EmptyIsSound();
    var op := InitAdd(id, pk);
    EmptyHeads();
    EmptyLinked();
    EmptySettled();
    AddOpSound(EmptyGraph(), d, op, None);
    EmptyReflects();
    ApplyInit(id, pk);
    ReflectsStep(EmptyGraph(), [], EmptyTree(), d, op, None);
    ApplyOpSettled(EmptyTree(), op);
    assert [] + [Apply(d)] == [Apply(d)];
  }

  lemma EmptyHeads()
    ensures EmptyGraph().heads == {} && EmptyGraph().addHeads == {} && EmptyGraph().ops == map[]
  {}

  lemma EmptyLinked()
    ensures Linked(EmptyTree())
  {}

  lemma EmptyReflects()
    ensures Reflects(EmptyGraph(), [], EmptyTree())
  {
    EmptyListing(EmptyGraph().preds, {});
    assert ToSet(Applied([])) == {};
  }

  lemma ApplyInit(id: MemberId, pk: ShareKey)
    requires Linked(EmptyTree())
    ensures ApplyOp(EmptyTree(), InitAdd(id, pk)) == Ok(NewTree(id, pk))
  {}

  lemma RootedGrows(g: OpGraph, root: Digest, d: Digest, op: Op, external: Option<set<Digest>>)
    requires Rooted(g, root) && d !in g.ops && op.preds != {}
    ensures Rooted(AddOp(g, d, op, external), root) && AddOp(g, d, op, external).ops[root] == g.ops[root]
  {
    var g' := AddOp(g, d, op, external);
    forall x | x in g'.ops && x != root
      ensures HasPreds(g', x)
    {
      assert x != d ==> HasPreds(g, x);
    }
  }
}
