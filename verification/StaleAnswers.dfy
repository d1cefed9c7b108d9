/** `add` and `remove` look for the member in the tree as it is, before what is outstanding is
    replayed: a member whose add is kept for later can be added again and not removed, and one
    whose removal is kept for later cannot be added and not removed again. */
module StaleAnswers {
  import opened Results
  import opened Nodes
  import opened Crypto
  import opened KeyTree
  import opened PathUpdate
  import opened WellFormed
  import opened Operations
  import opened Normalise
  import opened Epochs
  import opened Graph
  import opened Replay
  import opened ReplicaSteps
  import opened EpochOutcomes
  import opened Continuation
  import opened DoubleAdds

  // ----- One call -----

  /** `add` does nothing exactly when the tree has the member before any replay. Otherwise the
      member gets a new slot in the replayed tree, which keeps ids and leaves inverse exactly
      when the replayed tree did not have the member either. */
  lemma AddAnswers(s: State, id: MemberId, pk: ShareKey, d: Digest, s': State, r: Result<Option<Op>>)
    requires Sensible(s) && AddsMember(s, id, pk, d, s', r)
    ensures r == Ok(None) <==> id in s.tree.ids
    ensures id in s.tree.ids ==> s' == s
    ensures r.Ok? && r.value.Some? ==>
              && Base(s).Ok? && r.value.value.Add? && r.value.value.leafIndex == Base(s).value.nextLeaf
              && SlotsOf(s'.tree, id) == SlotsOf(Base(s).value, id) + {Base(s).value.nextLeaf}
              && (Tidy(Base(s).value) ==> (Tidy(s'.tree) <==> id !in Base(s).value.ids))
  {
    hide Base, Tidy;
    if r.Ok? && r.value.Some? {
      var t, op := Base(s).value, r.value.value;
      if Tidy(t) {
        OpStaysTidyIff(t, op);
      }
    }
  }

  /** The slots that a member has. */
  function SlotsOf(t: Tree, id: MemberId): set<nat> {
    set i | i in t.leaves && t.leaves[i].id == id
  }

  /** `remove` does nothing exactly when the tree does not have the member before any replay.
      Otherwise it fails, after the replay, exactly when the replayed tree has one member or
      does not have this one. */
  lemma RemoveAnswers(s: State, id: MemberId, d: Digest, s': State, r: Result<Option<Op>>)
    requires Sensible(s) && RemovesMember(s, id, d, s', r)
    ensures r == Ok(None) <==> id !in s.tree.ids
    ensures id !in s.tree.ids ==> s' == s
    ensures id in s.tree.ids && Base(s).Ok? ==>
              var t := Base(s).value;
              && (r.Ok? <==> id in t.ids && |t.ids| != 1)
              && (r.Ok? ==> MemberRemoved(t, id, s'.tree))
              && (r.Err? ==> s'.tree == t && s'.graph == s.graph)
  {
    hide Base, Blanked, RemovedLeaves;
    if id in s.tree.ids && Base(s).Ok? && r.Ok? {
      RemoveLeafRemoves(Base(s).value, id);
    }
  }

  // ----- A membership change beside an update -----

  lemma UpdateAccepted(r: Roster, op: Op)
    requires op.Update? && Climbs(op.change.path, op.change.leafIdx) && op.change.leafIdx < Pow2(r.depth)
    ensures Accepts(r, op) && After(r, op) == r
  {
    ClimbStays(r, op.change);
  }

  lemma DepthKept(r: Roster, op: Op)
    requires IsMembership(op) && Accepts(r, op)
    ensures Pow2(r.depth) <= Pow2(After(r, op).depth)
  {}

  lemma PairAfter(ops: map<Digest, Op>, r: Roster, p: Digest, q: Digest)
    requires {p, q} <= ops.Keys && Accepts(r, ops[p]) && Accepts(After(r, ops[p]), ops[q])
    ensures forall d :: d in [p, q] ==> d in ops
    ensures RosterAfter(ops, r, [p, q]) == Some(After(After(r, ops[p]), ops[q]))
  {
    hide Accepts, After;
    assert [p, q][..1] == [p] && [p][..0] == [];
    assert RosterAfter(ops, r, [p]) == Some(After(r, ops[p]));
  }

  /** In either order, the pair leaves the members the change alone would leave. */
  lemma BesideUpdate(ops: map<Digest, Op>, r: Roster, m: Digest, up: Digest, p: Digest, q: Digest)
    requires {m, up} <= ops.Keys && ((p == m && q == up) || (p == up && q == m))
    requires IsMembership(ops[m]) && Accepts(r, ops[m])
    requires ops[up].Update? && Climbs(ops[up].change.path, ops[up].change.leafIdx)
    requires ops[up].change.leafIdx < Pow2(r.depth)
    ensures forall d :: d in [p, q] ==> d in ops
    ensures RosterAfter(ops, r, [p, q]) == Some(After(r, ops[m]))
  {
    hide Accepts, After, RosterAfter, Climbs;
    UpdateAccepted(r, ops[up]);
    DepthKept(r, ops[m]);
    UpdateAccepted(After(r, ops[m]), ops[up]);
    PairAfter(ops, r, p, q);
  }

  lemma {:induction false} SeatAllKeeps(r: Roster, ids: seq<MemberId>)
    ensures r.ids.Keys <= SeatAll(r, ids).ids.Keys
  {
    if ids != [] {
      SeatAllKeeps(r, ids[..|ids| - 1]);
    }
  }

  lemma {:induction false} UnseatKeeps(r: Roster, wanted: set<MemberId>)
    ensures Unseat(r, wanted).0.ids == r.ids
    decreases r.nextLeaf
  {
    if wanted != {} && r.nextLeaf > 0 {
      var i := r.nextLeaf - 1;
      UnseatKeeps(r.(nextLeaf := i, slots := r.slots - {i}), if i in r.slots then wanted - {r.slots[i]} else wanted);
    }
  }

  /** Sorting takes nobody out, and brings nobody in when nobody was added. */
  lemma ResortedIds(r: Roster, added: set<MemberId>, removed: set<(MemberId, nat)>)
    ensures r.ids.Keys <= Resorted(r, added, removed).ids.Keys
    ensures added == {} ==> Resorted(r, added, removed).ids == r.ids
  {
    hide Unseat, SeatAll, SortIds;
    var base := r.(slots := r.slots - Slots(removed));
    UnseatKeeps(base, added - RemovedIds(removed));
    SeatAllKeeps(Unseat(base, added - RemovedIds(removed)).0, SortIds(Unseat(base, added - RemovedIds(removed)).1));
    if added == {} {
      NothingUnseated(base);
      assert added - RemovedIds(removed) == {};
    }
  }

  lemma NothingUnseated(r: Roster)
    ensures Unseat(r, {}) == (r, []) && SortIds([]) == [] && SeatAll(r, []) == r
  {}

  /** The change was made for the tree: a removal names its member's slot. */
  ghost predicate MadeOn(t: Tree, op: Op) {
    match op
    case Add(_, _, _, _, _) => true
    case Remove(id, leafIdx, _, _) => id in t.ids && |t.ids| != 1 && leafIdx == t.ids[id] < Pow2(t.depth)
    case Update(_, c, _) => Climbs(c.path, c.leafIdx) && c.leafIdx < Pow2(t.depth)
  }

  /** A membership change and an update made concurrently after the head replay without error;
      an added member is there and a removed one is gone. */
  lemma PairOutcome(g: OpGraph, g': OpGraph, h: Digest, t: Tree, m: Digest, up: Digest)
    requires Fork(g, g', h, {m, up}, {}, m, up) && Down(g.preds, g.ops.Keys) && OutcomeFor(g, g.ops.Keys) == Ok(t)
    requires {m, up} <= g'.ops.Keys && m != up && IsMembership(g'.ops[m]) && g'.ops[up].Update?
    requires MadeOn(t, g'.ops[m]) && MadeOn(t, g'.ops[up])
    ensures Down(g'.preds, g'.ops.Keys)
    ensures var out := OutcomeFor(g', g'.ops.Keys);
            && out.Ok? && (g'.ops[m].Add? ==> g'.ops[m].addedId in out.value.ids)
            && (g'.ops[m].Remove? ==> out.value.ids == t.ids - {g'.ops[m].id})
  {
    hide Fork, Down, OutcomeFor, RunSteps, EpochSteps, Sorted, SoundGraph, RosterAfter, RosterEpoch;
    ForkIsSound(g, g', h, {m, up}, {}, m, up);
    var steps := ForkContinues(g, g', h, t, {m, up}, {}, m, up);
    NothingSorted();
    var p, q := if m < up then m else up, if m < up then up else m;
    assert {p, q} == {m, up};
    SortedPair(p, q);
    assert [p, q] + [] == [p, q];
    RosterFacts(t);
    PairRoster(g'.ops, RosterOf(t), t, m, up, p, q);
    EpochSucceedsIff(g'.ops, steps, t, [p, q]);
    RosterFacts(OutcomeFor(g', g'.ops.Keys).value);
  }

  lemma PairRoster(ops: map<Digest, Op>, r: Roster, t: Tree, m: Digest, up: Digest, p: Digest, q: Digest)
    requires {m, up} <= ops.Keys && ((p == m && q == up) || (p == up && q == m)) && r == RosterOf(t)
    requires IsMembership(ops[m]) && ops[up].Update? && MadeOn(t, ops[m]) && MadeOn(t, ops[up])
    ensures forall d :: d in [p, q] ==> d in ops
    ensures var out := RosterEpoch(ops, r, [p, q]);
            && out.Some? && (ops[m].Add? ==> ops[m].addedId in out.value.ids)
            && (ops[m].Remove? ==> out.value.ids == t.ids - {ops[m].id})
  {
    hide RosterAfter, Resorted, Climbs;
    var e := [p, q];
    assert p in e && q in e;
    RosterFacts(t);
    BesideUpdate(ops, r, m, up, p, q);
    ResortedIds(After(r, ops[m]), AddedIn(ops, e), RemovedIn(ops, e));
  }

  // ----- ... as replicas do it -----

  /** One replica changes the membership, another member updates, and the second receives the
      change: it is kept for later, and the tree knows nothing of it. */
  lemma KeptForLater(s: State, h: Digest, o: MemberId, sks: ShareKeyMap, sk: Secret, draw: nat -> Secret, x: Digest,
                     opx: Op, u: Digest) returns (b1: State, b2: State, up: Op)
    requires Steady(s, h) && o in s.tree.ids && CanEncrypt(s.tree, s.tree.ids[o])
    requires x !in s.graph.ops && u !in s.graph.ops && x != u
    requires IsMembership(opx) && NamesHeads(s.graph, opx) && MadeOn(s.tree, opx)
    ensures Sensible(s) && UpdatesOwn(As(s, o, sks), sk, draw, u, b1, Ok((RatchetN(sk, s.tree.depth), up)))
    ensures Sensible(b1) && Merges(b1, x, opx, b2, Ok(true)) && Sensible(b2) && b2.tree.ids == s.tree.ids
    ensures b2.graph.ops.Keys == s.graph.ops.Keys + {x, u}
    ensures Base(b2).Ok? && (opx.Add? ==> opx.addedId in Base(b2).value.ids)
    ensures opx.Remove? ==> Base(b2).value.ids == s.tree.ids - {opx.id}
  {
    hide Steady, SoundGraph, Down, OutcomeFor, Linked, RosterOf, ApplyOp, UpdatesOwn, Merges, Base, Fork, NamesHeads,
         Admissible, CanEncrypt, EncryptedChange, EncryptedTree, RatchetN, Climbs;
    SteadyParts(s, h);
    SteadyFacts(s, h);
    SteadyAs(s, h, o, sks);
    b1, up := UpdateRuns(As(s, o, sks), h, sk, draw, u);
    SteadyParts(b1, u);
    SteadyOutcome(s, h);
    UpdateNamesHeads(s.graph, up);
    OneHead(s.graph, h, opx);
    PairFork(s.graph, h, u, up, x, opx);
    HeadIsKnown(s.graph, h);
    b2 := ChangeDeferred(b1, u, x, opx, h);
    var t := OutcomeFor(s.graph, s.graph.ops.Keys).value;
    RosterFacts(t);
    RosterFacts(s.tree);
    assert {u, x} == {x, u};
    SwapEnds(s.graph, b2.graph, h, u, x);
    PairOutcome(s.graph, b2.graph, h, t, x, u);
    DeferredBase(b2);
    KeptIds(s.tree, o, sk, draw);
  }

  lemma OneHead(g: OpGraph, h: Digest, op: Op)
    requires NamesHeads(g, op) && g.heads == {h}
    ensures op.preds == {h}
  {}

  lemma SwapEnds(g: OpGraph, g': OpGraph, h: Digest, x: Digest, y: Digest)
    requires Fork(g, g', h, {x, y}, {}, x, y)
    ensures Fork(g, g', h, {y, x}, {}, y, x)
  {
    hide Extends, SoundGraph, Down;
    assert {x, y} == {y, x};
  }

  lemma KeptIds(t: Tree, id: MemberId, sk: Secret, draw: nat -> Secret)
    requires Linked(t) && id in t.ids
    ensures EncryptedTree(t, id, sk, draw).ids == t.ids
  {}

  /** A member's add is kept for later. `remove` then finds nobody and does nothing; `add` adds
      the member a second time, and the tree it leaves has two leaves for it. */
  lemma StaleAddRun(s: State, h: Digest, o: MemberId, sks: ShareKeyMap, sk: Secret, draw: nat -> Secret, e: MemberId,
                    pk1: ShareKey, pk2: ShareKey, x: Digest, u: Digest, y: Digest)
    returns (a1: State, b1: State, b2: State, b3: State, op1: Op, up: Op, op2: Op)
    requires Steady(s, h) && o in s.tree.ids && CanEncrypt(s.tree, s.tree.ids[o]) && e !in s.tree.ids
    requires x !in s.graph.ops && u !in s.graph.ops && x != u
    ensures Sensible(s) && AddsMember(s, e, pk1, x, a1, Ok(Some(op1)))
    ensures UpdatesOwn(As(s, o, sks), sk, draw, u, b1, Ok((RatchetN(sk, s.tree.depth), up)))
    ensures Sensible(b1) && Merges(b1, x, op1, b2, Ok(true)) && Sensible(b2)
    ensures RemovesMember(b2, e, y, b2, Ok(None))
    ensures AddsMember(b2, e, pk2, y, b3, Ok(Some(op2))) && Linked(b3.tree)
    ensures |SlotsOf(b3.tree, e)| >= 2 && !Tidy(b3.tree)
  {
    hide Steady, SoundGraph, Down, PushLeaf, OutcomeFor, Linked, ApplyOp, AddsMember, UpdatesOwn, Merges, Base,
         NamesHeads, CanEncrypt, Tidy, SlotsOf, RatchetN;
    SteadyParts(s, h);
    a1, op1 := AddRuns(s, h, e, pk1, x);
    AddNamesHeads(s.graph, op1);
    b1, b2, up := KeptForLater(s, h, o, sks, sk, draw, x, op1, u);
    b3, op2 := AddAfterReplay(b2, e, pk2, y);
    AddAnswers(b2, e, pk2, y, b3, Ok(Some(op2)));
    TwoSlots(Base(b2).value, b3.tree, e);
  }

  lemma AddNamesHeads(g: OpGraph, op: Op)
    requires op.Add? && op.preds == g.heads && op.addPreds == g.addHeads
    ensures NamesHeads(g, op)
  {}

  lemma AddAfterReplay(s: State, e: MemberId, pk: ShareKey, d: Digest) returns (s': State, op: Op)
    requires Sensible(s) && e !in s.tree.ids && Base(s).Ok?
    ensures AddsMember(s, e, pk, d, s', Ok(Some(op))) && Linked(s'.tree)
  {
    hide SoundGraph, Down, Base;
    var t := Base(s).value;
    op := Add(e, pk, t.nextLeaf, s.graph.heads, s.graph.addHeads);
    s' := s.(graph := AddOp(s.graph, d, op, None), tree := ApplyOp(t, op).value, pending := false);
  }

  lemma TwoSlots(t: Tree, u: Tree, e: MemberId)
    requires Linked(t) && e in t.ids && SlotsOf(u, e) == SlotsOf(t, e) + {t.nextLeaf}
    ensures |SlotsOf(u, e)| >= 2 && !Tidy(u)
  {
    var i, n := t.ids[e], t.nextLeaf;
    assert i in SlotsOf(t, e) && i < n;
    assert {i, n} <= SlotsOf(u, e) && |{i, n}| == 2;
    CardinalityBound({i, n}, SlotsOf(u, e));
    if Tidy(u) {
      assert i in SlotsOf(u, e) && n in SlotsOf(u, e);
      SameSlotTwice(u, i, n);
    }
  }

  lemma SameSlotTwice(u: Tree, i: nat, j: nat)
    requires Tidy(u) && i in u.leaves && j in u.leaves && u.leaves[i].id == u.leaves[j].id
    ensures i == j
  {
    assert u.ids[u.leaves[i].id] == i;
  }

  lemma {:induction false} CardinalityBound(a: set<nat>, b: set<nat>)
    requires a <= b
    ensures |a| <= |b|
  {
    if a != {} {
      var x :| x in a;
      CardinalityBound(a - {x}, b - {x});
    }
  }

  /** A member's removal is kept for later. `add` then still finds the member and does nothing;
      `remove` replays, and fails for want of the member. */
  lemma StaleRemoveRun(s: State, h: Digest, o: MemberId, sks: ShareKeyMap, sk: Secret, draw: nat -> Secret,
                       e: MemberId, pk: ShareKey, x: Digest, u: Digest, y: Digest)
    returns (a1: State, b1: State, b2: State, b3: State, op1: Op, up: Op)
    requires Steady(s, h) && o in s.tree.ids && CanEncrypt(s.tree, s.tree.ids[o]) && e in s.tree.ids && e != o
    requires x !in s.graph.ops && u !in s.graph.ops && x != u
    ensures Sensible(s) && RemovesMember(s, e, x, a1, Ok(Some(op1)))
    ensures UpdatesOwn(As(s, o, sks), sk, draw, u, b1, Ok((RatchetN(sk, s.tree.depth), up)))
    ensures Sensible(b1) && Merges(b1, x, op1, b2, Ok(true)) && Sensible(b2)
    ensures AddsMember(b2, e, pk, y, b2, Ok(None))
    ensures RemovesMember(b2, e, y, b3, Err(if |s.tree.ids| == 2 then RemoveLastMember else IdentifierNotFound))
    ensures e !in b3.tree.ids && b3.graph == b2.graph
  {
    hide Steady, SoundGraph, Down, RemoveLeaf, OutcomeFor, Linked, ApplyOp, RemovesMember, UpdatesOwn, Merges, Base,
         NamesHeads, CanEncrypt, RatchetN;
    SteadyParts(s, h);
    SteadyFacts(s, h);
    TwoMembersCount(s.tree, o, e);
    a1, op1 := RemoveRuns(s, h, e, x);
    RemoveNamesHeads(s.graph, op1);
    SlotInside(s.tree, e);
    b1, b2, up := KeptForLater(s, h, o, sks, sk, draw, x, op1, u);
    b3 := RemoveFails(b2, e, y);
    IdsLess(s.tree, e);
  }

  lemma TwoMembersCount(t: Tree, o: MemberId, e: MemberId)
    requires o in t.ids && e in t.ids && o != e
    ensures |t.ids| > 1
  {
    assert {o, e} <= t.ids.Keys && |{o, e}| == 2;
    CardinalityBound({o, e}, t.ids.Keys);
  }

  lemma RemoveNamesHeads(g: OpGraph, op: Op)
    requires op.Remove? && op.preds == g.heads
    ensures NamesHeads(g, op)
  {}

  lemma SlotInside(t: Tree, e: MemberId)
    requires e in t.ids && t.ids[e] < t.nextLeaf <= Pow2(t.depth)
    ensures t.ids[e] < Pow2(t.depth)
  {}

  lemma IdsLess(t: Tree, e: MemberId)
    requires e in t.ids
    ensures |t.ids - {e}| == |t.ids| - 1
  {
    assert (t.ids - {e}).Keys == t.ids.Keys - {e};
    assert |(t.ids - {e}).Keys| == |t.ids.Keys| - 1;
  }

  lemma RemoveFails(s: State, e: MemberId, d: Digest) returns (s': State)
    requires Sensible(s) && e in s.tree.ids && Base(s).Ok? && e !in Base(s).value.ids
    ensures RemovesMember(s, e, d, s',
                          Err(if |Base(s).value.ids| == 1 then RemoveLastMember else IdentifierNotFound))
    ensures s'.tree == Base(s).value && s'.graph == s.graph
  {
    hide SoundGraph, Down, Base;
    s' := s.(tree := Base(s).value, pending := false);
  }

  // ----- While something is kept for later -----

  /** The replica receives the operations one after another. */
  ghost predicate Receives(ss: seq<State>, ds: seq<Digest>, ops: seq<Op>, rs: seq<Result<bool>>) {
    && |ss| == |ds| + 1 && |ds| == |ops| == |rs|
    && forall j :: 0 <= j < |ds| ==> ReceivesOne(ss[j], ds[j], ops[j], ss[j + 1], rs[j])
  }

  ghost predicate ReceivesOne(s: State, d: Digest, op: Op, s': State, r: Result<bool>) {
    Sensible(s) && Merges(s, d, op, s', r)
  }

  lemma FrozenOnce(s: State, d: Digest, op: Op, s': State, r: Result<bool>)
    requires ReceivesOne(s, d, op, s', r) && s.pending && !(s.graph.heads <= op.preds)
    ensures s'.pending && s'.tree == s.tree && s.graph.ops.Keys <= s'.graph.ops.Keys
    ensures op.preds <= s.graph.ops.Keys ==> d in s'.graph.ops
  {
    hide SoundGraph, Down, Base, ApplyOp, Linked;
  }

  /** Once a membership change is kept for later, nothing received changes the tree until an
      operation has seen every head; whatever else arrives in order is kept too. */
  lemma {:induction false} FrozenUntilSeen(ss: seq<State>, ds: seq<Digest>, ops: seq<Op>, rs: seq<Result<bool>>,
                                           k: nat)
    requires Receives(ss, ds, ops, rs) && k < |ss| && ss[0].pending
    requires forall j :: 0 <= j < k ==> !(ss[j].graph.heads <= ops[j].preds)
    ensures ss[k].pending && ss[k].tree == ss[0].tree
    ensures forall j :: 0 <= j < k && ops[j].preds <= ss[j].graph.ops.Keys ==> ds[j] in ss[k].graph.ops
  {
    hide ReceivesOne;
    if k > 0 {
      FrozenUntilSeen(ss, ds, ops, rs, k - 1);
      FrozenOnce(ss[k - 1], ds[k - 1], ops[k - 1], ss[k], rs[k - 1]);
    }
  }

  /** Such an operation ends the wait, unless the replay fails: then nothing has changed. */
  lemma SeenEndsWait(s: State, d: Digest, op: Op, s': State, r: Result<bool>)
    requires Sensible(s) && Merges(s, d, op, s', r) && s.pending && d !in s.graph.ops && s.graph.heads != {}
    requires s.graph.heads <= op.preds <= s.graph.ops.Keys
    ensures s'.pending <==> Base(s).Err?
    ensures Base(s).Err? ==> s' == s && r == Err(Base(s).error)
    ensures Base(s).Ok? && r.Ok? ==> ApplyOp(Base(s).value, op) == Ok(s'.tree) && d in s'.graph.ops
    ensures Base(s) == OutcomeFor(s.graph, s.graph.ops.Keys)
  {
    hide SoundGraph, Down, ApplyOp, Linked, OutcomeFor;
  }
}
