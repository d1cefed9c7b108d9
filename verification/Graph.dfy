/** The causal operation graph of `operation.rs`. */
module Graph {
  import opened Results
  import opened Operations
  import opened Epochs

  datatype OpGraph = OpGraph(ops: map<Digest, Op>, preds: Preds, heads: set<Digest>, addHeads: set<Digest>)

  function EmptyGraph(): OpGraph {
    OpGraph(map[], map[], {}, {})
  }

  /** `add_op_and_update_heads`: with the operation's own predecessors for an operation
      received from elsewhere, with the current heads for a local one. */
  function AddOp(g: OpGraph, d: Digest, op: Op, external: Option<set<Digest>>): OpGraph {
    match external
    case Some(hs) =>
      OpGraph(g.ops[d := op], g.preds[d := hs], (g.heads - hs) + {d},
              if op.Add? then (g.addHeads - op.addPreds) + {d} else g.addHeads)
    case None =>
      OpGraph(g.ops[d := op], g.preds[d := g.heads], {d}, if op.Add? then {d} else g.addHeads)
  }

  // ----- The graph is a function of its operations -----

  /** Operations that no other operation names as a predecessor. */
  ghost function Ends(ops: map<Digest, Op>): set<Digest> {
    set d | d in ops && forall e :: e in ops ==> d !in ops[e].preds
  }

  /** Adds that no other add names as an add-predecessor. */
  ghost function AddEnds(ops: map<Digest, Op>): set<Digest> {
    set d | d in ops && ops[d].Add? && forall e :: e in ops && ops[e].Add? ==> d !in ops[e].addPreds
  }

  /** Predecessors as stated by the operations themselves. */
  ghost function StatedPreds(ops: map<Digest, Op>): Preds {
    map d | d in ops :: ops[d].preds
  }

  /** The graph holds every predecessor, has no cycle, stores predecessors as the operations
      state them, and its heads are exactly the operations nothing follows. */
  ghost predicate SoundGraph(g: OpGraph) {
    && g.preds == StatedPreds(g.ops)
    && g.heads == Ends(g.ops) && g.addHeads == AddEnds(g.ops)
    && exists past :: IsPast(g.preds, past) && AddsInPast(g.ops, past)
  }

  /** Adds name add-predecessors from their own past. */
  ghost predicate AddsInPast(ops: map<Digest, Op>, past: Preds) {
    forall d {:trigger AddInPast(ops, past, d)} :: d in ops ==> AddInPast(ops, past, d)
  }

  ghost predicate AddInPast(ops: map<Digest, Op>, past: Preds, d: Digest)
    requires d in ops
  {
    ops[d].Add? ==> d in past && ops[d].addPreds <= past[d]
  }

  /** An operation may be added once its predecessors are there. */
  ghost predicate Admissible(g: OpGraph, d: Digest, op: Op) {
    && d !in g.ops && op.preds <= g.ops.Keys
    && (op.Add? ==> forall past :: IsPast(g.preds, past) ==> op.addPreds <= op.preds + Behind(past, op.preds))
  }

  /** A local operation names the current heads. */
  ghost predicate NamesHeads(g: OpGraph, op: Op) {
    op.preds == g.heads && (op.Add? ==> op.addPreds == g.addHeads)
  }

  /** How the code adds operations: received ones with their stated predecessors, local ones
      with the heads they name. */
  ghost predicate MayAdd(g: OpGraph, d: Digest, op: Op, external: Option<set<Digest>>) {
    && SoundGraph(g) && d !in g.ops
    && ((external == Some(op.preds) && Admissible(g, d, op)) || (external == None && NamesHeads(g, op)))
  }

  ghost function ExtendPast(past: Preds, d: Digest, ps: set<Digest>): Preds {
    past[d := ps + Behind(past, ps)]
  }

  lemma BehindOther(past: Preds, d: Digest, s: set<Digest>, ps: set<Digest>)
    requires d !in ps
    ensures Behind(past[d := s], ps) == Behind(past, ps)
  {
    var past' := past[d := s];
    forall q
      ensures q in Behind(past', ps) <==> q in Behind(past, ps)
    {
      if q in Behind(past', ps) {
        var p :| p in ps && p in past' && q in past'[p];
        assert p in past && q in past[p];
      }
      if q in Behind(past, ps) {
        var p :| p in ps && p in past && q in past[p];
        assert p in past' && q in past'[p];
      }
    }
  }

  lemma PastExtends(preds: Preds, past: Preds, d: Digest, ps: set<Digest>)
    requires IsPast(preds, past) && d !in preds && ps <= preds.Keys
    ensures IsPast(preds[d := ps], ExtendPast(past, d, ps))
  {
    hide Behind;
    var preds', past' := preds[d := ps], ExtendPast(past, d, ps);
    assert d !in past'[d] by {
      NotBehind(preds, past, d, ps);
    }
    forall x | x in preds'
      ensures past'[x] == preds'[x] + Behind(past', preds'[x])
    {
      BehindOther(past, d, past'[d], preds'[x]);
    }
  }

  lemma NotBehind(preds: Preds, past: Preds, d: Digest, ps: set<Digest>)
    requires IsPast(preds, past) && d !in preds && ps <= preds.Keys
    ensures d !in Behind(past, ps)
  {
    if d in Behind(past, ps) {
      var p :| p in ps && p in past && d in past[p];
      PastTransitive(preds, past, p, d);
    }
  }

  lemma EmptyIsSound()
    ensures SoundGraph(EmptyGraph())
  {
    var past: Preds := map[];
    assert IsPast(EmptyGraph().preds, past) && AddsInPast(EmptyGraph().ops, past);
  }

  /** Adding an operation, local or external, keeps the graph sound. */
  lemma AddOpSound(g: OpGraph, d: Digest, op: Op, external: Option<set<Digest>>)
    requires MayAdd(g, d, op, external)
    ensures SoundGraph(AddOp(g, d, op, external))
  {
    hide IsPast, Ends, AddEnds, StatedPreds, Behind;
    var past :| IsPast(g.preds, past) && AddsInPast(g.ops, past);
    MayAddIsAdmissible(g, d, op, external);
    StatedStep(g.ops, d, op);
    PastExtends(g.preds, past, d, op.preds);
    PredsKnown(g, past);
    AddPredsKnown(g, past, op);
    EndsStep(g.ops, d, op);
    AddsStillInPast(g.ops, past, d, op);
  }

  lemma AddsStillInPast(ops: map<Digest, Op>, past: Preds, d: Digest, op: Op)
    requires AddsInPast(ops, past) && d !in ops && (op.Add? ==> op.addPreds <= op.preds + Behind(past, op.preds))
    ensures AddsInPast(ops[d := op], ExtendPast(past, d, op.preds))
  {
    hide Behind;
    var ops', past' := ops[d := op], ExtendPast(past, d, op.preds);
    forall x | x in ops'
      ensures AddInPast(ops', past', x)
    {
      if x != d {
        assert AddInPast(ops, past, x);
      }
    }
  }

  /** Every operation is a head or before one. */
  lemma {:induction false} HeadsCover(g: OpGraph, past: Preds, z: Digest)
    requires g.preds == StatedPreds(g.ops) && g.heads == Ends(g.ops) && IsPast(g.preds, past) && z in g.ops
    ensures z in g.heads + Behind(past, g.heads)
    decreases |g.preds| - |past[z]|
  {
    if z !in g.heads {
      var e :| e in g.ops && z in g.ops[e].preds;
      assert e in g.preds && z in g.preds[e];
      PredIsSmaller(g.preds, past, e, z);
      PastFits(g.preds, past, e);
      HeadsCover(g, past, e);
      if e !in g.heads {
        var h :| h in g.heads && h in past && e in past[h];
        PastTransitive(g.preds, past, h, e);
        assert z in past[h];
      }
    }
  }

  /** A local operation, naming the heads, has every operation in its past. */
  lemma MayAddIsAdmissible(g: OpGraph, d: Digest, op: Op, external: Option<set<Digest>>)
    requires MayAdd(g, d, op, external)
    ensures Admissible(g, d, op)
  {
    if external == None {
      forall past | IsPast(g.preds, past)
        ensures g.ops.Keys <= g.heads + Behind(past, g.heads)
      {
        forall z | z in g.ops
          ensures z in g.heads + Behind(past, g.heads)
        {
          HeadsCover(g, past, z);
        }
      }
    }
  }

  lemma AddPredsKnown(g: OpGraph, past: Preds, op: Op)
    requires g.preds == StatedPreds(g.ops) && IsPast(g.preds, past) && AddsInPast(g.ops, past) && op.preds <= g.ops.Keys
    requires op.Add? ==> op.addPreds <= op.preds + Behind(past, op.preds)
    ensures op.Add? ==> op.addPreds <= g.ops.Keys
    ensures forall e :: e in g.ops && g.ops[e].Add? ==> g.ops[e].addPreds <= g.ops.Keys
  {
    forall e | e in past
      ensures past[e] <= g.ops.Keys
    {
      forall q | q in past[e]
        ensures q in g.ops
      {
        PastTransitive(g.preds, past, e, q);
      }
    }
    forall e | e in g.ops && g.ops[e].Add?
      ensures g.ops[e].addPreds <= g.ops.Keys
    {
      assert AddInPast(g.ops, past, e);
    }
  }

  lemma StatedStep(ops: map<Digest, Op>, d: Digest, op: Op)
    ensures StatedPreds(ops[d := op]) == StatedPreds(ops)[d := op.preds]
    ensures StatedPreds(ops).Keys == ops.Keys
  {}

  lemma PredsKnown(g: OpGraph, past: Preds)
    requires g.preds == StatedPreds(g.ops) && IsPast(g.preds, past)
    ensures forall e :: e in g.ops ==> g.ops[e].preds <= g.ops.Keys
  {
    forall e | e in g.ops
      ensures g.ops[e].preds <= g.ops.Keys
    {
      assert e in g.preds;
    }
  }

  lemma EndsStep(ops: map<Digest, Op>, d: Digest, op: Op)
    requires d !in ops && op.preds <= ops.Keys && (op.Add? ==> op.addPreds <= ops.Keys)
    requires forall e :: e in ops ==> ops[e].preds <= ops.Keys
    requires forall e :: e in ops && ops[e].Add? ==> ops[e].addPreds <= ops.Keys
    ensures Ends(ops[d := op]) == (Ends(ops) - op.preds) + {d}
    ensures AddEnds(ops[d := op]) == if op.Add? then (AddEnds(ops) - op.addPreds) + {d} else AddEnds(ops)
  {
    var ops' := ops[d := op];
    forall x
      ensures x in Ends(ops') <==> x in (Ends(ops) - op.preds) + {d}
      ensures x in AddEnds(ops') <==> x in if op.Add? then (AddEnds(ops) - op.addPreds) + {d} else AddEnds(ops)
    {
      assert forall e :: e in ops' <==> e in ops || e == d;
      assert forall e :: e in ops ==> ops'[e] == ops[e];
    }
  }

  /** Replicas holding the same operations have identical graphs and heads. */
  lemma GraphIsFunctionOfOps(g: OpGraph, h: OpGraph)
    requires SoundGraph(g) && SoundGraph(h) && g.ops == h.ops
    ensures g == h
  {}
}
