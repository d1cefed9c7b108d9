/** `CgkaOperationGraph`: the mutable graph and the worklist and layer loops of its sort. */
module OperationGraph {
  import opened Seqs
  import opened Results
  import opened Operations
  import opened Epochs
  import opened TopSort
  import opened Graph

  /** The heads and everything before them. */
  ghost function Ancestors(past: Preds, hs: set<Digest>): set<Digest> {
    hs + Behind(past, hs)
  }

  /** Who in `a` names `x` as a predecessor. */
  ghost function Succs(preds: Preds, a: set<Digest>, x: Digest): set<Digest> {
    set y | y in a && y in preds && x in preds[y]
  }

  /** Insertion into an ascending list. */
  function InsertDigest(x: Digest, r: seq<Digest>): seq<Digest> {
    if r == [] || x <= r[0] then [x] + r else [r[0]] + InsertDigest(x, r[1..])
  }

  function SortDigests(r: seq<Digest>): seq<Digest> {
    if r == [] then [] else InsertDigest(r[0], SortDigests(r[1..]))
  }

  lemma HeadAndTail(r: seq<Digest>)
    requires r != []
    ensures ToSet(r) == {r[0]} + ToSet(r[1..])
    ensures Strict(r) ==> Strict(r[1..]) && forall y :: y in r[1..] ==> r[0] < y
  {
    assert r == [r[0]] + r[1..];
  }

  lemma {:induction false} InsertDigestStrict(x: Digest, r: seq<Digest>)
    requires Strict(r) && x !in r
    ensures Strict(InsertDigest(x, r)) && ToSet(InsertDigest(x, r)) == ToSet(r) + {x}
  {
    if r != [] {
      HeadAndTail(r);
      if x <= r[0] {
        StrictCons(x, r);
      } else {
        InsertDigestStrict(x, r[1..]);
        hide Strict;
        var rest := InsertDigest(x, r[1..]);
        forall y | y in rest
          ensures r[0] < y
        {
          assert y in ToSet(rest);
        }
        StrictCons(r[0], rest);
      }
    }
  }

  lemma {:induction false} SortDigestsStrict(r: seq<Digest>)
    requires Distinct(r)
    ensures Strict(SortDigests(r)) && ToSet(SortDigests(r)) == ToSet(r)
  {
    if r != [] {
      SortDigestsStrict(r[1..]);
      assert r[0] !in ToSet(r[1..]);
      HeadAndTail(r);
      InsertDigestStrict(r[0], SortDigests(r[1..]));
    }
  }

  /** Sorting a layer gives the canonical list of its set. */
  lemma SortIsSorted(r: seq<Digest>)
    requires Distinct(r)
    ensures SortDigests(r) == Sorted(ToSet(r))
  {
    SortDigestsStrict(r);
    StrictUnique(SortDigests(r), Sorted(ToSet(r)));
  }

  /** The worklist: everything seen is done, waiting, or the one operation being visited. */
  ghost predicate Worklist(preds: Preds, past: Preds, hs: set<Digest>, frontier: seq<Digest>, seen: set<Digest>,
                           done: set<Digest>, current: set<Digest>)
  {
    && hs <= seen <= Ancestors(past, hs) && seen <= preds.Keys
    && Distinct(frontier) && seen == done + current + ToSet(frontier)
    && done !! ToSet(frontier) && current !! done && current !! ToSet(frontier)
    && forall y :: y in done ==> preds[y] <= seen
  }

  /** The edges recorded: those of the operations done, and `part` of those of `op`. */
  ghost predicate Recorded(preds: Preds, seen: set<Digest>, done: set<Digest>, successors: Preds, deps: Preds,
                           op: Digest, part: set<Digest>)
  {
    && successors.Keys == seen && op !in done && part <= seen
    && SuccsRecorded(preds, done, successors, op, part)
    && DepsRecorded(preds, done, successors, deps, op, part)
  }

  ghost predicate SuccsRecorded(preds: Preds, done: set<Digest>, successors: Preds, op: Digest, part: set<Digest>) {
    forall x :: Entry(successors, x) == Succs(preds, done, x) + if x in part then {op} else {}
  }

  ghost predicate DepsRecorded(preds: Preds, done: set<Digest>, successors: Preds, deps: Preds, op: Digest,
                               part: set<Digest>) {
    && (forall x :: Entry(deps, x) == if x in done then Entry(preds, x) else if x == op then part else {})
    && (forall x :: x in deps <==> Entry(deps, x) != {} || Entry(successors, x) != {})
  }

  /** Nothing is being visited. */
  ghost predicate Collecting(preds: Preds, seen: set<Digest>, done: set<Digest>, successors: Preds, deps: Preds) {
    && successors.Keys == seen
    && (forall x :: Entry(successors, x) == Succs(preds, done, x))
    && (forall x :: Entry(deps, x) == if x in done then Entry(preds, x) else {})
    && (forall x :: x in deps <==> Entry(deps, x) != {} || Entry(successors, x) != {})
  }

  lemma StartVisit(preds: Preds, past: Preds, hs: set<Digest>, frontier: seq<Digest>, seen: set<Digest>,
                   done: set<Digest>, successors: Preds, deps: Preds)
    requires frontier != [] && Worklist(preds, past, hs, frontier, seen, done, {})
    requires Collecting(preds, seen, done, successors, deps)
    ensures Worklist(preds, past, hs, frontier[1..], seen, done, {frontier[0]})
    ensures Recorded(preds, seen, done, successors, deps, frontier[0], {})
  {
    assert ToSet(frontier) == {frontier[0]} + ToSet(frontier[1..]);
  }

  lemma SuccsStep(preds: Preds, done: set<Digest>, op: Digest, x: Digest)
    requires op in preds
    ensures Succs(preds, done + {op}, x) == Succs(preds, done, x) + if x in preds[op] then {op} else {}
  {}

  lemma EndVisit(preds: Preds, seen: set<Digest>, done: set<Digest>, successors: Preds, deps: Preds, op: Digest)
    requires op in preds && Recorded(preds, seen, done, successors, deps, op, preds[op])
    ensures Collecting(preds, seen, done + {op}, successors, deps)
  {
    hide Succs;
    forall x
      ensures Entry(successors, x) == Succs(preds, done + {op}, x)
    {
      SuccsStep(preds, done, op, x);
    }
  }

  function NoSuccessors(hs: set<Digest>): Preds {
    map h | h in hs :: {}
  }

  lemma StartCollecting(preds: Preds, past: Preds, hs: set<Digest>, frontier: seq<Digest>, successors: Preds)
    requires hs <= preds.Keys && Distinct(frontier) && ToSet(frontier) == hs
    requires successors == NoSuccessors(hs)
    ensures Worklist(preds, past, hs, frontier, hs, {}, {}) && Collecting(preds, hs, {}, successors, map[])
  {}

  lemma WaitingIsKnown(preds: Preds, past: Preds, hs: set<Digest>, frontier: seq<Digest>, seen: set<Digest>,
                       done: set<Digest>)
    requires frontier != [] && Worklist(preds, past, hs, frontier, seen, done, {})
    ensures var op := frontier[0]; op in preds && op in Ancestors(past, hs) && op !in done
  {
    assert frontier[0] in ToSet(frontier);
  }

  lemma FinishWorklist(preds: Preds, past: Preds, hs: set<Digest>, frontier: seq<Digest>, seen: set<Digest>,
                       done: set<Digest>, successors: Preds, deps: Preds, op: Digest)
    requires op in preds && Worklist(preds, past, hs, frontier, seen, done, {op})
    requires Recorded(preds, seen, done, successors, deps, op, preds[op])
    ensures Worklist(preds, past, hs, frontier, seen, done + {op}, {})
  {}

  lemma AllSeen(preds: Preds, past: Preds, hs: set<Digest>, seen: set<Digest>, done: set<Digest>)
    requires IsPast(preds, past) && Worklist(preds, past, hs, [], seen, done, {})
    ensures seen == done == Ancestors(past, hs) && Down(preds, seen)
  {
    AncestorsLeast(preds, past, hs, seen);
  }

  /** A predecessor of an ancestor is an ancestor. */
  lemma AncestorsDown(preds: Preds, past: Preds, hs: set<Digest>, op: Digest, p: Digest)
    requires IsPast(preds, past) && hs <= preds.Keys && op in Ancestors(past, hs) && op in preds && p in preds[op]
    ensures p in Ancestors(past, hs) && p in preds && p != op
  {
    if op in hs {
      assert op in past && p in past[op];
    } else {
      var h :| h in hs && h in past && op in past[h];
      PastTransitive(preds, past, h, op);
      assert p in past[op];
    }
  }

  lemma {:induction false} AncestorsLeast(preds: Preds, past: Preds, hs: set<Digest>, seen: set<Digest>)
    requires IsPast(preds, past) && Down(preds, seen) && hs <= seen
    ensures Ancestors(past, hs) <= seen
  {
    forall x | x in Behind(past, hs)
      ensures x in seen
    {
      var h :| h in hs && h in past && x in past[h];
      DownHoldsPast(preds, past, seen, h);
    }
  }

  /** One edge: `p` is a predecessor of `op`. */
  lemma RecordEdge(preds: Preds, seen: set<Digest>, done: set<Digest>, successors: Preds, deps: Preds, deps': Preds,
                   op: Digest, part: set<Digest>, p: Digest)
    requires Recorded(preds, seen, done, successors, deps, op, part) && Extended(deps, op, p, deps') && p != op
    ensures Recorded(preds, seen + {p}, done, AddEntry(successors, p, op), deps', op, part + {p})
  {
    hide SuccsRecorded, DepsRecorded, Entry, AddEntry, Extended;
    RecordEdgeDeps(preds, done, successors, deps, deps', op, part, p);
    RecordEdgeSuccs(preds, done, successors, op, part, p);
  }

  lemma RecordEdgeSuccs(preds: Preds, done: set<Digest>, successors: Preds, op: Digest, part: set<Digest>, p: Digest)
    requires SuccsRecorded(preds, done, successors, op, part)
    ensures SuccsRecorded(preds, done, AddEntry(successors, p, op), op, part + {p})
  {
    hide Succs, Entry, AddEntry;
  }

  lemma RecordEdgeDeps(preds: Preds, done: set<Digest>, successors: Preds, deps: Preds, deps': Preds,
                       op: Digest, part: set<Digest>, p: Digest)
    requires DepsRecorded(preds, done, successors, deps, op, part) && Extended(deps, op, p, deps') && op !in done
    ensures DepsRecorded(preds, done, AddEntry(successors, p, op), deps', op, part + {p})
  {
    hide Entry, AddEntry;
    var successors' := AddEntry(successors, p, op);
    assert op in Entry(successors', p) && p in Entry(deps', op);
    forall x
      ensures x in deps' <==> Entry(deps', x) != {} || Entry(successors', x) != {}
    {
      assert x in deps' <==> x in deps || x == op || x == p;
    }
  }

  lemma GrowWorklist(preds: Preds, past: Preds, hs: set<Digest>, frontier: seq<Digest>, seen: set<Digest>,
                     done: set<Digest>, op: Digest, p: Digest)
    requires Worklist(preds, past, hs, frontier, seen, done, {op}) && p in preds && p in Ancestors(past, hs)
    ensures Worklist(preds, past, hs, if p in seen then frontier else frontier + [p], seen + {p}, done, {op})
  {
    assert ToSet(frontier + [p]) == ToSet(frontier) + {p};
    assert p in seen ==> seen + {p} == seen;
  }

  // ----- Layers -----

  /** What is still to come after `x`; an operation with no successors keeps itself as a mark. */
  ghost function Ahead(preds: Preds, a: set<Digest>, q: set<Digest>, x: Digest): set<Digest> {
    if Succs(preds, a, x) == {} then {x} else Succs(preds, a, x) - q
  }

  /** State of the layer loop once `q` has been taken. */
  ghost predicate LayerState(preds: Preds, a: set<Digest>, q: set<Digest>, deps: Preds, successors: Preds,
                             epochHeads: set<Digest>)
    requires Down(preds, a)
  {
    && q <= a && Down(preds, q)
    && deps.Keys == a - q && (forall x :: x in deps ==> deps[x] == preds[x] - q)
    && successors.Keys == a && (forall x :: x in a && x !in q ==> successors[x] == Succs(preds, a, x))
    && epochHeads == Open(preds, a, q) && (forall x :: x in epochHeads ==> successors[x] == Ahead(preds, a, q, x))
  }

  /** What the two inner loops do to the successor sets and the open ends. */
  ghost predicate Marked(successors: Preds, epochHeads: set<Digest>, layer: set<Digest>,
                         successors': Preds, epochHeads': set<Digest>)
  {
    && successors'.Keys == successors.Keys
    && (forall x :: x in successors && x !in epochHeads + layer ==> successors'[x] == successors[x])
    && (forall x :: x in successors && x in epochHeads + layer ==>
          successors'[x] == (if x in layer && successors[x] == {} then {x} else successors[x]) - (layer - {x}))
    && (forall x :: x in epochHeads' <==> x in epochHeads + layer && x in successors' && successors'[x] != {})
  }

  /** The taken operations are dropped from the successor sets of the other open ends. */
  ghost predicate Dropped(marked: Preds, epochHeads: set<Digest>, taken: set<Digest>, successors: Preds) {
    && successors.Keys == marked.Keys
    && forall x :: x in successors ==>
         successors[x] == if x in epochHeads then marked[x] - (taken - {x}) else marked[x]
  }

  lemma DropStep(marked: Preds, epochHeads: set<Digest>, taken: set<Digest>, successors: Preds, d: Digest,
                 successors': Preds)
    requires Dropped(marked, epochHeads, taken, successors) && successors'.Keys == successors.Keys
    requires forall x :: x in successors' ==>
               successors'[x] == if x in epochHeads && x != d then successors[x] - {d} else successors[x]
    ensures Dropped(marked, epochHeads, taken + {d}, successors')
  {}

  lemma NothingDropped(marked: Preds, epochHeads: set<Digest>)
    ensures Dropped(marked, epochHeads, ToSet([]), marked)
  {}

  lemma TakeOne(layer: seq<Digest>, k: nat)
    requires k < |layer|
    ensures ToSet(layer[..k + 1]) == ToSet(layer[..k]) + {layer[k]}
  {
    assert layer[..k + 1] == layer[..k] + [layer[k]];
  }

  /** A taken operation without successors marks itself. */
  ghost predicate SelfMarked(successors: Preds, layer: set<Digest>, marked: Preds) {
    && marked.Keys == successors.Keys
    && forall x :: x in marked ==> marked[x] == if x in layer && successors[x] == {} then {x} else successors[x]
  }

  lemma MarkedFrom(successors: Preds, epochHeads: set<Digest>, layer: set<Digest>, marked: Preds, successors': Preds)
    requires SelfMarked(successors, layer, marked) && Dropped(marked, epochHeads + layer, layer, successors')
    requires epochHeads + layer <= successors.Keys
    ensures successors'.Keys == successors.Keys
    ensures Marked(successors, epochHeads, layer, successors', set h | h in epochHeads + layer && successors'[h] != {})
  {}

  /** No successor of an operation about to be taken has been taken. */
  lemma SuccsComeLater(preds: Preds, a: set<Digest>, q: set<Digest>, x: Digest, y: Digest)
    requires Down(preds, a) && Down(preds, q) && x !in q && y in a && x in preds[y]
    ensures y !in q && y !in Ready(preds, a, q)
  {}

  lemma MarkedAhead(preds: Preds, a: set<Digest>, q: set<Digest>, successors: Preds, epochHeads: set<Digest>,
                    successors': Preds, epochHeads': set<Digest>, x: Digest)
    requires Down(preds, a) && q <= a && Down(preds, q) && successors.Keys == a
    requires forall x :: x in a && x !in q ==> successors[x] == Succs(preds, a, x)
    requires forall x :: x in epochHeads ==> x in a && successors[x] == Ahead(preds, a, q, x)
    requires epochHeads <= q && Marked(successors, epochHeads, Ready(preds, a, q), successors', epochHeads')
    requires x in epochHeads + Ready(preds, a, q)
    ensures successors'[x] == Ahead(preds, a, q + Ready(preds, a, q), x)
  {
    var ready := Ready(preds, a, q);
    if x in ready {
      forall y | y in Succs(preds, a, x)
        ensures y !in q && y !in ready
      {
        SuccsComeLater(preds, a, q, x, y);
      }
      assert Succs(preds, a, x) - (ready - {x}) == Succs(preds, a, x) - (q + ready);
    } else if Succs(preds, a, x) != {} {
      assert (Succs(preds, a, x) - q) - (ready - {x}) == Succs(preds, a, x) - (q + ready);
    }
  }

  lemma AheadIsOpen(preds: Preds, a: set<Digest>, q: set<Digest>, x: Digest)
    requires Down(preds, a) && q <= a
    ensures IsOpen(preds, a, q, x) <==> Ahead(preds, a, q, x) != {}
  {
    if IsOpen(preds, a, q, x) && Succs(preds, a, x) != {} {
      var z :| z in Succs(preds, a, x);
      var y :| y in a && y !in q && x in preds[y];
      assert y in Succs(preds, a, x) - q;
    }
    if Ahead(preds, a, q, x) != {} {
      if Succs(preds, a, x) == {} {
        assert forall y :: y in a ==> y in preds && (x in preds[y] ==> y in Succs(preds, a, x));
      } else {
        var y :| y in Succs(preds, a, x) - q;
      }
    }
  }

  /** Once an operation is no longer open it stays so. */
  lemma ClosedStaysClosed(preds: Preds, a: set<Digest>, q: set<Digest>, q': set<Digest>, x: Digest)
    requires Down(preds, a) && q <= q' <= a && IsOpen(preds, a, q', x)
    ensures IsOpen(preds, a, q, x)
  {}

  lemma LayerStep(preds: Preds, a: set<Digest>, q: set<Digest>, deps: Preds, successors: Preds, epochHeads: set<Digest>,
                  deps': Preds, successors': Preds, epochHeads': set<Digest>)
    requires Down(preds, a) && LayerState(preds, a, q, deps, successors, epochHeads)
    requires var ready := Ready(preds, a, q);
             && deps'.Keys == deps.Keys - ready && (forall x :: x in deps' ==> deps'[x] == deps[x] - ready)
             && Marked(successors, epochHeads, ready, successors', epochHeads')
    ensures LayerState(preds, a, q + Ready(preds, a, q), deps', successors', epochHeads')
  {
    hide Marked, Ahead, Succs, IsOpen;
    var ready := Ready(preds, a, q);
    var q' := q + ready;
    ReadyIsDown(preds, a, q);
    forall x | x in epochHeads + ready
      ensures x in successors' && successors'[x] == Ahead(preds, a, q', x)
    {
      MarkedAhead(preds, a, q, successors, epochHeads, successors', epochHeads', x);
      MarkedKeys(successors, epochHeads, ready, successors', epochHeads');
    }
    OpenStep(preds, a, q, successors, epochHeads, successors', epochHeads');
    MarkedKeys(successors, epochHeads, ready, successors', epochHeads');
  }

  lemma MarkedKeys(successors: Preds, epochHeads: set<Digest>, layer: set<Digest>, successors': Preds,
                   epochHeads': set<Digest>)
    requires Marked(successors, epochHeads, layer, successors', epochHeads')
    ensures successors'.Keys == successors.Keys && epochHeads' <= epochHeads + layer
    ensures forall x :: x in successors && x !in epochHeads + layer ==> successors'[x] == successors[x]
  {}

  lemma OpenStep(preds: Preds, a: set<Digest>, q: set<Digest>, successors: Preds, epochHeads: set<Digest>,
                 successors': Preds, epochHeads': set<Digest>)
    requires Down(preds, a) && q <= a && Down(preds, q) && epochHeads == Open(preds, a, q)
    requires Marked(successors, epochHeads, Ready(preds, a, q), successors', epochHeads')
    requires forall x :: x in epochHeads + Ready(preds, a, q) ==>
               x in successors' && successors'[x] == Ahead(preds, a, q + Ready(preds, a, q), x)
    ensures q + Ready(preds, a, q) <= a && epochHeads' == Open(preds, a, q + Ready(preds, a, q))
  {
    hide IsOpen, Ahead;
    var ready := Ready(preds, a, q);
    var q' := q + ready;
    ReadyIsDown(preds, a, q);
    forall x
      ensures x in epochHeads' <==> x in Open(preds, a, q')
    {
      AheadIsOpen(preds, a, q', x);
      if x in q && IsOpen(preds, a, q', x) {
        ClosedStaysClosed(preds, a, q, q', x);
      }
    }
  }

  lemma NothingLeft(s: set<Digest>, q: set<Digest>)
    ensures s - q == {} <==> s <= q
  {
    if s - q == {} {
      forall x | x in s
        ensures x in q
      {
        assert x in q || x in s - q;
      }
    }
  }

  /** The nodes without remaining dependencies are the ready operations. */
  lemma PoppedIsReady(preds: Preds, a: set<Digest>, q: set<Digest>, deps: Preds, successors: Preds,
                      epochHeads: set<Digest>)
    requires Down(preds, a) && LayerState(preds, a, q, deps, successors, epochHeads)
    ensures (set x | x in deps && deps[x] == {}) == Ready(preds, a, q)
  {
    forall x | x in deps
      ensures deps[x] == {} <==> preds[x] <= q
    {
      NothingLeft(preds[x], q);
    }
  }

  // ----- The first layer -----

  /** At most one operation has no predecessors: the initial add. */
  ghost predicate SingleRoot(preds: Preds) {
    forall d, e :: d in preds && e in preds && preds[d] == {} && preds[e] == {} ==> d == e
  }

  lemma {:induction false} RootIsPast(preds: Preds, past: Preds, r: Digest, y: Digest)
    requires IsPast(preds, past) && SingleRoot(preds) && r in preds && preds[r] == {} && y in preds && y != r
    ensures r in past[y]
    decreases |past[y]|
  {
    assert preds[y] != {};
    var p :| p in preds[y];
    PredIsSmaller(preds, past, y, p);
    if p != r {
      RootIsPast(preds, past, r, p);
    }
  }

  /** Either the only ancestor is the root, or every ancestor has an edge. */
  lemma AllHaveEdges(preds: Preds, past: Preds, a: set<Digest>, x: Digest, y: Digest)
    requires IsPast(preds, past) && SingleRoot(preds) && Down(preds, a) && x in a && y in a && x != y
    ensures preds[x] != {} || Succs(preds, a, x) != {}
  {
    if preds[x] == {} {
      RootIsPast(preds, past, x, y);
      var z := PastHasSuccessor(preds, past, x, y);
      DownHoldsPast(preds, past, a, y);
      assert z in Succs(preds, a, x);
    }
  }

  lemma StartLayers(preds: Preds, past: Preds, a: set<Digest>, successors: Preds, deps: Preds)
    requires IsPast(preds, past) && SingleRoot(preds) && Down(preds, a) && Collecting(preds, a, a, successors, deps)
    requires deps.Keys != {}
    ensures LayerState(preds, a, {}, deps, successors, {})
  {
    hide IsPast, SingleRoot, Collecting, Succs, Entry;
    assert deps.Keys == a by {
      forall x | x in a
        ensures x in deps
      {
        EveryoneHasEdge(preds, past, a, successors, deps, x);
      }
      forall x | x in deps
        ensures x in a
      {
        InAncestors(preds, a, successors, deps, x);
      }
    }
    forall x | x in a
      ensures x in successors && successors[x] == Succs(preds, a, x) && deps[x] == preds[x]
    {
      CollectedAt(preds, a, successors, deps, x);
    }
    assert successors.Keys == a by {
      CollectedKeys(preds, a, successors, deps);
    }
  }

  lemma CollectedKeys(preds: Preds, a: set<Digest>, successors: Preds, deps: Preds)
    requires Collecting(preds, a, a, successors, deps)
    ensures successors.Keys == a
  {}

  lemma CollectedAt(preds: Preds, a: set<Digest>, successors: Preds, deps: Preds, x: Digest)
    requires Collecting(preds, a, a, successors, deps) && a <= preds.Keys && x in a && x in deps
    ensures x in successors && successors[x] == Succs(preds, a, x) && deps[x] == preds[x]
  {
    assert Entry(successors, x) == Succs(preds, a, x);
    assert Entry(deps, x) == Entry(preds, x);
  }

  lemma EveryoneHasEdge(preds: Preds, past: Preds, a: set<Digest>, successors: Preds, deps: Preds, x: Digest)
    requires IsPast(preds, past) && SingleRoot(preds) && Down(preds, a) && Collecting(preds, a, a, successors, deps)
    requires deps.Keys != {} && x in a
    ensures x in deps
  {
    hide IsPast, SingleRoot;
    if y :| y in a && y != x {
      AllHaveEdges(preds, past, a, x, y);
      assert Entry(preds, x) == preds[x] && Entry(successors, x) == Succs(preds, a, x);
    } else {
      var w :| w in deps;
      InAncestors(preds, a, successors, deps, w);
    }
  }

  lemma InAncestors(preds: Preds, a: set<Digest>, successors: Preds, deps: Preds, x: Digest)
    requires Down(preds, a) && Collecting(preds, a, a, successors, deps) && x in deps
    ensures x in a
  {
    assert Entry(deps, x) != {} || Entry(successors, x) != {};
  }

  /** Without edges the only ancestor is the root, and it is the only epoch. */
  lemma LoneRoot(preds: Preds, past: Preds, hs: set<Digest>, a: set<Digest>, successors: Preds, deps: Preds,
                 list: seq<Digest>)
    requires IsPast(preds, past) && SingleRoot(preds) && Down(preds, a) && Collecting(preds, a, a, successors, deps)
    requires deps.Keys == {}
    requires hs != {} && hs <= a && Distinct(list) && ToSet(list) == hs
    ensures EpochsOf(preds, a) == [list]
  {
    hide EpochsOf, Collecting, IsPast, Distinct;
    var r :| r in hs;
    NoEdges(preds, a, successors, deps, r);
    forall x | x in a
      ensures x == r
    {
      NoEdges(preds, a, successors, deps, x);
    }
    assert a == {r} && hs == {r};
    SingleList(list, r);
    RootEpoch(preds, r);
  }

  lemma NoEdges(preds: Preds, a: set<Digest>, successors: Preds, deps: Preds, x: Digest)
    requires Down(preds, a) && Collecting(preds, a, a, successors, deps) && deps.Keys == {} && x in a
    ensures preds[x] == {}
  {
    assert x !in deps && Entry(deps, x) == {};
    assert Entry(preds, x) == preds[x];
  }

  lemma SingleList(list: seq<Digest>, r: Digest)
    requires Distinct(list) && ToSet(list) == {r}
    ensures list == [r]
  {
    DistinctCount(list);
    assert list[0] in ToSet(list);
  }

  lemma RootEpoch(preds: Preds, r: Digest)
    requires r in preds && preds[r] == {}
    ensures Down(preds, {r}) && EpochsOf(preds, {r}) == [[r]]
  {
    assert Ready(preds, {r}, {}) == {r};
    assert {} + {r} == {r};
    assert Open(preds, {r}, {r}) == {r};
    SortedSingle(r);
    assert Ready(preds, {r}, {r}) == {};
    assert CutFrom(preds, {r}, {r}, []) == [];
  }

  lemma HeadsAreAncestors(past: Preds, hs: set<Digest>)
    ensures hs <= Ancestors(past, hs)
  {}

  lemma FirstCut(preds: Preds, a: set<Digest>)
    requires Down(preds, a)
    ensures [] + CutFrom(preds, a, {}, []) == EpochsOf(preds, a)
  {}

  lemma LayerBounds(preds: Preds, past: Preds, a: set<Digest>, q: set<Digest>, deps: Preds, successors: Preds,
                    epochHeads: set<Digest>)
    requires IsPast(preds, past) && Down(preds, a) && LayerState(preds, a, q, deps, successors, epochHeads)
    requires deps != map[]
    ensures Ready(preds, a, q) != {} && Ready(preds, a, q) <= successors.Keys && epochHeads <= successors.Keys
    ensures q + Ready(preds, a, q) <= a && |a - (q + Ready(preds, a, q))| < |a - q|
  {
    var y :| y in deps;
    ReadyExists(preds, past, a, q, y);
    LessRemains(a, q, Ready(preds, a, q));
  }

  lemma LayerHeads(preds: Preds, a: set<Digest>, q: set<Digest>, deps: Preds, successors: Preds,
                   epochHeads: set<Digest>)
    requires Down(preds, a) && LayerState(preds, a, q, deps, successors, epochHeads)
    ensures q <= a && epochHeads == Open(preds, a, q)
  {}

  /** One turn of the layer loop is one unfolding of the cut. */
  lemma NextCut(preds: Preds, a: set<Digest>, q: set<Digest>, acc: seq<Digest>, epochs: seq<seq<Digest>>)
    requires Down(preds, a) && q <= a && Ready(preds, a, q) != {} && q + Ready(preds, a, q) <= a
    ensures var ready := Ready(preds, a, q); var q' := q + ready; var layer := Sorted(ready);
            epochs + CutFrom(preds, a, q, acc)
            == if |Open(preds, a, q')| <= 1
               then (if acc == [] then epochs else epochs + [acc]) + [layer] + CutFrom(preds, a, q', [])
               else epochs + CutFrom(preds, a, q', acc + layer)
  {}

  lemma LastCut(preds: Preds, a: set<Digest>, q: set<Digest>, deps: Preds, successors: Preds, epochHeads: set<Digest>,
                acc: seq<Digest>)
    requires Down(preds, a) && LayerState(preds, a, q, deps, successors, epochHeads) && deps == map[] && q <= a
    ensures CutFrom(preds, a, q, acc) == Flush(acc)
  {
    assert a - q == {};
    assert Ready(preds, a, q) == {};
  }

  class CgkaOperationGraph {
    var ops: map<Digest, Op>
    var preds: Preds
    var heads: set<Digest>
    var addHeads: set<Digest>

    function Model(): OpGraph
      reads this
    {
      OpGraph(ops, preds, heads, addHeads)
    }

    constructor ()
      ensures Model() == EmptyGraph() && SoundGraph(Model())
    {
      ops, preds, heads, addHeads := map[], map[], {}, {};
      new;
      EmptyIsSound();
    }

    /** `heads_contained_in`. */
    method HeadsContainedIn(hs: set<Digest>) returns (b: bool)
      ensures b <==> heads <= hs
    {
      var todo := heads;
      while todo != {}
        invariant todo <= heads && heads - todo <= hs
        decreases |todo|
      {
        var h :| h in todo;
        if h !in hs {
          return false;
        }
        todo := todo - {h};
      }
      return true;
    }

    /** `add_op_and_update_heads`. */
    method AddOpAndUpdateHeads(d: Digest, op: Op, external: Option<set<Digest>>)
      modifies this
      ensures Model() == AddOp(old(Model()), d, op, external)
      ensures MayAdd(old(Model()), d, op, external) ==> SoundGraph(Model())
    {
      hide MayAdd;
      ghost var g := Model();
      var opPreds := {};
      ops := ops[d := op];
      if external.Some? {
        opPreds := ReplaceHeads(external.value);
        if op.Add? {
          addHeads := addHeads - op.addPreds;
        }
      } else {
        opPreds := heads;
        heads := {};
        if op.Add? {
          addHeads := {};
        }
      }
      heads := heads + {d};
      if op.Add? {
        addHeads := addHeads + {d};
      }
      preds := preds[d := opPreds];
      if MayAdd(g, d, op, external) {
        AddOpSound(g, d, op, external);
      }
    }

    /** The predecessors of a received operation are no longer heads. */
    method ReplaceHeads(hs: set<Digest>) returns (opPreds: set<Digest>)
      modifies this`heads
      ensures opPreds == hs && heads == old(heads) - hs
    {
      opPreds := {};
      var todo := hs;
      while todo != {}
        invariant todo <= hs && opPreds == hs - todo && heads == old(heads) - opPreds
        decreases |todo|
      {
        var h :| h in todo;
        todo := todo - {h};
        opPreds := opPreds + {h};
        heads := heads - {h};
      }
    }

    // ----- Sorting -----

    /** Record the dependency edges of one operation. */
    static method VisitPredecessors(preds: Preds, op: Digest, frontier0: seq<Digest>, seen0: set<Digest>,
                                    successors0: Preds,
                             dependencies: TopologicalSort, ghost past: Preds, ghost hs: set<Digest>,
                               ghost done: set<Digest>)
      returns (frontier: seq<Digest>, seen: set<Digest>, successors: Preds)
      requires IsPast(preds, past) && hs <= preds.Keys && op in preds && op in Ancestors(past, hs) &&
               dependencies.Valid()
      requires Worklist(preds, past, hs, frontier0, seen0, done, {op})
      requires Recorded(preds, seen0, done, successors0, dependencies.deps, op, {})
      modifies dependencies
      ensures dependencies.Valid()
      ensures Worklist(preds, past, hs, frontier, seen, done, {op})
      ensures Recorded(preds, seen, done, successors, dependencies.deps, op, preds[op])
    {
      hide Worklist, Recorded, IsPast, Inverse, Ancestors;
      frontier, seen, successors := frontier0, seen0, successors0;
      var todo := preds[op];
      ghost var part: set<Digest> := {};
      while todo != {}
        invariant part + todo == preds[op] && dependencies.Valid()
        invariant Worklist(preds, past, hs, frontier, seen, done, {op})
        invariant Recorded(preds, seen, done, successors, dependencies.deps, op, part)
        decreases |todo|
      {
        var p :| p in todo;
        frontier, seen, successors :=
          RecordPredecessor(preds, op, p, frontier, seen, successors, dependencies, past, hs, done, part);
        todo, part := todo - {p}, part + {p};
      }
      assert part == preds[op];
    }

    /** Record the edge from one predecessor. */
    static method RecordPredecessor(preds: Preds, op: Digest, p: Digest, frontier0: seq<Digest>, seen0: set<Digest>,
                                    successors0: Preds, dependencies: TopologicalSort, ghost past: Preds,
                                    ghost hs: set<Digest>, ghost done: set<Digest>, ghost part: set<Digest>)
      returns (frontier: seq<Digest>, seen: set<Digest>, successors: Preds)
      requires IsPast(preds, past) && hs <= preds.Keys && op in preds && op in Ancestors(past, hs) &&
               dependencies.Valid()
      requires p in preds[op] && Worklist(preds, past, hs, frontier0, seen0, done, {op})
      requires Recorded(preds, seen0, done, successors0, dependencies.deps, op, part)
      modifies dependencies
      ensures dependencies.Valid()
      ensures Worklist(preds, past, hs, frontier, seen, done, {op})
      ensures Recorded(preds, seen, done, successors, dependencies.deps, op, part + {p})
    {
      hide Worklist, Recorded, IsPast, Inverse, Extended, Ancestors, AddEntry;
      AncestorsDown(preds, past, hs, op, p);
      GrowWorklist(preds, past, hs, frontier0, seen0, done, op, p);
      ghost var before: Preds := dependencies.deps;
      dependencies.AddDependency(p, op);
      RecordEdge(preds, seen0, done, successors0, before, dependencies.deps, op, part, p);
      successors := AddEntry(successors0, p, op);
      frontier := frontier0;
      if p !in seen0 {
        frontier := frontier + [p];
      }
      seen := seen0 + {p};
    }

    /** The worklist loop of `topsort_for_heads`: collects the ancestors of the heads with
        their dependency edges and successor sets. */
    static method CollectAncestors(preds: Preds, hs: set<Digest>, ghost past: Preds)
      returns (dependencies: TopologicalSort, successors: Preds, seen: set<Digest>)
      requires IsPast(preds, past) && hs <= preds.Keys
      ensures fresh(dependencies) && dependencies.Valid()
      ensures seen == Ancestors(past, hs) && Down(preds, seen)
      ensures Collecting(preds, seen, seen, successors, dependencies.deps)
    {
      hide IsPast, Inverse, Worklist, Recorded, Collecting, Ancestors, Distinct, NoSuccessors, ToSet, Down;
      dependencies := new TopologicalSort();
      successors := NoSuccessors(hs);
      var frontier := ListHeads(hs);
      seen := hs;
      ghost var done: set<Digest> := {};
      StartCollecting(preds, past, hs, frontier, successors);
      while frontier != []
        invariant Worklist(preds, past, hs, frontier, seen, done, {})
        invariant Collecting(preds, seen, done, successors, dependencies.deps)
        invariant fresh(dependencies) && dependencies.Valid()
        decreases |preds.Keys - done|
      {
        ghost var op := frontier[0];
        WaitingIsKnown(preds, past, hs, frontier, seen, done);
        frontier, seen, successors := VisitNext(preds, frontier, seen, successors, dependencies, past, hs, done);
        done := done + {op};
      }
      AllSeen(preds, past, hs, seen, done);
    }

    /** Take the first operation off the worklist and record its edges. */
    static method VisitNext(preds: Preds, frontier0: seq<Digest>, seen0: set<Digest>, successors0: Preds,
                     dependencies: TopologicalSort, ghost past: Preds, ghost hs: set<Digest>, ghost done: set<Digest>)
      returns (frontier: seq<Digest>, seen: set<Digest>, successors: Preds)
      requires IsPast(preds, past) && hs <= preds.Keys && dependencies.Valid() && frontier0 != []
      requires Worklist(preds, past, hs, frontier0, seen0, done, {})
      requires Collecting(preds, seen0, done, successors0, dependencies.deps)
      modifies dependencies
      ensures dependencies.Valid()
      ensures Worklist(preds, past, hs, frontier, seen, done + {frontier0[0]}, {})
      ensures Collecting(preds, seen, done + {frontier0[0]}, successors, dependencies.deps)
      ensures |preds.Keys - (done + {frontier0[0]})| < |preds.Keys - done|
    {
      hide IsPast, Inverse, Worklist, Recorded, Collecting, Ancestors, Distinct, ToSet;
      var op := frontier0[0];
      StartVisit(preds, past, hs, frontier0, seen0, done, successors0, dependencies.deps);
      WaitingIsKnown(preds, past, hs, frontier0, seen0, done);
      frontier, seen, successors := VisitPredecessors(preds, op, frontier0[1..], seen0, successors0, dependencies,
        past, hs, done);
      EndVisit(preds, seen, done, successors, dependencies.deps, op);
      FinishWorklist(preds, past, hs, frontier, seen, done, successors, dependencies.deps, op);
      Fewer(preds.Keys, done, op);
    }

    /** The first inner loop: a taken operation becomes an open end, and one without
        successors marks itself. */
    static method OpenLayer(successors0: Preds, epochHeads0: set<Digest>, layer: seq<Digest>)
      returns (successors: Preds, epochHeads: set<Digest>)
      requires ToSet(layer) <= successors0.Keys
      ensures epochHeads == epochHeads0 + ToSet(layer) && SelfMarked(successors0, ToSet(layer), successors)
      ensures epochHeads0 <= successors0.Keys ==> epochHeads <= successors.Keys
    {
      successors, epochHeads := successors0, epochHeads0;
      var k := 0;
      while k < |layer|
        invariant 0 <= k <= |layer| && epochHeads == epochHeads0 + ToSet(layer[..k])
        invariant SelfMarked(successors0, ToSet(layer[..k]), successors)
      {
        var d := layer[k];
        assert d in ToSet(layer);
        TakeOne(layer, k);
        epochHeads := epochHeads + {d};
        if successors[d] == {} {
          successors := successors[d := {d}];
        }
        k := k + 1;
      }
      assert layer[..k] == layer;
    }

    /** Drop one taken operation from the successor sets of the other open ends. */
    static method DropTaken(successors0: Preds, epochHeads: set<Digest>, d: Digest) returns (successors: Preds)
      requires epochHeads <= successors0.Keys
      ensures successors.Keys == successors0.Keys
      ensures forall x :: x in successors ==>
                successors[x] == if x in epochHeads && x != d then successors0[x] - {d} else successors0[x]
    {
      successors := successors0;
      var todo := epochHeads;
      while todo != {}
        invariant todo <= epochHeads && successors.Keys == successors0.Keys
        invariant forall x :: x in successors ==>
                    successors[x] == if x in epochHeads - todo && x != d then successors0[x] - {d} else successors0[x]
        decreases |todo|
      {
        var h :| h in todo;
        todo := todo - {h};
        if h != d {
          successors := successors[h := successors[h] - {d}];
        }
      }
    }

    /** The inner loops over one layer of `topsort_for_heads`. */
    static method MarkLayer(successors0: Preds, epochHeads0: set<Digest>, layer: seq<Digest>)
      returns (successors: Preds, epochHeads: set<Digest>)
      requires ToSet(layer) <= successors0.Keys && epochHeads0 <= successors0.Keys
      ensures Marked(successors0, epochHeads0, ToSet(layer), successors, epochHeads)
    {
      hide Dropped, Marked, SelfMarked, ToSet;
      successors, epochHeads := OpenLayer(successors0, epochHeads0, layer);
      ghost var marked: Preds := successors;
      NothingDropped(marked, epochHeads);
      var k := 0;
      while k < |layer|
        invariant 0 <= k <= |layer| && epochHeads <= successors.Keys
        invariant Dropped(marked, epochHeads, ToSet(layer[..k]), successors)
      {
        ghost var before: Preds := successors;
        successors := DropTaken(successors, epochHeads, layer[k]);
        DropStep(marked, epochHeads, ToSet(layer[..k]), before, layer[k], successors);
        TakeOne(layer, k);
        k := k + 1;
      }
      assert layer[..k] == layer;
      MarkedFrom(successors0, epochHeads0, ToSet(layer), marked, successors);
      epochHeads := set h | h in epochHeads && successors[h] != {};
    }

    /** `topsort_for_heads`: the ancestors of the heads, cut into epochs. The result depends
        on the predecessors alone, whatever order the hash maps are traversed in. */
    method TopsortForHeads(hs: set<Digest>, ghost past: Preds) returns (epochs: seq<seq<Digest>>)
      requires IsPast(preds, past) && SingleRoot(preds) && hs != {} && hs <= preds.Keys
      ensures Down(preds, Ancestors(past, hs)) && epochs == EpochsOf(preds, Ancestors(past, hs))
    {
      hide IsPast, Inverse, Ancestors, Collecting, SingleRoot, Down, LayerState, Marked, EpochsOf, Distinct, Ready,
           CutFrom, Open;
      var dependencies, successors, a := CollectAncestors(preds, hs, past);
      var empty := dependencies.IsEmpty();
      if empty {
        var list := ListHeads(hs);
        HeadsAreAncestors(past, hs);
        LoneRoot(preds, past, hs, a, successors, dependencies.deps, list);
        return [list];
      }
      StartLayers(preds, past, a, successors, dependencies.deps);
      epochs := [];
      var epochHeads, nextEpoch: seq<Digest> := {}, [];
      ghost var q: set<Digest> := {};
      FirstCut(preds, a);
      while !empty
        invariant fresh(dependencies) && dependencies.Valid() && (empty <==> dependencies.deps == map[])
        invariant LayerState(preds, a, q, dependencies.deps, successors, epochHeads)
        invariant q <= a && epochs + CutFrom(preds, a, q, nextEpoch) == EpochsOf(preds, a)
        decreases |a - q|
      {
        ghost var deps0: Preds := dependencies.deps;
        var nextSet := dependencies.PopAll();
        PoppedIsReady(preds, a, q, deps0, successors, epochHeads);
        SortIsSorted(nextSet);
        var layer := SortDigests(nextSet);
        LayerBounds(preds, past, a, q, deps0, successors, epochHeads);
        ghost var successors1, heads1 := successors, epochHeads;
        successors, epochHeads := MarkLayer(successors, epochHeads, layer);
        LayerStep(preds, a, q, deps0, successors1, heads1, dependencies.deps, successors, epochHeads);
        LayerHeads(preds, a, q + Ready(preds, a, q), dependencies.deps, successors, epochHeads);
        NextCut(preds, a, q, nextEpoch, epochs);
        if |epochHeads| <= 1 {
          if nextEpoch != [] {
            epochs := epochs + [nextEpoch];
          }
          epochs := epochs + [layer];
          nextEpoch := [];
        } else {
          nextEpoch := nextEpoch + layer;
        }
        q := q + Ready(preds, a, q);
        empty := dependencies.IsEmpty();
      }
      LastCut(preds, a, q, dependencies.deps, successors, epochHeads, nextEpoch);
      if nextEpoch != [] {
        epochs := epochs + [nextEpoch];
      }
    }

    /** The heads in the arbitrary order of the hash set. */
    static method ListHeads(hs: set<Digest>) returns (frontier: seq<Digest>)
      ensures Distinct(frontier) && ToSet(frontier) == hs
    {
      frontier := [];
      var todo := hs;
      while todo != {}
        invariant todo <= hs && Distinct(frontier) && ToSet(frontier) == hs - todo
        decreases |todo|
      {
        var h :| h in todo;
        todo := todo - {h};
        assert h !in ToSet(frontier);
        assert ToSet(frontier + [h]) == ToSet(frontier) + {h};
        frontier := frontier + [h];
      }
    }
  }

  lemma Fewer(all: set<Digest>, done: set<Digest>, op: Digest)
    requires op in all && op !in done
    ensures |all - (done + {op})| < |all - done|
  {
    assert all - done == (all - (done + {op})) + {op};
  }
}
