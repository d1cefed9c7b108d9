/** The topological sort of `topsort.rs`. */
module TopSort {
  import opened Seqs
  import opened Operations
  import opened Epochs

  /** The entry of a map of sets, empty by default. */
  function Entry(m: Preds, k: Digest): set<Digest> {
    if k in m then m[k] else {}
  }

  /** Add to the entry of a map of sets. */
  function AddEntry(m: Preds, k: Digest, v: Digest): (m': Preds)
    ensures m'.Keys == m.Keys + {k}
    ensures forall x :: Entry(m', x) == Entry(m, x) + if x == k then {v} else {}
  {
    m[k := Entry(m, k) + {v}]
  }

  ghost predicate Inverse(deps: Preds, rdeps: Preds) {
    && deps.Keys == rdeps.Keys
    && forall x, y :: x in Entry(deps, y) <==> y in Entry(rdeps, x)
  }

  /** `m'` is `m` with `v` added to the entry of `k`, and an entry for `v`. */
  ghost predicate Extended(m: Preds, k: Digest, v: Digest, m': Preds) {
    && m'.Keys == m.Keys + {k, v}
    && forall x :: Entry(m', x) == Entry(m, x) + if x == k then {v} else {}
  }

  function Extend(m: Preds, dependency: Digest, dependent: Digest): (m': Preds)
    ensures Extended(m, dependent, dependency, m')
  {
    AddEntry(m[dependency := Entry(m, dependency)], dependent, dependency)
  }

  lemma InverseExtended(deps: Preds, rdeps: Preds, deps': Preds, rdeps': Preds, k: Digest, v: Digest)
    requires Inverse(deps, rdeps) && Extended(deps, k, v, deps') && Extended(rdeps, v, k, rdeps')
    ensures Inverse(deps', rdeps')
  {
    hide Entry;
  }

  lemma InverseWithout(deps: Preds, rdeps: Preds, deps': Preds, node: Digest)
    requires Inverse(deps, rdeps) && Entry(deps, node) == {} && deps'.Keys == deps.Keys - {node}
    requires forall x :: Entry(deps', x) == Entry(deps, x) - {node}
    ensures Inverse(deps', rdeps - {node})
  {
    forall x
      ensures Entry(rdeps - {node}, x) == if x == node then {} else Entry(rdeps, x)
    {}
    hide Entry;
  }

  class TopologicalSort {
    /** For each node, the nodes it still depends on. */
    var deps: Preds
    /** For each node, the nodes that depend on it. */
    var rdeps: Preds

    ghost predicate Valid()
      reads this
    {
      Inverse(deps, rdeps)
    }

    constructor ()
      ensures Valid() && deps == map[]
    {
      deps := map[];
      rdeps := map[];
    }

    method AddDependency(dependency: Digest, dependent: Digest)
      requires Valid()
      modifies this
      ensures Valid()
      ensures Extended(old(deps), dependent, dependency, deps)
    {
      ghost var deps0: Preds, rdeps0: Preds := deps, rdeps;
      deps := Extend(deps, dependency, dependent);
      rdeps := Extend(rdeps, dependent, dependency);
      InverseExtended(deps0, rdeps0, deps, rdeps, dependent, dependency);
    }

    method IsEmpty() returns (b: bool)
      ensures b <==> deps == map[]
    {
      b := |deps| == 0;
    }

    /** All nodes without remaining dependencies, in the arbitrary order of the hash map. */
    method CollectReady() returns (ready: seq<Digest>)
      ensures Distinct(ready) && ToSet(ready) == set x | x in deps && deps[x] == {}
    {
      ready := [];
      var todo := deps.Keys;
      while todo != {}
        invariant todo <= deps.Keys && Distinct(ready)
        invariant forall x :: x in ready <==> x in deps && x !in todo && deps[x] == {}
        decreases |todo|
      {
        var x :| x in todo;
        todo := todo - {x};
        if deps[x] == {} {
          ready := ready + [x];
        }
      }
    }

    /** Forget a ready node: drop it from the sets of the nodes that depend on it. */
    method Release(node: Digest)
      requires Valid() && node in deps && deps[node] == {}
      modifies this
      ensures Valid() && deps.Keys == old(deps).Keys - {node}
      ensures forall x :: x in deps ==> deps[x] == old(deps)[x] - {node}
    {
      ghost var deps0: Preds, rdeps0: Preds := deps, rdeps;
      deps := deps - {node};
      var dependents := rdeps[node];
      rdeps := rdeps - {node};
      var todo := dependents;
      while todo != {}
        invariant todo <= dependents && rdeps == rdeps0 - {node} && deps.Keys == deps0.Keys - {node}
        invariant forall x :: x in deps && x !in todo && x in dependents ==> deps[x] == deps0[x] - {node}
        invariant forall x :: x in deps && (x in todo || x !in dependents) ==> deps[x] == deps0[x]
        decreases |todo|
      {
        var x :| x in todo;
        todo := todo - {x};
        if x in deps {
          deps := deps[x := deps[x] - {node}];
        }
      }
      forall x | x in deps
        ensures deps[x] == deps0[x] - {node}
      {
        assert node in Entry(deps0, x) <==> x in Entry(rdeps0, node);
      }
      InverseWithout(deps0, rdeps0, deps, node);
    }

    /** `pop_all`: take every node whose dependencies have all been taken. */
    method PopAll() returns (ready: seq<Digest>)
      requires Valid()
      modifies this
      ensures Valid() && Distinct(ready)
      ensures ToSet(ready) == set x | x in old(deps) && old(deps)[x] == {}
      ensures deps.Keys == old(deps).Keys - ToSet(ready)
      ensures forall x :: x in deps ==> deps[x] == old(deps)[x] - ToSet(ready)
    {
      ready := CollectReady();
      ghost var deps0: Preds := deps;
      var k := 0;
      while k < |ready|
        invariant 0 <= k <= |ready| && Valid()
        invariant deps.Keys == deps0.Keys - ToSet(ready[..k])
        invariant forall x :: x in deps ==> deps[x] == deps0[x] - ToSet(ready[..k])
      {
        assert ready[k] in ToSet(ready);
        assert ready[..k + 1] == ready[..k] + [ready[k]];
        Release(ready[k]);
        k := k + 1;
      }
      assert ready[..k] == ready;
    }
  }
}
