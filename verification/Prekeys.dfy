/** Reachable prekey operations: the query for one agent and the index for all agents.

    Transitive member maps are given, so cyclic membership needs no special care, and key
    operations are determined by the identifier. */
module Prekeys {

  type Identifier = nat
  type KeyOp = nat

  /** A group or document with its transitive members. */
  datatype Circle = Circle(id: Identifier, members: set<Identifier>)

  datatype Directory = Directory(
    active: Identifier,
    individuals: set<Identifier>,
    groups: seq<Circle>,
    docs: seq<Circle>)

  // ----- Who can be reached -----

  /** Everyone in a circle with `a`, and the circles themselves. */
  function ReachIn(cs: seq<Circle>, a: Identifier): set<Identifier> {
    if cs == [] then {}
    else
      var c := cs[|cs| - 1];
      ReachIn(cs[..|cs| - 1], a) + if a in c.members then {c.id} + c.members else {}
  }

  /** The identifiers whose key operations an agent is sent. */
  function Reach(dir: Directory, a: Identifier): set<Identifier> {
    {dir.active, a} + ReachIn(dir.groups + dir.docs, a)
  }

  function Everyone(cs: seq<Circle>): set<Identifier> {
    if cs == [] then {} else Everyone(cs[..|cs| - 1]) + cs[|cs| - 1].members
  }

  lemma ReachSnoc(cs: seq<Circle>, k: nat, a: Identifier)
    requires k < |cs|
    ensures ReachIn(cs[..k + 1], a)
         == ReachIn(cs[..k], a) + if a in cs[k].members then {cs[k].id} + cs[k].members else {}
    ensures Everyone(cs[..k + 1]) == Everyone(cs[..k]) + cs[k].members
  {
    assert cs[..k + 1][..k] == cs[..k];
  }

  lemma {:induction false} ReachAppend(cs: seq<Circle>, ds: seq<Circle>, a: Identifier)
    ensures ReachIn(cs + ds, a) == ReachIn(cs, a) + ReachIn(ds, a)
  {
    if ds == [] {
      assert cs + ds == cs;
    } else {
      ReachAppend(cs, ds[..|ds| - 1], a);
      assert (cs + ds)[..|cs + ds| - 1] == cs + ds[..|ds| - 1];
    }
  }

  /** Reaching somebody through circles means sharing one with them. */
  lemma {:induction false} ReachMeans(cs: seq<Circle>, a: Identifier, x: Identifier)
    ensures x in ReachIn(cs, a) <==>
            exists k :: 0 <= k < |cs| && a in cs[k].members && (x == cs[k].id || x in cs[k].members)
  {
    if cs != [] {
      var init := cs[..|cs| - 1];
      ReachMeans(init, a, x);
      assert forall k :: 0 <= k < |init| ==> init[k] == cs[k];
    }
  }

  /** The two share a group or document, or `x` is one that `a` belongs to. */
  ghost predicate Shares(cs: seq<Circle>, a: Identifier, x: Identifier) {
    exists c :: c in cs && a in c.members && (x == c.id || x in c.members)
  }

  /** Whose key operations an agent is to be sent: the active agent's, its own, and those of
      every group or document it belongs to and of all their members. */
  ghost predicate Reaches(dir: Directory, a: Identifier, x: Identifier) {
    x == dir.active || x == a || Shares(dir.groups, a, x) || Shares(dir.docs, a, x)
  }

  lemma ReachIff(dir: Directory, a: Identifier, x: Identifier)
    ensures x in Reach(dir, a) <==> Reaches(dir, a, x)
  {
    ReachAppend(dir.groups, dir.docs, a);
    SharesIff(dir.groups, a, x);
    SharesIff(dir.docs, a, x);
  }

  lemma SharesIff(cs: seq<Circle>, a: Identifier, x: Identifier)
    ensures x in ReachIn(cs, a) <==> Shares(cs, a, x)
  {
    ReachMeans(cs, a, x);
    if k :| 0 <= k < |cs| && a in cs[k].members && (x == cs[k].id || x in cs[k].members) {
      assert cs[k] in cs;
    }
  }

  ghost predicate IsMember(cs: seq<Circle>, x: Identifier) {
    exists c :: c in cs && x in c.members
  }

  lemma {:induction false} EveryoneMeans(cs: seq<Circle>, x: Identifier)
    ensures x in Everyone(cs) <==> IsMember(cs, x)
  {
    if cs != [] {
      var init, c := cs[..|cs| - 1], cs[|cs| - 1];
      EveryoneMeans(init, x);
      assert cs == init + [c];
    }
  }

  // ----- One agent -----

  /** The map holds the given identifiers, each with its own key operations. */
  ghost predicate Holds(m: map<Identifier, set<KeyOp>>, keyOps: Identifier -> set<KeyOp>, ids: set<Identifier>) {
    m.Keys == ids && forall id :: id in m ==> m[id] == keyOps(id)
  }

  lemma HoldsOneMore(m: map<Identifier, set<KeyOp>>, keyOps: Identifier -> set<KeyOp>, ids: set<Identifier>,
                     x: Identifier)
    requires Holds(m, keyOps, ids)
    ensures Holds(m[x := keyOps(x)], keyOps, ids + {x}) && Holds(AddManyKeys(m, x, keyOps(x)), keyOps, ids + {x})
    ensures x in m ==> ids + {x} == ids
  {
    assert x in m ==> m[x] + keyOps(x) == keyOps(x);
    assert x !in m ==> {} + keyOps(x) == keyOps(x);
  }

  /** `add_many_keys`. */
  function AddManyKeys(m: map<Identifier, set<KeyOp>>, id: Identifier, ops: set<KeyOp>): map<Identifier, set<KeyOp>> {
    m[id := (if id in m then m[id] else {}) + ops]
  }

  method AddMembers(m0: map<Identifier, set<KeyOp>>, members: set<Identifier>, keyOps: Identifier -> set<KeyOp>,
                    ghost ids: set<Identifier>)
    returns (m: map<Identifier, set<KeyOp>>)
    requires Holds(m0, keyOps, ids)
    ensures Holds(m, keyOps, ids + members)
  {
    hide Holds, AddManyKeys;
    m := m0;
    var todo := members;
    ghost var done: set<Identifier> := {};
    assert ids + {} == ids;
    while todo != {}
      invariant done + todo == members && Holds(m, keyOps, ids + done)
      decreases |todo|
    {
      var x :| x in todo;
      HoldsOneMore(m, keyOps, ids + done, x);
      assert ids + (done + {x}) == ids + done + {x};
      if x !in m {
        m := AddManyKeys(m, x, keyOps(x));
      }
      todo, done := todo - {x}, done + {x};
    }
    assert done == members;
  }

  /** The loop over groups, or over documents, for one agent. */
  method AddCircles(m0: map<Identifier, set<KeyOp>>, cs: seq<Circle>, a: Identifier, keyOps: Identifier -> set<KeyOp>,
                    ghost ids: set<Identifier>)
    returns (m: map<Identifier, set<KeyOp>>)
    requires Holds(m0, keyOps, ids)
    ensures Holds(m, keyOps, ids + ReachIn(cs, a))
  {
    hide Holds, AddManyKeys;
    m := m0;
    var k := 0;
    assert ids + ReachIn(cs[..0], a) == ids;
    while k < |cs|
      invariant 0 <= k <= |cs| && Holds(m, keyOps, ids + ReachIn(cs[..k], a))
    {
      ReachSnoc(cs, k, a);
      var c := cs[k];
      ghost var reached := ids + ReachIn(cs[..k], a);
      if a in c.members {
        HoldsOneMore(m, keyOps, reached, c.id);
        m := AddManyKeys(m, c.id, keyOps(c.id));
        m := AddMembers(m, c.members, keyOps, reached + {c.id});
        assert reached + {c.id} + c.members == ids + ReachIn(cs[..k + 1], a);
      } else {
        assert reached == ids + ReachIn(cs[..k + 1], a);
      }
      k := k + 1;
    }
    assert cs[..k] == cs;
  }

  /** The closing map: key operations in topological order. */
  function SortedOps(m: map<Identifier, set<KeyOp>>, topsort: set<KeyOp> -> seq<KeyOp>): map<Identifier, seq<KeyOp>> {
    map id | id in m :: topsort(m[id])
  }

  /** `reachable_prekey_ops_for_agent`. */
  method ReachableForAgent(dir: Directory, keyOps: Identifier -> set<KeyOp>, topsort: set<KeyOp> -> seq<KeyOp>,
                           a: Identifier)
    returns (r: map<Identifier, seq<KeyOp>>)
    ensures forall x :: x in r <==> Reaches(dir, a, x)
    ensures forall id :: id in r ==> r[id] == topsort(keyOps(id))
  {
    hide AddManyKeys;
    var m: map<Identifier, set<KeyOp>> := map[];
    HoldsOneMore(m, keyOps, {}, dir.active);
    m := AddManyKeys(m, dir.active, keyOps(dir.active));
    HoldsOneMore(m, keyOps, {} + {dir.active}, a);
    m := AddManyKeys(m, a, keyOps(a));
    ghost var own := {} + {dir.active} + {a};
    m := AddCircles(m, dir.groups, a, keyOps, own);
    m := AddCircles(m, dir.docs, a, keyOps, own + ReachIn(dir.groups, a));
    ReachAppend(dir.groups, dir.docs, a);
    r := SortedOps(m, topsort);
    assert r.Keys == Reach(dir, a);
    forall x
      ensures x in r <==> Reaches(dir, a, x)
    {
      ReachIff(dir, a, x);
    }
  }

  // ----- All agents -----

  /** Fill the cache with the key operations of identifiers it lacks. */
  method CacheIds(m0: map<Identifier, set<KeyOp>>, more: set<Identifier>, keyOps: Identifier -> set<KeyOp>,
                  ghost ids: set<Identifier>)
    returns (m: map<Identifier, set<KeyOp>>)
    requires Holds(m0, keyOps, ids)
    ensures Holds(m, keyOps, ids + more)
  {
    hide Holds;
    m := m0;
    var todo := more;
    ghost var done: set<Identifier> := {};
    assert ids + {} == ids;
    while todo != {}
      invariant done + todo == more && Holds(m, keyOps, ids + done)
      decreases |todo|
    {
      var x :| x in todo;
      HoldsOneMore(m, keyOps, ids + done, x);
      assert ids + (done + {x}) == ids + done + {x};
      if x !in m {
        m := m[x := keyOps(x)];
      }
      todo, done := todo - {x}, done + {x};
    }
    assert done == more;
  }

  /** The identifiers of circles and their members. */
  function CircleIds(cs: seq<Circle>): set<Identifier> {
    if cs == [] then {} else CircleIds(cs[..|cs| - 1]) + {cs[|cs| - 1].id} + cs[|cs| - 1].members
  }

  /** A group or document, or a member of one. */
  ghost predicate Involved(cs: seq<Circle>, x: Identifier) {
    exists c :: c in cs && (x == c.id || x in c.members)
  }

  lemma {:induction false} CircleIdsMean(cs: seq<Circle>, x: Identifier)
    ensures x in CircleIds(cs) <==> Involved(cs, x)
  {
    if cs != [] {
      var init, c := cs[..|cs| - 1], cs[|cs| - 1];
      CircleIdsMean(init, x);
      assert cs == init + [c];
    }
  }

  method CacheCircles(m0: map<Identifier, set<KeyOp>>, cs: seq<Circle>, keyOps: Identifier -> set<KeyOp>,
                      ghost ids: set<Identifier>)
    returns (m: map<Identifier, set<KeyOp>>)
    requires Holds(m0, keyOps, ids)
    ensures Holds(m, keyOps, ids + CircleIds(cs))
  {
    hide Holds;
    m := m0;
    var k := 0;
    assert ids + CircleIds(cs[..0]) == ids;
    while k < |cs|
      invariant 0 <= k <= |cs| && Holds(m, keyOps, ids + CircleIds(cs[..k]))
    {
      assert cs[..k + 1][..k] == cs[..k];
      ghost var cached := ids + CircleIds(cs[..k]);
      m := CacheIds(m, {cs[k].id}, keyOps, cached);
      m := CacheIds(m, cs[k].members, keyOps, cached + {cs[k].id});
      assert cached + {cs[k].id} + cs[k].members == ids + CircleIds(cs[..k + 1]);
      k := k + 1;
    }
    assert cs[..k] == cs;
  }

  lemma {:induction false} ReachIsCached(cs: seq<Circle>, a: Identifier)
    ensures ReachIn(cs, a) <= CircleIds(cs) && Everyone(cs) <= CircleIds(cs)
  {
    if cs != [] {
      ReachIsCached(cs[..|cs| - 1], a);
    }
  }

  /** The entry of an agent, or nothing. */
  function EntryOf(index: map<Identifier, set<Identifier>>, x: Identifier): set<Identifier> {
    if x in index then index[x] else {}
  }

  /** `index` is `index0` with `more(x)` added for every `x` of `touched`. */
  ghost predicate Widened(index0: map<Identifier, set<Identifier>>, touched: set<Identifier>,
                          more: Identifier -> set<Identifier>,
                          index: map<Identifier, set<Identifier>>)
  {
    && index.Keys == index0.Keys + touched
    && forall x :: x in index ==> index[x] == EntryOf(index0, x) + if x in touched then more(x) else {}
  }

  lemma WidenOne(index0: map<Identifier, set<Identifier>>, done: set<Identifier>, more: Identifier -> set<Identifier>,
                 index: map<Identifier, set<Identifier>>, x: Identifier)
    requires Widened(index0, done, more, index) && x !in done
    ensures Widened(index0, done + {x}, more, index[x := EntryOf(index, x) + more(x)])
  {}

  lemma WidenNone(index: map<Identifier, set<Identifier>>, more: Identifier -> set<Identifier>)
    ensures Widened(index, {}, more, index)
  {}

  /** Add to the entries of several agents. */
  method Widen(index0: map<Identifier, set<Identifier>>, agents: set<Identifier>, more: Identifier -> set<Identifier>)
    returns (index: map<Identifier, set<Identifier>>)
    ensures Widened(index0, agents, more, index)
  {
    hide Widened, EntryOf;
    index := index0;
    var todo := agents;
    ghost var done: set<Identifier> := {};
    WidenNone(index0, more);
    while todo != {}
      invariant done + todo == agents && done !! todo && Widened(index0, done, more, index)
      decreases |todo|
    {
      var x :| x in todo;
      WidenOne(index0, done, more, index, x);
      index := index[x := EntryOf(index, x) + more(x)];
      todo, done := todo - {x}, done + {x};
    }
    assert done == agents;
  }

  /** Entries as they should be once the given individuals and circles are indexed. */
  ghost predicate Indexed(active: Identifier, individuals: set<Identifier>, cs: seq<Circle>,
                          index: map<Identifier, set<Identifier>>)
  {
    && index.Keys == {active} + individuals + Everyone(cs)
    && forall x :: x in index ==> index[x] == {active, x} + ReachIn(cs, x)
  }

  lemma {:induction false} ReachOfStranger(cs: seq<Circle>, x: Identifier)
    requires x !in Everyone(cs)
    ensures ReachIn(cs, x) == {}
  {
    if cs != [] {
      ReachOfStranger(cs[..|cs| - 1], x);
    }
  }

  /** What an agent gains from one circle. */
  function Gain(active: Identifier, c: Circle, x: Identifier): set<Identifier> {
    {active, x, c.id} + c.members
  }

  lemma IndexOne(active: Identifier, individuals: set<Identifier>, cs: seq<Circle>, c: Circle,
                 index0: map<Identifier, set<Identifier>>, index: map<Identifier, set<Identifier>>)
    requires Indexed(active, individuals, cs, index0) && Widened(index0, c.members, x => Gain(active, c, x), index)
    ensures Indexed(active, individuals, cs + [c], index)
  {
    assert (cs + [c])[..|cs|] == cs;
    forall x | x in index
      ensures index[x] == {active, x} + ReachIn(cs + [c], x)
    {
      IndexedEntry(active, individuals, cs, c, index0, x);
      assert index[x] == EntryOf(index0, x) + if x in c.members then Gain(active, c, x) else {};
      assert x in index0 || x in c.members;
    }
  }

  lemma IndexedEntry(active: Identifier, individuals: set<Identifier>, cs: seq<Circle>, c: Circle,
                     index0: map<Identifier, set<Identifier>>, x: Identifier)
    requires Indexed(active, individuals, cs, index0)
    ensures ReachIn(cs + [c], x) == ReachIn(cs, x) + if x in c.members then {c.id} + c.members else {}
    ensures EntryOf(index0, x) == if x in index0 then {active, x} + ReachIn(cs, x) else ReachIn(cs, x)
  {
    assert (cs + [c])[..|cs|] == cs;
    if x !in index0 {
      ReachOfStranger(cs, x);
    }
  }

  /** The loop over groups, or over documents, of the third phase. */
  method IndexCircles(index0: map<Identifier, set<Identifier>>, active: Identifier, cs: seq<Circle>,
                      ghost individuals: set<Identifier>, ghost done: seq<Circle>)
    returns (index: map<Identifier, set<Identifier>>)
    requires Indexed(active, individuals, done, index0)
    ensures Indexed(active, individuals, done + cs, index)
  {
    hide Indexed, Widened, Gain;
    index := index0;
    var k := 0;
    assert done + cs[..0] == done;
    while k < |cs|
      invariant 0 <= k <= |cs| && Indexed(active, individuals, done + cs[..k], index)
    {
      var c := cs[k];
      ghost var before := index;
      index := Widen(index, c.members, x => Gain(active, c, x));
      IndexOne(active, individuals, done + cs[..k], c, before, index);
      assert done + cs[..k + 1] == done + cs[..k] + [c];
      k := k + 1;
    }
    assert cs[..k] == cs;
  }

  /** The third phase: who may look up what. */
  method BuildIndex(dir: Directory) returns (index: map<Identifier, set<Identifier>>)
    ensures Indexed(dir.active, dir.individuals, dir.groups + dir.docs, index)
  {
    index := Widen(map[], {dir.active}, x => {dir.active});
    index := Widen(index, dir.individuals, x => {dir.active, x});
    assert Indexed(dir.active, dir.individuals, [], index);
    index := IndexCircles(index, dir.active, dir.groups, dir.individuals, []);
    assert [] + dir.groups == dir.groups;
    index := IndexCircles(index, dir.active, dir.docs, dir.individuals, dir.groups);
  }

  /** `reachable_prekey_ops_for_all_agents`: every registered individual, every member of a
      circle and the active agent is indexed, and looking an agent up gives exactly what
      the query for that agent gives. */
  method ReachableForAllAgents(dir: Directory, keyOps: Identifier -> set<KeyOp>, topsort: set<KeyOp> -> seq<KeyOp>)
    returns (ops: map<Identifier, seq<KeyOp>>, index: map<Identifier, set<Identifier>>)
    ensures forall a :: a in index <==>
                          a == dir.active || a in dir.individuals || IsMember(dir.groups, a) || IsMember(dir.docs, a)
    ensures forall a, x :: a in index ==> (x in index[a] <==> Reaches(dir, a, x))
    ensures forall x, id :: x in index && id in index[x] ==> id in ops
    ensures forall id :: id in ops <==>
              id == dir.active || id in dir.individuals || Involved(dir.groups, id) || Involved(dir.docs, id)
    ensures forall id :: id in ops ==> ops[id] == topsort(keyOps(id))
  {
    var cache: map<Identifier, set<KeyOp>> := map[dir.active := keyOps(dir.active)];
    ghost var ids := {dir.active};
    cache := CacheCircles(cache, dir.groups, keyOps, ids);
    ids := ids + CircleIds(dir.groups);
    cache := CacheCircles(cache, dir.docs, keyOps, ids);
    ids := ids + CircleIds(dir.docs);
    cache := CacheIds(cache, dir.individuals, keyOps, ids);
    ops := SortedOps(cache, topsort);
    index := BuildIndex(dir);
    forall x | x in index
      ensures index[x] <= cache.Keys
    {
      AgentIsCached(dir, x);
    }
    IndexMeans(dir, index);
    forall id
      ensures (id in CircleIds(dir.groups) <==> Involved(dir.groups, id)) &&
              (id in CircleIds(dir.docs) <==> Involved(dir.docs, id))
    {
      CircleIdsMean(dir.groups, id);
      CircleIdsMean(dir.docs, id);
    }
  }

  lemma IndexMeans(dir: Directory, index: map<Identifier, set<Identifier>>)
    requires Indexed(dir.active, dir.individuals, dir.groups + dir.docs, index)
    ensures forall a :: a in index <==>
                          a == dir.active || a in dir.individuals || IsMember(dir.groups, a) || IsMember(dir.docs, a)
    ensures forall a, x :: a in index ==> (x in index[a] <==> Reaches(dir, a, x))
  {
    EveryoneAppend(dir.groups, dir.docs);
    forall a
      ensures (a in Everyone(dir.groups) <==> IsMember(dir.groups, a)) &&
              (a in Everyone(dir.docs) <==> IsMember(dir.docs, a))
    {
      EveryoneMeans(dir.groups, a);
      EveryoneMeans(dir.docs, a);
    }
    hide IsMember, Reaches, Everyone;
    forall a, x | a in index
      ensures x in index[a] <==> Reaches(dir, a, x)
    {
      ReachIff(dir, a, x);
    }
  }

  lemma AgentIsCached(dir: Directory, x: Identifier)
    requires x in {dir.active} + dir.individuals + Everyone(dir.groups + dir.docs)
    ensures Reach(dir, x) <= {dir.active} + CircleIds(dir.groups) + CircleIds(dir.docs) + dir.individuals
  {
    ReachAppend(dir.groups, dir.docs, x);
    ReachIsCached(dir.groups, x);
    ReachIsCached(dir.docs, x);
    EveryoneAppend(dir.groups, dir.docs);
  }

  lemma {:induction false} EveryoneAppend(cs: seq<Circle>, ds: seq<Circle>)
    ensures Everyone(cs + ds) == Everyone(cs) + Everyone(ds)
  {
    if ds == [] {
      assert cs + ds == cs;
    } else {
      EveryoneAppend(cs, ds[..|ds| - 1]);
      assert (cs + ds)[..|cs + ds| - 1] == cs + ds[..|ds| - 1];
    }
  }

  /** The batch index agrees with the query: same identifiers, same operations. */
  lemma BatchAgrees(dir: Directory, keyOps: Identifier -> set<KeyOp>, topsort: set<KeyOp> -> seq<KeyOp>,
                    ops: map<Identifier, seq<KeyOp>>, index: map<Identifier, set<Identifier>>, a: Identifier,
                    r: map<Identifier, seq<KeyOp>>)
    requires a in index && forall x :: x in index[a] <==> Reaches(dir, a, x)
    requires forall id :: id in index[a] ==> id in ops && ops[id] == topsort(keyOps(id))
    requires forall x :: x in r <==> Reaches(dir, a, x)
    requires forall id :: id in r ==> r[id] == topsort(keyOps(id))
    ensures r == map id | id in index[a] :: ops[id]
  {
    hide Reaches;
    var looked := map id | id in index[a] :: ops[id];
    assert looked.Keys == index[a];
    assert r == looked;
  }
}
