/** Normalising the tree after an epoch with concurrent membership changes. */
module Normalise {
  import opened Seqs
  import opened Results
  import opened Nodes
  import opened KeyTree
  import opened WellFormed
  import opened Vectors

  // ----- What the code computes -----

  function BlankLeafAndPath(t: Tree, i: nat): Tree {
    BlankPath(t.(leaves := t.leaves - {i}), i)
  }

  /** The first loop: blank the removed slots again. */
  function BlankRemoved(t: Tree, slots: set<nat>): Tree {
    if slots == {} then t
    else t.(leaves := t.leaves - slots, inner := Blanked(t.inner, slots), encrypter := None)
  }

  /** The second loop: take leaves off the right until every added id has been met. */
  function Pop(t: Tree, added: set<MemberId>): (Tree, seq<LeafNode>)
    decreases t.nextLeaf
  {
    if added == {} || t.nextLeaf == 0 then (t, [])
    else
      var i := t.nextLeaf - 1;
      var rest := Pop(BlankLeafAndPath(t, i).(nextLeaf := i),
        if i in t.leaves then added - {t.leaves[i].id} else added);
      (rest.0, (if i in t.leaves then [t.leaves[i]] else []) + rest.1)
  }

  function InsertLeaf(leaf: LeafNode, ls: seq<LeafNode>): seq<LeafNode> {
    if ls == [] || leaf.id <= ls[0].id then [leaf] + ls else [ls[0]] + InsertLeaf(leaf, ls[1..])
  }

  function SortById(ls: seq<LeafNode>): seq<LeafNode> {
    if ls == [] then [] else InsertLeaf(ls[0], SortById(ls[1..]))
  }

  /** The third loop: add leaves in order. */
  function PushAll(t: Tree, ls: seq<LeafNode>): Tree {
    if ls == [] then t
    else var last := ls[|ls| - 1]; PushLeaf(PushAll(t, ls[..|ls| - 1]), last.id, last.pk)
  }

  function Slots(removed: set<(MemberId, nat)>): set<nat> {
    set r | r in removed :: r.1
  }

  function RemovedIds(removed: set<(MemberId, nat)>): set<MemberId> {
    set r | r in removed :: r.0
  }

  /** `sort_leaves_and_blank_paths_for_concurrent_membership_changes`. */
  function SortLeaves(t: Tree, added: set<MemberId>, removed: set<(MemberId, nat)>): Tree {
    var popped := Pop(BlankRemoved(t, Slots(removed)), added - RemovedIds(removed));
    PushAll(popped.0, SortById(popped.1))
  }

  // ----- Popping -----

  /** The tree with every slot from `m` on given up. */
  function Cut(t: Tree, m: nat): Tree
    requires m <= t.nextLeaf
  {
    if m == t.nextLeaf then t
    else t.(nextLeaf := m, leaves := t.leaves - Range(m, t.nextLeaf), inner := Blanked(t.inner, Range(m, t.nextLeaf)),
      encrypter := None)
  }

  /** The leaves in slots `m` to `n`, from the right. */
  function LeavesFrom(leaves: map<nat, LeafNode>, m: nat, n: nat): seq<LeafNode>
    decreases n
  {
    if m >= n then []
    else (if n - 1 in leaves then [leaves[n - 1]] else []) + LeavesFrom(leaves, m, n - 1)
  }

  function IdsFrom(leaves: map<nat, LeafNode>, m: nat, n: nat): set<MemberId> {
    set i | i in Range(m, n) && i in leaves :: leaves[i].id
  }

  lemma {:induction false} LeavesFromMeans(leaves: map<nat, LeafNode>, m: nat, n: nat, x: LeafNode)
    ensures x in LeavesFrom(leaves, m, n) <==> exists i :: m <= i < n && i in leaves && leaves[i] == x
    decreases n
  {
    if m < n {
      LeavesFromMeans(leaves, m, n - 1, x);
    }
  }

  lemma {:induction false} LeavesFromCut(leaves: map<nat, LeafNode>, gone: set<nat>, m: nat, n: nat)
    requires forall i :: i in gone ==> n <= i
    ensures LeavesFrom(leaves - gone, m, n) == LeavesFrom(leaves, m, n)
    decreases n
  {
    if m < n {
      LeavesFromCut(leaves, gone, m, n - 1);
    }
  }

  lemma CutOnce(t: Tree)
    requires t.nextLeaf > 0
    ensures BlankLeafAndPath(t, t.nextLeaf - 1).(nextLeaf := t.nextLeaf - 1) == Cut(t, t.nextLeaf - 1)
  {
    assert Range(t.nextLeaf - 1, t.nextLeaf) == {t.nextLeaf - 1};
  }

  lemma CutTwice(t: Tree, k: nat, m: nat)
    requires m <= k < t.nextLeaf
    ensures Cut(Cut(t, k), m) == Cut(t, m)
  {
    assert Range(m, k) + Range(k, t.nextLeaf) == Range(m, t.nextLeaf);
    assert Range(k, t.nextLeaf) + Range(m, k) == Range(m, t.nextLeaf);
    BlankedTwice(t.inner, Range(k, t.nextLeaf), Range(m, k));
    assert t.leaves - Range(k, t.nextLeaf) - Range(m, k) == t.leaves - Range(m, t.nextLeaf);
  }

  lemma IdsStep(leaves: map<nat, LeafNode>, m: nat, n: nat)
    requires m < n
    ensures IdsFrom(leaves, m, n)
         == IdsFrom(leaves - Range(n - 1, n), m, n - 1) + if n - 1 in leaves then {leaves[n - 1].id} else {}
  {
    assert forall i :: i in Range(m, n) <==> i in Range(m, n - 1) || i == n - 1;
  }

  /** Popping gives up the shortest suffix of slots that holds every added id. */
  lemma {:induction false} PopMeans(t: Tree, added: set<MemberId>) returns (m: nat)
    ensures m <= t.nextLeaf && Pop(t, added) == (Cut(t, m), LeavesFrom(t.leaves, m, t.nextLeaf))
    ensures m == 0 || added <= IdsFrom(t.leaves, m, t.nextLeaf)
    ensures m < t.nextLeaf ==> !(added <= IdsFrom(t.leaves, m + 1, t.nextLeaf))
    decreases t.nextLeaf
  {
    hide Cut, IdsFrom, Blanked, BlankLeafAndPath;
    if added == {} || t.nextLeaf == 0 {
      m := t.nextLeaf;
      CutNothing(t);
      NoIds(t.leaves, t.nextLeaf);
    } else {
      var i := t.nextLeaf - 1;
      var t' := Cut(t, i);
      var added' := if i in t.leaves then added - {t.leaves[i].id} else added;
      CutOnce(t);
      CutShape(t, i);
      m := PopMeans(t', added');
      CutTwice(t, i, m);
      LeavesFromCut(t.leaves, Range(i, t.nextLeaf), m, i);
      IdsStep(t.leaves, m, t.nextLeaf);
      if m < i {
        IdsStep(t.leaves, m + 1, t.nextLeaf);
      } else {
        NoIds(t.leaves, t.nextLeaf);
      }
    }
  }

  lemma CutNothing(t: Tree)
    ensures Cut(t, t.nextLeaf) == t
  {}

  lemma CutShape(t: Tree, m: nat)
    requires m < t.nextLeaf
    ensures Cut(t, m).nextLeaf == m && Cut(t, m).leaves == t.leaves - Range(m, t.nextLeaf)
  {}

  lemma NoIds(leaves: map<nat, LeafNode>, n: nat)
    ensures IdsFrom(leaves, n, n) == {}
  {}

  // ----- Sorting -----

  predicate Ascending(ls: seq<LeafNode>) {
    forall i, j :: 0 <= i < j < |ls| ==> ls[i].id < ls[j].id
  }

  predicate DistinctIds(ls: seq<LeafNode>) {
    forall i, j :: 0 <= i < j < |ls| ==> ls[i].id != ls[j].id
  }

  lemma AscendingCons(x: LeafNode, ls: seq<LeafNode>)
    requires Ascending(ls) && forall y :: y in ls ==> x.id < y.id
    ensures Ascending([x] + ls)
  {
    var all := [x] + ls;
    forall i, j | 0 <= i < j < |all|
      ensures all[i].id < all[j].id
    {
      assert all[j] == ls[j - 1];
    }
  }

  lemma {:induction false} InsertLeafMeans(x: LeafNode, ls: seq<LeafNode>)
    requires Ascending(ls) && forall y :: y in ls ==> y.id != x.id
    ensures Ascending(InsertLeaf(x, ls)) && |InsertLeaf(x, ls)| == |ls| + 1
    ensures forall y :: y in InsertLeaf(x, ls) <==> y in ls || y == x
  {
    if ls == [] {
    } else if x.id <= ls[0].id {
      forall y | y in ls
        ensures x.id < y.id
      {
        var k :| 0 <= k < |ls| && ls[k] == y;
      }
      AscendingCons(x, ls);
    } else {
      InsertLeafMeans(x, ls[1..]);
      assert ls == [ls[0]] + ls[1..];
      AscendingCons(ls[0], InsertLeaf(x, ls[1..]));
    }
  }

  lemma {:induction false} SortByIdMeans(ls: seq<LeafNode>)
    requires DistinctIds(ls)
    ensures Ascending(SortById(ls)) && |SortById(ls)| == |ls|
    ensures forall y :: y in SortById(ls) <==> y in ls
  {
    if ls != [] {
      SortByIdMeans(ls[1..]);
      assert ls == [ls[0]] + ls[1..];
      InsertLeafMeans(ls[0], SortById(ls[1..]));
    }
  }

  /** A strictly ascending list is determined by its elements. */
  lemma {:induction false} AscendingUnique(a: seq<LeafNode>, b: seq<LeafNode>)
    requires Ascending(a) && Ascending(b) && forall x :: x in a <==> x in b
    ensures a == b
  {
    if a == [] {
      NoMembers(b);
    } else {
      assert a[0] in b && b[0] in a;
      FirstIsLeast(a, b[0]);
      FirstIsLeast(b, a[0]);
      forall x
        ensures x in a[1..] <==> x in b[1..]
      {
        TailHas(a, x);
        TailHas(b, x);
      }
      AscendingUnique(a[1..], b[1..]);
      assert a == [a[0]] + a[1..] && b == [b[0]] + b[1..];
    }
  }

  lemma NoMembers(b: seq<LeafNode>)
    ensures b == [] || exists x :: x in b
  {
    if b != [] {
      assert b[0] in b;
    }
  }

  lemma FirstIsLeast(a: seq<LeafNode>, x: LeafNode)
    requires Ascending(a) && x in a
    ensures x == a[0] || a[0].id < x.id
  {}

  lemma TailHas(a: seq<LeafNode>, x: LeafNode)
    requires a != [] && Ascending(a)
    ensures x in a[1..] <==> x in a && x != a[0]
  {
    assert a == [a[0]] + a[1..];
  }

  // ----- Pushing -----

  /** What pushing a list of leaves does. */
  ghost predicate Pushed(t: Tree, ls: seq<LeafNode>, u: Tree) {
    && u.nextLeaf == t.nextLeaf + |ls|
    && (forall i :: i in u.leaves <==> i in t.leaves || t.nextLeaf <= i < u.nextLeaf)
    && (forall i :: i in u.leaves ==>
          u.leaves[i] == if t.nextLeaf <= i < u.nextLeaf then ls[i - t.nextLeaf] else t.leaves[i])
    && u.inner == Blanked(t.inner, Range(t.nextLeaf, u.nextLeaf))
    && u.encrypter == (if ls == [] then t.encrypter else None)
    && t.depth <= u.depth
  }

  lemma {:induction false} PushAllMeans(t: Tree, ls: seq<LeafNode>)
    ensures Pushed(t, ls, PushAll(t, ls))
  {
    if ls == [] {
      assert Range(t.nextLeaf, t.nextLeaf) == {};
    } else {
      var init, last := ls[..|ls| - 1], ls[|ls| - 1];
      var u := PushAll(t, init);
      PushAllMeans(t, init);
      PushOneMore(t, init, u, last);
      assert init + [last] == ls;
    }
  }

  lemma PushOneMore(t: Tree, init: seq<LeafNode>, u: Tree, last: LeafNode)
    requires Pushed(t, init, u)
    ensures Pushed(t, init + [last], PushLeaf(u, last.id, last.pk))
  {
    hide Blanked;
    BlankedTwice(t.inner, Range(t.nextLeaf, u.nextLeaf), {u.nextLeaf});
    assert Range(t.nextLeaf, u.nextLeaf) + {u.nextLeaf} == Range(t.nextLeaf, u.nextLeaf + 1);
  }

  /** Ids pushed point at their new slots, and other ids are untouched. */
  ghost predicate PushedIds(t: Tree, ls: seq<LeafNode>, u: Tree) {
    && (forall id :: id in u.ids <==> id in t.ids || exists j :: 0 <= j < |ls| && ls[j].id == id)
    && (forall j :: 0 <= j < |ls| ==> ls[j].id in u.ids && u.ids[ls[j].id] == t.nextLeaf + j)
    && (forall id :: id in t.ids && (forall j :: 0 <= j < |ls| ==> ls[j].id != id) ==>
          id in u.ids && u.ids[id] == t.ids[id])
  }

  lemma {:induction false} PushAllIds(t: Tree, ls: seq<LeafNode>)
    requires DistinctIds(ls)
    ensures PushedIds(t, ls, PushAll(t, ls))
  {
    if ls != [] {
      var init, last := ls[..|ls| - 1], ls[|ls| - 1];
      var u := PushAll(t, init);
      PushAllIds(t, init);
      PushAllMeans(t, init);
      PushOneId(t, init, u, last);
      assert init + [last] == ls;
    }
  }

  lemma PushOneId(t: Tree, init: seq<LeafNode>, u: Tree, last: LeafNode)
    requires PushedIds(t, init, u) && u.nextLeaf == t.nextLeaf + |init| && forall j :: 0 <= j < |init| ==>
             init[j].id != last.id
    ensures PushedIds(t, init + [last], PushLeaf(u, last.id, last.pk))
  {
    var all := init + [last];
    var u' := PushLeaf(u, last.id, last.pk);
    assert forall j :: 0 <= j < |init| ==> all[j] == init[j];
    assert all[|init|] == last;
    assert u'.ids == u.ids[last.id := u.nextLeaf];
    forall id
      ensures id in u'.ids <==> id in t.ids || exists j :: 0 <= j < |all| && all[j].id == id
    {
      if j :| 0 <= j < |init| && init[j].id == id {
        assert all[j].id == id;
      }
    }
  }

  // ----- The whole step -----

  /** Ids and non-blank leaves are mutual inverses. */
  ghost predicate Tidy(t: Tree) {
    Linked(t) && forall i :: i in t.leaves ==> t.leaves[i].id in t.ids && t.ids[t.leaves[i].id] == i
  }

  /** Slots before the moved ones keep their leaves. */
  lemma KeptBelow(t: Tree, m: nat, u: Tree, i: nat)
    requires Rearranged(t, m, u) && i < m && i in u.leaves
    ensures i in t.leaves && u.leaves[i] == t.leaves[i]
  {
    assert Get(u.leaves, i) == Get(t.leaves, i);
  }

  lemma {:induction false} TidyIdsDiffer(t: Tree, m: nat, n: nat)
    requires Tidy(t)
    ensures DistinctIds(LeavesFrom(t.leaves, m, n))
    decreases n
  {
    if m < n {
      TidyIdsDiffer(t, m, n - 1);
      var rest := LeavesFrom(t.leaves, m, n - 1);
      if n - 1 in t.leaves {
        forall y | y in rest
          ensures y.id != t.leaves[n - 1].id
        {
          LeavesFromMeans(t.leaves, m, n - 1, y);
        }
      }
    }
  }

  /** The normalised tree: slots below `m` keep their leaves; from `m` on the same leaves
      follow contiguously, in the order of their ids. */
  ghost predicate Rearranged(t: Tree, m: nat, u: Tree) {
    && m <= u.nextLeaf
    && (forall i :: i in u.leaves ==> i < u.nextLeaf)
    && (forall i: nat :: i < m ==> Get(u.leaves, i) == Get(t.leaves, i))
    && (forall i :: m <= i < u.nextLeaf ==> i in u.leaves)
    && (forall i, j :: m <= i < j < u.nextLeaf ==> i in u.leaves && j in u.leaves && u.leaves[i].id < u.leaves[j].id)
    && (forall x :: HasLeaf(u, x) <==> HasLeaf(t, x))
  }

  /** The tree holds this leaf, whatever the slot. */
  ghost predicate HasLeaf(t: Tree, x: LeafNode) {
    exists i :: i in t.leaves && t.leaves[i] == x
  }

  lemma PushedRearranges(t: Tree, m: nat, sorted: seq<LeafNode>, u: Tree)
    requires Linked(t) && m <= t.nextLeaf && Ascending(sorted)
    requires forall x :: x in sorted <==> x in LeavesFrom(t.leaves, m, t.nextLeaf)
    requires u.nextLeaf == m + |sorted|
    requires forall i :: i in u.leaves <==> (i in t.leaves && i < m) || m <= i < u.nextLeaf
    requires forall i :: i in u.leaves ==> u.leaves[i] == if m <= i then sorted[i - m] else t.leaves[i]
    ensures Rearranged(t, m, u)
  {
    hide LeavesFrom;
    forall x
      ensures HasLeaf(u, x) <==> HasLeaf(t, x)
    {
      LeavesFromMeans(t.leaves, m, t.nextLeaf, x);
      if HasLeaf(u, x) {
        var i :| i in u.leaves && u.leaves[i] == x;
        if m <= i {
          assert sorted[i - m] in sorted;
        }
      }
      if HasLeaf(t, x) {
        var i :| i in t.leaves && t.leaves[i] == x;
        if i < m {
          assert i in u.leaves;
        } else {
          assert x in sorted;
          var j :| 0 <= j < |sorted| && sorted[j] == x;
          assert m + j in u.leaves && u.leaves[m + j] == x;
        }
      }
    }
  }

  /** Normalisation: given that the removed slots are blank, the step keeps exactly the same
      leaves, leaves the affected suffix contiguous and sorted by id, and blanks the path of
      every removed and every moved slot and no other. */
  lemma SortLeavesMeans(t: Tree, added: set<MemberId>, removed: set<(MemberId, nat)>) returns (m: nat)
    requires Tidy(t) && forall i :: i in Slots(removed) ==> i !in t.leaves
    ensures var u := SortLeaves(t, added, removed);
            && m <= t.nextLeaf && Rearranged(t, m, u) && u.nextLeaf <= t.nextLeaf && t.depth <= u.depth
            && u.inner == Blanked(t.inner, Slots(removed) + Range(m, t.nextLeaf))
            && (forall id :: id in added - RemovedIds(removed) && id in t.ids ==> m <= t.ids[id])
            && (if Slots(removed) == {} && m == t.nextLeaf then u == t else u.encrypter == None)
  {
    hide Pop, PushAll, SortById, LeavesFrom, Blanked, IdsFrom, Rearranged, Range;
    var slots, wanted := Slots(removed), added - RemovedIds(removed);
    var t0 := BlankRemoved(t, slots);
    assert t.leaves - slots == t.leaves;
    m := PopMeans(t0, wanted);
    var ls := LeavesFrom(t.leaves, m, t.nextLeaf);
    TidyIdsDiffer(t, m, t.nextLeaf);
    SortByIdMeans(ls);
    PushAllMeans(Cut(t0, m), SortById(ls));
    var u := SortLeaves(t, added, removed);
    PushedRearranges(t, m, SortById(ls), u);
    LeavesFromCount(t.leaves, m, t.nextLeaf);
    BlanksCombine(t, slots, m, u.nextLeaf);
    PushNothing(t);
    forall id | id in wanted && id in t.ids
      ensures m <= t.ids[id]
    {
      WantedIsMoved(t, m, id);
    }
  }

  lemma PushNothing(t: Tree)
    ensures LeavesFrom(t.leaves, t.nextLeaf, t.nextLeaf) == [] && SortById([]) == [] && PushAll(t, []) == t
  {}

  lemma WantedIsMoved(t: Tree, m: nat, id: MemberId)
    requires Tidy(t) && id in t.ids && (m == 0 || id in IdsFrom(t.leaves, m, t.nextLeaf))
    ensures m <= t.ids[id]
  {}

  lemma {:induction false} LeavesFromCount(leaves: map<nat, LeafNode>, m: nat, n: nat)
    requires m <= n
    ensures |LeavesFrom(leaves, m, n)| <= n - m
    decreases n
  {
    if m < n {
      LeavesFromCount(leaves, m, n - 1);
    }
  }

  lemma BlanksCombine(t: Tree, slots: set<nat>, m: nat, n: nat)
    requires m <= n <= t.nextLeaf
    ensures var t0 := BlankRemoved(t, slots);
            Blanked(Cut(t0, m).inner, Range(m, n)) == Blanked(t.inner, slots + Range(m, t.nextLeaf))
  {
    var r := Range(m, t.nextLeaf);
    assert r + Range(m, n) == r && slots + (r + Range(m, n)) == slots + r;
    BlankedTwice(t.inner, slots, r);
    BlankedTwice(t.inner, slots, Range(m, n));
    BlankedTwice(Blanked(t.inner, slots), r, Range(m, n));
    assert {} + r == r && Blanked(t.inner, {}) == t.inner;
    if m == t.nextLeaf {
      assert r == {} && Range(m, n) == {};
      assert slots + {} == slots;
      assert Blanked(Blanked(t.inner, slots), {}) == Blanked(t.inner, slots);
    }
  }

  /** Ids still point at their own leaves, and nobody joined or left. */
  lemma SortLeavesTidy(t: Tree, added: set<MemberId>, removed: set<(MemberId, nat)>)
    requires Tidy(t) && forall i :: i in Slots(removed) ==> i !in t.leaves
    ensures Tidy(SortLeaves(t, added, removed)) && SortLeaves(t, added, removed).ids.Keys == t.ids.Keys
  {
    hide Pop, PushAll, SortById, LeavesFrom, Blanked, IdsFrom, Range, Pushed, PushedIds;
    var slots, wanted := Slots(removed), added - RemovedIds(removed);
    var t0 := BlankRemoved(t, slots);
    assert t.leaves - slots == t.leaves;
    var m := PopMeans(t0, wanted);
    var ls := LeavesFrom(t.leaves, m, t.nextLeaf);
    TidyIdsDiffer(t, m, t.nextLeaf);
    SortByIdMeans(ls);
    PushAllMeans(Cut(t0, m), SortById(ls));
    PushAllIds(Cut(t0, m), SortById(ls));
    PushedTidy(t, m, Cut(t0, m), SortById(ls), SortLeaves(t, added, removed));
  }

  lemma PushedTidy(t: Tree, m: nat, c: Tree, sorted: seq<LeafNode>, u: Tree)
    requires Tidy(t) && m <= t.nextLeaf && c.nextLeaf == m && c.ids == t.ids && DistinctIds(sorted)
    requires forall i :: i in c.leaves <==> i in t.leaves && i < m
    requires forall i :: i in c.leaves ==> c.leaves[i] == t.leaves[i]
    requires forall x :: x in sorted <==> x in LeavesFrom(t.leaves, m, t.nextLeaf)
    requires Pushed(c, sorted, u) && PushedIds(c, sorted, u)
    ensures Tidy(u) && u.ids.Keys == t.ids.Keys
  {
    hide LeavesFrom, Pushed, PushedIds;
    forall id
      ensures id in u.ids <==> id in t.ids
      ensures id in u.ids ==> u.ids[id] in u.leaves && u.leaves[u.ids[id]].id == id
    {
      SortedIds(t, m, c, sorted, u, id);
    }
    forall i | i in u.leaves
      ensures i < u.nextLeaf && u.leaves[i].id in u.ids && u.ids[u.leaves[i].id] == i
    {
      SortedSlots(t, m, c, sorted, u, i);
    }
  }

  lemma SortedIds(t: Tree, m: nat, c: Tree, sorted: seq<LeafNode>, u: Tree, id: MemberId)
    requires Tidy(t) && m <= t.nextLeaf && c.nextLeaf == m && c.ids == t.ids
    requires forall i :: i in c.leaves <==> i in t.leaves && i < m
    requires forall i :: i in c.leaves ==> c.leaves[i] == t.leaves[i]
    requires forall x :: x in sorted <==> x in LeavesFrom(t.leaves, m, t.nextLeaf)
    requires Pushed(c, sorted, u) && PushedIds(c, sorted, u)
    ensures id in u.ids <==> id in t.ids
    ensures id in u.ids ==> u.ids[id] in u.leaves && u.leaves[u.ids[id]].id == id
  {
    hide LeavesFrom, Blanked;
    if j :| 0 <= j < |sorted| && sorted[j].id == id {
      LeavesFromMeans(t.leaves, m, t.nextLeaf, sorted[j]);
      assert u.ids[sorted[j].id] == m + j;
    } else if id in t.ids {
      var leaf := t.leaves[t.ids[id]];
      LeavesFromMeans(t.leaves, m, t.nextLeaf, leaf);
      assert leaf !in sorted;
      assert t.ids[id] in c.leaves;
    }
  }

  lemma SortedSlots(t: Tree, m: nat, c: Tree, sorted: seq<LeafNode>, u: Tree, i: nat)
    requires Tidy(t) && m <= t.nextLeaf && c.nextLeaf == m && c.ids == t.ids
    requires forall i :: i in c.leaves <==> i in t.leaves && i < m
    requires forall i :: i in c.leaves ==> c.leaves[i] == t.leaves[i]
    requires forall x :: x in sorted <==> x in LeavesFrom(t.leaves, m, t.nextLeaf)
    requires Pushed(c, sorted, u) && PushedIds(c, sorted, u) && i in u.leaves
    ensures i < u.nextLeaf && u.leaves[i].id in u.ids && u.ids[u.leaves[i].id] == i
  {
    hide LeavesFrom, Blanked;
    if i < m {
      var id := t.leaves[i].id;
      forall j | 0 <= j < |sorted|
        ensures sorted[j].id != id
      {
        LeavesFromMeans(t.leaves, m, t.nextLeaf, sorted[j]);
        assert sorted[j] in sorted;
      }
      assert id in u.ids && u.ids[id] == t.ids[id];
    } else {
      assert u.leaves[i] == sorted[i - m];
      assert u.ids[sorted[i - m].id] == m + (i - m);
    }
  }

  lemma AscendingIsDistinct(ls: seq<LeafNode>)
    requires Ascending(ls)
    ensures DistinctIds(ls)
  {}

  /** A well-formed tree stays well formed. */
  lemma SortLeavesWF(t: Tree, added: set<MemberId>, removed: set<(MemberId, nat)>)
    requires WF(t) && forall i :: i in Slots(removed) ==> i !in t.leaves && i < Pow2(t.depth)
    ensures WF(SortLeaves(t, added, removed))
  {
    hide SortLeaves, Blanked, Pow2, WF, Tidy, Rearranged;
    WFIsTidy(t);
    var u := SortLeaves(t, added, removed);
    var m := SortLeavesMeans(t, added, removed);
    SortLeavesTidy(t, added, removed);
    if Slots(removed) != {} || m < t.nextLeaf {
      RearrangedWF(t, Slots(removed) + Range(m, t.nextLeaf), m, u);
    }
  }

  lemma WFIsTidy(t: Tree)
    requires WF(t)
    ensures Tidy(t) && t.nextLeaf <= Pow2(t.depth)
  {}

  lemma RearrangedWF(t: Tree, touched: set<nat>, m: nat, u: Tree)
    requires WF(t) && m <= t.nextLeaf && Rearranged(t, m, u) && Tidy(u) && u.inner == Blanked(t.inner, touched)
    requires u.nextLeaf <= t.nextLeaf && t.depth <= u.depth && u.encrypter == None
    requires (forall j :: m <= j < t.nextLeaf ==> j in touched)
    requires touched != {} && forall i :: i in touched ==> i < Pow2(t.depth)
    ensures WF(u)
  {
    hide Blanked, Pow2, HasRootKey, Rearranged;
    Pow2Monotone(t.depth, u.depth);
    LastSlotTaken(t, m, u);
    forall n | n in u.inner
      ensures n.level > 0 && InTree(n, u.depth) && Inhabited(u, n)
    {
      SurvivorIsInhabited(t, touched, m, u, n);
      InTreeGrows(n, t.depth, u.depth);
    }
    var i :| i in touched;
    RootUnder(i, u.depth);
    NoRootLeft(t, touched, i, u);
  }

  lemma NoRootLeft(t: Tree, touched: set<nat>, i: nat, u: Tree)
    requires u.inner == Blanked(t.inner, touched) && i in touched && Under(i, Root(u.depth)) && u.depth > 0
    ensures !HasRootKey(u)
  {}

  lemma LastSlotTaken(t: Tree, m: nat, u: Tree)
    requires WF(t) && m <= t.nextLeaf && Rearranged(t, m, u)
    ensures 0 < u.nextLeaf && u.nextLeaf - 1 in u.leaves
  {
    var last := t.leaves[t.nextLeaf - 1];
    if u.nextLeaf == m {
      assert HasLeaf(t, last) && HasLeaf(u, last);
      var i: nat :| i in u.leaves && u.leaves[i] == last;
      assert i < m;
      KeptBelow(t, m, u, i);
      var before: nat := m - 1;
      assert Get(u.leaves, before) == Get(t.leaves, before);
    }
  }

  lemma SurvivorIsInhabited(t: Tree, touched: set<nat>, m: nat, u: Tree, n: Node)
    requires WF(t) && m <= t.nextLeaf && Rearranged(t, m, u) && u.inner == Blanked(t.inner, touched) && n in u.inner
    requires forall j :: m <= j < t.nextLeaf ==> j in touched
    ensures n in t.inner && Inhabited(u, n)
  {
    var i: nat :| i in t.leaves && Under(i, n);
    assert i < m;
    assert Get(u.leaves, i) == Get(t.leaves, i);
  }

  // ----- Add-only epochs -----

  function IdsOf(ls: seq<LeafNode>): set<MemberId> {
    set x | x in ls :: x.id
  }

  function PushedDepth(depth: nat, n: nat, k: nat): nat {
    if k == 0 then depth
    else var d := PushedDepth(depth, n, k - 1); if n + k - 1 < Pow2(d) then d else d + 1
  }

  lemma {:induction false} PushAllDepth(t: Tree, ls: seq<LeafNode>)
    ensures PushAll(t, ls).depth == PushedDepth(t.depth, t.nextLeaf, |ls|)
  {
    if ls != [] {
      PushAllDepth(t, ls[..|ls| - 1]);
      PushAllMeans(t, ls[..|ls| - 1]);
    }
  }

  /** After pushing a list of leaves, the slots holding its ids are exactly the new ones. */
  lemma PushedSuffix(t: Tree, ls: seq<LeafNode>, u: Tree, m: nat)
    requires Pushed(t, ls, u) && DistinctIds(ls) && ls != [] && m <= u.nextLeaf
    requires m == 0 || IdsOf(ls) <= IdsFrom(u.leaves, m, u.nextLeaf)
    requires m < u.nextLeaf ==> !(IdsOf(ls) <= IdsFrom(u.leaves, m + 1, u.nextLeaf))
    ensures m == t.nextLeaf
  {
    hide Blanked;
    var n := t.nextLeaf;
    if m < n {
      forall id | id in IdsOf(ls)
        ensures id in IdsFrom(u.leaves, m + 1, u.nextLeaf)
      {
        var j :| 0 <= j < |ls| && ls[j].id == id;
        assert n + j in Range(m + 1, u.nextLeaf) && u.leaves[n + j] == ls[j];
      }
    }
    assert ls[0] in ls;
    FirstIsFirst(t, ls, u, m);
  }

  lemma FirstIsFirst(t: Tree, ls: seq<LeafNode>, u: Tree, m: nat)
    requires Pushed(t, ls, u) && DistinctIds(ls) && ls != []
    ensures t.nextLeaf < m ==> ls[0].id !in IdsFrom(u.leaves, m, u.nextLeaf)
  {
    hide Blanked;
  }

  lemma {:induction false} PushedList(t: Tree, ls: seq<LeafNode>, u: Tree, x: LeafNode)
    requires Pushed(t, ls, u)
    ensures x in LeavesFrom(u.leaves, t.nextLeaf, u.nextLeaf) <==> x in ls
  {
    hide LeavesFrom, Blanked;
    LeavesFromMeans(u.leaves, t.nextLeaf, u.nextLeaf, x);
    if x in ls {
      var j :| 0 <= j < |ls| && ls[j] == x;
      assert u.leaves[t.nextLeaf + j] == x;
    }
  }

  /** Pushing leaves and normalising is pushing them in the order of their ids, onto a tree
      whose new paths are blank. */
  lemma NormalisedAdds(t: Tree, ls: seq<LeafNode>)
    requires DistinctIds(ls) && ls != [] && forall i :: i in t.leaves ==> i < t.nextLeaf
    ensures var u := PushAll(t, ls);
            && u.nextLeaf == t.nextLeaf + |ls| && DistinctIds(LeavesFrom(u.leaves, t.nextLeaf, u.nextLeaf))
            && (forall x :: x in LeavesFrom(u.leaves, t.nextLeaf, u.nextLeaf) <==> x in ls)
            && SortLeaves(u, IdsOf(ls), {})
               == PushAll(Cut(u, t.nextLeaf), SortById(LeavesFrom(u.leaves, t.nextLeaf, u.nextLeaf)))
  {
    hide Pop, PushAll, SortById, LeavesFrom, Blanked, IdsFrom, Range, Pushed, DistinctIds;
    var u := PushAll(t, ls);
    PushAllMeans(t, ls);
    PushedNext(t, ls, u);
    assert Slots({}) == {} && RemovedIds({}) == {} && IdsOf(ls) - {} == IdsOf(ls);
    var m := PopMeans(u, IdsOf(ls));
    PushedSuffix(t, ls, u, m);
    forall x
      ensures x in LeavesFrom(u.leaves, t.nextLeaf, u.nextLeaf) <==> x in ls
    {
      PushedList(t, ls, u, x);
    }
    PushedDistinct(t, ls, u, u.nextLeaf);
  }

  lemma PushedNext(t: Tree, ls: seq<LeafNode>, u: Tree)
    requires Pushed(t, ls, u)
    ensures u.nextLeaf == t.nextLeaf + |ls|
  {}

  lemma {:induction false} PushedDistinct(t: Tree, ls: seq<LeafNode>, u: Tree, n: nat)
    requires Pushed(t, ls, u) && DistinctIds(ls) && t.nextLeaf <= n <= u.nextLeaf
    ensures DistinctIds(LeavesFrom(u.leaves, t.nextLeaf, n))
    decreases n
  {
    hide Blanked;
    if t.nextLeaf < n {
      PushedDistinct(t, ls, u, n - 1);
      var rest := LeavesFrom(u.leaves, t.nextLeaf, n - 1);
      forall y | y in rest
        ensures y.id != u.leaves[n - 1].id
      {
        LeavesFromMeans(u.leaves, t.nextLeaf, n - 1, y);
        var i :| t.nextLeaf <= i < n - 1 && i in u.leaves && u.leaves[i] == y;
        assert y == ls[i - t.nextLeaf] && u.leaves[n - 1] == ls[n - 1 - t.nextLeaf];
      }
    }
  }

  lemma SameLength(p: seq<LeafNode>, q: seq<LeafNode>)
    requires DistinctIds(p) && DistinctIds(q) && forall x :: x in p <==> x in q
    ensures |p| == |q| && IdsOf(p) == IdsOf(q)
  {
    DistinctCount(p);
    DistinctCount(q);
    assert ToSet(p) == ToSet(q);
  }

  /** An epoch of concurrent adds gives the same tree in whatever order it is applied. */
  lemma AddOrderDoesNotMatter(t: Tree, p: seq<LeafNode>, q: seq<LeafNode>)
    requires DistinctIds(p) && DistinctIds(q) && (forall x :: x in p <==> x in q)
    requires forall i :: i in t.leaves ==> i < t.nextLeaf
    ensures SortLeaves(PushAll(t, p), IdsOf(p), {}) == SortLeaves(PushAll(t, q), IdsOf(q), {})
  {
    hide SortLeaves, PushAll, SortById, LeavesFrom, Blanked, Range, Cut, DistinctIds, Pushed, PushedIds, Ascending;
    SameLength(p, q);
    if p == [] {
      NoMembers(q);
      assert p == q;
    } else {
      var u, v := PushAll(t, p), PushAll(t, q);
      NormalisedAdds(t, p);
      NoMembers(p);
      NormalisedAdds(t, q);
      var a, b := LeavesFrom(u.leaves, t.nextLeaf, u.nextLeaf), LeavesFrom(v.leaves, t.nextLeaf, v.nextLeaf);
      SortByIdMeans(a);
      SortByIdMeans(b);
      AscendingUnique(SortById(a), SortById(b));
      PushAllMeans(t, p);
      PushAllMeans(t, q);
      PushAllIds(t, p);
      PushAllIds(t, q);
      PushAllDepth(t, p);
      PushAllDepth(t, q);
      SameCut(t, p, u);
      SameCut(t, q, v);
      SameRepush(t, p, q, Cut(u, t.nextLeaf), Cut(v, t.nextLeaf), SortById(a));
    }
  }

  lemma SameCut(t: Tree, ls: seq<LeafNode>, u: Tree)
    requires Pushed(t, ls, u) && ls != [] && forall i :: i in t.leaves ==> i < t.nextLeaf
    ensures var c := Cut(u, t.nextLeaf);
            && c.nextLeaf == t.nextLeaf && c.leaves == t.leaves && c.encrypter == None && c.depth == u.depth &&
              c.ids == u.ids
            && c.inner == Blanked(t.inner, Range(t.nextLeaf, t.nextLeaf + |ls|))
  {
    hide Blanked;
    var r := Range(t.nextLeaf, u.nextLeaf);
    BlankedTwice(t.inner, r, r);
    assert r + r == r;
    assert (u.leaves - r) == t.leaves;
  }

  ghost predicate SameButIds(c: Tree, d: Tree) {
    && c.nextLeaf == d.nextLeaf && c.leaves == d.leaves && c.inner == d.inner && c.encrypter == d.encrypter
    && c.depth == d.depth
  }

  lemma SamePushed(c: Tree, d: Tree, ls: seq<LeafNode>, x: Tree, y: Tree)
    requires SameButIds(c, d) && Pushed(c, ls, x) && Pushed(d, ls, y) && x.depth == y.depth
    ensures SameButIds(x, y)
  {
    hide Blanked, Range;
    assert x.leaves == y.leaves;
  }

  /** Pushing the same list back restores the same ids, whatever slots they had before. */
  lemma SameRepush(t: Tree, p: seq<LeafNode>, q: seq<LeafNode>, c: Tree, d: Tree, sorted: seq<LeafNode>)
    requires exists u :: PushedIds(t, p, u) && u.ids == c.ids
    requires exists v :: PushedIds(t, q, v) && v.ids == d.ids
    requires Ascending(sorted) && (forall x :: x in sorted <==> x in p) && (forall x :: x in p <==> x in q)
    requires SameButIds(c, d)
    ensures PushAll(c, sorted) == PushAll(d, sorted)
  {
    hide PushAll, PushedIds, Pushed, Ascending;
    AscendingIsDistinct(sorted);
    PushAllMeans(c, sorted);
    PushAllMeans(d, sorted);
    PushAllIds(c, sorted);
    PushAllIds(d, sorted);
    PushAllDepth(c, sorted);
    PushAllDepth(d, sorted);
    var x, y := PushAll(c, sorted), PushAll(d, sorted);
    SamePushed(c, d, sorted, x, y);
    forall id
      ensures (id in x.ids <==> id in y.ids) && (id in x.ids ==> x.ids[id] == y.ids[id])
    {
      SameId(t, p, q, c, d, sorted, x, y, id);
    }
    assert x.ids == y.ids;
  }

  lemma SameId(t: Tree, p: seq<LeafNode>, q: seq<LeafNode>, u: Tree, v: Tree, sorted: seq<LeafNode>, x: Tree, y: Tree,
               id: MemberId)
    requires exists c :: PushedIds(t, p, c) && c.ids == u.ids
    requires exists d :: PushedIds(t, q, d) && d.ids == v.ids
    requires u.nextLeaf == v.nextLeaf && PushedIds(u, sorted, x) && PushedIds(v, sorted, y)
    requires (forall z :: z in sorted <==> z in p) && (forall z :: z in p <==> z in q)
    ensures (id in x.ids <==> id in y.ids) && (id in x.ids ==> x.ids[id] == y.ids[id])
  {
    if j :| 0 <= j < |sorted| && sorted[j].id == id {
      assert x.ids[sorted[j].id] == u.nextLeaf + j;
    } else {
      NotListed(sorted, p, id);
      NotListed(sorted, q, id);
    }
  }

  lemma NotListed(sorted: seq<LeafNode>, p: seq<LeafNode>, id: MemberId)
    requires (forall j :: 0 <= j < |sorted| ==> sorted[j].id != id) && forall z :: z in sorted <==> z in p
    ensures forall j :: 0 <= j < |p| ==> p[j].id != id
  {
    forall j | 0 <= j < |p|
      ensures p[j].id != id
    {
      assert p[j] in sorted;
    }
  }
}
