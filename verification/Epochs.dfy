/** Cutting a causal graph into epochs: what `topsort_for_heads` computes, and why the cut
    is causally exact. */
module Epochs {
  import opened Seqs
  import opened Operations

  /** Immediate predecessors of each operation. */
  type Preds = map<Digest, set<Digest>>

  /** What is in the past of some operation of `ps`. */
  ghost function Behind(past: Preds, ps: set<Digest>): set<Digest> {
    set p, q | p in ps && p in past && q in past[p] :: q
  }

  /** `past` gives the causal past of every operation: its predecessors and their pasts.
      Such a map exists only if the graph is acyclic and holds all predecessors. */
  ghost predicate IsPast(preds: Preds, past: Preds) {
    && past.Keys == preds.Keys
    && forall d :: d in preds ==>
         && preds[d] <= preds.Keys
         && past[d] == preds[d] + Behind(past, preds[d])
         && d !in past[d]
  }

  /** A set of operations that contains the predecessors of its members. */
  ghost predicate Down(preds: Preds, a: set<Digest>) {
    a <= preds.Keys && forall d :: d in a ==> preds[d] <= a
  }

  // ----- Causal pasts -----

  lemma {:induction false} PastTransitive(preds: Preds, past: Preds, d: Digest, p: Digest)
    requires IsPast(preds, past) && d in preds && p in past[d]
    ensures p in preds && past[p] <= past[d] && |past[p]| < |past[d]|
    decreases |past[d]|
  {
    if p !in preds[d] {
      var m :| m in preds[d] && p in past[m];
      PredIsSmaller(preds, past, d, m);
      PastTransitive(preds, past, m, p);
    } else {
      PredIsSmaller(preds, past, d, p);
    }
  }

  lemma PredIsSmaller(preds: Preds, past: Preds, d: Digest, p: Digest)
    requires IsPast(preds, past) && d in preds && p in preds[d]
    ensures past[p] <= past[d] && |past[p]| < |past[d]|
  {
    assert past[p] + {p} <= past[d];
    Smaller(past[p], p, past[d]);
  }

  lemma Smaller<T>(a: set<T>, x: T, b: set<T>)
    requires a + {x} <= b && x !in a
    ensures |a| < |b|
  {
    assert b == (a + {x}) + (b - (a + {x}));
  }

  /** The equation for `past` has only one solution, so it defines the causal past. */
  lemma {:induction false} PastUnique(preds: Preds, past: Preds, past': Preds, d: Digest)
    requires IsPast(preds, past) && IsPast(preds, past') && d in preds
    ensures past[d] == past'[d]
    decreases |past[d]|
  {
    forall p | p in preds[d]
      ensures past[p] == past'[p]
    {
      PredIsSmaller(preds, past, d, p);
      PastUnique(preds, past, past', p);
    }
  }

  lemma {:induction false} DownHoldsPast(preds: Preds, past: Preds, a: set<Digest>, d: Digest)
    requires IsPast(preds, past) && Down(preds, a) && d in a
    ensures past[d] <= a
    decreases |past[d]|
  {
    forall q | q in past[d]
      ensures q in a
    {
      if q !in preds[d] {
        var p :| p in preds[d] && q in past[p];
        PredIsSmaller(preds, past, d, p);
        DownHoldsPast(preds, past, a, p);
      }
    }
  }

  /** Anything in a past has a successor on the way. */
  lemma {:induction false} PastHasSuccessor(preds: Preds, past: Preds, z: Digest, d: Digest) returns (y: Digest)
    requires IsPast(preds, past) && d in preds && z in past[d]
    ensures y in preds && z in preds[y] && (y == d || y in past[d])
    decreases |past[d]|
  {
    if z in preds[d] {
      y := d;
    } else {
      var p :| p in preds[d] && z in past[p];
      PredIsSmaller(preds, past, d, p);
      y := PastHasSuccessor(preds, past, z, p);
    }
  }

  // ----- Ascending lists -----

  lemma {:induction false} HasLeast(s: set<nat>) returns (m: nat)
    requires s != {}
    ensures m in s && forall x :: x in s ==> m <= x
    decreases |s|
  {
    var first :| first in s;
    m := first;
    if s != {first} {
      assert s == {first} + (s - {first});
      var k := HasLeast(s - {first});
      if k < first {
        m := k;
      }
    }
    forall x | x in s
      ensures m <= x
    {
      assert x == first || x in s - {first};
    }
  }

  predicate Strict(r: seq<nat>) {
    forall i, j :: 0 <= i < j < |r| ==> r[i] < r[j]
  }

  lemma StrictCons(m: nat, rest: seq<nat>)
    requires Strict(rest) && forall x :: x in rest ==> m < x
    ensures Strict([m] + rest) && ToSet([m] + rest) == {m} + ToSet(rest)
  {
    var r := [m] + rest;
    forall i, j | 0 <= i < j < |r|
      ensures r[i] < r[j]
    {
      assert r[j] == rest[j - 1];
      assert rest[j - 1] in rest;
      if i > 0 {
        assert r[i] == rest[i - 1];
      }
    }
  }

  ghost function Least(s: set<nat>): (m: nat)
    requires s != {}
    ensures m in s && forall x :: x in s ==> m <= x
  {
    assert exists m :: m in s && forall x :: x in s ==> m <= x by { var m := HasLeast(s); }
    var m :| m in s && forall x :: x in s ==> m <= x;
    m
  }

  /** The elements in ascending order. */
  ghost function Sorted(s: set<nat>): (r: seq<nat>)
    ensures ToSet(r) == s && Strict(r)
    decreases |s|
  {
    if s == {} then []
    else
      var m := Least(s);
      var rest := Sorted(s - {m});
      assert forall x :: x in rest ==> x in ToSet(rest);
      StrictCons(m, rest);
      [m] + rest
  }

  lemma NoElements<T>(s: seq<T>)
    ensures ToSet(s) == {} ==> s == []
  {
    if s != [] {
      assert s[0] in ToSet(s);
    }
  }

  /** A strictly ascending list is determined by its elements. */
  lemma {:induction false} StrictUnique(r: seq<nat>, s: seq<nat>)
    requires Strict(r) && Strict(s) && ToSet(r) == ToSet(s)
    ensures r == s
  {
    if r == [] {
      NoElements(s);
    } else {
      assert r[0] in ToSet(s);
      assert s[0] in ToSet(r);
      assert r[0] == s[0];
      forall x: nat
        ensures x in ToSet(r[1..]) <==> x in ToSet(s[1..])
      {
        assert x in ToSet(r[1..]) <==> x in ToSet(r) && x != r[0];
        assert x in ToSet(s[1..]) <==> x in ToSet(s) && x != s[0];
      }
      StrictUnique(r[1..], s[1..]);
    }
  }

  // ----- The cut -----

  /** Operations whose predecessors have all been taken. */
  ghost function Ready(preds: Preds, a: set<Digest>, q: set<Digest>): set<Digest>
    requires Down(preds, a)
  {
    set x | x in a && x !in q && preds[x] <= q
  }

  ghost predicate IsOpen(preds: Preds, a: set<Digest>, q: set<Digest>, x: Digest)
    requires Down(preds, a)
  {
    (exists y :: y in a && y !in q && x in preds[y]) || (forall y :: y in a ==> x !in preds[y])
  }

  /** Taken operations with a successor still to come, or with no successor at all
      (the `epoch_heads` of the code). */
  ghost function Open(preds: Preds, a: set<Digest>, q: set<Digest>): set<Digest>
    requires Down(preds, a) && q <= a
  {
    set x | x in q && IsOpen(preds, a, q, x)
  }

  function Flush(acc: seq<Digest>): seq<seq<Digest>> {
    if acc == [] then [] else [acc]
  }

  /** The epochs still to be output once `q` has been taken, `acc` of it not yet output:
      layer by layer, closing the epoch around a layer that leaves one open end. */
  ghost function CutFrom(preds: Preds, a: set<Digest>, q: set<Digest>, acc: seq<Digest>): seq<seq<Digest>>
    requires Down(preds, a) && q <= a
    decreases |a - q|
  {
    var ready := Ready(preds, a, q);
    if ready == {} then Flush(acc)
    else
      LessRemains(a, q, ready);
      var q' := q + ready;
      if |Open(preds, a, q')| <= 1 then Flush(acc) + [Sorted(ready)] + CutFrom(preds, a, q', [])
      else CutFrom(preds, a, q', acc + Sorted(ready))
  }

  /** A layer that leaves one open end is an epoch; what was gathered before is one too. */
  lemma CutCloses(preds: Preds, a: set<Digest>, q: set<Digest>, acc: seq<Digest>)
    requires Down(preds, a) && q <= a && Ready(preds, a, q) != {} && q + Ready(preds, a, q) <= a
    requires |Open(preds, a, q + Ready(preds, a, q))| <= 1
    ensures CutFrom(preds, a, q, acc)
            == Flush(acc) + [Sorted(Ready(preds, a, q))] + CutFrom(preds, a, q + Ready(preds, a, q), [])
  {
    hide Open, Ready, Down, Sorted, Flush;
  }

  /** Any other layer is gathered. */
  lemma CutGathers(preds: Preds, a: set<Digest>, q: set<Digest>, acc: seq<Digest>)
    requires Down(preds, a) && q <= a && Ready(preds, a, q) != {} && q + Ready(preds, a, q) <= a
    requires |Open(preds, a, q + Ready(preds, a, q))| > 1
    ensures CutFrom(preds, a, q, acc)
            == CutFrom(preds, a, q + Ready(preds, a, q), acc + Sorted(Ready(preds, a, q)))
  {
    hide Open, Ready, Down, Sorted, Flush;
  }

  lemma CutEnds(preds: Preds, a: set<Digest>, q: set<Digest>, acc: seq<Digest>)
    requires Down(preds, a) && q <= a && Ready(preds, a, q) == {}
    ensures CutFrom(preds, a, q, acc) == Flush(acc)
  {
    hide Open, Ready, Down, Sorted, Flush;
  }

  lemma LessRemains(a: set<Digest>, q: set<Digest>, ready: set<Digest>)
    requires ready <= a - q && ready != {}
    ensures |a - (q + ready)| < |a - q|
  {
    assert a - q == (a - (q + ready)) + ready;
  }

  /** The epochs of the operations in `a`. */
  ghost function EpochsOf(preds: Preds, a: set<Digest>): seq<seq<Digest>>
    requires Down(preds, a)
  {
    CutFrom(preds, a, {}, [])
  }

  // ----- One open end separates before from after -----

  /** Every taken operation leads up to an open one. */
  lemma {:induction false} LeadsToOpen(preds: Preds, past: Preds, a: set<Digest>, q: set<Digest>,
                                       z: Digest) returns (o: Digest)
    requires IsPast(preds, past) && Down(preds, a) && Down(preds, q) && q <= a && z in q
    ensures o in Open(preds, a, q) && (z == o || z in past[o])
    decreases |preds| - |past[z]|
  {
    if IsOpen(preds, a, q, z) {
      o := z;
    } else {
      var y :| y in a && z in preds[y];
      PredIsSmaller(preds, past, y, z);
      PastFits(preds, past, y);
      o := LeadsToOpen(preds, past, a, q, y);
      if y != o {
        PastTransitive(preds, past, o, y);
      }
    }
  }

  lemma PastFits(preds: Preds, past: Preds, d: Digest)
    requires IsPast(preds, past) && d in preds
    ensures |past[d]| <= |preds|
  {
    assert past[d] <= preds.Keys by {
      forall q | q in past[d]
        ensures q in preds
      {
        PastTransitive(preds, past, d, q);
      }
    }
    assert preds.Keys == past[d] + (preds.Keys - past[d]);
    assert |preds.Keys| == |preds|;
  }

  /** Every operation still to come follows an open one. */
  lemma {:induction false} FollowsOpen(preds: Preds, past: Preds, a: set<Digest>, q: set<Digest>,
                                       y: Digest) returns (o: Digest)
    requires IsPast(preds, past) && Down(preds, a) && q <= a && y in a && y !in q
    requires forall d :: d in a && preds[d] == {} ==> d in q
    ensures o in Open(preds, a, q) && o in past[y]
    decreases |past[y]|
  {
    if p :| p in preds[y] && p in q {
      o := p;
      assert IsOpen(preds, a, q, p);
    } else {
      var p :| p in preds[y];
      PredIsSmaller(preds, past, y, p);
      o := FollowsOpen(preds, past, a, q, p);
    }
  }

  /** A layer that leaves at most one open end is a single operation: everything taken
      before is in its past, and it is in the past of everything still to come. */
  lemma LayerIsCut(preds: Preds, past: Preds, a: set<Digest>, q: set<Digest>) returns (x: Digest)
    requires IsPast(preds, past) && Down(preds, a) && Down(preds, q) && q <= a
    requires Ready(preds, a, q) != {} && |Open(preds, a, q + Ready(preds, a, q))| <= 1
    ensures Ready(preds, a, q) == {x}
    ensures forall z :: z in q ==> z in past[x]
    ensures forall y :: y in a && y !in q && y != x ==> x in past[y]
  {
    var ready := Ready(preds, a, q);
    var q' := q + ready;
    var r :| r in ready;
    x := LeadsToOpen(preds, past, a, q', r);
    var open := Open(preds, a, q');
    OnlyOne(open, x);
    assert past[x] <= q by {
      PastOfTaken(preds, past, a, q, x);
    }
    forall z | z in q'
      ensures z == x || z in past[x]
    {
      var o := LeadsToOpen(preds, past, a, q', z);
    }
    assert ready == {x};
    forall y | y in a && y !in q && y != x
      ensures x in past[y]
    {
      var o := FollowsOpen(preds, past, a, q', y);
    }
  }

  lemma OnlyOne<T>(s: set<T>, x: T)
    requires |s| <= 1 && x in s
    ensures s == {x}
  {
    assert s == {x} + (s - {x});
  }

  /** The past of an operation taken with the next layer was taken before it. */
  lemma PastOfTaken(preds: Preds, past: Preds, a: set<Digest>, q: set<Digest>, x: Digest)
    requires IsPast(preds, past) && Down(preds, a) && Down(preds, q) && q <= a && x in q + Ready(preds, a, q)
    ensures past[x] <= q
  {
    if x in q {
      DownHoldsPast(preds, past, q, x);
    } else {
      forall p | p in preds[x]
        ensures past[p] <= q
      {
        DownHoldsPast(preds, past, q, p);
      }
    }
  }

  // ----- The epochs are causally exact -----

  function Flat(es: seq<seq<Digest>>): seq<Digest> {
    if es == [] then [] else es[0] + Flat(es[1..])
  }

  lemma {:induction false} FlatAppend(es: seq<seq<Digest>>, fs: seq<seq<Digest>>)
    ensures Flat(es + fs) == Flat(es) + Flat(fs)
  {
    if es == [] {
      assert es + fs == fs;
    } else {
      FlatAppend(es[1..], fs);
      assert (es + fs)[1..] == es[1..] + fs;
      assert Flat(es + fs) == es[0] + Flat(es[1..] + fs);
    }
  }

  /** Once `p` has been applied, `r` can be applied in order: each operation once, and
      after its predecessors. */
  ghost predicate Listing(preds: Preds, p: set<Digest>, r: seq<Digest>) {
    && Distinct(r)
    && forall k :: 0 <= k < |r| ==> r[k] in preds && r[k] !in p && preds[r[k]] <= p + ToSet(r[..k])
  }

  lemma ListingAppend(preds: Preds, p: set<Digest>, r: seq<Digest>, s: seq<Digest>)
    requires Listing(preds, p, r) && Listing(preds, p + ToSet(r), s)
    ensures Listing(preds, p, r + s) && ToSet(r + s) == ToSet(r) + ToSet(s)
  {
    var rs := r + s;
    forall k | 0 <= k < |rs|
      ensures rs[k] in preds && rs[k] !in p && preds[rs[k]] <= p + ToSet(rs[..k])
    {
      if k < |r| {
        assert rs[..k] == r[..k];
      } else {
        assert rs[k] == s[k - |r|] && rs[..k] == r + s[..k - |r|];
        assert preds[rs[k]] <= p + ToSet(r) + ToSet(s[..k - |r|]);
      }
    }
    forall i, j | 0 <= i < j < |rs|
      ensures rs[i] != rs[j]
    {
      if i < |r| <= j {
        assert r[i] in ToSet(r) && rs[j] == s[j - |r|];
      }
    }
  }

  lemma ReadyListing(preds: Preds, a: set<Digest>, q: set<Digest>)
    requires Down(preds, a)
    ensures Listing(preds, q, Sorted(Ready(preds, a, q)))
  {
    var r := Sorted(Ready(preds, a, q));
    forall k | 0 <= k < |r|
      ensures r[k] in Ready(preds, a, q)
    {
      assert r[k] in ToSet(r);
    }
  }

  /** Operations of different epochs are causally ordered in epoch order. */
  ghost predicate Ordered(past: Preds, es: seq<seq<Digest>>) {
    forall i, j, x, y :: 0 <= i < j < |es| && x in es[i] && y in es[j] ==> y in past && x in past[y]
  }

  lemma {:induction false} ReadyExists(preds: Preds, past: Preds, a: set<Digest>, q: set<Digest>, y: Digest)
    requires IsPast(preds, past) && Down(preds, a) && y in a && y !in q
    ensures Ready(preds, a, q) != {}
    decreases |past[y]|
  {
    if preds[y] <= q {
      assert y in Ready(preds, a, q);
    } else {
      var p :| p in preds[y] && p !in q;
      PredIsSmaller(preds, past, y, p);
      ReadyExists(preds, past, a, q, p);
    }
  }

  /** The output lists the operations of `a` not in `p`, causally, in non-empty ordered epochs. */
  ghost predicate ExactCut(preds: Preds, past: Preds, a: set<Digest>, p: set<Digest>, es: seq<seq<Digest>>) {
    && Listing(preds, p, Flat(es)) && p + ToSet(Flat(es)) == a
    && Ordered(past, es) && [] !in es
  }

  lemma ReadyIsDown(preds: Preds, a: set<Digest>, q: set<Digest>)
    requires Down(preds, a) && Down(preds, q) && q <= a
    ensures Down(preds, q + Ready(preds, a, q)) && q + Ready(preds, a, q) <= a
    ensures Ready(preds, a, q) <= a - q
  {}

  lemma {:induction false} CutIsExact(preds: Preds, past: Preds, a: set<Digest>, q: set<Digest>, acc: seq<Digest>,
                                      p: set<Digest>)
    requires IsPast(preds, past) && Down(preds, a) && Down(preds, q) && q <= a
    requires Listing(preds, p, acc) && p + ToSet(acc) == q
    ensures ExactCut(preds, past, a, p, CutFrom(preds, a, q, acc))
    decreases |a - q|
  {
    hide Listing, Open, Down, IsPast, ExactCut, Sorted, Ready, Flush, CutFrom, ToSet;
    var ready := Ready(preds, a, q);
    if ready == {} {
      CutEnds(preds, a, q, acc);
      NothingReady(preds, past, a, q);
      FlushIsExact(preds, past, p, acc);
    } else {
      ReadyIsDown(preds, a, q);
      LessRemains(a, q, ready);
      ReadyListing(preds, a, q);
      var q' := q + ready;
      if |Open(preds, a, q')| <= 1 {
        EmptyListing(preds, q');
        CutIsExact(preds, past, a, q', [], q');
        CloseEpoch(preds, past, a, q, acc, p);
      } else {
        ListingAppend(preds, p, acc, Sorted(ready));
        assert p + ToSet(acc + Sorted(ready)) == q';
        CutGathers(preds, a, q, acc);
        CutIsExact(preds, past, a, q', acc + Sorted(ready), p);
      }
    }
  }

  lemma CloseEpoch(preds: Preds, past: Preds, a: set<Digest>, q: set<Digest>, acc: seq<Digest>, p: set<Digest>)
    requires IsPast(preds, past) && Down(preds, a) && Down(preds, q) && q <= a
    requires Listing(preds, p, acc) && p + ToSet(acc) == q
    requires var ready := Ready(preds, a, q); ready != {} && q + ready <= a && |Open(preds, a, q + ready)| <= 1
    requires ExactCut(preds, past, a, q + Ready(preds, a, q), CutFrom(preds, a, q + Ready(preds, a, q), []))
    ensures ExactCut(preds, past, a, p, CutFrom(preds, a, q, acc))
  {
    hide Listing, Open, IsPast, ExactCut, Sorted;
    var x := LayerIsCut(preds, past, a, q);
    SortedSingle(x);
    ReadyListing(preds, a, q);
    ListingAppend(preds, p, acc, [x]);
    assert p + ToSet(acc + [x]) == q + {x};
    JoinCuts(preds, past, a, p, acc, x, CutFrom(preds, a, q + {x}, []));
  }

  lemma EmptyListing(preds: Preds, q: set<Digest>)
    ensures Listing(preds, q, []) && q + ToSet([]) == q
  {}

  lemma SortedSingle(x: nat)
    ensures Sorted({x}) == [x]
  {
    assert ToSet([x]) == {x};
    StrictUnique(Sorted({x}), [x]);
  }

  lemma NothingReady(preds: Preds, past: Preds, a: set<Digest>, q: set<Digest>)
    requires IsPast(preds, past) && Down(preds, a) && q <= a && Ready(preds, a, q) == {}
    ensures q == a
  {
    if y :| y in a && y !in q {
      ReadyExists(preds, past, a, q, y);
    }
  }

  lemma FlushIsExact(preds: Preds, past: Preds, p: set<Digest>, acc: seq<Digest>)
    requires Listing(preds, p, acc)
    ensures ExactCut(preds, past, p + ToSet(acc), p, Flush(acc))
  {
    assert acc != [] ==> Flat([acc]) == acc + Flat([acc][1..]) == acc;
  }

  lemma JoinCuts(preds: Preds, past: Preds, a: set<Digest>, p: set<Digest>, acc: seq<Digest>, x: Digest,
                 rest: seq<seq<Digest>>)
    requires IsPast(preds, past) && a <= preds.Keys && Listing(preds, p, acc + [x])
    requires ExactCut(preds, past, a, p + ToSet(acc + [x]), rest)
    requires x in a && forall z :: z in acc ==> z in past[x]
    requires forall y :: y in a && y !in p + ToSet(acc + [x]) ==> x in past[y]
    ensures ExactCut(preds, past, a, p, Flush(acc) + [[x]] + rest)
  {
    hide Listing, Ordered, IsPast, Flat, Flush;
    FlatJoin(acc, x, rest);
    ListingAppend(preds, p, acc + [x], Flat(rest));
    forall k, y | 0 <= k < |rest| && y in rest[k]
      ensures y in past && x in past[y] && forall z :: z in acc ==> z in past[y]
    {
      InFlat(rest, k, y);
      RestFollows(preds, a, p + ToSet(acc + [x]), rest, y);
      PastKeys(preds, past);
      PastTransitive(preds, past, y, x);
    }
    PastKeys(preds, past);
    OrderedJoin(past, acc, x, rest);
  }

  lemma PastKeys(preds: Preds, past: Preds)
    requires IsPast(preds, past)
    ensures past.Keys == preds.Keys
  {}

  lemma FlatJoin(acc: seq<Digest>, x: Digest, rest: seq<seq<Digest>>)
    ensures Flat(Flush(acc) + [[x]] + rest) == acc + [x] + Flat(rest)
    ensures [] !in rest ==> [] !in Flush(acc) + [[x]] + rest
  {
    FlatAppend(Flush(acc) + [[x]], rest);
    FlatAppend(Flush(acc), [[x]]);
    assert Flat([[x]]) == [x] + Flat([]) == [x];
    assert acc != [] ==> Flat([acc]) == acc + Flat([acc][1..]) == acc;
  }

  lemma {:induction false} InFlat(es: seq<seq<Digest>>, j: nat, y: Digest)
    requires j < |es| && y in es[j]
    ensures y in Flat(es)
  {
    if j > 0 {
      InFlat(es[1..], j - 1, y);
    }
  }

  lemma OrderedJoin(past: Preds, acc: seq<Digest>, x: Digest, rest: seq<seq<Digest>>)
    requires x in past && Ordered(past, rest) && forall z :: z in acc ==> z in past[x]
    requires forall k, y :: 0 <= k < |rest| && y in rest[k] ==>
               y in past && x in past[y] && forall z :: z in acc ==> z in past[y]
    ensures Ordered(past, Flush(acc) + [[x]] + rest)
  {
    var es := Flush(acc) + [[x]] + rest;
    var n := |Flush(acc)|;
    forall i, j, u, y | 0 <= i < j < |es| && u in es[i] && y in es[j]
      ensures y in past && u in past[y]
    {
      if j > n {
        assert es[j] == rest[j - n - 1];
        if i > n {
          assert es[i] == rest[i - n - 1];
        }
      }
    }
  }

  lemma RestFollows(preds: Preds, a: set<Digest>, p: set<Digest>, es: seq<seq<Digest>>, y: Digest)
    requires Listing(preds, p, Flat(es)) && p + ToSet(Flat(es)) == a && y in Flat(es)
    ensures y in a && y !in p
  {}

  /** Epoch cutting is causally exact: the epochs of a predecessor-closed set list each of
      its operations once, after its predecessors, and operations of different epochs are
      causally ordered in epoch order. */
  lemma EpochsAreExact(preds: Preds, past: Preds, a: set<Digest>)
    requires IsPast(preds, past) && Down(preds, a)
    ensures ExactCut(preds, past, a, {}, EpochsOf(preds, a))
  {
    EmptyListing(preds, {});
    CutIsExact(preds, past, a, {}, [], {});
  }

  // ----- Operations comparable with all others -----

  /** No operation names a predecessor that another of its predecessors already follows. */
  ghost predicate Antichains(preds: Preds, past: Preds)
    requires past.Keys == preds.Keys
  {
    forall y, p, r :: y in preds && p in preds[y] && r in preds[y] && r in past ==> p !in past[r]
  }

  ghost predicate ComparableWithAll(past: Preds, a: set<Digest>, x: Digest)
    requires x in past && a <= past.Keys
  {
    forall y :: y in a ==> y == x || x in past[y] || y in past[x]
  }

  /** When such an operation is taken it is the only open end. */
  lemma ComparableIsOpen(preds: Preds, past: Preds, a: set<Digest>, q: set<Digest>, x: Digest)
    requires IsPast(preds, past) && Antichains(preds, past) && Down(preds, a) && Down(preds, q) && q <= a
    requires x in Ready(preds, a, q) && ComparableWithAll(past, a, x)
    ensures Open(preds, a, q + Ready(preds, a, q)) <= {x}
  {
    var q' := q + Ready(preds, a, q);
    forall z | z in Open(preds, a, q')
      ensures z == x
    {
      PastOfTaken(preds, past, a, q, z);
      PastOfTaken(preds, past, a, q, x);
      if z != x {
        assert z in past[x];
        var s := PastHasSuccessor(preds, past, z, x);
        DownHoldsPast(preds, past, a, x);
        var y :| y in a && y !in q' && z in preds[y];
        assert x in past[y];
        SkipsOver(preds, past, x, y, z);
      }
    }
  }

  /** An operation that follows `x` cannot name a predecessor of `x` directly. */
  lemma SkipsOver(preds: Preds, past: Preds, x: Digest, y: Digest, z: Digest)
    requires past.Keys == preds.Keys && x in past && y in preds && x in past[y] && z in past[x]
    requires IsPast(preds, past) && Antichains(preds, past)
    ensures z !in preds[y]
  {
    PastTransitive(preds, past, y, x);
    if x !in preds[y] {
      var p :| p in preds[y] && x in past[p];
      PastTransitive(preds, past, p, x);
    }
  }

  lemma {:induction false} SoleFrom(preds: Preds, past: Preds, a: set<Digest>, q: set<Digest>, acc: seq<Digest>,
                                    x: Digest)
    requires IsPast(preds, past) && Antichains(preds, past) && Down(preds, a) && Down(preds, q) && q <= a
    requires x in a && x !in q && ComparableWithAll(past, a, x)
    ensures [x] in CutFrom(preds, a, q, acc)
    decreases |a - q|
  {
    hide IsPast, Open, Down, Antichains, ComparableWithAll, Sorted;
    ReadyExists(preds, past, a, q, x);
    var ready := Ready(preds, a, q);
    LessRemains(a, q, ready);
    ReadyIsDown(preds, a, q);
    var q' := q + ready;
    if x in ready {
      ComparableIsOpen(preds, past, a, q, x);
      AtMostOne(Open(preds, a, q'), x);
      var r := LayerIsCut(preds, past, a, q);
      SortedSingle(x);
      assert CutFrom(preds, a, q, acc) == Flush(acc) + [[x]] + CutFrom(preds, a, q', []);
    } else {
      SoleFrom(preds, past, a, q', [], x);
      SoleFrom(preds, past, a, q', acc + Sorted(ready), x);
    }
  }

  lemma AtMostOne<T>(s: set<T>, x: T)
    requires s <= {x}
    ensures |s| <= 1
  {
    assert s == {} || s == {x};
  }

  /** When predecessor sets are antichains, an operation causally comparable with all
      others is an epoch of its own. */
  lemma ComparableIsSole(preds: Preds, past: Preds, a: set<Digest>, x: Digest)
    requires IsPast(preds, past) && Antichains(preds, past) && Down(preds, a)
    requires x in a && ComparableWithAll(past, a, x)
    ensures [x] in EpochsOf(preds, a)
  {
    SoleFrom(preds, past, a, {}, [], x);
  }

  // ----- What follows a single head -----

  /** `h` follows everything else in `a`. */
  ghost predicate IsHead(past: Preds, a: set<Digest>, h: Digest) {
    h in a && h in past && forall x :: x in a ==> x == h || x in past[h]
  }

  /** What `b` holds beyond `a` has predecessors, and none in `a` but `h`. */
  ghost predicate Beyond(preds: Preds, a: set<Digest>, b: set<Digest>, h: Digest) {
    && a <= b && b <= preds.Keys && (forall y :: y in b && y !in a ==> preds[y] != {})
    && forall y, x :: y in b && y !in a && x in preds[y] && x in a ==> x == h
  }

  /** The head is taken last, in a layer of its own. */
  lemma HeadLayer(preds: Preds, past: Preds, a: set<Digest>, q: set<Digest>, h: Digest)
    requires IsPast(preds, past) && Down(preds, a) && Down(preds, q) && q <= a && q != a && IsHead(past, a, h)
    ensures h !in q && Ready(preds, a, q) != {}
    ensures h in q + Ready(preds, a, q) ==> q + Ready(preds, a, q) == a && Ready(preds, a, q) == {h}
  {
    hide IsPast;
    if h in q {
      DownHoldsPast(preds, past, q, h);
    }
    ReadyExists(preds, past, a, q, h);
    if h in Ready(preds, a, q) {
      PastOfTaken(preds, past, a, q, h);
    }
  }

  lemma OpenAtHead(preds: Preds, past: Preds, a: set<Digest>, h: Digest)
    requires IsPast(preds, past) && Down(preds, a) && IsHead(past, a, h)
    ensures Open(preds, a, a) <= {h}
  {
    hide IsPast;
    DownHoldsPast(preds, past, a, h);
    forall z | z in a && z != h
      ensures !IsOpen(preds, a, a, z)
    {
      var y := PastHasSuccessor(preds, past, z, h);
    }
  }

  /** The last epoch of anything with a single head is that head. */
  lemma {:induction false} EndsWithHead(preds: Preds, past: Preds, a: set<Digest>, h: Digest, q: set<Digest>,
                                        acc: seq<Digest>)
    requires IsPast(preds, past) && Down(preds, a) && Down(preds, q) && q <= a && q != a && IsHead(past, a, h)
    ensures var es := CutFrom(preds, a, q, acc); es != [] && es[|es| - 1] == [h]
    decreases |a - q|
  {
    hide IsPast, Down, Open, Ready, Sorted, IsHead, CutFrom;
    HeadLayer(preds, past, a, q, h);
    var ready := Ready(preds, a, q);
    ReadyIsDown(preds, a, q);
    LessRemains(a, q, ready);
    var q' := q + ready;
    if q' == a {
      OpenAtHead(preds, past, a, h);
      AtMostOne(Open(preds, a, a), h);
      HeadIsIn(past, a, h);
      SortedSingle(h);
      NothingLeft(preds, a);
      CutCloses(preds, a, q, acc);
    } else if |Open(preds, a, q')| <= 1 {
      CutCloses(preds, a, q, acc);
      EndsWithHead(preds, past, a, h, q', []);
    } else {
      CutGathers(preds, a, q, acc);
      EndsWithHead(preds, past, a, h, q', acc + Sorted(ready));
    }
  }

  lemma HeadIsIn(past: Preds, a: set<Digest>, h: Digest)
    requires IsHead(past, a, h)
    ensures h in a
  {}

  lemma NothingLeft(preds: Preds, a: set<Digest>)
    requires Down(preds, a)
    ensures CutFrom(preds, a, a, []) == []
  {
    assert Ready(preds, a, a) == {};
  }

  lemma SameLayer(preds: Preds, a: set<Digest>, b: set<Digest>, q: set<Digest>, h: Digest)
    requires Down(preds, a) && Down(preds, b) && Beyond(preds, a, b, h) && q <= a && h !in q
    ensures Ready(preds, b, q) == Ready(preds, a, q)
  {
    forall y | y in Ready(preds, b, q)
      ensures y in a
    {
      if preds[y] != {} {
        var p :| p in preds[y];
      }
    }
  }

  lemma SameOpen(preds: Preds, past: Preds, a: set<Digest>, b: set<Digest>, q: set<Digest>, h: Digest)
    requires IsPast(preds, past) && Down(preds, a) && Down(preds, b) && Beyond(preds, a, b, h) && IsHead(past, a, h)
    requires q <= a && (h in q ==> q == a)
    ensures Open(preds, b, q) == Open(preds, a, q)
  {
    hide IsPast;
    forall x | x in q
      ensures IsOpen(preds, b, q, x) <==> IsOpen(preds, a, q, x)
    {
      if x == h {
        HeadIsOpen(preds, past, a, h);
      } else {
        assert forall y :: y in b && x in preds[y] ==> y in a;
      }
    }
  }

  lemma HeadIsOpen(preds: Preds, past: Preds, a: set<Digest>, h: Digest)
    requires IsPast(preds, past) && Down(preds, a) && IsHead(past, a, h)
    ensures forall y :: y in a ==> h !in preds[y]
  {
    forall y | y in a && h in preds[y]
      ensures false
    {
      if y != h {
        PastTransitive(preds, past, h, y);
      }
    }
  }

  /** A single head separates before from after: the epochs up to it come first, and what
      follows it is cut on its own. */
  lemma SplitAtHead(preds: Preds, past: Preds, a: set<Digest>, b: set<Digest>, h: Digest)
    requires IsPast(preds, past) && Down(preds, a) && Down(preds, b) && Beyond(preds, a, b, h) && IsHead(past, a, h)
    ensures EpochsOf(preds, b) == EpochsOf(preds, a) + CutFrom(preds, b, a, [])
  {
    SplitFrom(preds, past, a, b, h, {}, []);
  }

  lemma {:induction false} SplitFrom(preds: Preds, past: Preds, a: set<Digest>, b: set<Digest>, h: Digest,
                                     q: set<Digest>, acc: seq<Digest>)
    requires IsPast(preds, past) && Down(preds, a) && Down(preds, b) && Beyond(preds, a, b, h) && IsHead(past, a, h)
    requires Down(preds, q) && q <= a && q != a
    ensures a <= b && CutFrom(preds, b, q, acc) == CutFrom(preds, a, q, acc) + CutFrom(preds, b, a, [])
    decreases |a - q|
  {
    hide IsPast, Down, Open, Ready, Sorted, IsHead, Flush, CutFrom, Beyond;
    BeyondHolds(preds, a, b, h);
    HeadLayer(preds, past, a, q, h);
    SameLayer(preds, a, b, q, h);
    var ready := Ready(preds, a, q);
    ReadyIsDown(preds, a, q);
    LessRemains(a, q, ready);
    var q' := q + ready;
    SameOpen(preds, past, a, b, q', h);
    var rest := CutFrom(preds, b, a, []);
    var some := Flush(acc) + [Sorted(ready)];
    if q' == a {
      OpenAtHead(preds, past, a, h);
      AtMostOne(Open(preds, a, a), h);
      NothingLeft(preds, a);
      CutCloses(preds, a, q, acc);
      CutCloses(preds, b, q, acc);
    } else if |Open(preds, a, q')| <= 1 {
      SplitFrom(preds, past, a, b, h, q', []);
      CutCloses(preds, a, q, acc);
      CutCloses(preds, b, q, acc);
      assert some + (CutFrom(preds, a, q', []) + rest) == (some + CutFrom(preds, a, q', [])) + rest;
    } else {
      CutGathers(preds, a, q, acc);
      CutGathers(preds, b, q, acc);
      SplitFrom(preds, past, a, b, h, q', acc + Sorted(ready));
    }
  }

  lemma BeyondHolds(preds: Preds, a: set<Digest>, b: set<Digest>, h: Digest)
    requires Beyond(preds, a, b, h)
    ensures a <= b
  {}

  /** Two layers that never leave a single open end make up one epoch. */
  lemma TwoLayers(preds: Preds, b: set<Digest>, a: set<Digest>, l1: set<Digest>, l2: set<Digest>)
    requires Down(preds, b) && a + l1 + l2 == b && l1 != {}
    requires Ready(preds, b, a) == l1 && Ready(preds, b, a + l1) == l2
    requires |Open(preds, b, a + l1)| >= 2 && |Open(preds, b, b)| >= 2
    ensures a <= b && CutFrom(preds, b, a, []) == [Sorted(l1) + Sorted(l2)]
  {
    hide Ready, Open, Down, CutFrom, Sorted, Flush;
    var q := a + l1;
    assert q <= b && q + l2 == b;
    NothingReadyAtEnd(preds, b);
    CutGathers(preds, b, a, []);
    assert [] + Sorted(l1) == Sorted(l1);
    FlushLayers(l1, l2);
    if l2 == {} {
      CutEnds(preds, b, q, Sorted(l1));
    } else {
      CutGathers(preds, b, q, Sorted(l1));
      CutEnds(preds, b, b, Sorted(l1) + Sorted(l2));
    }
  }

  lemma FlushLayers(l1: set<nat>, l2: set<nat>)
    requires l1 != {}
    ensures Flush(Sorted(l1) + Sorted(l2)) == [Sorted(l1) + Sorted(l2)]
    ensures l2 == {} ==> Sorted(l1) + Sorted(l2) == Sorted(l1)
  {
    hide Sorted;
    LayerHas(l1);
    NothingSorted();
  }

  lemma NothingSorted()
    ensures Sorted({}) == []
  {}

  lemma NothingReadyAtEnd(preds: Preds, b: set<Digest>)
    requires Down(preds, b)
    ensures Ready(preds, b, b) == {}
  {}

  lemma LayerHas(l: set<nat>)
    requires l != {}
    ensures Sorted(l) != []
  {
    var x :| x in l;
    assert x in ToSet(Sorted(l));
  }

  lemma SortedPair(x: nat, y: nat)
    requires x < y
    ensures Sorted({x, y}) == [x, y]
  {
    assert ToSet([x, y]) == {x, y} && Strict([x, y]);
    StrictUnique(Sorted({x, y}), [x, y]);
  }

  /** The epochs of a set depend on the predecessors inside it only. */
  lemma {:induction false} SameEpochs(preds: Preds, preds': Preds, a: set<Digest>, q: set<Digest>, acc: seq<Digest>)
    requires Down(preds, a) && Down(preds', a) && q <= a && forall x :: x in a ==> preds[x] == preds'[x]
    ensures CutFrom(preds, a, q, acc) == CutFrom(preds', a, q, acc)
    decreases |a - q|
  {
    hide Sorted, Flush;
    var ready := Ready(preds, a, q);
    assert Ready(preds', a, q) == ready;
    if ready != {} {
      LessRemains(a, q, ready);
      assert Open(preds, a, q + ready) == Open(preds', a, q + ready);
      SameEpochs(preds, preds', a, q + ready, []);
      SameEpochs(preds, preds', a, q + ready, acc + Sorted(ready));
    }
  }

  /** After `a`, whose operation `h` each of `l1` names, come those of `l2`, which name some
      of `l1`; `e1` and `e2` are ends. */
  ghost predicate Forks(preds: Preds, a: set<Digest>, h: Digest, l1: set<Digest>, l2: set<Digest>, e1: Digest,
                        e2: Digest)
  {
    && Down(preds, a) && h in a && l1 !! a && l2 !! a && l1 !! l2 && |l1| >= 2 && l1 + l2 <= preds.Keys
    && (forall x :: x in l1 ==> preds[x] == {h})
    && (forall x :: x in l2 ==> preds[x] != {} && preds[x] <= l1)
    && e1 in l1 + l2 && e2 in l1 + l2 && e1 != e2
    && forall x :: x in l2 ==> e1 !in preds[x] && e2 !in preds[x]
  }

  /** What comes after `a` then makes up one epoch, layer by layer. */
  lemma ForkEpoch(preds: Preds, a: set<Digest>, h: Digest, l1: set<Digest>, l2: set<Digest>, e1: Digest, e2: Digest)
    requires Forks(preds, a, h, l1, l2, e1, e2)
    ensures Down(preds, a + l1 + l2) && CutFrom(preds, a + l1 + l2, a, []) == [Sorted(l1) + Sorted(l2)]
  {
    hide CutFrom, Sorted, Open, IsOpen;
    ForkLayers(preds, a, h, l1, l2, e1, e2);
    ForkIsOpen(preds, a, h, l1, l2, e1, e2);
    assert l1 != {};
    TwoLayers(preds, a + l1 + l2, a, l1, l2);
  }

  lemma ForkLayers(preds: Preds, a: set<Digest>, h: Digest, l1: set<Digest>, l2: set<Digest>, e1: Digest, e2: Digest)
    requires Forks(preds, a, h, l1, l2, e1, e2)
    ensures Down(preds, a + l1 + l2)
    ensures Ready(preds, a + l1 + l2, a) == l1 && Ready(preds, a + l1 + l2, a + l1) == l2
  {
    forall x | x in l2
      ensures !(preds[x] <= a) && preds[x] <= a + l1
    {
      var p :| p in preds[x];
    }
  }

  lemma ForkSuccessor(preds: Preds, a: set<Digest>, h: Digest, l1: set<Digest>, l2: set<Digest>, e1: Digest,
                      e2: Digest, x: Digest, y: Digest)
    requires Forks(preds, a, h, l1, l2, e1, e2) && x in l1 + l2 && y in a + l1 + l2 && x in preds[y]
    ensures x in l1 && y in l2 && x != e1 && x != e2
  {}

  lemma ForkIsOpen(preds: Preds, a: set<Digest>, h: Digest, l1: set<Digest>, l2: set<Digest>, e1: Digest, e2: Digest)
    requires Forks(preds, a, h, l1, l2, e1, e2) && Down(preds, a + l1 + l2)
    ensures |Open(preds, a + l1 + l2, a + l1)| >= 2 && |Open(preds, a + l1 + l2, a + l1 + l2)| >= 2
  {
    var b := a + l1 + l2;
    assert |l1| >= 2 && e1 in b && e2 in b && l2 !! a + l1 && |{e1, e2}| == 2;
    hide Forks, Open, Down;
    forall x, y | x in l1 && y in b && x in preds[y]
      ensures y in l2
    {
      ForkSuccessor(preds, a, h, l1, l2, e1, e2, x, y);
    }
    OpenWhere(preds, b, a + l1, l1, l2);
    SubsetCount(l1, Open(preds, b, a + l1));
    ForkEnds(preds, a, h, l1, l2, e1, e2);
    SubsetCount({e1, e2}, Open(preds, b, b));
  }

  lemma ForkEnds(preds: Preds, a: set<Digest>, h: Digest, l1: set<Digest>, l2: set<Digest>, e1: Digest, e2: Digest)
    requires Forks(preds, a, h, l1, l2, e1, e2) && Down(preds, a + l1 + l2)
    ensures {e1, e2} <= Open(preds, a + l1 + l2, a + l1 + l2)
  {
    var b := a + l1 + l2;
    assert e1 in l1 + l2 && e2 in l1 + l2;
    hide Forks, Open, Down;
    forall x, y | x in {e1, e2} && y in b && x in preds[y]
      ensures false
    {
      ForkSuccessor(preds, a, h, l1, l2, e1, e2, x, y);
    }
    OpenWhere(preds, b, b, {e1, e2}, {});
  }

  /** Taken operations all of whose successors are still to come are open. */
  lemma OpenWhere(preds: Preds, b: set<Digest>, q: set<Digest>, xs: set<Digest>, later: set<Digest>)
    requires Down(preds, b) && q <= b && xs <= q && later !! q
    requires forall x, y :: x in xs && y in b && x in preds[y] ==> y in later
    ensures xs <= Open(preds, b, q)
  {}
}
