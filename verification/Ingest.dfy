/** Event ingestion: retry until nothing more can be accepted.

    Which events a state accepts is a parameter. It is monotone: an event acceptable in some
    state stays acceptable when more has been accepted. A malformed prekey event fails
    unrecoverably in every state and is dropped. */
module Ingest {
  import opened Seqs

  /** Content hash of an event. */
  type StaticEvent = nat

  ghost predicate Monotone(accepts: (StaticEvent, set<StaticEvent>) -> bool) {
    forall e, a: set<StaticEvent>, b: set<StaticEvent> :: a <= b && accepts(e, a) ==> accepts(e, b)
  }

  /** What a state still accepts of the events has been accepted. */
  ghost predicate Complete(accepts: (StaticEvent, set<StaticEvent>) -> bool, drops: StaticEvent -> bool,
                           events: set<StaticEvent>, accepted: set<StaticEvent>)
  {
    forall e :: e in events && !drops(e) && accepts(e, accepted) ==> e in accepted
  }

  /** Every complete set above `start` holds what was accepted. */
  ghost predicate Forced(accepts: (StaticEvent, set<StaticEvent>) -> bool, drops: StaticEvent -> bool,
                         start: set<StaticEvent>, events: set<StaticEvent>, accepted: set<StaticEvent>)
  {
    forall c: set<StaticEvent> {:trigger Complete(accepts, drops, events, c)} ::
      start <= c && Complete(accepts, drops, events, c) ==> accepted <= c
  }

  /** The least complete set above `start`. */
  ghost predicate Least(accepts: (StaticEvent, set<StaticEvent>) -> bool, drops: StaticEvent -> bool,
                        start: set<StaticEvent>, events: set<StaticEvent>, accepted: set<StaticEvent>)
  {
    start <= accepted && Complete(accepts, drops, events, accepted) && Forced(accepts, drops, start, events, accepted)
  }

  /** Whatever order events arrive in, there is one outcome. */
  lemma LeastIsUnique(accepts: (StaticEvent, set<StaticEvent>) -> bool, drops: StaticEvent -> bool,
                      start: set<StaticEvent>, events: set<StaticEvent>, a: set<StaticEvent>, b: set<StaticEvent>)
    requires Least(accepts, drops, start, events, a) && Least(accepts, drops, start, events, b)
    ensures a == b
  {}

  /** Ingesting a further batch, together with what was left over, is ingesting everything
      at once. */
  lemma BatchesCombine(accepts: (StaticEvent, set<StaticEvent>) -> bool, drops: StaticEvent -> bool,
                       received: set<StaticEvent>, accepted: set<StaticEvent>, batch: set<StaticEvent>,
                       leftOver: set<StaticEvent>, accepted': set<StaticEvent>)
    requires Least(accepts, drops, {}, received, accepted) && leftOver <= received
    requires forall e :: e in received && !drops(e) && e !in accepted ==> e in leftOver
    requires Least(accepts, drops, accepted, batch + leftOver, accepted')
    ensures Least(accepts, drops, {}, received + batch, accepted')
  {
    forall c: set<StaticEvent> | Complete(accepts, drops, received + batch, c)
      ensures accepted' <= c
    {
      assert Complete(accepts, drops, received, c);
      assert Complete(accepts, drops, batch + leftOver, c);
    }
  }

  /** Accepted events are acceptable in the state reached. */
  ghost predicate Grounded(accepts: (StaticEvent, set<StaticEvent>) -> bool, accepted: set<StaticEvent>) {
    forall e :: e in accepted ==> accepts(e, accepted)
  }

  /** Nothing is accepted without cause. */
  lemma LeastIsGrounded(accepts: (StaticEvent, set<StaticEvent>) -> bool, drops: StaticEvent -> bool,
                        events: set<StaticEvent>, accepted: set<StaticEvent>)
    requires Monotone(accepts) && Least(accepts, drops, {}, events, accepted)
    ensures Grounded(accepts, accepted)
  {
    forall e | e in accepted
      ensures accepts(e, accepted)
    {
      if !accepts(e, accepted) {
        assert Complete(accepts, drops, events, accepted - {e});
      }
    }
  }

  lemma AcceptOne(accepts: (StaticEvent, set<StaticEvent>) -> bool, drops: StaticEvent -> bool,
                  start: set<StaticEvent>, events: set<StaticEvent>, accepted: set<StaticEvent>, e: StaticEvent)
    requires Monotone(accepts) && Forced(accepts, drops, start, events, accepted) && Grounded(accepts, accepted)
    requires e in events && !drops(e) && accepts(e, accepted)
    ensures Forced(accepts, drops, start, events, accepted + {e}) && Grounded(accepts, accepted + {e})
  {
    forall c: set<StaticEvent> | start <= c && Complete(accepts, drops, events, c)
      ensures accepted + {e} <= c
    {
      assert accepted <= c;
      assert accepts(e, c);
    }
  }

  /** A pass over an epoch up to position `k`: `next` is to be retried, the rest of what
      cannot be dropped is accepted; if nothing was dropped or accepted, nothing could be. */
  ghost predicate Passed(accepts: (StaticEvent, set<StaticEvent>) -> bool, drops: StaticEvent -> bool,
                         epoch: seq<StaticEvent>, k: nat, next: seq<StaticEvent>, before: set<StaticEvent>,
                           accepted: set<StaticEvent>)
    requires k <= |epoch|
  {
    && Distinct(next) && |next| <= k && (forall e :: e in next ==> e in epoch[..k] && !drops(e) && e !in accepted)
    && before <= accepted && (forall e :: e in epoch[..k] && !drops(e) && e !in next ==> e in accepted)
    && (|next| == k ==> accepted == before && forall e :: e in epoch[..k] ==> !accepts(e, before))
  }

  lemma PassOne(accepts: (StaticEvent, set<StaticEvent>) -> bool, drops: StaticEvent -> bool,
                epoch: seq<StaticEvent>, k: nat, next: seq<StaticEvent>, before: set<StaticEvent>,
                  accepted: set<StaticEvent>)
    requires k < |epoch| && Distinct(epoch) && Passed(accepts, drops, epoch, k, next, before, accepted) &&
             Grounded(accepts, accepted)
    ensures var e := epoch[k];
            if drops(e) then Passed(accepts, drops, epoch, k + 1, next, before, accepted)
            else if accepts(e, accepted) then Passed(accepts, drops, epoch, k + 1, next, before, accepted + {e})
            else Passed(accepts, drops, epoch, k + 1, next + [e], before, accepted)
  {
    var e := epoch[k];
    assert epoch[..k + 1] == epoch[..k] + [e];
    assert e !in epoch[..k];
  }

  class Keyhive {
    const accepts: (StaticEvent, set<StaticEvent>) -> bool
    const drops: StaticEvent -> bool
    var accepted: set<StaticEvent>
    var pendingEvents: seq<StaticEvent>
    /** Everything ever passed in. */
    ghost var received: set<StaticEvent>

    /** After any calls in any order, the accepted events are the least complete set for all
        events ever received, and whatever could not be accepted is kept for later. */
    ghost predicate Valid()
      reads this
    {
      && Monotone(accepts) && Least(accepts, drops, {}, received, accepted)
      && ToSet(pendingEvents) <= received
      && (forall e :: e in received && !drops(e) && e !in accepted ==> e in ToSet(pendingEvents))
    }

    constructor (accepts: (StaticEvent, set<StaticEvent>) -> bool, drops: StaticEvent -> bool)
      requires Monotone(accepts)
      ensures Valid() && accepted == {} && received == {} && pendingEvents == []
    {
      this.accepts, this.drops := accepts, drops;
      accepted, pendingEvents, received := {}, [], {};
    }

    /** One pass over the epoch: what is left to retry. */
    method Pass(epoch: seq<StaticEvent>, ghost start: set<StaticEvent>, ghost events: set<StaticEvent>)
      returns (next: seq<StaticEvent>)
      requires Distinct(epoch) && ToSet(epoch) <= events && Monotone(accepts)
      requires Forced(accepts, drops, start, events, accepted) && Grounded(accepts, accepted)
      modifies this`accepted
      ensures Passed(accepts, drops, epoch, |epoch|, next, old(accepted), accepted)
      ensures Forced(accepts, drops, start, events, accepted) && Grounded(accepts, accepted)
    {
      hide Passed, Forced, Grounded, Monotone, Distinct;
      next := [];
      var k := 0;
      PassNone(accepts, drops, epoch, accepted);
      while k < |epoch|
        invariant 0 <= k <= |epoch| && Passed(accepts, drops, epoch, k, next, old(accepted), accepted)
        invariant Forced(accepts, drops, start, events, accepted) && Grounded(accepts, accepted)
      {
        var e := epoch[k];
        assert e in ToSet(epoch);
        PassOne(accepts, drops, epoch, k, next, old(accepted), accepted);
        if !drops(e) {
          if accepts(e, accepted) {
            AcceptOne(accepts, drops, start, events, accepted, e);
            accepted := accepted + {e};
          } else {
            next := next + [e];
          }
        }
        k := k + 1;
      }
    }

    /** The events of a set in the arbitrary order of a hash map. */
    static method Listed(events: set<StaticEvent>) returns (epoch: seq<StaticEvent>)
      ensures Distinct(epoch) && ToSet(epoch) == events
    {
      epoch := [];
      var todo := events;
      while todo != {}
        invariant todo <= events && Distinct(epoch) && ToSet(epoch) == events - todo
        decreases |todo|
      {
        var e :| e in todo;
        assert e !in ToSet(epoch);
        DistinctAppend(epoch, e);
        todo := todo - {e};
        epoch := epoch + [e];
      }
    }

    /** `ingest_unsorted_static_events`. The result lists exactly the events that cannot be
        accepted. They replace the pending events, except that an empty result leaves the
        old pending events in place. */
    method IngestUnsorted(events: seq<StaticEvent>) returns (stuck: seq<StaticEvent>)
      requires Valid()
      modifies this
      ensures Valid() && received == old(received) + ToSet(events)
      ensures Least(accepts, drops, old(accepted), ToSet(events) + ToSet(old(pendingEvents)), accepted)
      ensures Distinct(stuck) && ToSet(stuck) == set e | e in received && !drops(e) && e !in accepted
      ensures forall e :: e in stuck ==> !accepts(e, accepted)
      ensures pendingEvents == if stuck == [] then old(pendingEvents) else stuck
    {
      hide Passed, Forced, Grounded, Monotone, Distinct, Least;
      ghost var start := accepted;
      ghost var all := ToSet(events) + ToSet(pendingEvents);
      LeastIsGrounded(accepts, drops, received, accepted);
      StartForced(accepts, drops, start, all);
      var epoch := Listed(ToSet(events) + ToSet(pendingEvents));
      while true
        invariant Distinct(epoch) && ToSet(epoch) <= all && start <= accepted
        invariant received == old(received) && pendingEvents == old(pendingEvents)
        invariant Forced(accepts, drops, start, all, accepted) && Grounded(accepts, accepted)
        invariant forall e :: e in all && !drops(e) && e !in accepted ==> e in ToSet(epoch)
        decreases |epoch|
      {
        ghost var before := accepted;
        var next := Pass(epoch, start, all);
        AfterPass(accepts, drops, all, epoch, next, before, accepted);
        if next == [] {
          NothingLeft(accepts, drops, start, all, accepted);
          BatchesCombine(accepts, drops, received, start, ToSet(events), ToSet(pendingEvents), accepted);
          received := received + ToSet(events);
          return [];
        }
        if |next| == |epoch| {
          StuckIsComplete(accepts, drops, start, all, accepted, next);
          BatchesCombine(accepts, drops, received, start, ToSet(events), ToSet(pendingEvents), accepted);
          StuckCovers(received, events, pendingEvents, drops, start, accepted, next);
          received := received + ToSet(events);
          pendingEvents := next;
          return next;
        }
        epoch := next;
      }
    }
  }

  lemma PassNone(accepts: (StaticEvent, set<StaticEvent>) -> bool, drops: StaticEvent -> bool, epoch: seq<StaticEvent>,
                 accepted: set<StaticEvent>)
    ensures Passed(accepts, drops, epoch, 0, [], accepted, accepted)
  {}

  lemma StartForced(accepts: (StaticEvent, set<StaticEvent>) -> bool, drops: StaticEvent -> bool,
                    start: set<StaticEvent>, all: set<StaticEvent>)
    ensures Forced(accepts, drops, start, all, start)
  {}

  lemma AfterPass(accepts: (StaticEvent, set<StaticEvent>) -> bool, drops: StaticEvent -> bool, all: set<StaticEvent>,
                  epoch: seq<StaticEvent>, next: seq<StaticEvent>, before: set<StaticEvent>, accepted: set<StaticEvent>)
    requires Passed(accepts, drops, epoch, |epoch|, next, before, accepted) && ToSet(epoch) <= all
    requires forall e :: e in all && !drops(e) && e !in before ==> e in ToSet(epoch)
    ensures Distinct(next) && |next| <= |epoch| && ToSet(next) <= all && before <= accepted
    ensures forall e :: e in next ==> !drops(e) && e !in accepted
    ensures forall e :: e in all && !drops(e) && e !in accepted ==> e in ToSet(next)
    ensures |next| == |epoch| ==> forall e :: e in next ==> !accepts(e, accepted)
  {
    assert epoch[..|epoch|] == epoch;
    forall e | e in next
      ensures e in all
    {
      assert e in ToSet(epoch);
    }
  }

  lemma NothingLeft(accepts: (StaticEvent, set<StaticEvent>) -> bool, drops: StaticEvent -> bool,
                    start: set<StaticEvent>,
                    all: set<StaticEvent>, accepted: set<StaticEvent>)
    requires start <= accepted && Forced(accepts, drops, start, all, accepted)
    requires forall e :: e in all && !drops(e) ==> e in accepted
    ensures Least(accepts, drops, start, all, accepted)
  {}

  lemma StuckIsComplete(accepts: (StaticEvent, set<StaticEvent>) -> bool, drops: StaticEvent -> bool,
                        start: set<StaticEvent>,
                        all: set<StaticEvent>, accepted: set<StaticEvent>, next: seq<StaticEvent>)
    requires start <= accepted && Forced(accepts, drops, start, all, accepted)
    requires forall e :: e in all && !drops(e) && e !in accepted ==> e in ToSet(next)
    requires forall e :: e in next ==> !accepts(e, accepted)
    ensures Least(accepts, drops, start, all, accepted)
  {}

  /** Everything received is accepted, dropped, or in the list. */
  lemma StuckCovers(received: set<StaticEvent>, events: seq<StaticEvent>, pending: seq<StaticEvent>,
                    drops: StaticEvent -> bool,
                    before: set<StaticEvent>, accepted: set<StaticEvent>, next: seq<StaticEvent>)
    requires ToSet(pending) <= received && before <= accepted
    requires forall e :: e in received && !drops(e) && e !in before ==> e in ToSet(pending)
    requires forall e :: e in ToSet(events) + ToSet(pending) && !drops(e) && e !in accepted ==> e in ToSet(next)
    requires ToSet(next) <= ToSet(events) + ToSet(pending) && forall e :: e in next ==> !drops(e) && e !in accepted
    ensures ToSet(next) == set e | e in received + ToSet(events) && !drops(e) && e !in accepted
  {}

  /** Calling again with nothing new changes nothing but the order of the list. */
  lemma IngestIsFixedPoint(accepts: (StaticEvent, set<StaticEvent>) -> bool, drops: StaticEvent -> bool,
                           received: set<StaticEvent>,
                           accepted: set<StaticEvent>, leftOver: set<StaticEvent>, again: set<StaticEvent>)
    requires Least(accepts, drops, {}, received, accepted) && leftOver <= received
    requires forall e :: e in received && !drops(e) && e !in accepted ==> e in leftOver
    requires Least(accepts, drops, accepted, leftOver, again)
    ensures again == accepted
  {
    assert {} + leftOver == leftOver;
    BatchesCombine(accepts, drops, received, accepted, {}, leftOver, again);
    assert received + {} == received;
    LeastIsUnique(accepts, drops, {}, received, accepted, again);
  }
}
