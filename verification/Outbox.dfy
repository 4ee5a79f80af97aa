/** The outbox relay (`poll_outbox`): each poll takes the oldest hundred unpublished events,
    tries to deliver each, and marks the delivered ones. The table is listed in created_at
    order; new events arrive at its end. */
module Outbox {

  datatype Event = Event(id: nat, published: bool)

  const BATCH: nat := 100

  function Min(a: int, b: int): int { if a <= b then a else b }

  /** How many of the first `n` events are unpublished. */
  function PendingUpTo(es: seq<Event>, n: nat): nat
    requires n <= |es|
  {
    if n == 0 then 0 else PendingUpTo(es, n - 1) + if es[n - 1].published then 0 else 1
  }

  /** An unpublished event is in the batch when fewer than a hundred unpublished ones are older. */
  predicate InBatch(es: seq<Event>, i: nat)
    requires i < |es|
  {
    !es[i].published && PendingUpTo(es, i) < BATCH
  }

  /** One poll, where `ok` holds the ids whose delivery succeeds this time. */
  function Poll(es: seq<Event>, ok: set<nat>): (out: seq<Event>)
    ensures |out| == |es|
    ensures forall i :: 0 <= i < |es| ==>
              out[i] == Event(es[i].id, es[i].published || (InBatch(es, i) && es[i].id in ok))
  {
    seq(|es|, i requires 0 <= i < |es| =>
      if InBatch(es, i) && es[i].id in ok then es[i].(published := true) else es[i])
  }

  /** The batch query: positions of the oldest hundred unpublished events. */
  function BatchUpTo(es: seq<Event>, n: nat): (b: seq<nat>)
    requires n <= |es|
    ensures forall k :: 0 <= k < |b| ==> b[k] < n
  {
    if n == 0 then []
    else BatchUpTo(es, n - 1) + if InBatch(es, n - 1) then [n - 1] else []
  }

  lemma {:induction false} BatchIsExact(es: seq<Event>, n: nat)
    requires n <= |es|
    ensures forall i :: i in BatchUpTo(es, n) <==> 0 <= i < n && InBatch(es, i)
    ensures forall i :: i in BatchUpTo(es, n) ==> i < n && !es[i].published
    ensures forall j, k :: 0 <= j < k < |BatchUpTo(es, n)| ==> BatchUpTo(es, n)[j] < BatchUpTo(es, n)[k]
  {
    if n > 0 {
      BatchIsExact(es, n - 1);
    }
  }

  lemma {:induction false} BatchSize(es: seq<Event>, n: nat)
    requires n <= |es|
    ensures |BatchUpTo(es, n)| == Min(PendingUpTo(es, n), BATCH)
  {
    if n > 0 {
      BatchSize(es, n - 1);
    }
  }

  /** Publishing one unpublished event lowers the pending count by one. */
  lemma {:induction false} MarkOneCounts(es: seq<Event>, i: nat, n: nat)
    requires i < |es| && !es[i].published && n <= |es|
    ensures PendingUpTo(es[i := es[i].(published := true)], n) == PendingUpTo(es, n) - if i < n then 1 else 0
  {
    if n > 0 {
      MarkOneCounts(es, i, n - 1);
    }
  }

  /** The table with one more event, unpublished, at its end. */
  function WithNew(es: seq<Event>, id: nat): seq<Event> {
    es + [Event(id, false)]
  }

  class OutboxTable {
    var events: seq<Event>

    constructor ()
      ensures events == []
    {
      events := [];
    }

    /** `publish`: a domain event joins the table unpublished. */
    method Publish(id: nat)
      modifies this
      ensures events == WithNew(old(events), id)
    {
      events := events + [Event(id, false)];
    }

    /** `poll_outbox`: the batch is read once, then each event is tried in turn; a failed
        delivery leaves its event unpublished and does not stop the loop. */
    method PollOutbox(ok: set<nat>) returns (sent: nat)
      modifies this
      ensures events == Poll(old(events), ok)
      ensures sent == PendingUpTo(old(events), |old(events)|) - PendingUpTo(events, |events|) <= BATCH
    {
      hide PendingUpTo, InBatch, BatchUpTo;
      var batch := BatchUpTo(events, |events|);
      BatchIsExact(events, |events|);
      BatchSize(events, |events|);
      sent := 0;
      for k := 0 to |batch|
        invariant |events| == |old(events)|
        invariant sent == PendingUpTo(old(events), |old(events)|) - PendingUpTo(events, |events|) <= k
        invariant forall i :: 0 <= i < |events| ==>
          events[i] == Event(old(events)[i].id,
                             old(events)[i].published || (i in batch[..k] && old(events)[i].id in ok))
      {
        var i := batch[k];
        assert i !in batch[..k] && i in batch && !events[i].published;
        assert batch[..k + 1] == batch[..k] + [i];
        if events[i].id in ok {
          MarkOneCounts(events, i, |events|);
          events := events[i := events[i].(published := true)];
          sent := sent + 1;
        }
      }
      assert batch[..|batch|] == batch;
    }
  }

  // ----- safety -----

  /** One round: new events are published one by one, then the relay polls. */
  datatype Round = Round(arrivals: seq<nat>, ok: set<nat>)

  function NewEvents(ids: seq<nat>): (es: seq<Event>)
    ensures |es| == |ids| && forall i :: 0 <= i < |ids| ==> es[i] == Event(ids[i], false)
  {
    seq(|ids|, i requires 0 <= i < |ids| => Event(ids[i], false))
  }

  /** The table after the first `n` of these `Publish` calls. */
  function WithAll(es: seq<Event>, ids: seq<nat>, n: nat): seq<Event>
    requires n <= |ids|
  {
    if n == 0 then es else WithNew(WithAll(es, ids, n - 1), ids[n - 1])
  }

  /** Publishing the ids of a round one by one appends its new events. */
  lemma {:induction false} PublishesAppend(es: seq<Event>, ids: seq<nat>, n: nat)
    requires n <= |ids|
    ensures WithAll(es, ids, n) == es + NewEvents(ids)[..n]
  {
    if n > 0 {
      PublishesAppend(es, ids, n - 1);
      assert NewEvents(ids)[..n] == NewEvents(ids)[..n - 1] + [NewEvents(ids)[n - 1]];
    }
  }

  function After(es: seq<Event>, rounds: seq<Round>, n: nat): (out: seq<Event>)
    requires n <= |rounds|
    ensures |out| >= |es|
  {
    if n == 0 then es else Poll(After(es, rounds, n - 1) + NewEvents(rounds[n - 1].arrivals), rounds[n - 1].ok)
  }

  /** The table a poll reads: what the round before left, plus the new arrivals. */
  function Polled(es: seq<Event>, rounds: seq<Round>, n: nat): seq<Event>
    requires n < |rounds|
  {
    After(es, rounds, n) + NewEvents(rounds[n].arrivals)
  }

  /** Every event as it arrived: the events of the start, then those of each round. */
  function Arrived(es: seq<Event>, rounds: seq<Round>, n: nat): seq<Event>
    requires n <= |rounds|
  {
    if n == 0 then es else Arrived(es, rounds, n - 1) + NewEvents(rounds[n - 1].arrivals)
  }

  /** Round `m` tried the event at position `i` and its delivery succeeded. */
  predicate Delivered(es: seq<Event>, rounds: seq<Round>, m: nat, i: nat) {
    && m < |rounds| && i < |Polled(es, rounds, m)|
    && InBatch(Polled(es, rounds, m), i) && Polled(es, rounds, m)[i].id in rounds[m].ok
  }

  lemma {:induction false} SamePlaces(es: seq<Event>, rounds: seq<Round>, n: nat)
    requires n <= |rounds|
    ensures |After(es, rounds, n)| == |Arrived(es, rounds, n)|
    ensures forall i :: 0 <= i < |Arrived(es, rounds, n)| ==> After(es, rounds, n)[i].id == Arrived(es, rounds, n)[i].id
  {
    hide InBatch;
    if n > 0 {
      SamePlaces(es, rounds, n - 1);
    }
  }

  /** AT LEAST ONCE. Over any run of polls and arrivals, whether deliveries fail or not, an event is
      marked published if and only if it arrived so or some poll so far tried it and its delivery
      succeeded. */
  lemma {:induction false} PublishedIff(es: seq<Event>, rounds: seq<Round>, n: nat, i: nat)
    requires n <= |rounds| && i < |After(es, rounds, n)|
    ensures i < |Arrived(es, rounds, n)| && After(es, rounds, n)[i].id == Arrived(es, rounds, n)[i].id
    ensures After(es, rounds, n)[i].published
       <==> Arrived(es, rounds, n)[i].published || exists m :: 0 <= m < n && Delivered(es, rounds, m, i)
  {
    hide InBatch;
    SamePlaces(es, rounds, n);
    if n > 0 {
      SamePlaces(es, rounds, n - 1);
      if i < |After(es, rounds, n - 1)| {
        PublishedIff(es, rounds, n - 1, i);
      } else {
        NotYetThere(es, rounds, n - 1, i);
      }
      assert After(es, rounds, n)[i].published
        <==> Polled(es, rounds, n - 1)[i].published || Delivered(es, rounds, n - 1, i);
    }
  }

  /** An event is not delivered before it arrives. */
  lemma NotYetThere(es: seq<Event>, rounds: seq<Round>, n: nat, i: nat)
    requires n <= |rounds| && i >= |After(es, rounds, n)|
    ensures forall m :: 0 <= m < n ==> !Delivered(es, rounds, m, i)
  {
    forall m | 0 <= m < n ensures |Polled(es, rounds, m)| <= |After(es, rounds, n)| {
      TableGrows(es, rounds, m + 1, n);
    }
  }

  lemma {:induction false} TableGrows(es: seq<Event>, rounds: seq<Round>, m: nat, n: nat)
    requires m <= n <= |rounds|
    ensures |After(es, rounds, m)| <= |After(es, rounds, n)|
  {
    if m < n {
      TableGrows(es, rounds, m, n - 1);
    }
  }

  /** Once published, an event stays published, whatever its later deliveries would do. */
  lemma PublishedStays(es: seq<Event>, rounds: seq<Round>, m: nat, n: nat, i: nat)
    requires m <= n <= |rounds| && i < |After(es, rounds, m)|
    ensures i < |After(es, rounds, n)| && After(es, rounds, n)[i].id == After(es, rounds, m)[i].id
    ensures After(es, rounds, m)[i].published ==> After(es, rounds, n)[i].published
    decreases n
  {
    if m < n {
      PublishedStays(es, rounds, m, n - 1, i);
    }
  }

  // ----- progress -----

  /** Unpublished events among the first `n` whose id is (or is not) in `bad`. */
  function BadUpTo(es: seq<Event>, n: nat, bad: set<nat>): nat
    requires n <= |es|
  {
    if n == 0 then 0
    else BadUpTo(es, n - 1, bad) + if !es[n - 1].published && es[n - 1].id in bad then 1 else 0
  }

  function HealthyUpTo(es: seq<Event>, n: nat, bad: set<nat>): nat
    requires n <= |es|
  {
    if n == 0 then 0
    else HealthyUpTo(es, n - 1, bad) + if !es[n - 1].published && es[n - 1].id !in bad then 1 else 0
  }

  /** Every event outside `bad` is delivered when it is tried. */
  predicate OnlyBadFail(es: seq<Event>, ok: set<nat>, bad: set<nat>) {
    forall i :: 0 <= i < |es| && es[i].id !in bad ==> es[i].id in ok
  }

  lemma {:induction false} PendingSplits(es: seq<Event>, n: nat, bad: set<nat>)
    requires n <= |es|
    ensures PendingUpTo(es, n) == BadUpTo(es, n, bad) + HealthyUpTo(es, n, bad)
  {
    if n > 0 {
      PendingSplits(es, n - 1, bad);
    }
  }

  lemma CountsUnfold(es: seq<Event>, n: nat, bad: set<nat>)
    requires n <= |es|
    ensures n == 0 ==> PendingUpTo(es, n) == BadUpTo(es, n, bad) == HealthyUpTo(es, n, bad) == 0
    ensures n > 0 ==>
              var e := es[n - 1];
              && PendingUpTo(es, n) == PendingUpTo(es, n - 1) + (if e.published then 0 else 1)
              && BadUpTo(es, n, bad) == BadUpTo(es, n - 1, bad) + (if !e.published && e.id in bad then 1 else 0)
              && HealthyUpTo(es, n, bad)
                 == HealthyUpTo(es, n - 1, bad) + (if !e.published && e.id !in bad then 1 else 0)
  {
  }

  /** What the poll does to the healthy count at one position. */
  lemma HealthyAfterPoll(es: seq<Event>, n: nat, ok: set<nat>, bad: set<nat>)
    requires 0 < n <= |es| && OnlyBadFail(es, ok, bad)
    ensures var healthy := !es[n - 1].published && es[n - 1].id !in bad;
            && HealthyUpTo(es, n, bad) == HealthyUpTo(es, n - 1, bad) + (if healthy then 1 else 0)
            && HealthyUpTo(Poll(es, ok), n, bad)
               == HealthyUpTo(Poll(es, ok), n - 1, bad)
                  + (if healthy && PendingUpTo(es, n - 1) >= BATCH then 1 else 0)
  {
    var e := Poll(es, ok)[n - 1];
    assert e == Event(es[n - 1].id, es[n - 1].published || (InBatch(es, n - 1) && es[n - 1].id in ok));
    hide Poll, PendingUpTo;
  }

  /** In every prefix of the table a poll publishes all healthy events of the batch, and the
      batch holds at most as many bad events as the prefix does. */
  lemma {:induction false} PrefixDrains(es: seq<Event>, n: nat, ok: set<nat>, bad: set<nat>)
    requires n <= |es| && OnlyBadFail(es, ok, bad)
    ensures HealthyUpTo(Poll(es, ok), n, bad)
         <= HealthyUpTo(es, n, bad) - (Min(PendingUpTo(es, n), BATCH) - BadUpTo(es, n, bad))
    ensures HealthyUpTo(Poll(es, ok), n, bad) <= HealthyUpTo(es, n, bad)
  {
    hide Poll, OnlyBadFail, HealthyUpTo, BadUpTo, PendingUpTo, InBatch;
    CountsUnfold(es, n, bad);
    CountsUnfold(Poll(es, ok), n, bad);
    if n > 0 {
      PrefixDrains(es, n - 1, ok, bad);
      HealthyAfterPoll(es, n, ok, bad);
    }
  }

  /** THROUGHPUT. With at most k < 100 bad events pending, a poll publishes at least
      min(100 - k, healthy pending) healthy events. */
  lemma PollThroughput(es: seq<Event>, ok: set<nat>, bad: set<nat>, k: nat)
    requires OnlyBadFail(es, ok, bad) && BadUpTo(es, |es|, bad) <= k < BATCH
    ensures HealthyUpTo(es, |es|, bad) - HealthyUpTo(Poll(es, ok), |es|, bad)
         >= Min(BATCH - k, HealthyUpTo(es, |es|, bad))
  {
    PrefixDrains(es, |es|, ok, bad);
    PendingSplits(es, |es|, bad);
  }

  lemma {:induction false} BadGrows(es: seq<Event>, m: nat, n: nat, bad: set<nat>)
    requires m <= n <= |es|
    ensures BadUpTo(es, m, bad) <= BadUpTo(es, n, bad)
  {
    if m < n {
      BadGrows(es, m, n - 1, bad);
    }
  }

  /** One poll either publishes a healthy event or drains 100 - k healthy events before it. */
  lemma OnePollAdvances(es: seq<Event>, ok: set<nat>, bad: set<nat>, k: nat, i: nat)
    requires OnlyBadFail(es, ok, bad) && BadUpTo(es, |es|, bad) <= k < BATCH
    requires i < |es| && es[i].id !in bad
    ensures Poll(es, ok)[i].published
         || HealthyUpTo(Poll(es, ok), i, bad) <= HealthyUpTo(es, i, bad) - (BATCH - k)
  {
    if !Poll(es, ok)[i].published {
      PrefixDrains(es, i, ok, bad);
      BadGrows(es, i, |es|, bad);
    }
  }

  /** Throughout the run only bad events fail, and never more than k of them are pending. */
  predicate FewBad(es: seq<Event>, rounds: seq<Round>, bad: set<nat>, k: nat) {
    forall n :: 0 <= n < |rounds| ==>
      && OnlyBadFail(Polled(es, rounds, n), rounds[n].ok, bad)
      && BadUpTo(Polled(es, rounds, n), |Polled(es, rounds, n)|, bad) <= k
  }

  lemma {:induction false} ArrivalsStayBehind(es: seq<Event>, ids: seq<nat>, n: nat, bad: set<nat>)
    requires n <= |es|
    ensures HealthyUpTo(es + NewEvents(ids), n, bad) == HealthyUpTo(es, n, bad)
  {
    if n > 0 {
      ArrivalsStayBehind(es, ids, n - 1, bad);
    }
  }

  /** What n polls drain at least: n * (100 - k). */
  function Drained(n: nat, k: nat): int {
    if n == 0 then 0 else Drained(n - 1, k) + (BATCH - k)
  }

  lemma {:induction false} DrainedIsProduct(n: nat, k: nat)
    ensures Drained(n, k) == n * (BATCH - k)
  {
    if n > 0 {
      DrainedIsProduct(n - 1, k);
    }
  }

  /** One round either publishes the event or drains 100 - k healthy events before it. */
  lemma OneRoundAdvances(es: seq<Event>, rounds: seq<Round>, bad: set<nat>, k: nat, i: nat, n: nat)
    requires k < BATCH && FewBad(es, rounds, bad, k) && n < |rounds|
    requires i < |es| && es[i].id !in bad && After(es, rounds, n)[i].id == es[i].id
    ensures var t := After(es, rounds, n);
            var u := After(es, rounds, n + 1);
            && u[i].id == es[i].id && (t[i].published ==> u[i].published)
            && (u[i].published || HealthyUpTo(u, i, bad) <= HealthyUpTo(t, i, bad) - (BATCH - k))
  {
    hide HealthyUpTo, BadUpTo, PendingUpTo, InBatch, OnlyBadFail;
    ArrivalsStayBehind(After(es, rounds, n), rounds[n].arrivals, i, bad);
    assert OnlyBadFail(Polled(es, rounds, n), rounds[n].ok, bad);
    OnePollAdvances(Polled(es, rounds, n), rounds[n].ok, bad, k, i);
  }

  lemma {:induction false} HealthyAdvances(es: seq<Event>, rounds: seq<Round>, bad: set<nat>, k: nat, i: nat, n: nat)
    requires k < BATCH && FewBad(es, rounds, bad, k)
    requires i < |es| && es[i].id !in bad && n <= |rounds|
    ensures After(es, rounds, n)[i].id == es[i].id
    ensures es[i].published ==> After(es, rounds, n)[i].published
    ensures After(es, rounds, n)[i].published
         || HealthyUpTo(After(es, rounds, n), i, bad) <= HealthyUpTo(es, i, bad) - Drained(n, k)
  {
    hide HealthyUpTo, FewBad, Poll;
    if n > 0 {
      HealthyAdvances(es, rounds, bad, k, i, n - 1);
      OneRoundAdvances(es, rounds, bad, k, i, n - 1);
    }
  }

  /** PROGRESS. A healthy event with a healthy pending events before it is published once the
      relay has polled n times with n * (100 - k) > a, whatever arrives in the meantime. */
  lemma HealthyIsPublished(es: seq<Event>, rounds: seq<Round>, bad: set<nat>, k: nat, i: nat, n: nat)
    requires k < BATCH && FewBad(es, rounds, bad, k)
    requires i < |es| && es[i].id !in bad && n <= |rounds|
    requires n * (BATCH - k) > HealthyUpTo(es, i, bad)
    ensures After(es, rounds, n)[i].id == es[i].id && After(es, rounds, n)[i].published
  {
    HealthyAdvances(es, rounds, bad, k, i, n);
    DrainedIsProduct(n, k);
  }

  // ----- the batch in plain numbers -----

  /** The positions of the unpublished events among the first `n`. */
  function Waiting(es: seq<Event>, n: nat): set<nat>
    requires n <= |es|
  {
    set i | 0 <= i < n && !es[i].published
  }

  lemma {:induction false} WaitingCount(es: seq<Event>, n: nat)
    requires n <= |es|
    ensures |Waiting(es, n)| == PendingUpTo(es, n)
  {
    if n > 0 {
      WaitingCount(es, n - 1);
      if !es[n - 1].published {
        assert Waiting(es, n) == Waiting(es, n - 1) + {n - 1};
      } else {
        assert Waiting(es, n) == Waiting(es, n - 1);
      }
    } else {
      assert Waiting(es, 0) == {};
    }
  }

  /** A poll newly marks an event if and only if it is unpublished with fewer than a hundred unpublished
      events before it and its delivery succeeds; nothing else of the table moves. */
  lemma PollMarksOldestHundred(es: seq<Event>, ok: set<nat>, i: nat)
    requires i < |es|
    ensures !es[i].published && Poll(es, ok)[i].published
       <==> i in Waiting(es, |es|) && |Waiting(es, i)| < 100 && es[i].id in ok
    ensures |Poll(es, ok)| == |es| && Poll(es, ok)[i].id == es[i].id
    ensures es[i].published ==> Poll(es, ok)[i].published
  {
    WaitingCount(es, i);
    hide PendingUpTo;
  }
}
