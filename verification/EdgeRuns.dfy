/** The edge limiter told with its own numbers: which answers count, what a run of rejections of one
    address leads to, and when exactly the throttle and the block set in. */
module EdgeRuns {
  import opened EdgeRateLimit

  // ----- which answers count -----

  /** Requests outside the guarded paths or without an address pass untouched. */
  lemma PassedBy(cfg: Settings, c: Cache, r: Request)
    requires !r.guarded || r.ip == ""
    ensures ReplyTo(c, r) == FromHandler && Serve(cfg, c, r) == c
  {
  }

  /** A refused request adds one to the block count of its address on arrival, and leaves the throttle
      as it was. */
  lemma RefusalsCount(cfg: Settings, c: Cache, r: Request)
    requires r.guarded && r.ip != "" && ReplyTo(c, r) != FromHandler
    ensures var d := Serve(cfg, c, r);
            && Counter(Block, r.ip) in d
            && d[Counter(Block, r.ip)]
               == (if Counter(Block, r.ip) in c && r.arrives < c[Counter(Block, r.ip)].expiry
                   then Entry(c[Counter(Block, r.ip)].value + 1, c[Counter(Block, r.ip)].expiry)
                   else Entry(1, r.arrives + 86400.0))
            && (Counter(Throttle, r.ip) in d <==> Counter(Throttle, r.ip) in c)
            && (Counter(Throttle, r.ip) in c ==> d[Counter(Throttle, r.ip)] == c[Counter(Throttle, r.ip)])
            && (Active(Throttle, r.ip) in d <==> Active(Throttle, r.ip) in c)
            && (Active(Throttle, r.ip) in c ==> d[Active(Throttle, r.ip)] == c[Active(Throttle, r.ip)])
  {
    RecordCounts(cfg, c, r.ip, false, r.arrives);
    RecordEffect(cfg, c, r.ip, false, r.arrives, Throttle);
    hide Record;
  }

  // ----- runs of one address -----

  /** The cache after the first `n` requests, from any cache. */
  function ServeAll(cfg: Settings, c: Cache, reqs: seq<Request>, n: nat): Cache
    requires n <= |reqs|
  {
    if n == 0 then c else Serve(cfg, ServeAll(cfg, c, reqs, n - 1), reqs[n - 1])
  }

  /** The cache holds nothing about the address. */
  predicate Clean(c: Cache, ip: string) {
    forall kind: Kind :: Counter(kind, ip) !in c && Active(kind, ip) !in c
  }

  /** Guarded requests of one address, one after another, that the handler answers or would answer
      with 401, 403 or 429. */
  predicate Rejections(reqs: seq<Request>, ip: string) {
    && ip != ""
    && (forall i :: 0 <= i < |reqs| ==>
          reqs[i].guarded && reqs[i].ip == ip && reqs[i].status in {401, 403, 429}
          && reqs[i].arrives <= reqs[i].answered)
    && (forall i, j :: 0 <= i < j < |reqs| ==> reqs[i].answered <= reqs[j].arrives)
  }

  lemma ReplyIs(c: Cache, r: Request)
    requires r.guarded && r.ip != ""
    ensures ReplyTo(c, r) == TooManyBlocked <==> Active(Block, r.ip) in c && r.arrives < c[Active(Block, r.ip)].expiry
    ensures ReplyTo(c, r) == FromHandler <==>
              && !(Active(Block, r.ip) in c && r.arrives < c[Active(Block, r.ip)].expiry)
              && !(Active(Throttle, r.ip) in c && r.arrives < c[Active(Throttle, r.ip)].expiry)
  {
  }

  // ----- the throttle -----

  /** After `n` counted rejections, the first at `first`, the last at `last`, all in one window. */
  predicate Counting(cfg: Settings, c: Cache, ip: string, n: int, first: real, last: real) {
    && Counter(Throttle, ip) in c && c[Counter(Throttle, ip)] == Entry(n, first + 900.0)
    && Counter(Block, ip) in c && c[Counter(Block, ip)] == Entry(n, first + 86400.0)
    && (if n < cfg.throttleThreshold then Active(Throttle, ip) !in c
        else Active(Throttle, ip) in c && c[Active(Throttle, ip)].expiry == last + 900.0)
    && (n < cfg.blockThreshold ==> Active(Block, ip) !in c)
  }

  lemma FirstCount(cfg: Settings, c: Cache, ip: string, r: Request)
    requires cfg.throttleThreshold >= 1 && cfg.blockThreshold >= 1
    requires Clean(c, ip) && Rejections([r], ip)
    ensures ReplyTo(c, r) == FromHandler
    ensures Counting(cfg, Serve(cfg, c, r), ip, 1, r.answered, r.answered)
  {
    assert r == [r][0];
    RecordEffect(cfg, c, ip, true, r.answered, Throttle);
    RecordEffect(cfg, c, ip, true, r.answered, Block);
    RecordCounts(cfg, c, ip, true, r.answered);
    hide Record;
  }

  /** The whole entries that a recorded rejection leaves, with the windows in seconds. */
  lemma RecordCounts(cfg: Settings, c: Cache, ip: string, countThrottle: bool, now: real)
    ensures var out := Record(cfg, c, ip, countThrottle, now);
            && Counter(Block, ip) in out
            && out[Counter(Block, ip)]
               == (if Counter(Block, ip) in c && now < c[Counter(Block, ip)].expiry
                   then Entry(c[Counter(Block, ip)].value + 1, c[Counter(Block, ip)].expiry)
                   else Entry(1, now + 86400.0))
            && (countThrottle ==>
                  && Counter(Throttle, ip) in out
                  && out[Counter(Throttle, ip)]
                     == (if Counter(Throttle, ip) in c && now < c[Counter(Throttle, ip)].expiry
                         then Entry(c[Counter(Throttle, ip)].value + 1, c[Counter(Throttle, ip)].expiry)
                         else Entry(1, now + 900.0)))
  {
  }

  lemma NextCount(cfg: Settings, c: Cache, ip: string, n: int, first: real, last: real, r: Request)
    requires 1 <= n < cfg.throttleThreshold <= cfg.blockThreshold && Counting(cfg, c, ip, n, first, last)
    requires Rejections([r], ip) && r.answered < first + 900.0
    ensures ReplyTo(c, r) == FromHandler
    ensures Counting(cfg, Serve(cfg, c, r), ip, n + 1, first, r.answered)
  {
    assert r == [r][0];
    RecordEffect(cfg, c, ip, true, r.answered, Throttle);
    RecordEffect(cfg, c, ip, true, r.answered, Block);
    RecordCounts(cfg, c, ip, true, r.answered);
    hide Record;
  }

  lemma {:induction false} CountsUp(cfg: Settings, c: Cache, reqs: seq<Request>, ip: string, n: nat)
    requires 1 <= n <= cfg.throttleThreshold <= cfg.blockThreshold && n <= |reqs|
    requires Clean(c, ip) && Rejections(reqs, ip)
    requires forall i :: 0 <= i < n ==> reqs[i].answered < reqs[0].answered + 900.0
    ensures Counting(cfg, ServeAll(cfg, c, reqs, n), ip, n, reqs[0].answered, reqs[n - 1].answered)
    ensures forall k :: 0 <= k < n ==> ReplyTo(ServeAll(cfg, c, reqs, k), reqs[k]) == FromHandler
  {
    hide Serve, Counting, ReplyTo;
    assert Rejections([reqs[n - 1]], ip);
    if n == 1 {
      assert ServeAll(cfg, c, reqs, 0) == c;
      FirstCount(cfg, c, ip, reqs[0]);
    } else {
      CountsUp(cfg, c, reqs, ip, n - 1);
      NextCount(cfg, ServeAll(cfg, c, reqs, n - 1), ip, n - 1, reqs[0].answered, reqs[n - 2].answered, reqs[n - 1]);
    }
  }

  lemma AllInWindow(reqs: seq<Request>, ip: string, window: real)
    requires Rejections(reqs, ip) && reqs != [] && reqs[|reqs| - 1].answered < reqs[0].answered + window
    ensures ip != "" && forall i :: 0 <= i < |reqs| ==> reqs[i].answered < reqs[0].answered + window
  {
    forall i | 0 <= i < |reqs| ensures reqs[i].answered < reqs[0].answered + window {
      assert i < |reqs| - 1 ==> reqs[i].answered <= reqs[|reqs| - 1].arrives;
    }
  }

  lemma ReplyWhenThrottled(cfg: Settings, c: Cache, ip: string, first: real, last: real, next: Request)
    requires Counting(cfg, c, ip, cfg.throttleThreshold, first, last) && next.guarded && next.ip == ip != ""
    ensures next.arrives < last + 900.0 ==> ReplyTo(c, next) != FromHandler
    ensures cfg.throttleThreshold < cfg.blockThreshold ==>
              ReplyTo(c, next) == if next.arrives < last + 900.0 then TooManyThrottled else FromHandler
  {
    ReplyIs(c, next);
  }

  /** THE THROTTLE. From a clean start, rejections within 900 seconds of the first all reach the handler
      up to the threshold, and a request after the threshold is reached is refused if and only if it
      arrives less than 900 seconds after the last of them (provided the block does not set in first). */
  lemma ThrottledAfterThreshold(cfg: Settings, c: Cache, reqs: seq<Request>, ip: string, next: Request)
    requires 1 <= cfg.throttleThreshold <= cfg.blockThreshold
    requires Clean(c, ip) && |reqs| == cfg.throttleThreshold && Rejections(reqs, ip)
    requires next.guarded && next.ip == ip
    requires reqs[|reqs| - 1].answered < reqs[0].answered + 900.0
    ensures forall k :: 0 <= k < |reqs| ==> ReplyTo(ServeAll(cfg, c, reqs, k), reqs[k]) == FromHandler
    ensures next.arrives < reqs[|reqs| - 1].answered + 900.0 ==>
              ReplyTo(ServeAll(cfg, c, reqs, |reqs|), next) != FromHandler
    ensures cfg.throttleThreshold < cfg.blockThreshold ==>
              ReplyTo(ServeAll(cfg, c, reqs, |reqs|), next)
              == if next.arrives < reqs[|reqs| - 1].answered + 900.0 then TooManyThrottled else FromHandler
  {
    hide *;
    var n := |reqs|;
    AllInWindow(reqs, ip, 900.0);
    CountsUp(cfg, c, reqs, ip, n);
    ReplyWhenThrottled(cfg, ServeAll(cfg, c, reqs, n), ip, reqs[0].answered, reqs[n - 1].answered, next);
  }

  // ----- the block -----

  /** After `n` requests, counted or refused, within a day of the first counted one. */
  predicate Tally(cfg: Settings, c: Cache, ip: string, n: int, first: real) {
    && Counter(Block, ip) in c && c[Counter(Block, ip)] == Entry(n, first + 86400.0)
    && (n < cfg.blockThreshold ==> Active(Block, ip) !in c)
  }

  /** When the request touches the cache: on arrival if it is refused, else when it is answered. */
  function Moment(c: Cache, r: Request): real {
    if ReplyTo(c, r) == FromHandler then r.answered else r.arrives
  }

  lemma NextTally(cfg: Settings, c: Cache, ip: string, n: int, first: real, r: Request)
    requires 1 <= n < cfg.blockThreshold && Tally(cfg, c, ip, n, first)
    requires Rejections([r], ip) && r.answered < first + 86400.0
    ensures ReplyTo(c, r) != TooManyBlocked
    ensures Tally(cfg, Serve(cfg, c, r), ip, n + 1, first)
    ensures n + 1 == cfg.blockThreshold ==>
              var d := Serve(cfg, c, r);
              Active(Block, ip) in d && d[Active(Block, ip)].expiry == Moment(c, r) + 86400.0
  {
    assert r == [r][0];
    ReplyIs(c, r);
    var direct := ReplyTo(c, r) == FromHandler;
    RecordEffect(cfg, c, ip, direct, Moment(c, r), Block);
    RecordCounts(cfg, c, ip, direct, Moment(c, r));
    hide Record, ReplyTo;
  }

  lemma FirstTally(cfg: Settings, c: Cache, ip: string, r: Request)
    requires cfg.blockThreshold >= 1 && Clean(c, ip) && Rejections([r], ip)
    ensures ReplyTo(c, r) == FromHandler
    ensures Tally(cfg, Serve(cfg, c, r), ip, 1, r.answered)
    ensures cfg.blockThreshold == 1 ==>
              var d := Serve(cfg, c, r);
              Active(Block, ip) in d && d[Active(Block, ip)].expiry == r.answered + 86400.0
  {
    assert r == [r][0];
    RecordEffect(cfg, c, ip, true, r.answered, Block);
    RecordCounts(cfg, c, ip, true, r.answered);
    hide Record;
  }

  lemma {:induction false} TalliesUp(cfg: Settings, c: Cache, reqs: seq<Request>, ip: string, n: nat)
    requires 1 <= n <= cfg.blockThreshold && n <= |reqs| && Clean(c, ip) && Rejections(reqs, ip)
    requires forall i :: 0 <= i < n ==> reqs[i].answered < reqs[0].answered + 86400.0
    ensures Tally(cfg, ServeAll(cfg, c, reqs, n), ip, n, reqs[0].answered)
    ensures forall k :: 0 <= k < n ==> ReplyTo(ServeAll(cfg, c, reqs, k), reqs[k]) != TooManyBlocked
    ensures n == cfg.blockThreshold ==>
              var d := ServeAll(cfg, c, reqs, n);
              && Active(Block, ip) in d
              && d[Active(Block, ip)].expiry == Moment(ServeAll(cfg, c, reqs, n - 1), reqs[n - 1]) + 86400.0
  {
    hide Serve, Tally, ReplyTo;
    assert Rejections([reqs[n - 1]], ip);
    assert ServeAll(cfg, c, reqs, 0) == c;
    if n == 1 {
      FirstTally(cfg, c, ip, reqs[0]);
    } else {
      TalliesUp(cfg, c, reqs, ip, n - 1);
      NextTally(cfg, ServeAll(cfg, c, reqs, n - 1), ip, n - 1, reqs[0].answered, reqs[n - 1]);
    }
  }

  /** THE BLOCK. From a clean start, requests within a day of the first, each counted or refused, are
      never answered as blocked up to the threshold, although throttled ones go on counting; a request
      after it is answered as blocked if and only if it arrives less than 86400 seconds after the
      moment of the last of them. */
  lemma BlockedAfterThreshold(cfg: Settings, c: Cache, reqs: seq<Request>, ip: string, next: Request)
    requires cfg.blockThreshold >= 1
    requires Clean(c, ip) && |reqs| == cfg.blockThreshold && Rejections(reqs, ip)
    requires next.guarded && next.ip == ip
    requires reqs[|reqs| - 1].answered < reqs[0].answered + 86400.0
    ensures forall k :: 0 <= k < |reqs| ==> ReplyTo(ServeAll(cfg, c, reqs, k), reqs[k]) != TooManyBlocked
    ensures ReplyTo(ServeAll(cfg, c, reqs, |reqs|), next) == TooManyBlocked
       <==> next.arrives < Moment(ServeAll(cfg, c, reqs, |reqs| - 1), reqs[|reqs| - 1]) + 86400.0
  {
    hide *;
    var n := |reqs|;
    AllInWindow(reqs, ip, 86400.0);
    TalliesUp(cfg, c, reqs, ip, n);
    ReplyIs(ServeAll(cfg, c, reqs, n), next);
  }
}
