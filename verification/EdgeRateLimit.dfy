/** The edge rate limiter (`EdgeRateLimitMiddleware`) over Django's local-memory cache:
    a key lives until its expiry time, `incr` on a live key keeps its expiry, and `incr` on
    a missing or expired key raises, which makes the middleware start a new window. That cache is
    one per process, and it culls entries when it holds more than 300: the laws speak of one process
    whose cache stays below that. */
module EdgeRateLimit {

  datatype Kind = Throttle | Block

  datatype Key = Counter(kind: Kind, ip: string) | Active(kind: Kind, ip: string)

  datatype Entry = Entry(value: int, expiry: real)

  type Cache = map<Key, Entry>

  const THROTTLE_WINDOW: real := 900.0
  const BLOCK_WINDOW: real := 86400.0

  datatype Settings = Settings(throttleThreshold: int, blockThreshold: int)

  /** A request as the middleware sees it: whether its path is guarded, its client address
      ("" when there is none), when it arrives, when the handler's response comes back, and
      the status of that response. */
  datatype Request = Request(guarded: bool, ip: string, arrives: real, answered: real, status: int)

  datatype Reply = FromHandler | TooManyThrottled | TooManyBlocked

  function WindowOf(kind: Kind): real {
    if kind.Throttle? then THROTTLE_WINDOW else BLOCK_WINDOW
  }

  function ThresholdOf(cfg: Settings, kind: Kind): int {
    if kind.Throttle? then cfg.throttleThreshold else cfg.blockThreshold
  }

  predicate Counted(status: int) {
    status == 401 || status == 403 || status == 429
  }

  predicate Live(c: Cache, key: Key, now: real) {
    key in c && now < c[key].expiry
  }

  /** The value `_incr` returns, and the cache it leaves. */
  function CountAfter(c: Cache, key: Key, now: real): int {
    if Live(c, key, now) then c[key].value + 1 else 1
  }

  function Bump(c: Cache, key: Key, window: real, now: real): Cache {
    if Live(c, key, now) then c[key := Entry(c[key].value + 1, c[key].expiry)]
    else c[key := Entry(1, now + window)]
  }

  function Record(cfg: Settings, c: Cache, ip: string, countThrottle: bool, now: real): Cache {
    var c1 := if countThrottle then Bump(c, Counter(Throttle, ip), THROTTLE_WINDOW, now) else c;
    var c2 := Bump(c1, Counter(Block, ip), BLOCK_WINDOW, now);
    var c3 := if countThrottle && CountAfter(c, Counter(Throttle, ip), now) == cfg.throttleThreshold
              then c2[Active(Throttle, ip) := Entry(1, now + THROTTLE_WINDOW)] else c2;
    if CountAfter(c1, Counter(Block, ip), now) == cfg.blockThreshold
    then c3[Active(Block, ip) := Entry(1, now + BLOCK_WINDOW)] else c3
  }

  function ReplyTo(c: Cache, r: Request): Reply {
    if !r.guarded || r.ip == "" then FromHandler
    else if Live(c, Active(Block, r.ip), r.arrives) then TooManyBlocked
    else if Live(c, Active(Throttle, r.ip), r.arrives) then TooManyThrottled
    else FromHandler
  }

  /** A rejection that came from the handler and was counted. */
  predicate HandlerRejection(c: Cache, r: Request) {
    r.guarded && r.ip != "" && ReplyTo(c, r) == FromHandler && Counted(r.status)
  }

  function Serve(cfg: Settings, c: Cache, r: Request): Cache {
    if ReplyTo(c, r) != FromHandler then Record(cfg, c, r.ip, false, r.arrives)
    else if HandlerRejection(c, r) then Record(cfg, c, r.ip, true, r.answered)
    else c
  }

  class EdgeRateLimiter {
    const cfg: Settings
    var cache: Cache

    constructor (cfg: Settings)
      ensures this.cfg == cfg && cache == map[]
    {
      this.cfg := cfg;
      cache := map[];
    }

    method Incr(key: Key, window: real, now: real) returns (value: int)
      modifies this`cache
      ensures cache == Bump(old(cache), key, window, now)
      ensures value == CountAfter(old(cache), key, now)
    {
      if Live(cache, key, now) {
        value := cache[key].value + 1;
        cache := cache[key := cache[key].(value := value)];
      } else {
        cache := cache[key := Entry(1, now + window)];
        value := 1;
      }
    }

    method RecordRejection(ip: string, countThrottle: bool, now: real)
      modifies this`cache
      ensures cache == Record(cfg, old(cache), ip, countThrottle, now)
    {
      var throttled := false;
      if countThrottle {
        var n := Incr(Counter(Throttle, ip), THROTTLE_WINDOW, now);
        throttled := n == cfg.throttleThreshold;
      }
      var blockCount := Incr(Counter(Block, ip), BLOCK_WINDOW, now);
      if throttled {
        cache := cache[Active(Throttle, ip) := Entry(1, now + THROTTLE_WINDOW)];
      }
      if blockCount == cfg.blockThreshold {
        cache := cache[Active(Block, ip) := Entry(1, now + BLOCK_WINDOW)];
      }
    }

    /** One request through the middleware. */
    method Call(r: Request) returns (reply: Reply)
      modifies this`cache
      ensures reply == ReplyTo(old(cache), r)
      ensures cache == Serve(cfg, old(cache), r)
      ensures reply == FromHandler ==>
                (cache != old(cache) <==> r.guarded && r.ip != "" && r.status in {401, 403, 429})
    {
      if ReplyTo(cache, r) == FromHandler {
        ChangesWhenCounted(cfg, cache, r);
      }
      if !r.guarded || r.ip == "" {
        return FromHandler;
      }
      if Live(cache, Active(Block, r.ip), r.arrives) {
        RecordRejection(r.ip, false, r.arrives);
        return TooManyBlocked;
      }
      if Live(cache, Active(Throttle, r.ip), r.arrives) {
        RecordRejection(r.ip, false, r.arrives);
        return TooManyThrottled;
      }
      if Counted(r.status) {
        RecordRejection(r.ip, true, r.answered);
      }
      return FromHandler;
    }
  }

  // ----- what one request does to the four keys of an address -----

  /** Requests of one address never touch the entries of another. */
  lemma ServeIsIsolated(cfg: Settings, c: Cache, r: Request, key: Key)
    requires key.ip != r.ip
    ensures key in Serve(cfg, c, r) <==> key in c
    ensures key in c ==> Serve(cfg, c, r)[key] == c[key]
  {
  }

  predicate Bumped(kind: Kind, countThrottle: bool) {
    kind.Block? || countThrottle
  }

  /** A recorded rejection bumps the counter of each kind it counts for, arms the sentinel
      exactly when that counter arrives at its threshold, and leaves everything else. */
  lemma RecordEffect(cfg: Settings, c: Cache, ip: string, countThrottle: bool, now: real, kind: Kind)
    ensures var out := Record(cfg, c, ip, countThrottle, now);
            var n := CountAfter(c, Counter(kind, ip), now);
            if !Bumped(kind, countThrottle) then
              && (Counter(kind, ip) in out <==> Counter(kind, ip) in c)
              && (Counter(kind, ip) in c ==> out[Counter(kind, ip)] == c[Counter(kind, ip)])
              && (Active(kind, ip) in out <==> Active(kind, ip) in c)
              && (Active(kind, ip) in c ==> out[Active(kind, ip)] == c[Active(kind, ip)])
            else
              && Counter(kind, ip) in out && out[Counter(kind, ip)].value == n
              && out[Counter(kind, ip)].expiry
                 == (if Live(c, Counter(kind, ip), now) then c[Counter(kind, ip)].expiry else now + WindowOf(kind))
              && (if n == ThresholdOf(cfg, kind)
                  then Active(kind, ip) in out && out[Active(kind, ip)].expiry == now + WindowOf(kind)
                  else && (Active(kind, ip) in out <==> Active(kind, ip) in c)
                       && (Active(kind, ip) in c ==> out[Active(kind, ip)] == c[Active(kind, ip)]))
  {
  }

  /** An answer of the handler is counted, that is, it changes the cache, if and only if the path is
      guarded, there is an address, and the status is 401, 403 or 429. */
  lemma ChangesWhenCounted(cfg: Settings, c: Cache, r: Request)
    requires ReplyTo(c, r) == FromHandler
    ensures Serve(cfg, c, r) != c <==> r.guarded && r.ip != "" && r.status in {401, 403, 429}
  {
    RecordEffect(cfg, c, r.ip, true, r.answered, Block);
    hide Record;
  }

  // ----- timed runs -----

  /** A request that the limiter looks at for this address. */
  predicate Of(r: Request, ip: string) {
    r.guarded && r.ip == ip != ""
  }

  /** The requests of one address are served one after another; those of different addresses may
      overlap. The list is in the order in which the requests reach the counters. */
  predicate Timed(reqs: seq<Request>) {
    && (forall i :: 0 <= i < |reqs| ==> reqs[i].arrives <= reqs[i].answered)
    && (forall i, j :: 0 <= i < j < |reqs| && Of(reqs[i], reqs[i].ip) && Of(reqs[j], reqs[i].ip) ==>
          reqs[i].answered <= reqs[j].arrives)
  }

  /** By `now` the first `n` requests of this address have been answered. */
  predicate AnsweredBy(reqs: seq<Request>, n: nat, ip: string, now: real)
    requires n <= |reqs|
  {
    forall i :: 0 <= i < n && Of(reqs[i], ip) ==> reqs[i].answered <= now
  }

  /** The cache after the first `n` requests, from an empty one. */
  function CacheAt(cfg: Settings, reqs: seq<Request>, n: nat): Cache
    requires n <= |reqs|
  {
    if n == 0 then map[] else Serve(cfg, CacheAt(cfg, reqs, n - 1), reqs[n - 1])
  }

  /** When request `i` last touches the cache. */
  function TouchedAt(cfg: Settings, reqs: seq<Request>, i: nat): real
    requires i < |reqs|
  {
    if ReplyTo(CacheAt(cfg, reqs, i), reqs[i]) == FromHandler then reqs[i].answered else reqs[i].arrives
  }

  /** No counter and no sentinel of the address outlives a full window from `now`. */
  predicate KeysDated(c: Cache, ip: string, now: real) {
    forall kind: Kind ::
      && (Counter(kind, ip) in c ==> c[Counter(kind, ip)].expiry <= now + WindowOf(kind))
      && (Active(kind, ip) in c ==> c[Active(kind, ip)].expiry <= now + WindowOf(kind))
  }

  predicate Guarded(cfg: Settings, c: Cache, kind: Kind, ip: string) {
    Counter(kind, ip) in c && c[Counter(kind, ip)].value >= ThresholdOf(cfg, kind) ==>
      Active(kind, ip) in c && c[Active(kind, ip)].expiry >= c[Counter(kind, ip)].expiry
  }

  lemma RecordKeepsDates(cfg: Settings, c: Cache, ip: string, countThrottle: bool, now: real)
    requires KeysDated(c, ip, now)
    ensures KeysDated(Record(cfg, c, ip, countThrottle, now), ip, now)
  {
    forall kind: Kind
      ensures var out := Record(cfg, c, ip, countThrottle, now);
              && (Counter(kind, ip) in out ==> out[Counter(kind, ip)].expiry <= now + WindowOf(kind))
              && (Active(kind, ip) in out ==> out[Active(kind, ip)].expiry <= now + WindowOf(kind))
    {
      RecordEffect(cfg, c, ip, countThrottle, now, kind);
    }
  }

  lemma RecordKeepsGuard(cfg: Settings, c: Cache, ip: string, countThrottle: bool, now: real, kind: Kind)
    requires ThresholdOf(cfg, kind) >= 1 && Guarded(cfg, c, kind, ip) && KeysDated(c, ip, now)
    ensures Guarded(cfg, Record(cfg, c, ip, countThrottle, now), kind, ip)
  {
    RecordEffect(cfg, c, ip, countThrottle, now, kind);
  }

  /** A request of another address, or one the limiter does not look at, leaves these keys alone. */
  lemma OthersLeaveKeys(cfg: Settings, c: Cache, r: Request, ip: string, kind: Kind)
    requires !Of(r, ip)
    ensures Counter(kind, ip) in Serve(cfg, c, r) <==> Counter(kind, ip) in c
    ensures Counter(kind, ip) in c ==> Serve(cfg, c, r)[Counter(kind, ip)] == c[Counter(kind, ip)]
    ensures Active(kind, ip) in Serve(cfg, c, r) <==> Active(kind, ip) in c
    ensures Active(kind, ip) in c ==> Serve(cfg, c, r)[Active(kind, ip)] == c[Active(kind, ip)]
  {
    hide Record;
    if r.ip != ip {
      ServeIsIsolated(cfg, c, r, Counter(kind, ip));
      ServeIsIsolated(cfg, c, r, Active(kind, ip));
    }
  }

  /** One request of the address itself records one rejection, at the moment it touches the cache,
      or nothing. */
  lemma OwnRequest(cfg: Settings, reqs: seq<Request>, i: nat)
    requires i < |reqs|
    ensures var c, r := CacheAt(cfg, reqs, i), reqs[i];
            || Serve(cfg, c, r) == c
            || Serve(cfg, c, r) == Record(cfg, c, r.ip, ReplyTo(c, r) == FromHandler, TouchedAt(cfg, reqs, i))
  {
    hide Record;
  }

  lemma {:induction false} DatesFollow(cfg: Settings, reqs: seq<Request>, n: nat, ip: string, now: real)
    requires Timed(reqs) && n <= |reqs| && AnsweredBy(reqs, n, ip, now)
    ensures KeysDated(CacheAt(cfg, reqs, n), ip, now)
  {
    hide Record, Serve, ReplyTo;
    if n > 0 {
      var c, r := CacheAt(cfg, reqs, n - 1), reqs[n - 1];
      if Of(r, ip) {
        var t := TouchedAt(cfg, reqs, n - 1);
        DatesFollow(cfg, reqs, n - 1, ip, t);
        OwnRequest(cfg, reqs, n - 1);
        RecordKeepsDates(cfg, c, ip, ReplyTo(c, r) == FromHandler, t);
      } else {
        DatesFollow(cfg, reqs, n - 1, ip, now);
        OthersLeaveKeys(cfg, c, r, ip, Throttle);
        OthersLeaveKeys(cfg, c, r, ip, Block);
      }
    }
  }

  /** In every run, whenever the throttle or block counter of an address is at or above its
      threshold, the matching sentinel lives at least as long, although blocked requests go on
      counting: a live counter there has an active sentinel. */
  lemma {:induction false} SentinelsFollowCounters(cfg: Settings, reqs: seq<Request>, n: nat, ip: string, kind: Kind)
    requires ThresholdOf(cfg, kind) >= 1 && Timed(reqs) && n <= |reqs|
    ensures Guarded(cfg, CacheAt(cfg, reqs, n), kind, ip)
  {
    hide Record, Serve, ReplyTo, Guarded, KeysDated;
    if n == 0 {
      EmptyIsGuarded(cfg, kind, ip);
    } else {
      SentinelsFollowCounters(cfg, reqs, n - 1, ip, kind);
      SentinelsFollowOnce(cfg, reqs, n - 1, ip, kind);
    }
  }

  lemma EmptyIsGuarded(cfg: Settings, kind: Kind, ip: string)
    ensures Guarded(cfg, map[], kind, ip)
  {
  }

  lemma SentinelsFollowOnce(cfg: Settings, reqs: seq<Request>, n: nat, ip: string, kind: Kind)
    requires ThresholdOf(cfg, kind) >= 1 && Timed(reqs) && n < |reqs|
    requires Guarded(cfg, CacheAt(cfg, reqs, n), kind, ip)
    ensures Guarded(cfg, Serve(cfg, CacheAt(cfg, reqs, n), reqs[n]), kind, ip)
  {
    hide Record, Serve, ReplyTo;
    var c, r := CacheAt(cfg, reqs, n), reqs[n];
    if Of(r, ip) {
      var t := TouchedAt(cfg, reqs, n);
      DatesFollow(cfg, reqs, n, ip, t);
      OwnRequest(cfg, reqs, n);
      RecordKeepsGuard(cfg, c, ip, ReplyTo(c, r) == FromHandler, t, kind);
    } else {
      OthersLeaveKeys(cfg, c, r, ip, kind);
    }
  }

  // ----- enforcement -----

  /** A sentinel is never removed, and setting it again never shortens it. */
  lemma {:induction false} SentinelOnlyGrows(cfg: Settings, reqs: seq<Request>, m: nat, n: nat, ip: string, kind: Kind)
    requires Timed(reqs) && m <= n <= |reqs| && Active(kind, ip) in CacheAt(cfg, reqs, m)
    ensures Active(kind, ip) in CacheAt(cfg, reqs, n)
    ensures CacheAt(cfg, reqs, n)[Active(kind, ip)].expiry >= CacheAt(cfg, reqs, m)[Active(kind, ip)].expiry
    decreases n - m
  {
    hide Record, Serve, ReplyTo;
    if m < n {
      SentinelOnlyGrows(cfg, reqs, m, n - 1, ip, kind);
      var c, r := CacheAt(cfg, reqs, n - 1), reqs[n - 1];
      if Of(r, ip) {
        var t := TouchedAt(cfg, reqs, n - 1);
        DatesFollow(cfg, reqs, n - 1, ip, t);
        OwnRequest(cfg, reqs, n - 1);
        RecordEffect(cfg, c, ip, ReplyTo(c, r) == FromHandler, t, kind);
      } else {
        OthersLeaveKeys(cfg, c, r, ip, kind);
      }
    }
  }

  /** The m-th request armed the sentinel: its rejection brought the counter to the threshold. */
  predicate Arms(cfg: Settings, reqs: seq<Request>, m: nat, kind: Kind)
    requires m < |reqs|
  {
    var c, r := CacheAt(cfg, reqs, m), reqs[m];
    if ReplyTo(c, r) != FromHandler then
      kind.Block? && CountAfter(c, Counter(Block, r.ip), r.arrives) == cfg.blockThreshold
    else
      && r.guarded && r.ip != "" && r.status in {401, 403, 429}
      && CountAfter(c, Counter(kind, r.ip), r.answered)
         == (if kind.Throttle? then cfg.throttleThreshold else cfg.blockThreshold)
  }

  /** Request `m` armed the sentinel of this kind for the address of request `n`, less than a full
      window before `n` arrives. */
  predicate Bars(cfg: Settings, reqs: seq<Request>, m: nat, n: nat, kind: Kind) {
    && m < n < |reqs| && Of(reqs[m], reqs[n].ip) && Arms(cfg, reqs, m, kind)
    && reqs[n].arrives < TouchedAt(cfg, reqs, m) + (if kind.Throttle? then 900.0 else 86400.0)
  }

  /** A request that arms a sentinel leaves it in the cache for a full window. */
  lemma ArmingSets(cfg: Settings, reqs: seq<Request>, m: nat, kind: Kind)
    requires m < |reqs| && Of(reqs[m], reqs[m].ip) && Arms(cfg, reqs, m, kind)
    ensures var c := CacheAt(cfg, reqs, m + 1);
            Active(kind, reqs[m].ip) in c
            && c[Active(kind, reqs[m].ip)].expiry == TouchedAt(cfg, reqs, m) + WindowOf(kind)
  {
    var c, r := CacheAt(cfg, reqs, m), reqs[m];
    RecordEffect(cfg, c, r.ip, ReplyTo(c, r) == FromHandler, TouchedAt(cfg, reqs, m), kind);
    hide Record;
  }

  /** A request that does not arm the sentinel leaves it as it was. */
  lemma OthersDoNotSet(cfg: Settings, reqs: seq<Request>, m: nat, ip: string, kind: Kind)
    requires m < |reqs| && !(Of(reqs[m], ip) && Arms(cfg, reqs, m, kind))
    ensures var c, d := CacheAt(cfg, reqs, m), CacheAt(cfg, reqs, m + 1);
            && (Active(kind, ip) in d <==> Active(kind, ip) in c)
            && (Active(kind, ip) in d ==> d[Active(kind, ip)] == c[Active(kind, ip)])
  {
    var c, r := CacheAt(cfg, reqs, m), reqs[m];
    if Of(r, ip) {
      RecordEffect(cfg, c, ip, ReplyTo(c, r) == FromHandler, TouchedAt(cfg, reqs, m), kind);
    } else {
      OthersLeaveKeys(cfg, c, r, ip, kind);
    }
    hide Record;
  }

  /** Every sentinel was armed by some request and expires a full window after that moment. */
  lemma {:induction false} SentinelWasArmed(cfg: Settings, reqs: seq<Request>, n: nat, ip: string, kind: Kind)
    returns (m: nat)
    requires n <= |reqs| && Active(kind, ip) in CacheAt(cfg, reqs, n)
    ensures m < n && Of(reqs[m], ip) && Arms(cfg, reqs, m, kind)
    ensures CacheAt(cfg, reqs, n)[Active(kind, ip)].expiry == TouchedAt(cfg, reqs, m) + WindowOf(kind)
  {
    hide Serve, Arms, TouchedAt;
    assert n > 0;
    if Of(reqs[n - 1], ip) && Arms(cfg, reqs, n - 1, kind) {
      m := n - 1;
      ArmingSets(cfg, reqs, m, kind);
    } else {
      OthersDoNotSet(cfg, reqs, n - 1, ip, kind);
      m := SentinelWasArmed(cfg, reqs, n - 1, ip, kind);
    }
  }

  /** A sentinel is active for a request exactly when some earlier request of the address armed it
      less than a full window before. */
  lemma ActiveIff(cfg: Settings, reqs: seq<Request>, n: nat, kind: Kind)
    requires Timed(reqs) && n < |reqs| && Of(reqs[n], reqs[n].ip)
    ensures Live(CacheAt(cfg, reqs, n), Active(kind, reqs[n].ip), reqs[n].arrives)
       <==> exists m :: 0 <= m < n && Bars(cfg, reqs, m, n, kind)
  {
    hide Serve, Arms, TouchedAt;
    var ip := reqs[n].ip;
    if m :| 0 <= m < n && Bars(cfg, reqs, m, n, kind) {
      ArmingSets(cfg, reqs, m, kind);
      SentinelOnlyGrows(cfg, reqs, m + 1, n, ip, kind);
    }
    if Live(CacheAt(cfg, reqs, n), Active(kind, ip), reqs[n].arrives) {
      var m := SentinelWasArmed(cfg, reqs, n, ip, kind);
      assert Bars(cfg, reqs, m, n, kind);
    }
  }

  /** THE REFUSALS, EXACTLY. A request is answered as blocked if and only if an earlier request of
      its address brought the block counter to its threshold less than 24 hours before, and as
      throttled if and only if it is not blocked and an earlier one brought the throttle counter to
      its threshold less than 15 minutes before: a refusal lasts one full window and no longer. */
  lemma RefusedIff(cfg: Settings, reqs: seq<Request>, n: nat)
    requires Timed(reqs) && n < |reqs| && Of(reqs[n], reqs[n].ip)
    ensures ReplyTo(CacheAt(cfg, reqs, n), reqs[n]) == TooManyBlocked
       <==> exists m :: 0 <= m < n && Bars(cfg, reqs, m, n, Block)
    ensures ReplyTo(CacheAt(cfg, reqs, n), reqs[n]) == TooManyThrottled
       <==> && !(exists m :: 0 <= m < n && Bars(cfg, reqs, m, n, Block))
            && (exists m :: 0 <= m < n && Bars(cfg, reqs, m, n, Throttle))
  {
    hide Bars, Live;
    ActiveIff(cfg, reqs, n, Block);
    ActiveIff(cfg, reqs, n, Throttle);
  }

  /** Once an address reaches a threshold, none of its requests reaches the handler for a full
      window after that moment: 15 minutes for the throttle, 24 hours for the block. */
  lemma ThresholdIsEnforced(cfg: Settings, reqs: seq<Request>, m: nat, n: nat, kind: Kind)
    requires Timed(reqs) && m < n < |reqs| && Of(reqs[n], reqs[n].ip) && Bars(cfg, reqs, m, n, kind)
    ensures ReplyTo(CacheAt(cfg, reqs, n), reqs[n]) != FromHandler
    ensures kind.Block? ==> ReplyTo(CacheAt(cfg, reqs, n), reqs[n]) == TooManyBlocked
  {
    hide Bars;
    RefusedIff(cfg, reqs, n);
  }

  // ----- the bound across window boundaries -----

  /** A counted handler rejection: when it was counted and the throttle count it produced. */
  datatype Hit = Hit(time: real, ordinal: int)

  function Hits(cfg: Settings, reqs: seq<Request>, n: nat, ip: string): seq<Hit>
    requires n <= |reqs|
  {
    if n == 0 then []
    else
      var c, r := CacheAt(cfg, reqs, n - 1), reqs[n - 1];
      Hits(cfg, reqs, n - 1, ip)
      + if r.ip == ip && HandlerRejection(c, r)
        then [Hit(r.answered, CountAfter(c, Counter(Throttle, ip), r.answered))] else []
  }

  /** Hits come in groups numbered 1, 2, ...: a group fits in one window from its first hit and
      holds at most `limit` hits; the next group starts a window or more after the first hit of
      the group before, and a window or more after its last hit when that group was full. */
  ghost predicate Follows(hits: seq<Hit>, i: int, limit: int)
    requires 0 < i < |hits|
  {
    var prev := hits[i - 1].ordinal;
    && 1 <= prev <= i && hits[i - 1].time <= hits[i].time
    && 1 <= hits[i].ordinal <= limit
    && if hits[i].ordinal != 1 then
         hits[i].ordinal == prev + 1
       else
         && hits[i].time >= hits[i - prev].time + THROTTLE_WINDOW
         && (prev == limit ==> hits[i].time >= hits[i - 1].time + THROTTLE_WINDOW)
  }

  ghost predicate Grouped(hits: seq<Hit>, limit: int) {
    && (|hits| > 0 ==> hits[0].ordinal == 1)
    && forall i :: 0 < i < |hits| ==> Follows(hits, i, limit)
  }

  /** What the cache remembers of the hits so far. */
  ghost predicate Remembers(cfg: Settings, c: Cache, hits: seq<Hit>, ip: string) {
    if hits == [] then Counter(Throttle, ip) !in c
    else
      var last := hits[|hits| - 1];
      && 1 <= last.ordinal <= |hits| && last.ordinal <= cfg.throttleThreshold
      && Counter(Throttle, ip) in c
      && c[Counter(Throttle, ip)] == Entry(last.ordinal, hits[|hits| - last.ordinal].time + THROTTLE_WINDOW)
      && (last.ordinal == cfg.throttleThreshold ==>
            Active(Throttle, ip) in c && c[Active(Throttle, ip)].expiry == last.time + THROTTLE_WINDOW)
  }

  lemma {:induction false} TimesAscend(hits: seq<Hit>, limit: int, i: nat, j: nat)
    requires Grouped(hits, limit) && i <= j < |hits|
    ensures hits[i].time <= hits[j].time
    decreases j
  {
    if i < j {
      TimesAscend(hits, limit, i, j - 1);
      assert Follows(hits, j, limit);
    }
  }

  /** One more counted rejection extends the groups. */
  lemma HitExtends(cfg: Settings, c: Cache, hits: seq<Hit>, r: Request)
    requires cfg.throttleThreshold >= 1 && HandlerRejection(c, r) && r.arrives <= r.answered
    requires Grouped(hits, cfg.throttleThreshold) && Remembers(cfg, c, hits, r.ip)
    requires hits != [] ==> hits[|hits| - 1].time <= r.arrives
    ensures var more := hits + [Hit(r.answered, CountAfter(c, Counter(Throttle, r.ip), r.answered))];
            Grouped(more, cfg.throttleThreshold) && Remembers(cfg, Serve(cfg, c, r), more, r.ip)
  {
    var limit := cfg.throttleThreshold;
    var n := CountAfter(c, Counter(Throttle, r.ip), r.answered);
    var more := hits + [Hit(r.answered, n)];
    RecordEffect(cfg, c, r.ip, true, r.answered, Throttle);
    if hits != [] {
      var k := |hits|;
      var prev := hits[k - 1].ordinal;
      TimesAscend(hits, limit, k - prev, k - 1);
      assert more[k - prev] == hits[k - prev];
      assert Follows(more, k, limit);
      forall i | 0 < i < k ensures Follows(more, i, limit) {
        assert Follows(hits, i, limit);
      }
    }
  }

  lemma {:induction false} HitsAnswered(cfg: Settings, reqs: seq<Request>, n: nat, ip: string, now: real)
    requires n <= |reqs| && AnsweredBy(reqs, n, ip, now)
    ensures forall i :: 0 <= i < |Hits(cfg, reqs, n, ip)| ==> Hits(cfg, reqs, n, ip)[i].time <= now
  {
    if n > 0 {
      HitsAnswered(cfg, reqs, n - 1, ip, now);
      hide Serve, CountAfter, ReplyTo;
    }
  }

  /** A request that adds no hit leaves what the cache remembers of the address. */
  lemma NoHitKeeps(cfg: Settings, c: Cache, r: Request, hits: seq<Hit>, ip: string)
    requires Remembers(cfg, c, hits, ip) && !(r.ip == ip && HandlerRejection(c, r))
    ensures Remembers(cfg, Serve(cfg, c, r), hits, ip)
  {
    if !Of(r, ip) {
      OthersLeaveKeys(cfg, c, r, ip, Throttle);
    } else if ReplyTo(c, r) != FromHandler {
      RecordEffect(cfg, c, ip, false, r.arrives, Throttle);
    }
    hide Record;
  }

  lemma {:induction false} RunIsGrouped(cfg: Settings, reqs: seq<Request>, n: nat, ip: string)
    requires cfg.throttleThreshold >= 1 && Timed(reqs) && n <= |reqs|
    ensures var hits := Hits(cfg, reqs, n, ip);
            Grouped(hits, cfg.throttleThreshold) && Remembers(cfg, CacheAt(cfg, reqs, n), hits, ip)
  {
    if n > 0 {
      RunIsGrouped(cfg, reqs, n - 1, ip);
      hide Record, Serve, Grouped, Remembers, CountAfter;
      var c, r, hits := CacheAt(cfg, reqs, n - 1), reqs[n - 1], Hits(cfg, reqs, n - 1, ip);
      if r.ip == ip && HandlerRejection(c, r) {
        HitsAnswered(cfg, reqs, n - 1, ip, r.arrives);
        HitExtends(cfg, c, hits, r);
      } else {
        assert Hits(cfg, reqs, n, ip) == hits;
        NoHitKeeps(cfg, c, r, hits, ip);
      }
    }
  }

  predicate InWindow(t: real, from: real) {
    from <= t < from + THROTTLE_WINDOW
  }

  /** How many of the first `n` hits fall in the half-open window that starts at `from`. */
  function CountIn(hits: seq<Hit>, n: nat, from: real): nat
    requires n <= |hits|
  {
    if n == 0 then 0 else CountIn(hits, n - 1, from) + if InWindow(hits[n - 1].time, from) then 1 else 0
  }

  lemma {:induction false} CountSpans(hits: seq<Hit>, n: nat, from: real) returns (i: nat, j: nat)
    requires n <= |hits| && CountIn(hits, n, from) > 0
    ensures i <= j < n && InWindow(hits[i].time, from) && InWindow(hits[j].time, from)
    ensures CountIn(hits, n, from) <= j - i + 1
  {
    if CountIn(hits, n - 1, from) > 0 {
      i, j := CountSpans(hits, n - 1, from);
      if InWindow(hits[n - 1].time, from) {
        j := n - 1;
      }
    } else {
      i, j := n - 1, n - 1;
    }
  }

  lemma {:induction false} GroupStart(hits: seq<Hit>, limit: int, j: nat)
    requires Grouped(hits, limit) && j < |hits| && limit >= 1
    ensures 1 <= hits[j].ordinal <= j + 1 && hits[j].ordinal <= limit
    ensures hits[j + 1 - hits[j].ordinal].ordinal == 1
  {
    if j > 0 {
      assert Follows(hits, j, limit);
      if hits[j].ordinal != 1 {
        GroupStart(hits, limit, j - 1);
      }
    }
  }

  function Max(a: int, b: int): int { if a >= b then a else b }

  /** Two hits of one window are close together in the sequence: at most a full group, or the
      tail of a group that is not full and whose first hit is outside, followed by a full one. */
  lemma WindowSpan(hits: seq<Hit>, limit: int, from: real, i: nat, j: nat)
    requires Grouped(hits, limit) && limit >= 1 && i <= j < |hits|
    requires InWindow(hits[i].time, from) && InWindow(hits[j].time, from)
    ensures j - i + 1 <= Max(limit, 2 * limit - 2)
  {
    GroupStart(hits, limit, j);
    var p := j + 1 - hits[j].ordinal;
    if p > i {
      assert Follows(hits, p, limit);
      GroupStart(hits, limit, p - 1);
      var q := p - hits[p - 1].ordinal;
      TimesAscend(hits, limit, p, j);
      TimesAscend(hits, limit, i, p - 1);
      if q >= i {
        TimesAscend(hits, limit, i, q);
      }
    }
  }

  /** THE BOUND. For one address and threshold T >= 1, every half-open window of 15 minutes holds
      at most max(T, 2T - 2) counted rejections from the handler, also when requests of other addresses
      overlap with them. This sharpens the documented "up to 2x the threshold". */
  lemma WindowBound(cfg: Settings, reqs: seq<Request>, ip: string, from: real)
    requires cfg.throttleThreshold >= 1 && Timed(reqs)
    ensures var hits := Hits(cfg, reqs, |reqs|, ip);
            CountIn(hits, |hits|, from) <= Max(cfg.throttleThreshold, 2 * cfg.throttleThreshold - 2)
  {
    var hits := Hits(cfg, reqs, |reqs|, ip);
    RunIsGrouped(cfg, reqs, |reqs|, ip);
    if CountIn(hits, |hits|, from) > 0 {
      var i, j := CountSpans(hits, |hits|, from);
      WindowSpan(hits, cfg.throttleThreshold, from, i, j);
    }
  }

  // ----- refusal and counting window -----

  /** When the last hit of an address filled its counter, the refusal outlasts the counting window
      if and only if the first hit of that window came earlier than the last. */
  lemma RefusalOutlastsWindowIff(cfg: Settings, reqs: seq<Request>, n: nat, ip: string)
    requires cfg.throttleThreshold >= 1 && Timed(reqs) && n <= |reqs|
    requires var hits := Hits(cfg, reqs, n, ip);
             hits != [] && hits[|hits| - 1].ordinal == cfg.throttleThreshold
    ensures var c, hits := CacheAt(cfg, reqs, n), Hits(cfg, reqs, n, ip);
            && Counter(Throttle, ip) in c && Active(Throttle, ip) in c && cfg.throttleThreshold <= |hits|
            && (c[Active(Throttle, ip)].expiry > c[Counter(Throttle, ip)].expiry <==>
                  hits[|hits| - cfg.throttleThreshold].time < hits[|hits| - 1].time)
  {
    hide Serve, Hits, Grouped;
    RunIsGrouped(cfg, reqs, n, ip);
  }

  /** Threshold two: rejections at 0 and 100 seconds, and a request at 950, when the counting window
      of 900 seconds is over. */
  function LateRequest(ip: string): seq<Request> {
    [Request(true, ip, 0.0, 0.0, 401), Request(true, ip, 100.0, 100.0, 401), Request(true, ip, 950.0, 950.0, 200)]
  }

  /** It is still refused. */
  lemma RefusedPastWindow(cfg: Settings, ip: string)
    requires cfg.throttleThreshold == 2 && cfg.blockThreshold > 2 && ip != ""
    ensures var reqs := LateRequest(ip);
            && Timed(reqs) && Counter(Throttle, ip) in CacheAt(cfg, reqs, 2)
            && CacheAt(cfg, reqs, 2)[Counter(Throttle, ip)].expiry == 900.0 < reqs[2].arrives
            && ReplyTo(CacheAt(cfg, reqs, 2), reqs[2]) == TooManyThrottled
  {
    var reqs := LateRequest(ip);
    assert CacheAt(cfg, reqs, 0) == map[];
    assert CacheAt(cfg, reqs, 1)
        == map[Counter(Throttle, ip) := Entry(1, 900.0), Counter(Block, ip) := Entry(1, BLOCK_WINDOW)];
  }

  // ----- the bound is reached -----

  /** One rejection at 0, T - 2 just before the window ends, then T as the next one starts. */
  function WorstTime(limit: int, i: nat): real {
    if i == 0 then 0.0 else if i < limit - 1 then 899.0 else 900.0
  }

  function WorstCase(limit: int, ip: string): seq<Request>
    requires limit >= 2
  {
    seq(2 * limit - 1, i requires 0 <= i => Request(true, ip, WorstTime(limit, i), WorstTime(limit, i), 401))
  }

  /** The cache after `n` requests of the worst case. */
  predicate WorstCache(limit: int, ip: string, n: int, c: Cache) {
    if n == 0 then c == map[]
    else
      && Counter(Block, ip) in c && c[Counter(Block, ip)] == Entry(n, BLOCK_WINDOW)
      && Counter(Throttle, ip) in c
      && c[Counter(Throttle, ip)] == (if n < limit then Entry(n, 900.0) else Entry(n - limit + 1, 1800.0))
      && (n < 2 * limit - 1 ==> Active(Throttle, ip) !in c && Active(Block, ip) !in c)
  }

  lemma WorstStep(cfg: Settings, ip: string, n: nat, c: Cache, r: Request)
    requires cfg.throttleThreshold >= 2 && cfg.blockThreshold >= 2 * cfg.throttleThreshold - 1 && ip != ""
    requires n < 2 * cfg.throttleThreshold - 1 && WorstCache(cfg.throttleThreshold, ip, n, c)
    requires var t := WorstTime(cfg.throttleThreshold, n); r == Request(true, ip, t, t, 401)
    ensures HandlerRejection(c, r)
    ensures WorstCache(cfg.throttleThreshold, ip, n + 1, Serve(cfg, c, r))
  {
    hide Record;
    RecordEffect(cfg, c, ip, true, r.answered, Throttle);
    RecordEffect(cfg, c, ip, true, r.answered, Block);
  }

  lemma {:induction false} WorstRun(cfg: Settings, ip: string, reqs: seq<Request>, n: nat)
    requires cfg.throttleThreshold >= 2 && cfg.blockThreshold >= 2 * cfg.throttleThreshold - 1 && ip != ""
    requires reqs == WorstCase(cfg.throttleThreshold, ip) && n <= |reqs|
    ensures WorstCache(cfg.throttleThreshold, ip, n, CacheAt(cfg, reqs, n))
    ensures var hits := Hits(cfg, reqs, n, ip);
            |hits| == n && forall i :: 0 <= i < n ==> hits[i].time == WorstTime(cfg.throttleThreshold, i)
  {
    hide Serve, HandlerRejection, WorstCache;
    if n == 0 {
      EmptyIsWorst(cfg.throttleThreshold, ip);
    } else {
      WorstRun(cfg, ip, reqs, n - 1);
      WorstStep(cfg, ip, n - 1, CacheAt(cfg, reqs, n - 1), reqs[n - 1]);
    }
  }

  lemma EmptyIsWorst(limit: int, ip: string)
    ensures WorstCache(limit, ip, 0, map[])
  {
  }

  lemma {:induction false} CountAllButFirst(hits: seq<Hit>, n: nat, from: real)
    requires 1 <= n <= |hits| && !InWindow(hits[0].time, from)
    requires forall i :: 0 < i < n ==> InWindow(hits[i].time, from)
    ensures CountIn(hits, n, from) == n - 1
  {
    if n > 1 {
      CountAllButFirst(hits, n - 1, from);
    }
  }

  /** No smaller bound holds: for every threshold T >= 2 (and a block threshold that does not cut
      in first) some timed run puts exactly 2T - 2 counted rejections in one window. */
  lemma BoundIsReached(cfg: Settings, ip: string)
    requires cfg.throttleThreshold >= 2 && cfg.blockThreshold >= 2 * cfg.throttleThreshold - 1 && ip != ""
    ensures var reqs := WorstCase(cfg.throttleThreshold, ip);
            var hits := Hits(cfg, reqs, |reqs|, ip);
            Timed(reqs) && CountIn(hits, |hits|, 899.0) == 2 * cfg.throttleThreshold - 2
  {
    var reqs := WorstCase(cfg.throttleThreshold, ip);
    WorstRun(cfg, ip, reqs, |reqs|);
    CountAllButFirst(Hits(cfg, reqs, |reqs|, ip), |reqs|, 899.0);
  }
}
