/** A fixed-window rate limiter over the shared counter store, as the
    `RateLimiterRedis` instances of the login controller use it: `Get` reads a
    key's state, `Consume` spends one point and, on the attempt that first goes
    over the limit, switches the key from its window to its block period,
    `Delete` drops the key.  Limits are points per window; windows and blocks
    are given in seconds and kept in the store in milliseconds. */
module RateLimiting {
  import opened Store

  /** keyPrefix namespaces the limiter's keys in the shared store; points is
      the number of points a key may spend per window; duration is the window
      and blockDuration the block, both in seconds (0 means no block). */
  datatype Config = Config(keyPrefix: string, points: nat, duration: nat, blockDuration: nat) {
    predicate Valid() {
      points > 0 && duration > 0
    }
  }

  /** The state of one key as the limiter reports it. */
  datatype LimiterRes = LimiterRes(consumedPoints: nat, msBeforeNext: nat)

  /** `Consume` resolves, rejects with the key's state (limit exceeded), or
      rejects with an infrastructure error from the store. */
  datatype ConsumeResult =
    | Consumed(res: LimiterRes)
    | RateLimitExceeded(res: LimiterRes)
    | ConsumeFailed

  /** The store key of `key`: the prefix and a colon, unless the prefix is empty. */
  function FullKey(prefix: string, key: string): (k: string)
    ensures prefix != "" ==> |k| == |prefix| + 1 + |key| && k[..|prefix|] == prefix && k[|prefix|] == ':'
    ensures prefix == "" ==> k == key
  {
    if prefix == "" then key else prefix + ":" + key
  }

  /** get(key): one read of the store, no change to any counter. */
  function GetSpec(cfg: Config, s: StoreState, key: string, now: nat): (r: (StoreState, Reply<Option<LimiterRes>>))
    ensures r.0.data == s.data
    ensures r.1.Unavailable? <==> NextDown(s)
    ensures r.1.Ok? ==> (r.1.value.Some? <==> Live(s.data, FullKey(cfg.keyPrefix, key), now))
    ensures r.1.Ok? && r.1.value.Some? ==>
              && r.1.value.value.consumedPoints == Count(s.data, FullKey(cfg.keyPrefix, key), now)
              && now + r.1.value.value.msBeforeNext == s.data[FullKey(cfg.keyPrefix, key)].expiresAt
    ensures Connected(s) ==> Connected(r.0)
    ensures r.0.failed == s.failed + (if r.1.Unavailable? then 1 else 0)
  {
    var (t, reply) := GetCmd(s, FullKey(cfg.keyPrefix, key), now);
    match reply
    case Unavailable => (t, Unavailable)
    case Ok(None) => (t, Ok(None))
    case Ok(Some(rec)) => (t, Ok(Some(LimiterRes(rec.value, rec.pttl))))
  }

  /** consume(key): spend one point.  Over the limit, the attempt that first
      crosses it re-stores the key for the block period and reports that
      period; later attempts report the time left. */
  function ConsumeSpec(cfg: Config, s: StoreState, key: string, now: nat): (r: (StoreState, ConsumeResult))
    requires cfg.Valid()
    ensures Connected(s) ==> Connected(r.0)
    ensures r.0.failed >= s.failed && (r.1.ConsumeFailed? <==> r.0.failed > s.failed)
  {
    var k := FullKey(cfg.keyPrefix, key);
    var (s1, incr) := IncrCmd(s, k, 1, cfg.duration * 1000, now);
    match incr
    case Unavailable => (s1, ConsumeFailed)
    case Ok(rec) =>
      if rec.value > cfg.points then
        if cfg.blockDuration > 0 && rec.value <= cfg.points + 1 then
          var (s2, stored) := SetCmd(s1, k, rec.value, cfg.blockDuration * 1000, now);
          if stored.Unavailable? then (s2, ConsumeFailed)
          else (s2, RateLimitExceeded(LimiterRes(rec.value, cfg.blockDuration * 1000)))
        else (s1, RateLimitExceeded(LimiterRes(rec.value, rec.pttl)))
      else (s1, Consumed(LimiterRes(rec.value, rec.pttl)))
  }

  /** delete(key): drop the key whatever its state. */
  function DeleteSpec(cfg: Config, s: StoreState, key: string, now: nat): (r: (StoreState, Reply<bool>))
    ensures r.1.Unavailable? <==> NextDown(s)
    ensures r.0.data == if r.1.Ok? then s.data - {FullKey(cfg.keyPrefix, key)} else s.data
    ensures Connected(s) ==> Connected(r.0)
    ensures r.0.failed == s.failed + (if r.1.Unavailable? then 1 else 0)
  {
    DelCmd(s, FullKey(cfg.keyPrefix, key), now)
  }

  /** Two prefixes that differ at some position name disjoint sets of keys. */
  lemma NamespacesApart(p1: string, p2: string, i: nat, a: string, b: string)
    requires i < |p1| && i < |p2| && p1[i] != p2[i]
    ensures FullKey(p1, a) != FullKey(p2, b)
  {
    assert FullKey(p1, a)[i] == FullKey(p1, a)[..|p1|][i] == p1[i];
    assert FullKey(p2, b)[i] == FullKey(p2, b)[..|p2|][i] == p2[i];
  }

  /** With the connection up, a consume adds exactly one point to its key, says
      whether the key is still within its limit, and touches no other key. */
  lemma ConsumeAddsOnePoint(cfg: Config, s: StoreState, key: string, now: nat)
    requires cfg.Valid() && Connected(s)
    ensures var k := FullKey(cfg.keyPrefix, key);
            var (t, r) := ConsumeSpec(cfg, s, key, now);
            && !r.ConsumeFailed?
            && Connected(t)
            && r.res.consumedPoints == Count(t.data, k, now) == Count(s.data, k, now) + 1
            && (r.Consumed? <==> Count(s.data, k, now) + 1 <= cfg.points)
            && k in t.data
            && t.data == s.data[k := t.data[k]]
            && (r.Consumed? && Live(s.data, k, now) ==>
                  && t.data[k].expiresAt == s.data[k].expiresAt
                  && now + r.res.msBeforeNext == s.data[k].expiresAt)
  {
  }

  /** The window is fixed by the first consume: a second consume within it
      keeps that deadline and reports the time left until it. */
  lemma ConsumeKeepsWindow(cfg: Config, s: StoreState, key: string, first: nat, second: nat)
    requires cfg.Valid() && cfg.points >= 2 && Connected(s)
    requires !Live(s.data, FullKey(cfg.keyPrefix, key), first)
    requires first <= second < first + cfg.duration * 1000
    ensures var (t, r1) := ConsumeSpec(cfg, s, key, first);
            var (u, r2) := ConsumeSpec(cfg, t, key, second);
            && r1 == Consumed(LimiterRes(1, cfg.duration * 1000))
            && r2 == Consumed(LimiterRes(2, first + cfg.duration * 1000 - second))
            && u.data[FullKey(cfg.keyPrefix, key)] == Entry(2, first + cfg.duration * 1000)
  {
    ExpiredWindowRestarts(cfg, s, key, first);
    var (t, r1) := ConsumeSpec(cfg, s, key, first);
    ConsumeAddsOnePoint(cfg, t, key, second);
  }

  /** The consume that takes a key from exactly its limit to one over it
      reports the block period and holds the key for that long. */
  lemma TippingConsumeBlocks(cfg: Config, s: StoreState, key: string, now: nat)
    requires cfg.Valid() && Connected(s) && cfg.blockDuration > 0
    requires Count(s.data, FullKey(cfg.keyPrefix, key), now) == cfg.points
    ensures var k := FullKey(cfg.keyPrefix, key);
            var (t, r) := ConsumeSpec(cfg, s, key, now);
            && r == RateLimitExceeded(LimiterRes(cfg.points + 1, cfg.blockDuration * 1000))
            && t.data[k] == Entry(cfg.points + 1, now + cfg.blockDuration * 1000)
  {
  }

  /** Past the block point, a consume is refused with the time the key has left,
      and the deadline is not pushed back. */
  lemma ConsumeWhileBlocked(cfg: Config, s: StoreState, key: string, now: nat)
    requires cfg.Valid() && Connected(s)
    requires Count(s.data, FullKey(cfg.keyPrefix, key), now) > cfg.points
    ensures var k := FullKey(cfg.keyPrefix, key);
            var (t, r) := ConsumeSpec(cfg, s, key, now);
            && r.RateLimitExceeded?
            && t.data[k].expiresAt == s.data[k].expiresAt
            && now + r.res.msBeforeNext == s.data[k].expiresAt
  {
  }

  /** Once a key's deadline has passed, a consume starts a new window from one point. */
  lemma ExpiredWindowRestarts(cfg: Config, s: StoreState, key: string, now: nat)
    requires cfg.Valid() && Connected(s)
    requires !Live(s.data, FullKey(cfg.keyPrefix, key), now)
    ensures var k := FullKey(cfg.keyPrefix, key);
            var (t, r) := ConsumeSpec(cfg, s, key, now);
            && r == Consumed(LimiterRes(1, cfg.duration * 1000))
            && t.data[k] == Entry(1, now + cfg.duration * 1000)
  {
  }

  /** After a delete, the key reads as absent. */
  lemma DeleteThenAbsent(cfg: Config, s: StoreState, key: string, now: nat)
    requires Connected(s)
    ensures var (t, d) := DeleteSpec(cfg, s, key, now);
            && d.Ok?
            && GetSpec(cfg, t, key, now).1 == Ok(None)
  {
  }

  /** `n` consumes of one key at one instant. */
  function ConsumeTimes(cfg: Config, s: StoreState, key: string, now: nat, n: nat): (StoreState, seq<ConsumeResult>)
    requires cfg.Valid()
  {
    if n == 0 then (s, [])
    else
      var (t, rs) := ConsumeTimes(cfg, s, key, now, n - 1);
      var (u, r) := ConsumeSpec(cfg, t, key, now);
      (u, rs + [r])
  }

  /** The answer to the i-th (from 0) consume of a key that started empty:
      it reports i + 1 points, and it is refused exactly from the
      (points + 1)-th on. */
  predicate NthConsume(cfg: Config, i: nat, r: ConsumeResult) {
    !r.ConsumeFailed? && r.res.consumedPoints == i + 1 && (r.Consumed? <==> i < cfg.points)
  }

  lemma ExtendConsumes(cfg: Config, rs: seq<ConsumeResult>, r: ConsumeResult)
    requires forall i | 0 <= i < |rs| :: NthConsume(cfg, i, rs[i])
    requires NthConsume(cfg, |rs|, r)
    ensures |rs + [r]| == |rs| + 1
    ensures forall i | 0 <= i < |rs + [r]| :: NthConsume(cfg, i, (rs + [r])[i])
    ensures forall i | 0 <= i < |rs| :: (rs + [r])[i] == rs[i]
  {
  }

  /** One more consume, on top of `n - 1` of them. */
  lemma ConsumeSequenceExtend(cfg: Config, s: StoreState, key: string, now: nat, n: nat)
    requires n > 0
    requires cfg.Valid() && Connected(s)
    requires var (t, rs) := ConsumeTimes(cfg, s, key, now, n - 1);
             && |rs| == n - 1
             && Connected(t)
             && Count(t.data, FullKey(cfg.keyPrefix, key), now) == n - 1
             && (forall i | 0 <= i < n - 1 :: NthConsume(cfg, i, rs[i]))
             && (n - 1 > cfg.points && cfg.blockDuration > 0 ==>
                   rs[cfg.points] == RateLimitExceeded(LimiterRes(cfg.points + 1, cfg.blockDuration * 1000)))
    ensures var (t, rs) := ConsumeTimes(cfg, s, key, now, n);
            && |rs| == n
            && Connected(t)
            && Count(t.data, FullKey(cfg.keyPrefix, key), now) == n
            && (forall i | 0 <= i < n :: NthConsume(cfg, i, rs[i]))
            && (n > cfg.points && cfg.blockDuration > 0 ==>
                  rs[cfg.points] == RateLimitExceeded(LimiterRes(cfg.points + 1, cfg.blockDuration * 1000)))
  {
    var prev := ConsumeTimes(cfg, s, key, now, n - 1);
    ConsumeAddsOnePoint(cfg, prev.0, key, now);
    if n - 1 == cfg.points && cfg.blockDuration > 0 {
      TippingConsumeBlocks(cfg, prev.0, key, now);
    }
    var step := ConsumeSpec(cfg, prev.0, key, now);
    assert ConsumeTimes(cfg, s, key, now, n) == (step.0, prev.1 + [step.1]);
    ExtendConsumes(cfg, prev.1, step.1);
  }

  /** From a key with no points spent, the first `points` consumes succeed
      with counts 1, 2, ..., and every later one is refused; the first refusal
      carries the block period. */
  lemma {:induction false} ConsumeSequence(cfg: Config, s: StoreState, key: string, now: nat, n: nat)
    requires cfg.Valid() && Connected(s)
    requires Count(s.data, FullKey(cfg.keyPrefix, key), now) == 0
    ensures var (t, rs) := ConsumeTimes(cfg, s, key, now, n);
            && |rs| == n
            && Connected(t)
            && Count(t.data, FullKey(cfg.keyPrefix, key), now) == n
            && (forall i | 0 <= i < n :: NthConsume(cfg, i, rs[i]))
            && (n > cfg.points && cfg.blockDuration > 0 ==>
                  rs[cfg.points] == RateLimitExceeded(LimiterRes(cfg.points + 1, cfg.blockDuration * 1000)))
  {
    if n > 0 {
      ConsumeSequence(cfg, s, key, now, n - 1);
      ConsumeSequenceExtend(cfg, s, key, now, n);
    }
  }

  /** One limiter instance: its configuration, fixed for its lifetime, and the
      store it keeps its counters in. */
  class RateLimiter {
    const config: Config
    const store: RedisStore

    predicate Valid() {
      config.Valid()
    }

    constructor (store: RedisStore, config: Config)
      requires config.Valid()
      ensures Valid() && this.store == store && this.config == config
    {
      this.store := store;
      this.config := config;
    }

    method Get(key: string, now: nat) returns (r: Reply<Option<LimiterRes>>)
      modifies store
      ensures (store.State(), r) == GetSpec(config, old(store.State()), key, now)
    {
      var reply := store.Get(FullKey(config.keyPrefix, key), now);
      match reply
      case Unavailable => r := Unavailable;
      case Ok(None) => r := Ok(None);
      case Ok(Some(rec)) => r := Ok(Some(LimiterRes(rec.value, rec.pttl)));
    }

    method Consume(key: string, now: nat) returns (r: ConsumeResult)
      requires Valid()
      modifies store
      ensures (store.State(), r) == ConsumeSpec(config, old(store.State()), key, now)
    {
      var k := FullKey(config.keyPrefix, key);
      var incr := store.IncrBy(k, 1, config.duration * 1000, now);
      if incr.Unavailable? {
        return ConsumeFailed;
      }
      var consumed := incr.value.value;
      if consumed <= config.points {
        return Consumed(LimiterRes(consumed, incr.value.pttl));
      }
      if config.blockDuration > 0 && consumed <= config.points + 1 {
        var stored := store.Set(k, consumed, config.blockDuration * 1000, now);
        if stored.Unavailable? {
          return ConsumeFailed;
        }
        return RateLimitExceeded(LimiterRes(consumed, config.blockDuration * 1000));
      }
      r := RateLimitExceeded(LimiterRes(consumed, incr.value.pttl));
    }

    method Delete(key: string, now: nat) returns (r: Reply<bool>)
      modifies store
      ensures (store.State(), r) == DeleteSpec(config, old(store.State()), key, now)
    {
      r := store.Del(FullKey(config.keyPrefix, key), now);
    }
  }
}
