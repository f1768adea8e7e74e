/** The login brute-force guard of `UserController.login`: two limiters over
    one store, one per source IP (100 wrong attempts a day, then a day's
    block) and one per (username, IP) pair (5 consecutive fails kept for 90
    days, then an hour's block), combined into one decision per attempt.

    The credential check and the composite key are not part of the model: the
    attempt brings the key and the outcome `(userExists, isLoggedIn)` the user
    service would give.  That the service is not consulted on a blocked
    attempt is stated as the attempt's result not depending on that outcome. */
module LoginGuard {
  import opened Store
  import opened RateLimiting

  const MaxWrongAttemptsByIpPerDay: nat := 100
  const MaxConsecutiveFailsByUsernameAndIp: nat := 5

  const SlowBruteByIp: Config :=
    Config("login_fail_ip_per_day", MaxWrongAttemptsByIpPerDay, 60 * 60 * 24, 60 * 60 * 24)
  const ConsecutiveFailsByUsernameAndIp: Config :=
    Config("login_fail_consecutive_username_and_ip", MaxConsecutiveFailsByUsernameAndIp, 60 * 60 * 24 * 90, 60 * 60)

  /** What the user service reports for the submitted credentials. */
  datatype AuthResult = AuthResult(userExists: bool, isLoggedIn: bool)

  /** The answer to the client: authorized, 429 with Retry-After, or 400. */
  datatype Verdict = Admitted | Blocked(retrySecs: nat) | Rejected

  /** A verdict, or a store error that escapes the handler. */
  datatype Outcome = Respond(verdict: Verdict) | StoreFailure

  /** How the handler waits for its consumes: `await promises` on the bare
      array (as the controller is written), or `await Promise.all(promises)`. */
  datatype Await = AwaitArray | AwaitAll

  /** `Math.round(ms / 1000) || 1`: the nearest whole second, halves rounded
      up, and never 0. */
  function RetrySecs(ms: nat): (secs: nat)
    ensures secs >= 1
    ensures ms >= 500 ==> 1000 * secs - 500 <= ms < 1000 * secs + 500
    ensures ms < 1500 ==> secs == 1
  {
    var rounded := (ms + 500) / 1000;
    if rounded == 0 then 1 else rounded
  }

  /** A pre-read state strictly over `max` points. */
  predicate OverLimit(r: Option<LimiterRes>, max: nat) {
    r.Some? && r.value.consumedPoints > max
  }

  /** The retry time of the pre-check: the IP limiter first, the
      (username, IP) limiter only when the IP is clear, 0 when neither is over. */
  function PreCheckRetry(byIp: Option<LimiterRes>, byUser: Option<LimiterRes>): (retry: nat)
    ensures retry == 0 <==>
              !OverLimit(byIp, MaxWrongAttemptsByIpPerDay) && !OverLimit(byUser, MaxConsecutiveFailsByUsernameAndIp)
  {
    if OverLimit(byIp, MaxWrongAttemptsByIpPerDay) then RetrySecs(byIp.value.msBeforeNext)
    else if OverLimit(byUser, MaxConsecutiveFailsByUsernameAndIp) then RetrySecs(byUser.value.msBeforeNext)
    else 0
  }

  /** The catch block: a limit rejection becomes a 429, any other error is rethrown. */
  function Caught(c: ConsumeResult): Outcome
    requires !c.Consumed?
  {
    match c
    case RateLimitExceeded(res) => Respond(Blocked(RetrySecs(res.msBeforeNext)))
    case ConsumeFailed => StoreFailure
  }

  /** `Promise.all` settles on the first rejection; the IP consume is issued first. */
  function Settle(byIp: ConsumeResult, byUser: Option<ConsumeResult>): Outcome {
    if !byIp.Consumed? then Caught(byIp)
    else if byUser.Some? && !byUser.value.Consumed? then Caught(byUser.value)
    else Respond(Rejected)
  }

  /** A wrong password: one point from the IP, and one from the (username, IP)
      pair when the account exists. */
  function FailedAttemptSpec(mode: Await, s: StoreState, usernameIPkey: string, ip: string,
                             userExists: bool, now: nat): (StoreState, Outcome)
  {
    var (s1, byIp) := ConsumeSpec(SlowBruteByIp, s, ip, now);
    var (s2, byUser) :=
      if userExists then
        var (t, c) := ConsumeSpec(ConsecutiveFailsByUsernameAndIp, s1, usernameIPkey, now);
        (t, Some(c))
      else (s1, None);
    match mode
    case AwaitArray => (s2, Respond(Rejected))
    case AwaitAll => (s2, Settle(byIp, byUser))
  }

  /** One login attempt, from the store before it to the store after it and
      the outcome. */
  function LoginSpec(mode: Await, s: StoreState, usernameIPkey: string, ip: string,
                     auth: AuthResult, now: nat): (StoreState, Outcome)
  {
    var (s1, byUser) := GetSpec(ConsecutiveFailsByUsernameAndIp, s, usernameIPkey, now);
    var (s2, byIp) := GetSpec(SlowBruteByIp, s1, ip, now);
    if byUser.Unavailable? || byIp.Unavailable? then (s2, StoreFailure)
    else
      var retry := PreCheckRetry(byIp.value, byUser.value);
      if retry > 0 then (s2, Respond(Blocked(retry)))
      else if !auth.isLoggedIn then FailedAttemptSpec(mode, s2, usernameIPkey, ip, auth.userExists, now)
      else if byUser.value.Some? && byUser.value.value.consumedPoints > 0 then
        var (s3, deleted) := DeleteSpec(ConsecutiveFailsByUsernameAndIp, s2, usernameIPkey, now);
        (s3, if deleted.Unavailable? then StoreFailure else Respond(Admitted))
      else (s2, Respond(Admitted))
  }

  /** The controller with its two limiters, both over one store. */
  class UserController {
    const store: RedisStore
    const limiterSlowBruteByIp: RateLimiter
    const limiterConsecutiveFailsByUsernameAndIp: RateLimiter

    predicate Valid() {
      && limiterSlowBruteByIp.store == store
      && limiterConsecutiveFailsByUsernameAndIp.store == store
      && limiterSlowBruteByIp.config == SlowBruteByIp
      && limiterConsecutiveFailsByUsernameAndIp.config == ConsecutiveFailsByUsernameAndIp
    }

    constructor (store: RedisStore)
      ensures Valid() && this.store == store
    {
      this.store := store;
      limiterSlowBruteByIp := new RateLimiter(store, SlowBruteByIp);
      limiterConsecutiveFailsByUsernameAndIp := new RateLimiter(store, ConsecutiveFailsByUsernameAndIp);
    }

    /** One login attempt.  The controller's line 70 reads `await promises`,
        which awaits the array and not the consumes, so a rejected consume is
        never caught; this method awaits them as `await Promise.all(promises)`
        would, and `LoginSpec(AwaitArray, ...)` keeps the code as written. */
    method Login(usernameIPkey: string, ip: string, auth: AuthResult, now: nat) returns (o: Outcome)
      requires Valid()
      modifies store
      ensures (store.State(), o) == LoginSpec(AwaitAll, old(store.State()), usernameIPkey, ip, auth, now)
    {
      var resUsernameAndIp := limiterConsecutiveFailsByUsernameAndIp.Get(usernameIPkey, now);
      var resSlowByIp := limiterSlowBruteByIp.Get(ip, now);
      if resUsernameAndIp.Unavailable? || resSlowByIp.Unavailable? {
        return StoreFailure;
      }

      var retrySecs := PreCheckRetry(resSlowByIp.value, resUsernameAndIp.value);
      if retrySecs > 0 {
        return Respond(Blocked(retrySecs));
      }

      if !auth.isLoggedIn {
        var byIp := limiterSlowBruteByIp.Consume(ip, now);
        var byUser: Option<ConsumeResult> := None;
        if auth.userExists {
          var c := limiterConsecutiveFailsByUsernameAndIp.Consume(usernameIPkey, now);
          byUser := Some(c);
        }
        return Settle(byIp, byUser);
      }

      o := Respond(Admitted);
      if resUsernameAndIp.value.Some? && resUsernameAndIp.value.value.consumedPoints > 0 {
        var deleted := limiterConsecutiveFailsByUsernameAndIp.Delete(usernameIPkey, now);
        if deleted.Unavailable? {
          o := StoreFailure;
        }
      }
    }
  }

  // ---------------------------------------------------------------------
  // Properties of one attempt

  function IpKey(ip: string): string {
    FullKey(SlowBruteByIp.keyPrefix, ip)
  }

  function UserKey(usernameIPkey: string): string {
    FullKey(ConsecutiveFailsByUsernameAndIp.keyPrefix, usernameIPkey)
  }

  /** Time left on a live key, as PTTL reports it. */
  function MsBeforeNext(data: map<string, Entry>, key: string, now: nat): nat {
    if Live(data, key, now) then data[key].expiresAt - now else 0
  }

  /** The pre-check stops the attempt: a counter strictly over its limit. */
  predicate PreBlocked(data: map<string, Entry>, usernameIPkey: string, ip: string, now: nat) {
    || Count(data, IpKey(ip), now) > MaxWrongAttemptsByIpPerDay
    || Count(data, UserKey(usernameIPkey), now) > MaxConsecutiveFailsByUsernameAndIp
  }

  /** The two limiters never share a store key, whatever the IP and username. */
  lemma KeysApart(usernameIPkey: string, ip: string)
    ensures IpKey(ip) != UserKey(usernameIPkey)
  {
    NamespacesApart(SlowBruteByIp.keyPrefix, ConsecutiveFailsByUsernameAndIp.keyPrefix, 11, ip, usernameIPkey);
  }

  /** An IP over its limit decides the attempt with its own retry time, whatever
      the (username, IP) state and whatever the credentials. */
  lemma IpPrecedence(mode: Await, s: StoreState, usernameIPkey: string, ip: string, auth: AuthResult, now: nat)
    requires Connected(s)
    requires Count(s.data, IpKey(ip), now) > MaxWrongAttemptsByIpPerDay
    ensures LoginSpec(mode, s, usernameIPkey, ip, auth, now).1
            == Respond(Blocked(RetrySecs(MsBeforeNext(s.data, IpKey(ip), now))))
  {
  }

  /** With the IP clear, a (username, IP) pair over its limit decides the
      attempt with the pair's retry time. */
  lemma UserBlockWhenIpClear(mode: Await, s: StoreState, usernameIPkey: string, ip: string, auth: AuthResult, now: nat)
    requires Connected(s)
    requires Count(s.data, IpKey(ip), now) <= MaxWrongAttemptsByIpPerDay
    requires Count(s.data, UserKey(usernameIPkey), now) > MaxConsecutiveFailsByUsernameAndIp
    ensures LoginSpec(mode, s, usernameIPkey, ip, auth, now).1
            == Respond(Blocked(RetrySecs(MsBeforeNext(s.data, UserKey(usernameIPkey), now))))
  {
  }

  /** A pre-blocked attempt leaves every counter as it was and does not depend
      on what the user service would have said. */
  lemma PreBlockedIgnoresAuth(mode: Await, s: StoreState, usernameIPkey: string, ip: string,
                              auth1: AuthResult, auth2: AuthResult, now: nat)
    requires PreBlocked(s.data, usernameIPkey, ip, now)
    ensures LoginSpec(mode, s, usernameIPkey, ip, auth1, now) == LoginSpec(mode, s, usernameIPkey, ip, auth2, now)
    ensures LoginSpec(mode, s, usernameIPkey, ip, auth1, now).0.data == s.data
    ensures LoginSpec(mode, s, usernameIPkey, ip, auth1, now).1 != Respond(Admitted)
  {
  }

  /** Correct credentials are admitted exactly when neither counter is strictly
      over its limit; a counter exactly at its limit still lets them through. */
  lemma AdmittedIffNotPreBlocked(mode: Await, s: StoreState, usernameIPkey: string, ip: string, auth: AuthResult, now: nat)
    requires Connected(s) && auth.isLoggedIn
    ensures LoginSpec(mode, s, usernameIPkey, ip, auth, now).1 == Respond(Admitted)
            <==> !PreBlocked(s.data, usernameIPkey, ip, now)
  {
    var (s1, byUser) := GetSpec(ConsecutiveFailsByUsernameAndIp, s, usernameIPkey, now);
    var (s2, byIp) := GetSpec(SlowBruteByIp, s1, ip, now);
    assert Connected(s2);
  }

  /** Only an authenticated attempt is ever admitted, and every retry time
      handed out is at least one second. */
  lemma VerdictSoundness(mode: Await, s: StoreState, usernameIPkey: string, ip: string, auth: AuthResult, now: nat)
    ensures var o := LoginSpec(mode, s, usernameIPkey, ip, auth, now).1;
            && (o == Respond(Admitted) ==> auth.isLoggedIn)
            && (o.Respond? && o.verdict.Blocked? ==> o.verdict.retrySecs >= 1)
  {
  }

  /** An attempt with a wrong password that passes the pre-check goes on to
      the consumes, from a connected store holding the same keys. */
  lemma PassesPreCheck(s: StoreState, usernameIPkey: string, ip: string, auth: AuthResult, now: nat)
    returns (t: StoreState)
    requires Connected(s) && !auth.isLoggedIn
    requires !PreBlocked(s.data, usernameIPkey, ip, now)
    ensures Connected(t) && t.data == s.data
    ensures forall mode: Await :: LoginSpec(mode, s, usernameIPkey, ip, auth, now)
                                  == FailedAttemptSpec(mode, t, usernameIPkey, ip, auth.userExists, now)
  {
    var (s1, byUser) := GetSpec(ConsecutiveFailsByUsernameAndIp, s, usernameIPkey, now);
    var (s2, byIp) := GetSpec(SlowBruteByIp, s1, ip, now);
    t := s2;
  }

  /** The consumes of a wrong password: the IP key, then the pair key when the
      account exists.  What they do to the store. */
  lemma FailedAttemptStore(t: StoreState, usernameIPkey: string, ip: string, userExists: bool, now: nat)
    requires Connected(t)
    requires Count(t.data, IpKey(ip), now) <= MaxWrongAttemptsByIpPerDay
    requires Count(t.data, UserKey(usernameIPkey), now) <= MaxConsecutiveFailsByUsernameAndIp
    ensures var u := FailedAttemptSpec(AwaitAll, t, usernameIPkey, ip, userExists, now).0;
            var ipKey, userKey := IpKey(ip), UserKey(usernameIPkey);
            && Count(u.data, ipKey, now) == Count(t.data, ipKey, now) + 1
            && (userExists ==> Count(u.data, userKey, now) == Count(t.data, userKey, now) + 1)
            && (userExists ==> u.data - {ipKey, userKey} == t.data - {ipKey, userKey})
            && (!userExists ==> u.data - {ipKey} == t.data - {ipKey})
            && (Count(t.data, ipKey, now) == MaxWrongAttemptsByIpPerDay ==>
                  MsBeforeNext(u.data, ipKey, now) == 86400 * 1000)
            && (userExists && Count(t.data, userKey, now) == MaxConsecutiveFailsByUsernameAndIp ==>
                  MsBeforeNext(u.data, userKey, now) == 3600 * 1000)
  {
    KeysApart(usernameIPkey, ip);
    var ipKey, userKey := IpKey(ip), UserKey(usernameIPkey);
    ConsumeAddsOnePoint(SlowBruteByIp, t, ip, now);
    var (t1, byIp) := ConsumeSpec(SlowBruteByIp, t, ip, now);
    assert Count(t1.data, userKey, now) == Count(t.data, userKey, now);
    if Count(t.data, ipKey, now) == MaxWrongAttemptsByIpPerDay {
      TippingConsumeBlocks(SlowBruteByIp, t, ip, now);
    }
    if userExists {
      ConsumeAddsOnePoint(ConsecutiveFailsByUsernameAndIp, t1, usernameIPkey, now);
      if Count(t.data, userKey, now) == MaxConsecutiveFailsByUsernameAndIp {
        TippingConsumeBlocks(ConsecutiveFailsByUsernameAndIp, t1, usernameIPkey, now);
      }
      var (t2, byUser) := ConsumeSpec(ConsecutiveFailsByUsernameAndIp, t1, usernameIPkey, now);
      assert t2.data[ipKey] == t1.data[ipKey];
    }
  }

  /** The same consumes: the answer with `Promise.all`, and the one as written,
      which never sees a rejected consume. */
  lemma FailedAttemptOutcome(t: StoreState, usernameIPkey: string, ip: string, userExists: bool, now: nat)
    requires Connected(t)
    requires Count(t.data, IpKey(ip), now) <= MaxWrongAttemptsByIpPerDay
    requires Count(t.data, UserKey(usernameIPkey), now) <= MaxConsecutiveFailsByUsernameAndIp
    ensures var (u, o) := FailedAttemptSpec(AwaitAll, t, usernameIPkey, ip, userExists, now);
            var ipTips := Count(t.data, IpKey(ip), now) == MaxWrongAttemptsByIpPerDay;
            var userTips := userExists && Count(t.data, UserKey(usernameIPkey), now) == MaxConsecutiveFailsByUsernameAndIp;
            && (ipTips ==> o == Respond(Blocked(86400)))
            && (!ipTips && userTips ==> o == Respond(Blocked(3600)))
            && (!ipTips && !userTips ==> o == Respond(Rejected))
            && FailedAttemptSpec(AwaitArray, t, usernameIPkey, ip, userExists, now) == (u, Respond(Rejected))
  {
    KeysApart(usernameIPkey, ip);
    var userKey := UserKey(usernameIPkey);
    ConsumeAddsOnePoint(SlowBruteByIp, t, ip, now);
    var (t1, byIp) := ConsumeSpec(SlowBruteByIp, t, ip, now);
    assert Count(t1.data, userKey, now) == Count(t.data, userKey, now);
    if Count(t.data, IpKey(ip), now) == MaxWrongAttemptsByIpPerDay {
      TippingConsumeBlocks(SlowBruteByIp, t, ip, now);
    }
    if userExists {
      ConsumeAddsOnePoint(ConsecutiveFailsByUsernameAndIp, t1, usernameIPkey, now);
      if Count(t.data, userKey, now) == MaxConsecutiveFailsByUsernameAndIp {
        TippingConsumeBlocks(ConsecutiveFailsByUsernameAndIp, t1, usernameIPkey, now);
      }
    }
  }

  /** A wrong password spends one IP point; it spends one (username, IP) point
      when the account exists and leaves that key alone otherwise; no other key
      changes. */
  lemma FailedLoginCounts(mode: Await, s: StoreState, usernameIPkey: string, ip: string, auth: AuthResult, now: nat)
    requires Connected(s) && !auth.isLoggedIn
    requires !PreBlocked(s.data, usernameIPkey, ip, now)
    ensures var t := LoginSpec(mode, s, usernameIPkey, ip, auth, now).0;
            var ipKey, userKey := IpKey(ip), UserKey(usernameIPkey);
            && Count(t.data, ipKey, now) == Count(s.data, ipKey, now) + 1
            && (auth.userExists ==> Count(t.data, userKey, now) == Count(s.data, userKey, now) + 1)
            && (auth.userExists ==> t.data - {ipKey, userKey} == s.data - {ipKey, userKey})
            && (!auth.userExists ==> t.data - {ipKey} == s.data - {ipKey})
  {
    var t := PassesPreCheck(s, usernameIPkey, ip, auth, now);
    FailedAttemptStore(t, usernameIPkey, ip, auth.userExists, now);
    FailedAttemptOutcome(t, usernameIPkey, ip, auth.userExists, now);
  }

  /** With `Promise.all`, a wrong password that tips the IP to 101 points gets
      the IP's day-long block and holds the IP for a day; otherwise one that
      tips an existing account's pair to 6 gets the hour-long block and holds
      the pair for an hour; any other wrong password gets 400. */
  lemma FailedLoginVerdict(s: StoreState, usernameIPkey: string, ip: string, auth: AuthResult, now: nat)
    requires Connected(s) && !auth.isLoggedIn
    requires !PreBlocked(s.data, usernameIPkey, ip, now)
    ensures var (t, o) := LoginSpec(AwaitAll, s, usernameIPkey, ip, auth, now);
            var ipTips := Count(s.data, IpKey(ip), now) == MaxWrongAttemptsByIpPerDay;
            var userTips := auth.userExists &&
                            Count(s.data, UserKey(usernameIPkey), now) == MaxConsecutiveFailsByUsernameAndIp;
            && (ipTips ==> o == Respond(Blocked(86400)) && MsBeforeNext(t.data, IpKey(ip), now) == 86400 * 1000)
            && (!ipTips && userTips ==> o == Respond(Blocked(3600)))
            && (userTips ==> MsBeforeNext(t.data, UserKey(usernameIPkey), now) == 3600 * 1000)
            && (!ipTips && !userTips ==> o == Respond(Rejected))
  {
    var t := PassesPreCheck(s, usernameIPkey, ip, auth, now);
    FailedAttemptStore(t, usernameIPkey, ip, auth.userExists, now);
    FailedAttemptOutcome(t, usernameIPkey, ip, auth.userExists, now);
  }

  /** As written, `await promises` does not wait for the consumes, so the
      attempt that tips the IP over its limit is answered 400 instead of 429,
      although the counters move exactly as with `Promise.all`. */
  lemma AwaitArrayMissesTip(s: StoreState, usernameIPkey: string, ip: string, auth: AuthResult, now: nat)
    requires Connected(s) && !auth.isLoggedIn
    requires !PreBlocked(s.data, usernameIPkey, ip, now)
    requires Count(s.data, IpKey(ip), now) == MaxWrongAttemptsByIpPerDay
    ensures LoginSpec(AwaitArray, s, usernameIPkey, ip, auth, now).1 == Respond(Rejected)
    ensures LoginSpec(AwaitAll, s, usernameIPkey, ip, auth, now).1 == Respond(Blocked(86400))
    ensures LoginSpec(AwaitArray, s, usernameIPkey, ip, auth, now).0 == LoginSpec(AwaitAll, s, usernameIPkey, ip, auth, now).0
  {
    var t := PassesPreCheck(s, usernameIPkey, ip, auth, now);
    FailedAttemptStore(t, usernameIPkey, ip, auth.userExists, now);
    FailedAttemptOutcome(t, usernameIPkey, ip, auth.userExists, now);
  }

  /** As written, the wrong password that puts an existing account's pair on
      its hour's hold is answered 400 as well, where `Promise.all` answers
      429; the counters again end up the same. */
  lemma AwaitArrayMissesPairTip(s: StoreState, usernameIPkey: string, ip: string, auth: AuthResult, now: nat)
    requires Connected(s) && !auth.isLoggedIn && auth.userExists
    requires !PreBlocked(s.data, usernameIPkey, ip, now)
    requires Count(s.data, IpKey(ip), now) < MaxWrongAttemptsByIpPerDay
    requires Count(s.data, UserKey(usernameIPkey), now) == MaxConsecutiveFailsByUsernameAndIp
    ensures LoginSpec(AwaitArray, s, usernameIPkey, ip, auth, now).1 == Respond(Rejected)
    ensures LoginSpec(AwaitAll, s, usernameIPkey, ip, auth, now).1 == Respond(Blocked(3600))
    ensures LoginSpec(AwaitArray, s, usernameIPkey, ip, auth, now).0 == LoginSpec(AwaitAll, s, usernameIPkey, ip, auth, now).0
  {
    var t := PassesPreCheck(s, usernameIPkey, ip, auth, now);
    FailedAttemptOutcome(t, usernameIPkey, ip, auth.userExists, now);
  }

  /** Correct credentials spend no point, never reset the IP counter, and delete
      the (username, IP) key exactly when the pre-read found points on it. */
  lemma SuccessfulLoginResets(mode: Await, s: StoreState, usernameIPkey: string, ip: string, auth: AuthResult, now: nat)
    requires Connected(s) && auth.isLoggedIn
    requires !PreBlocked(s.data, usernameIPkey, ip, now)
    ensures var (t, o) := LoginSpec(mode, s, usernameIPkey, ip, auth, now);
            var userKey := UserKey(usernameIPkey);
            && o == Respond(Admitted)
            && t.data == (if Count(s.data, userKey, now) > 0 then s.data - {userKey} else s.data)
            && (IpKey(ip) in t.data <==> IpKey(ip) in s.data)
            && (IpKey(ip) in s.data ==> t.data[IpKey(ip)] == s.data[IpKey(ip)])
            && (Count(s.data, userKey, now) > 0 ==> GetSpec(ConsecutiveFailsByUsernameAndIp, t, usernameIPkey, now).1 == Ok(None))
  {
    KeysApart(usernameIPkey, ip);
    var (s1, byUser) := GetSpec(ConsecutiveFailsByUsernameAndIp, s, usernameIPkey, now);
    var (s2, byIp) := GetSpec(SlowBruteByIp, s1, ip, now);
    assert Connected(s2) && s2.data == s.data;
    DeleteThenAbsent(ConsecutiveFailsByUsernameAndIp, s2, usernameIPkey, now);
  }

  /** A failed pre-read, the pair's or the IP's, escapes the handler. */
  lemma ReadErrorsPropagate(mode: Await, s: StoreState, usernameIPkey: string, ip: string, auth: AuthResult, now: nat)
    ensures NextDown(s) ==> LoginSpec(mode, s, usernameIPkey, ip, auth, now).1 == StoreFailure
    ensures |s.outages| >= 2 && !s.outages[0] && s.outages[1] ==>
              LoginSpec(mode, s, usernameIPkey, ip, auth, now).1 == StoreFailure
  {
    if |s.outages| >= 2 && !s.outages[0] {
      var (s1, byUser) := GetSpec(ConsecutiveFailsByUsernameAndIp, s, usernameIPkey, now);
      assert s1.outages == s.outages[1..];
    }
  }

  /** A wrong password whose two pre-reads go through and find nothing over
      the limit goes on to the consumes, two flags further down the schedule. */
  lemma PassesPreReads(s: StoreState, usernameIPkey: string, ip: string, auth: AuthResult, now: nat)
    returns (t: StoreState)
    requires |s.outages| >= 2 && !s.outages[0] && !s.outages[1] && !auth.isLoggedIn
    requires !PreBlocked(s.data, usernameIPkey, ip, now)
    ensures t.data == s.data && t.outages == s.outages[2..]
    ensures forall mode: Await :: LoginSpec(mode, s, usernameIPkey, ip, auth, now)
                                  == FailedAttemptSpec(mode, t, usernameIPkey, ip, auth.userExists, now)
  {
    var (s1, byUser) := GetSpec(ConsecutiveFailsByUsernameAndIp, s, usernameIPkey, now);
    assert s1.outages == s.outages[1..];
    var (s2, byIp) := GetSpec(SlowBruteByIp, s1, ip, now);
    t := s2;
  }

  /** With `Promise.all`, a failed IP consume escapes the handler.  As
      written, it is lost and the client gets 400. */
  lemma IpConsumeErrorPropagates(s: StoreState, usernameIPkey: string, ip: string, auth: AuthResult, now: nat)
    requires !auth.isLoggedIn
    ensures |s.outages| >= 3 && !s.outages[0] && !s.outages[1] && s.outages[2] &&
            !PreBlocked(s.data, usernameIPkey, ip, now) ==>
              && LoginSpec(AwaitAll, s, usernameIPkey, ip, auth, now).1 == StoreFailure
              && LoginSpec(AwaitArray, s, usernameIPkey, ip, auth, now).1 == Respond(Rejected)
  {
    if |s.outages| >= 3 && !s.outages[0] && !s.outages[1] && !PreBlocked(s.data, usernameIPkey, ip, now) {
      var t := PassesPreReads(s, usernameIPkey, ip, auth, now);
      assert NextDown(t) == s.outages[2];
    }
  }

  /** With `Promise.all`, a failed pair consume escapes the handler once the
      IP consume has resolved.  As written, it is lost and the client gets 400. */
  lemma PairConsumeErrorPropagates(s: StoreState, usernameIPkey: string, ip: string, auth: AuthResult, now: nat)
    requires !auth.isLoggedIn && auth.userExists
    ensures |s.outages| >= 4 && !s.outages[0] && !s.outages[1] && !s.outages[2] && s.outages[3] &&
            !PreBlocked(s.data, usernameIPkey, ip, now) &&
            Count(s.data, IpKey(ip), now) < MaxWrongAttemptsByIpPerDay ==>
              && LoginSpec(AwaitAll, s, usernameIPkey, ip, auth, now).1 == StoreFailure
              && LoginSpec(AwaitArray, s, usernameIPkey, ip, auth, now).1 == Respond(Rejected)
  {
    if |s.outages| >= 4 && !s.outages[0] && !s.outages[1] && !s.outages[2] &&
       !PreBlocked(s.data, usernameIPkey, ip, now) && Count(s.data, IpKey(ip), now) < MaxWrongAttemptsByIpPerDay {
      var t := PassesPreReads(s, usernameIPkey, ip, auth, now);
      var (t1, byIp) := ConsumeSpec(SlowBruteByIp, t, ip, now);
      assert byIp.Consumed?;
      assert t1.outages == s.outages[3..];
      assert NextDown(t1) == s.outages[3];
    }
  }

  /** With `Promise.all` or without, a failed reset escapes the handler. */
  lemma ResetErrorPropagates(mode: Await, s: StoreState, usernameIPkey: string, ip: string, auth: AuthResult, now: nat)
    requires auth.isLoggedIn
    ensures |s.outages| >= 3 && !s.outages[0] && !s.outages[1] && s.outages[2] &&
            !PreBlocked(s.data, usernameIPkey, ip, now) &&
            Count(s.data, UserKey(usernameIPkey), now) > 0 ==>
              LoginSpec(mode, s, usernameIPkey, ip, auth, now).1 == StoreFailure
  {
    if |s.outages| >= 3 && !s.outages[0] && !s.outages[1] {
      var (s1, byUser) := GetSpec(ConsecutiveFailsByUsernameAndIp, s, usernameIPkey, now);
      var (s2, byIp) := GetSpec(SlowBruteByIp, s1, ip, now);
      assert s2.outages == s.outages[2..];
      assert NextDown(s2) == s.outages[2];
    }
  }

  /** `Promise.all` yields a store failure only from a failed consume, and a
      400 only when every consume resolved. */
  lemma SettleSources(byIp: ConsumeResult, byUser: Option<ConsumeResult>)
    ensures Settle(byIp, byUser) == StoreFailure ==>
              byIp.ConsumeFailed? || (byUser.Some? && byUser.value.ConsumeFailed?)
    ensures Settle(byIp, byUser) == Respond(Rejected) ==>
              byIp.Consumed? && (byUser.Some? ==> byUser.value.Consumed?)
    ensures Settle(byIp, byUser) != Respond(Admitted)
  {
  }

  /** The consumes of a wrong password: a store failure comes from a failed
      command, and with `Promise.all` a 400 comes only when none failed. */
  lemma FailedAttemptFailures(mode: Await, s: StoreState, usernameIPkey: string, ip: string,
                              userExists: bool, now: nat)
    ensures var (t, o) := FailedAttemptSpec(mode, s, usernameIPkey, ip, userExists, now);
            && t.failed >= s.failed
            && (o == StoreFailure ==> t.failed > s.failed)
            && o != Respond(Admitted)
            && (mode == AwaitAll && o == Respond(Rejected) ==> t.failed == s.failed)
  {
    var (s1, c1) := ConsumeSpec(SlowBruteByIp, s, ip, now);
    if userExists {
      var (s2, c2) := ConsumeSpec(ConsecutiveFailsByUsernameAndIp, s1, usernameIPkey, now);
      SettleSources(c1, Some(c2));
    } else {
      SettleSources(c1, None);
    }
  }

  /** Over every input and every outage schedule, a store failure comes from a
      command that failed: it is never made up by the handler. */
  lemma StoreFailureNeedsFailedCommand(mode: Await, s: StoreState, usernameIPkey: string, ip: string,
                                       auth: AuthResult, now: nat)
    ensures var (t, o) := LoginSpec(mode, s, usernameIPkey, ip, auth, now);
            && t.failed >= s.failed
            && (o == StoreFailure ==> t.failed > s.failed)
  {
    var (s1, byUser) := GetSpec(ConsecutiveFailsByUsernameAndIp, s, usernameIPkey, now);
    var (s2, byIp) := GetSpec(SlowBruteByIp, s1, ip, now);
    if byUser.Ok? && byIp.Ok? && PreCheckRetry(byIp.value, byUser.value) == 0 && !auth.isLoggedIn {
      FailedAttemptFailures(mode, s2, usernameIPkey, ip, auth.userExists, now);
    }
  }

  /** Over every input and every outage schedule: an attempt that is let in,
      or (with `Promise.all`) answered 400, met no failed command.  So no store
      error is ever turned into one of those verdicts. */
  lemma VerdictsNeedAnsweredCommands(mode: Await, s: StoreState, usernameIPkey: string, ip: string,
                                     auth: AuthResult, now: nat)
    ensures var (t, o) := LoginSpec(mode, s, usernameIPkey, ip, auth, now);
            && (o == Respond(Admitted) ==> t.failed == s.failed)
            && (mode == AwaitAll && o == Respond(Rejected) ==> t.failed == s.failed)
  {
    var (s1, byUser) := GetSpec(ConsecutiveFailsByUsernameAndIp, s, usernameIPkey, now);
    var (s2, byIp) := GetSpec(SlowBruteByIp, s1, ip, now);
    if byUser.Ok? && byIp.Ok? && PreCheckRetry(byIp.value, byUser.value) == 0 && !auth.isLoggedIn {
      FailedAttemptFailures(mode, s2, usernameIPkey, ip, auth.userExists, now);
    }
  }

  /** Every attempt leaves a connected store connected. */
  lemma StaysConnected(mode: Await, s: StoreState, usernameIPkey: string, ip: string, auth: AuthResult, now: nat)
    requires Connected(s)
    ensures Connected(LoginSpec(mode, s, usernameIPkey, ip, auth, now).0)
  {
  }

  // ---------------------------------------------------------------------
  // Repeated attempts

  /** `n` wrong passwords for an existing account from one IP, at one instant. */
  function FailedLogins(s: StoreState, usernameIPkey: string, ip: string, now: nat, n: nat): (StoreState, seq<Outcome>)
  {
    if n == 0 then (s, [])
    else
      var (t, os) := FailedLogins(s, usernameIPkey, ip, now, n - 1);
      var (u, o) := LoginSpec(AwaitAll, t, usernameIPkey, ip, AuthResult(true, false), now);
      (u, os + [o])
  }

  /** The answer to the k-th (from 0) consecutive wrong password: 400 for the
      first five, 429 with an hour's Retry-After from then on. */
  function LockOutVerdict(k: nat): Outcome {
    if k < MaxConsecutiveFailsByUsernameAndIp then Respond(Rejected) else Respond(Blocked(3600))
  }

  lemma ExtendVerdicts(os: seq<Outcome>, o: Outcome)
    requires forall i | 0 <= i < |os| :: os[i] == LockOutVerdict(i)
    requires o == LockOutVerdict(|os|)
    ensures |os + [o]| == |os| + 1
    ensures forall i | 0 <= i < |os + [o]| :: (os + [o])[i] == LockOutVerdict(i)
  {
  }

  function Min(a: nat, b: nat): nat {
    if a < b then a else b
  }

  /** One more wrong password after `k` of them: the step of the lock-out. */
  lemma LockOutStep(t: StoreState, usernameIPkey: string, ip: string, now: nat, k: nat, ipBase: nat)
    requires Connected(t)
    requires ipBase + 6 <= MaxWrongAttemptsByIpPerDay
    requires Count(t.data, UserKey(usernameIPkey), now) == Min(k, 6)
    requires Count(t.data, IpKey(ip), now) == ipBase + Min(k, 6)
    requires k >= 6 ==> MsBeforeNext(t.data, UserKey(usernameIPkey), now) == 3600 * 1000
    ensures var (u, o) := LoginSpec(AwaitAll, t, usernameIPkey, ip, AuthResult(true, false), now);
            && o == LockOutVerdict(k)
            && Connected(u)
            && Count(u.data, UserKey(usernameIPkey), now) == Min(k + 1, 6)
            && Count(u.data, IpKey(ip), now) == ipBase + Min(k + 1, 6)
            && (k + 1 >= 6 ==> MsBeforeNext(u.data, UserKey(usernameIPkey), now) == 3600 * 1000)
  {
    var auth := AuthResult(true, false);
    StaysConnected(AwaitAll, t, usernameIPkey, ip, auth, now);
    if k < 6 {
      FailedLoginCounts(AwaitAll, t, usernameIPkey, ip, auth, now);
      FailedLoginVerdict(t, usernameIPkey, ip, auth, now);
    } else {
      UserBlockWhenIpClear(AwaitAll, t, usernameIPkey, ip, auth, now);
      PreBlockedIgnoresAuth(AwaitAll, t, usernameIPkey, ip, auth, auth, now);
    }
  }

  /** One more wrong password, on top of `n - 1` of them. */
  lemma LockOutExtend(s: StoreState, usernameIPkey: string, ip: string, now: nat, n: nat)
    requires n > 0
    requires Connected(s)
    requires Count(s.data, UserKey(usernameIPkey), now) == 0
    requires Count(s.data, IpKey(ip), now) + 6 <= MaxWrongAttemptsByIpPerDay
    requires var (t, os) := FailedLogins(s, usernameIPkey, ip, now, n - 1);
            && |os| == n - 1
            && (forall i | 0 <= i < n - 1 :: os[i] == LockOutVerdict(i))
            && Connected(t)
            && Count(t.data, UserKey(usernameIPkey), now) == Min(n - 1, 6)
            && Count(t.data, IpKey(ip), now) == Count(s.data, IpKey(ip), now) + Min(n - 1, 6)
            && (n - 1 >= 6 ==> MsBeforeNext(t.data, UserKey(usernameIPkey), now) == 3600 * 1000)
    ensures var (t, os) := FailedLogins(s, usernameIPkey, ip, now, n);
            && |os| == n
            && (forall i | 0 <= i < n :: os[i] == LockOutVerdict(i))
            && Connected(t)
            && Count(t.data, UserKey(usernameIPkey), now) == Min(n, 6)
            && Count(t.data, IpKey(ip), now) == Count(s.data, IpKey(ip), now) + Min(n, 6)
            && (n >= 6 ==> MsBeforeNext(t.data, UserKey(usernameIPkey), now) == 3600 * 1000)
  {
    var prev := FailedLogins(s, usernameIPkey, ip, now, n - 1);
    LockOutStep(prev.0, usernameIPkey, ip, now, n - 1, Count(s.data, IpKey(ip), now));
    var step := LoginSpec(AwaitAll, prev.0, usernameIPkey, ip, AuthResult(true, false), now);
    assert FailedLogins(s, usernameIPkey, ip, now, n) == (step.0, prev.1 + [step.1]);
    ExtendVerdicts(prev.1, step.1);
  }

  /** Five consecutive wrong passwords are answered 400; the sixth spends the
      last point and is blocked for an hour; every later one is stopped by the
      pre-check with the same hour, and spends nothing. */
  lemma {:induction false} ConsecutiveFailsLockOut(s: StoreState, usernameIPkey: string, ip: string, now: nat, n: nat)
    requires Connected(s)
    requires Count(s.data, UserKey(usernameIPkey), now) == 0
    requires Count(s.data, IpKey(ip), now) + 6 <= MaxWrongAttemptsByIpPerDay
    ensures var (t, os) := FailedLogins(s, usernameIPkey, ip, now, n);
            && |os| == n
            && (forall i | 0 <= i < n :: os[i] == LockOutVerdict(i))
            && Connected(t)
            && Count(t.data, UserKey(usernameIPkey), now) == Min(n, 6)
            && Count(t.data, IpKey(ip), now) == Count(s.data, IpKey(ip), now) + Min(n, 6)
            && (n >= 6 ==> MsBeforeNext(t.data, UserKey(usernameIPkey), now) == 3600 * 1000)
  {
    if n > 0 {
      ConsecutiveFailsLockOut(s, usernameIPkey, ip, now, n - 1);
      LockOutExtend(s, usernameIPkey, ip, now, n);
    }
  }
}
