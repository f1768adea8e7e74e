# Login brute-force guard, modelled in Dafny

This project models the login brute-force guard of `UserController.login`.
Two fixed-window rate limiters share one Redis store:

- **By IP** (`login_fail_ip_per_day`): 100 wrong attempts a day. Crossing the limit blocks the IP for a day.
- **By (username, IP)** (`login_fail_consecutive_username_and_ip`): 5 consecutive failures, remembered for 90 days. Crossing the limit blocks the pair for an hour.

One login attempt runs these steps:

1. It reads both counters without changing them.
2. It blocks the attempt when either counter is strictly over its limit. The IP is checked first. The retry time is `Math.round(ms / 1000) || 1`.
3. Otherwise it asks the user service about the credentials.
4. A wrong password spends one IP point. It also spends one pair point when the account exists. With `Promise.all`, a consume that crosses a limit turns into a 429. As written, the client gets 400 (see Findings).
5. Correct credentials clear the pair's counter when the pre-read found points on it.

Files:

- `store.dfy` (module `Store`): the shared Redis server, as an in-memory map with per-key deadlines on an explicit millisecond clock. Each round trip the limiters make is one command: GET+PTTL, SET NX EX+INCRBY+PTTL, SET EX, DEL. The network is a schedule of outages. Each command takes the next flag, and a set flag makes it fail at once, as a client created with `enableOfflineQueue: false` does. The store also counts the commands that have failed so far. This counter states which outcomes can come from a store error. The class `RedisStore` updates its `data`, `outages` and `failed` fields. Each of its methods is proved equal to a command function on `StoreState`.
- `limiter.dfy` (module `RateLimiting`): `RateLimiterRedis` as a class `RateLimiter`. Its `config` (key prefix, points, window, block) is a `const` and cannot change after construction. `Get`, `Consume` and `Delete` are proved against `GetSpec`, `ConsumeSpec` and `DeleteSpec`. `Consume` gives back `Consumed`, `RateLimitExceeded(res)` or `ConsumeFailed` where the library resolves, rejects with its result object, or rejects with an `Error`. Keys are namespaced as `prefix:key`.
- `guard.dfy` (module `LoginGuard`): the two configurations, the verdict types, `RetrySecs`, the pre-check `PreCheckRetry`, the per-attempt function `LoginSpec`, and the class `UserController`. Its `Login` method is proved equal to `LoginSpec`. The lemmas about `LoginSpec` state the guard's properties.

Each attempt takes the composite key `usernameIPkey`, the IP and the result `AuthResult(userExists, isLoggedIn)` as parameters. The user service's `authorise` and `getUsernameIPkey` are not part of this model. "A blocked attempt does not call `authorise`" is stated as: its result and its store are the same for every `AuthResult`.

Points worth knowing about the code:

- The window is fixed from the first consume. A consume does not refresh the key's expiry.
- The (username, IP) window is 90 days (7776000 s).
- A sixth attempt after five failures is still checked against the password, because a count of exactly 5 is not over the limit. A wrong sixth password puts the pair on its one-hour hold. The seventh attempt is the first one refused before authentication.
- In the same way, after 100 wrong attempts from one IP, the 101st attempt is still checked against the password. A wrong 101st password blocks the IP, and the 102nd attempt is stopped before authentication.
- The retry time is the nearest whole second, with halves rounded up. It is then raised to at least 1.

## Model

| member | source | states |
|---|---|---|
| `RateLimiting.RateLimiter.constructor` | backend/redis-nestjs-rate-limiter.ts:12-26 | a limiter keeps the store and the configuration it was built with; both are constants for its lifetime |
| `LoginGuard.UserController.constructor` | backend/redis-nestjs-rate-limiter.ts:9-26 | both limiters share the one store; the IP limiter allows 100 points per 86400 s window and blocks for 86400 s; the (username, IP) limiter allows 5 points per 7776000 s window and blocks for 3600 s |
| `RateLimiting.RateLimiter.Get` | backend/redis-nestjs-rate-limiter.ts:42-45 | a read changes no counter; it reports a state exactly when the key has not expired, with the key's count and the time left |
| `RateLimiting.RateLimiter.Consume` | backend/redis-nestjs-rate-limiter.ts:64-67 | the new store and the result are those of `ConsumeSpec`: increment inside a fixed window, a block period on the consume that first crosses the limit, and a failure exactly when one of its commands (the increment or the block SET) failed |
| `RateLimiting.RateLimiter.Delete` | backend/redis-nestjs-rate-limiter.ts:86 | the key is removed from the store, or the store error is reported and nothing changes |
| `RateLimiting.ConsumeAddsOnePoint` | backend/redis-nestjs-rate-limiter.ts:61-68 | with the store up, a consume raises its key's count by exactly one, reports that count, resolves exactly when the count is within the limit, and changes no other key; a consume that resolves on a live key keeps its deadline and reports the time left until it |
| `RateLimiting.TippingConsumeBlocks` | backend/redis-nestjs-rate-limiter.ts:12-26 | the consume that takes a key from its limit to one over is refused with msBeforeNext = blockDuration in ms, and the key is then held for that block period |
| `RateLimiting.ConsumeWhileBlocked` | backend/redis-nestjs-rate-limiter.ts:12-26 | a consume on a key already over its limit is refused with the time the key has left, and the deadline is not moved |
| `RateLimiting.ExpiredWindowRestarts` | backend/redis-nestjs-rate-limiter.ts:16-24 | once a key's deadline has passed, a consume starts a new window at 1 point that lasts the configured duration |
| `RateLimiting.ConsumeKeepsWindow` | backend/redis-nestjs-rate-limiter.ts:20-25 | the window is fixed by the first consume: a second consume within it, at a later instant, counts 2, keeps the first deadline and reports the time left until it |
| `RateLimiting.DeleteThenAbsent` | backend/redis-nestjs-rate-limiter.ts:86 | after a delete with the store up, a read of the key finds nothing |
| `RateLimiting.ConsumeSequence` | backend/redis-nestjs-rate-limiter.ts:12-26 | from a key with no points, the first `points` consumes resolve with counts 1, 2, ...; every later one is refused; the first refusal carries the block period |
| `RateLimiting.NamespacesApart` | backend/redis-nestjs-rate-limiter.ts:14-22 | two key prefixes that differ at some position never produce the same store key |
| `LoginGuard.KeysApart` | backend/redis-nestjs-rate-limiter.ts:12-26 | the IP limiter and the (username, IP) limiter never share a store key, whatever the IP and the composite key |
| `LoginGuard.RetrySecs` | backend/redis-nestjs-rate-limiter.ts:51 | the retry time is at least 1 s; from 500 ms on, it is the nearest whole second with halves rounded up; below 1500 ms it is 1 |
| `LoginGuard.PreCheckRetry` | backend/redis-nestjs-rate-limiter.ts:47-54 | the pre-check retry time is 0 exactly when neither pre-read state is strictly over its limit |
| `LoginGuard.UserController.Login` | backend/redis-nestjs-rate-limiter.ts:39-92 | the new store and the outcome of one attempt are those of `LoginSpec` with the consumes awaited as `Promise.all` |
| `LoginGuard.IpPrecedence` | backend/redis-nestjs-rate-limiter.ts:50-51 | an IP strictly over 100 points blocks the attempt with the IP's own retry time, whatever the (username, IP) state and the credentials |
| `LoginGuard.UserBlockWhenIpClear` | backend/redis-nestjs-rate-limiter.ts:52-54 | with the IP at or under its limit, a pair strictly over 5 points blocks the attempt with the pair's retry time |
| `LoginGuard.PreBlockedIgnoresAuth` | backend/redis-nestjs-rate-limiter.ts:56-60 | a pre-blocked attempt changes no counter, is never admitted, and its result and store are the same for every answer the user service could give |
| `LoginGuard.AdmittedIffNotPreBlocked` | backend/redis-nestjs-rate-limiter.ts:47-60 | correct credentials are admitted if and only if neither count is strictly over its limit, so a count exactly at its limit still reaches authentication |
| `LoginGuard.VerdictSoundness` | backend/redis-nestjs-rate-limiter.ts:56-90 | on every input, only an attempt the user service authenticated is admitted, and every retry time handed out is at least 1 s |
| `LoginGuard.FailedLoginCounts` | backend/redis-nestjs-rate-limiter.ts:61-68 | a wrong password adds exactly one point to the IP key; it adds one point to the pair key when the account exists; otherwise the pair key is untouched; no other key changes |
| `LoginGuard.FailedLoginVerdict` | backend/redis-nestjs-rate-limiter.ts:61-79 | with `Promise.all`, a wrong password that tips the IP gets Blocked(86400) and the IP is held for a day; otherwise one that tips an existing account's pair gets Blocked(3600) and the pair is held for an hour; any other wrong password gets Rejected |
| `LoginGuard.AwaitArrayMissesTip` | backend/redis-nestjs-rate-limiter.ts:64-72 | as written, the wrong password that tips the IP is answered Rejected (400), where `Promise.all` answers Blocked(86400); the counters end up the same either way |
| `LoginGuard.AwaitArrayMissesPairTip` | backend/redis-nestjs-rate-limiter.ts:64-72 | as written, the wrong password that tips an existing account's pair is answered Rejected (400), where `Promise.all` answers Blocked(3600); the counters end up the same either way |
| `LoginGuard.SuccessfulLoginResets` | backend/redis-nestjs-rate-limiter.ts:83-89 | correct credentials spend no point and are admitted; the pair key is deleted exactly when the pre-read found points on it, and then reads as absent; the IP key is never touched |
| `LoginGuard.ReadErrorsPropagate` | backend/redis-nestjs-rate-limiter.ts:42-45 | a failed pre-read, whether the pair's (first) or the IP's (second), makes the attempt a store failure, never a verdict |
| `LoginGuard.IpConsumeErrorPropagates` | backend/redis-nestjs-rate-limiter.ts:63-76 | with `Promise.all`, a failed IP consume escapes the handler as a store failure; as written, it is lost and the client gets 400 |
| `LoginGuard.PairConsumeErrorPropagates` | backend/redis-nestjs-rate-limiter.ts:63-76 | with `Promise.all`, a failed pair consume after the IP consume resolved escapes the handler as a store failure; as written, it is lost and the client gets 400 |
| `LoginGuard.ResetErrorPropagates` | backend/redis-nestjs-rate-limiter.ts:83-87 | a failed reset after correct credentials escapes the handler as a store failure, not as "authorized" |
| `LoginGuard.StoreFailureNeedsFailedCommand` | backend/redis-nestjs-rate-limiter.ts:73-76 | on every input and every outage schedule, a store failure comes only from a command that failed |
| `LoginGuard.VerdictsNeedAnsweredCommands` | backend/redis-nestjs-rate-limiter.ts:70-79 | on every input and every outage schedule, an attempt let in, or answered 400 with `Promise.all`, met no failed command, so no store error (a failed read, consume, block SET or reset) is turned into those verdicts |
| `LoginGuard.ConsecutiveFailsLockOut` | backend/redis-nestjs-rate-limiter.ts:47-79 | five wrong passwords for an existing account are answered 400; the sixth is answered Blocked(3600); every later one at that instant is pre-blocked for the same hour and spends nothing |

## Left out

- Redis client construction and the rest of the client and library internals are not modelled. This covers connection handling, the in-memory block cache, `execEvenly`, insurance limiters and `remainingPoints`. The limiters use only get, consume and delete, and those are modelled over an in-memory store.
- NestJS decorators and the Express request and response are not modelled. The response becomes the `Verdict`: 429 with Retry-After (section 4 of RFC 6585, section 10.2.3 of RFC 9110), 400, or "authorized". A store error that escapes the handler becomes `StoreFailure`.
- `UserService.authorise` and `getUsernameIPkey` are not part of this model. Their results are parameters of an attempt.
- Concurrency is not modelled. The two reads and the two consumes run in order, IP consume first. `Promise.all` settles on the first rejection, and here that is always the IP's when both reject. Per-key atomic increments are the store's concern.
- Time does not pass within one attempt: all commands see the same `now`. Passing time between attempts is the caller's choice of `now`.
- A limiter with a window of 0 (keys that never expire, PTTL -1) is not modelled: `Config.Valid` requires a positive window. Both limiters here have one.
- `Math.round` on a double is replaced by integer rounding of non-negative milliseconds. The two agree for every count of milliseconds a key can hold.
- In the code as written, a consume that rejects is also an unhandled promise rejection, and Node may end the process. Only the response the client gets is modelled.
- `backend/dependency-inversion/src/business-logic.ts`, `api-gateway.ts` and `index.ts` are not modelled. They only pass a call to an HTTP client that is not shown and log the result.

## Findings

| source | as written | input that shows it | evidently intended | confidence | as-written member | corrected member |
|---|---|---|---|---|---|---|
| backend/redis-nestjs-rate-limiter.ts:70 | `await promises` awaits the array itself, so a rejected consume is never caught at line 73 and the handler answers 400 | a wrong password from an IP whose counter stands at 100: the IP consume rejects with a one-day block, yet the client is told only that the password was wrong | `await Promise.all(promises)`, so the tipping attempt gets 429 with Retry-After 86400 | high; not executed | `LoginGuard.AwaitArrayMissesTip` | `LoginGuard.FailedLoginVerdict` |
