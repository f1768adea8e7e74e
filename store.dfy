/** The counter store that both login limiters share: an in-memory stand-in
    for the Redis server behind the single `redisClient`.  Every key carries a
    deadline on an explicit millisecond clock, and the network is a schedule of
    outages: each command the client sends takes the next flag off the
    schedule and, when that flag is set, fails at once (the client is created
    with its offline queue disabled, so it never waits for a reconnect). */
module Store {

  datatype Option<T> = None | Some(value: T)

  /** A command's reply, or the error the client raises when the connection is down. */
  datatype Reply<T> = Ok(value: T) | Unavailable

  /** A stored counter and the clock reading (in ms) at which Redis expires it. */
  datatype Entry = Entry(value: nat, expiresAt: nat)

  /** What GET and PTTL report together for a key that has not expired. */
  datatype Record = Record(value: nat, pttl: nat)

  /** The whole store: its keys, the outages still to come, and how many
      commands have failed so far (each one an error raised to the caller). */
  datatype StoreState = StoreState(data: map<string, Entry>, outages: seq<bool>, failed: nat)

  /** A key exists for Redis only until its deadline. */
  predicate Live(data: map<string, Entry>, key: string, now: nat) {
    key in data && now < data[key].expiresAt
  }

  /** The counter of `key` as Redis would report it: 0 once the key is gone. */
  function Count(data: map<string, Entry>, key: string, now: nat): nat {
    if Live(data, key, now) then data[key].value else 0
  }

  /** No command from here on meets a dropped connection. */
  predicate Connected(s: StoreState) {
    true !in s.outages
  }

  predicate NextDown(s: StoreState) {
    |s.outages| > 0 && s.outages[0]
  }

  /** The store after one command: new data, one outage flag used up, and
      one more failed command when that flag was set. */
  function Advance(s: StoreState, data: map<string, Entry>): (t: StoreState)
    ensures t.data == data
    ensures Connected(s) ==> Connected(t)
    ensures t.failed == s.failed + (if NextDown(s) then 1 else 0)
  {
    if |s.outages| == 0 then StoreState(data, [], s.failed)
    else
      assert forall b | b in s.outages[1..] :: b in s.outages;
      StoreState(data, s.outages[1..], if s.outages[0] then s.failed + 1 else s.failed)
  }

  /** MULTI GET key; PTTL key: reads a key without touching it. */
  function GetCmd(s: StoreState, key: string, now: nat): (r: (StoreState, Reply<Option<Record>>))
    ensures r.0.data == s.data
    ensures r.1.Unavailable? <==> NextDown(s)
    ensures r.1.Ok? ==> (r.1.value.Some? <==> Live(s.data, key, now))
    ensures r.1.Ok? && r.1.value.Some? ==>
              r.1.value.value.value == Count(s.data, key, now) &&
              now + r.1.value.value.pttl == s.data[key].expiresAt
    ensures Connected(s) ==> Connected(r.0)
    ensures r.0.failed == s.failed + (if r.1.Unavailable? then 1 else 0)
  {
    if NextDown(s) then (Advance(s, s.data), Unavailable)
    else if Live(s.data, key, now) then
      (Advance(s, s.data), Ok(Some(Record(s.data[key].value, s.data[key].expiresAt - now))))
    else (Advance(s, s.data), Ok(None))
  }

  /** MULTI SET key 0 EX ttl NX; INCRBY key amount; PTTL key: a key that is gone
      starts a fresh window of `ttl` ms, a live key keeps its deadline. */
  function IncrCmd(s: StoreState, key: string, amount: nat, ttl: nat, now: nat): (r: (StoreState, Reply<Record>))
    requires ttl > 0
    ensures r.1.Unavailable? <==> NextDown(s)
    ensures r.1.Unavailable? ==> r.0.data == s.data
    ensures r.1.Ok? ==>
              && key in r.0.data
              && r.0.data == s.data[key := r.0.data[key]]
              && r.1.value.value == r.0.data[key].value == Count(s.data, key, now) + amount
              && r.1.value.pttl > 0
              && now + r.1.value.pttl == r.0.data[key].expiresAt
              && r.0.data[key].expiresAt == (if Live(s.data, key, now) then s.data[key].expiresAt else now + ttl)
    ensures Connected(s) ==> Connected(r.0)
    ensures r.0.failed == s.failed + (if r.1.Unavailable? then 1 else 0)
  {
    if NextDown(s) then (Advance(s, s.data), Unavailable)
    else if Live(s.data, key, now) then
      var e := Entry(s.data[key].value + amount, s.data[key].expiresAt);
      (Advance(s, s.data[key := e]), Ok(Record(e.value, e.expiresAt - now)))
    else
      (Advance(s, s.data[key := Entry(amount, now + ttl)]), Ok(Record(amount, ttl)))
  }

  /** SET key value EX ttl: overwrites the counter and its deadline. */
  function SetCmd(s: StoreState, key: string, value: nat, ttl: nat, now: nat): (r: (StoreState, Reply<()>))
    ensures r.1.Unavailable? <==> NextDown(s)
    ensures r.0.data == if r.1.Ok? then s.data[key := Entry(value, now + ttl)] else s.data
    ensures Connected(s) ==> Connected(r.0)
    ensures r.0.failed == s.failed + (if r.1.Unavailable? then 1 else 0)
  {
    if NextDown(s) then (Advance(s, s.data), Unavailable)
    else (Advance(s, s.data[key := Entry(value, now + ttl)]), Ok(()))
  }

  /** DEL key: removes the key; replies whether a live key was removed. */
  function DelCmd(s: StoreState, key: string, now: nat): (r: (StoreState, Reply<bool>))
    ensures r.1.Unavailable? <==> NextDown(s)
    ensures r.0.data == if r.1.Ok? then s.data - {key} else s.data
    ensures r.1.Ok? ==> (r.1.value <==> Live(s.data, key, now))
    ensures Connected(s) ==> Connected(r.0)
    ensures r.0.failed == s.failed + (if r.1.Unavailable? then 1 else 0)
  {
    if NextDown(s) then (Advance(s, s.data), Unavailable)
    else (Advance(s, s.data - {key}), Ok(Live(s.data, key, now)))
  }

  /** The Redis server as one mutable object; each method is one round trip. */
  class RedisStore {
    var data: map<string, Entry>
    var outages: seq<bool>
    var failed: nat

    function State(): StoreState
      reads this
    {
      StoreState(data, outages, failed)
    }

    constructor (outages: seq<bool>)
      ensures State() == StoreState(map[], outages, 0)
    {
      data := map[];
      this.outages := outages;
      failed := 0;
    }

    /** Takes the next flag off the outage schedule and tells whether the link is down. */
    method Dispatch() returns (down: bool)
      modifies this
      ensures down == NextDown(old(State()))
      ensures State() == Advance(old(State()), old(data))
    {
      down := |outages| > 0 && outages[0];
      if |outages| > 0 {
        outages := outages[1..];
      }
      if down {
        failed := failed + 1;
      }
    }

    method Get(key: string, now: nat) returns (r: Reply<Option<Record>>)
      modifies this
      ensures (State(), r) == GetCmd(old(State()), key, now)
    {
      var down := Dispatch();
      if down {
        r := Unavailable;
      } else if key in data && now < data[key].expiresAt {
        r := Ok(Some(Record(data[key].value, data[key].expiresAt - now)));
      } else {
        r := Ok(None);
      }
    }

    method IncrBy(key: string, amount: nat, ttl: nat, now: nat) returns (r: Reply<Record>)
      requires ttl > 0
      modifies this
      ensures (State(), r) == IncrCmd(old(State()), key, amount, ttl, now)
    {
      var down := Dispatch();
      if down {
        r := Unavailable;
        return;
      }
      var e: Entry;
      if key in data && now < data[key].expiresAt {
        e := Entry(data[key].value + amount, data[key].expiresAt);
      } else {
        e := Entry(amount, now + ttl);  // SET NX opened a fresh window at 0
      }
      data := data[key := e];
      r := Ok(Record(e.value, e.expiresAt - now));
    }

    method Set(key: string, value: nat, ttl: nat, now: nat) returns (r: Reply<()>)
      modifies this
      ensures (State(), r) == SetCmd(old(State()), key, value, ttl, now)
    {
      var down := Dispatch();
      if down {
        r := Unavailable;
      } else {
        data := data[key := Entry(value, now + ttl)];
        r := Ok(());
      }
    }

    method Del(key: string, now: nat) returns (r: Reply<bool>)
      modifies this
      ensures (State(), r) == DelCmd(old(State()), key, now)
    {
      var down := Dispatch();
      if down {
        r := Unavailable;
      } else {
        r := Ok(key in data && now < data[key].expiresAt);
        data := data - {key};
      }
    }
  }
}
