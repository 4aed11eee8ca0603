/** The token bucket that limits discovery replies per source (vprinter/ssdp.py), and its laws: how many
    replies any stretch of time can hold, and that sources do not disturb each other. */
module SsdpLimiters {
  import opened Prelude
  import opened OrderedDicts

  datatype Tokens = Tokens(count: real, seen: real)

  datatype Rates = Rates(perSecond: real, burst: nat, maxSources: nat)

  type Sources = Dict<Tokens>

  predicate ValidRates(r: Rates) {
    r.perSecond > 0.0 && r.burst >= 1 && r.maxSources >= 1
  }

  /** The tokens that flow in over a stretch of time. */
  function Accrued(r: Rates, elapsed: real): real {
    elapsed * r.perSecond
  }

  /** A bucket brought up to date: refilled for the time since it was last seen, never above the burst. */
  function Refilled(r: Rates, bucket: Option<Tokens>, now: real): real {
    var t := if bucket.Some? then bucket.value else Tokens(r.burst as real, now);
    RealMin(r.burst as real, t.count + Accrued(r, RealMax(0.0, now - t.seen)))
  }

  predicate Allowed(r: Rates, bucket: Option<Tokens>, now: real) {
    Refilled(r, bucket, now) >= 1.0
  }

  function Spend(r: Rates, bucket: Option<Tokens>, now: real): Tokens {
    Tokens(if Allowed(r, bucket, now) then Refilled(r, bucket, now) - 1.0 else Refilled(r, bucket, now), now)
  }

  function After(r: Rates, d: Sources, source: string, now: real): Sources {
    Trim(Put(d, source, Spend(r, Get(d, source), now)), r.maxSources)
  }

  class SsdpRateLimiter {
    const rates: Rates
    var buckets: Sources

    constructor (perSecond: real, burst: int, maxSources: int)
      ensures rates == Rates(RealMax(0.1, perSecond), Max(1, burst), Max(1, maxSources)) && buckets == []
      ensures ValidRates(rates)
    {
      rates := Rates(RealMax(0.1, perSecond), Max(1, burst), Max(1, maxSources));
      buckets := [];
    }

    /** `allow`, with the eviction loop. */
    method Allow(source: string, now: real) returns (allowed: bool)
      modifies this
      ensures allowed == Allowed(rates, Get(old(buckets), source), now)
      ensures buckets == After(rates, old(buckets), source, now)
    {
      hide Accrued, Get, Put;
      var bucket := Get(buckets, source);
      var tokens, lastSeen := rates.burst as real, now;
      if bucket.Some? {
        tokens, lastSeen := bucket.value.count, bucket.value.seen;
      }
      var elapsed := RealMax(0.0, now - lastSeen);
      tokens := RealMin(rates.burst as real, tokens + Accrued(rates, elapsed));
      allowed := tokens >= 1.0;
      if allowed {
        tokens := tokens - 1.0;
      }
      buckets := EvictBeyond(Put(buckets, source, Tokens(tokens, now)), rates.maxSources);
    }
  }

  // ---------------------------------------------------------------- one source on its own

  /** The replies to one source's calls, and the bucket they leave. */
  function Serve(r: Rates, bucket: Option<Tokens>, calls: seq<real>): (seq<bool>, Option<Tokens>) {
    if calls == [] then ([], bucket)
    else
      var (replies, last) := Serve(r, bucket, calls[..|calls| - 1]);
      var now := calls[|calls| - 1];
      (replies + [Allowed(r, last, now)], Some(Spend(r, last, now)))
  }

  function CountTrue(replies: seq<bool>): nat {
    if replies == [] then 0 else CountTrue(replies[..|replies| - 1]) + if replies[|replies| - 1] then 1 else 0
  }

  predicate Rising(calls: seq<real>) {
    forall i, j :: 0 <= i < j < |calls| ==> calls[i] <= calls[j]
  }

  /** Tokens stay between nothing and the burst. */
  ghost predicate Filled(r: Rates, bucket: Option<Tokens>) {
    bucket.Some? ==> 0.0 <= bucket.value.count <= r.burst as real
  }

  lemma {:induction false} RefillBounds(r: Rates, bucket: Option<Tokens>, now: real)
    requires ValidRates(r) && Filled(r, bucket)
    ensures 0.0 <= Refilled(r, bucket, now) <= r.burst as real
    ensures bucket.Some? && now >= bucket.value.seen ==> Refilled(r, bucket, now) <= bucket.value.count + Accrued(r, now - bucket.value.seen)
    ensures bucket.Some? && now >= bucket.value.seen && Accrued(r, now - bucket.value.seen) >= 1.0 ==> Refilled(r, bucket, now) >= 1.0
    ensures Filled(r, Some(Spend(r, bucket, now)))
  {
    hide Accrued;
    FlowsIn(r, RealMax(0.0, if bucket.Some? then now - bucket.value.seen else 0.0));
  }

  lemma {:induction false} FlowsIn(r: Rates, elapsed: real)
    requires ValidRates(r)
    ensures elapsed >= 0.0 ==> Accrued(r, elapsed) >= 0.0
    ensures elapsed <= 0.0 ==> Accrued(r, elapsed) <= 0.0
  {
    Product(elapsed, r.perSecond);
  }

  lemma {:induction false} Product(a: real, b: real)
    requires b > 0.0
    ensures a >= 0.0 ==> a * b >= 0.0
    ensures a <= 0.0 ==> a * b <= 0.0
  {
  }

  /** Whatever the clock does, tokens stay between nothing and the burst. */
  lemma {:induction false} TokensStayBounded(r: Rates, bucket: Option<Tokens>, calls: seq<real>)
    requires ValidRates(r) && Filled(r, bucket)
    ensures Filled(r, Serve(r, bucket, calls).1) && |Serve(r, bucket, calls).0| == |calls|
    ensures calls != [] ==> Serve(r, bucket, calls).1.Some? && Serve(r, bucket, calls).1.value.seen == calls[|calls| - 1]
  {
    hide Refilled, Filled;
    if calls != [] {
      TokensStayBounded(r, bucket, calls[..|calls| - 1]);
      RefillBounds(r, Serve(r, bucket, calls[..|calls| - 1]).1, calls[|calls| - 1]);
    }
  }

  /** What a stretch of calls was granted plus what is left never exceeds the burst plus what flowed in. */
  lemma {:induction false} Flow(r: Rates, bucket: Option<Tokens>, calls: seq<real>)
    requires ValidRates(r) && Filled(r, bucket) && Rising(calls) && calls != []
    ensures var (replies, last) := Serve(r, bucket, calls);
            && last.Some?
            && CountTrue(replies) as real + last.value.count <= r.burst as real + Accrued(r, calls[|calls| - 1] - calls[0])
  {
    hide Refilled, Filled, Accrued;
    FlowsIn(r, 0.0);
    var init, now := calls[..|calls| - 1], calls[|calls| - 1];
    var (replies, last) := Serve(r, bucket, init);
    TokensStayBounded(r, bucket, init);
    RefillBounds(r, last, now);
    var all := replies + [Allowed(r, last, now)];
    assert all[..|all| - 1] == replies;
    assert Serve(r, bucket, calls).0 == all;
    if init != [] {
      assert Rising(init);
      Flow(r, bucket, init);
      Distribute(r, init[|init| - 1] - calls[0], now - init[|init| - 1]);
    } else {
      assert CountTrue(replies) == 0;
    }
  }

  lemma {:induction false} Distribute(r: Rates, a: real, b: real)
    ensures Accrued(r, a + b) == Accrued(r, a) + Accrued(r, b)
  {
  }

  lemma {:induction false} ServeJoins(r: Rates, bucket: Option<Tokens>, a: seq<real>, b: seq<real>)
    ensures Serve(r, bucket, a + b).0 == Serve(r, bucket, a).0 + Serve(r, Serve(r, bucket, a).1, b).0
    ensures Serve(r, bucket, a + b).1 == Serve(r, Serve(r, bucket, a).1, b).1
    decreases |b|
  {
    hide Allowed, Spend;
    if b == [] {
      assert a + b == a;
    } else {
      var init := b[..|b| - 1];
      ServeJoins(r, bucket, a, init);
      assert (a + b)[..|a + b| - 1] == a + init;
    }
  }

  /** Between any two of a source's calls, the replies granted, both ends included, number at most the burst
      plus the rate times the time between them, wherever in the run the two calls are. */
  lemma {:induction false} RepliesAreBounded(r: Rates, calls: seq<real>, i: nat, j: nat)
    requires ValidRates(r) && Rising(calls) && i <= j < |calls|
    ensures |Serve(r, None, calls).0| == |calls|
    ensures CountTrue(Serve(r, None, calls).0[i..j + 1]) as real <= r.burst as real + (calls[j] - calls[i]) * r.perSecond
  {
    hide Serve, CountTrue, Refilled;
    var before, middle, rest := calls[..i], calls[i..j + 1], calls[j + 1..];
    assert calls[..j + 1] == before + middle && calls == calls[..j + 1] + rest;
    ServeJoins(r, None, before, middle);
    ServeJoins(r, None, calls[..j + 1], rest);
    TokensStayBounded(r, None, before);
    TokensStayBounded(r, None, calls);
    var mid := Serve(r, None, before).1;
    TokensStayBounded(r, mid, middle);
    TokensStayBounded(r, None, calls[..j + 1]);
    assert Rising(middle);
    Flow(r, mid, middle);
    assert Serve(r, None, calls).0[i..j + 1] == Serve(r, mid, middle).0;
  }

  /** A source that waits at least a token's worth of time before a call is answered. */
  lemma {:induction false} PatientIsAnswered(r: Rates, calls: seq<real>, i: nat)
    requires ValidRates(r) && i < |calls|
    requires i > 0 ==> (calls[i] - calls[i - 1]) * r.perSecond >= 1.0
    ensures |Serve(r, None, calls).0| == |calls| && Serve(r, None, calls).0[i]
  {
    hide Refilled, Filled;
    var before := calls[..i];
    var upto := calls[..i + 1];
    assert upto[..i] == before && calls == upto + calls[i + 1..];
    Opening(r, calls[0]);
    TokensStayBounded(r, None, before);
    TokensStayBounded(r, None, calls);
    TokensStayBounded(r, None, upto);
    ServeJoins(r, None, upto, calls[i + 1..]);
    if i > 0 {
      FlowsIn(r, calls[i] - calls[i - 1]);
    }
    RefillBounds(r, Serve(r, None, before).1, calls[i]);
  }

  lemma {:induction false} Opening(r: Rates, now: real)
    requires ValidRates(r)
    ensures Allowed(r, None, now) && Filled(r, None)
  {
  }

  lemma {:induction false} ServeStep(r: Rates, bucket: Option<Tokens>, calls: seq<real>, now: real)
    ensures var (replies, last) := Serve(r, bucket, calls);
            Serve(r, bucket, calls + [now]) == (replies + [Allowed(r, last, now)], Some(Spend(r, last, now)))
  {
    assert (calls + [now])[..|calls|] == calls;
  }

  function Zeros(n: nat): seq<real> {
    seq(n, _ => 0.0)
  }

  function AllTrue(n: nat): seq<bool> {
    seq(n, _ => true)
  }

  lemma {:induction false} CountAllTrue(n: nat)
    ensures CountTrue(AllTrue(n)) == n
  {
    if n > 0 {
      CountAllTrue(n - 1);
      assert AllTrue(n)[..n - 1] == AllTrue(n - 1);
    }
  }

  lemma {:induction false} CountSnoc(replies: seq<bool>, reply: bool)
    ensures CountTrue(replies + [reply]) == CountTrue(replies) + if reply then 1 else 0
  {
    assert (replies + [reply])[..|replies|] == replies;
  }

  /** A burst's worth of calls at one instant is answered and leaves no token. */
  lemma {:induction false} BurstIsServed(r: Rates, n: nat)
    requires ValidRates(r) && 1 <= n <= r.burst
    ensures Serve(r, None, Zeros(n)) == (AllTrue(n), Some(Tokens((r.burst - n) as real, 0.0)))
  {
    assert Zeros(n) == Zeros(n - 1) + [0.0] && AllTrue(n) == AllTrue(n - 1) + [true];
    ServeStep(r, None, Zeros(n - 1), 0.0);
    assert Accrued(r, 0.0) == 0.0;
    if n == 1 {
      assert Zeros(0) == [] && AllTrue(0) == [];
    } else {
      BurstIsServed(r, n - 1);
    }
  }

  /** The time in which one token flows in. */
  function TokenTime(r: Rates): real
    requires r.perSecond > 0.0
  {
    1.0 / r.perSecond
  }

  /** A burst, one call while the clock stands a token's time back, and one call when it is right again. */
  function BackAndForth(r: Rates): seq<real>
    requires r.perSecond > 0.0
  {
    Zeros(r.burst) + [-TokenTime(r)] + [0.0]
  }

  lemma {:induction false} TokenFlows(r: Rates)
    requires ValidRates(r)
    ensures TokenTime(r) > 0.0 && Accrued(r, TokenTime(r)) == 1.0 && Accrued(r, 0.0) == 0.0
  {
  }

  /** The bound needs the clock: under any rates one step back and forth wins a reply beyond the burst, in no time at
      all. */
  lemma {:induction false} ClockStepMints(r: Rates)
    requires ValidRates(r)
    ensures var calls := BackAndForth(r);
            && calls[0] == calls[|calls| - 1] == 0.0 && !Rising(calls)
            && CountTrue(Serve(r, None, calls).0) == r.burst + 1
  {
    hide Serve, Accrued, TokenTime;
    var calls := BackAndForth(r);
    var back := Zeros(r.burst) + [-TokenTime(r)];
    TokenFlows(r);
    assert calls[0] == 0.0 && calls[r.burst] == -TokenTime(r);
    BurstIsServed(r, r.burst);
    ServeStep(r, None, Zeros(r.burst), -TokenTime(r));
    ServeStep(r, None, back, 0.0);
    CountAllTrue(r.burst);
    CountSnoc(AllTrue(r.burst), false);
    CountSnoc(AllTrue(r.burst) + [false], true);
  }

  // ---------------------------------------------------------------- many sources

  datatype Call = Call(source: string, now: real)

  function RunAll(r: Rates, d: Sources, calls: seq<Call>): (seq<bool>, Sources) {
    if calls == [] then ([], d)
    else
      var (replies, last) := RunAll(r, d, calls[..|calls| - 1]);
      var c := calls[|calls| - 1];
      (replies + [Allowed(r, Get(last, c.source), c.now)], After(r, last, c.source, c.now))
  }

  /** The call times of one source. */
  function CallsOf(calls: seq<Call>, source: string): seq<real> {
    if calls == [] then []
    else CallsOf(calls[..|calls| - 1], source) + if calls[|calls| - 1].source == source then [calls[|calls| - 1].now] else []
  }

  /** The replies to one source, picked out of the replies to all. */
  function RepliesOf(calls: seq<Call>, replies: seq<bool>, source: string): seq<bool>
    requires |calls| == |replies|
  {
    if calls == [] then []
    else
      RepliesOf(calls[..|calls| - 1], replies[..|calls| - 1], source)
      + if calls[|calls| - 1].source == source then [replies[|calls| - 1]] else []
  }

  predicate NamesSources(calls: seq<Call>, source: string, others: set<string>) {
    forall c :: c in calls ==> c.source == source || c.source in others
  }

  lemma {:induction false} AfterOne(r: Rates, d: Sources, c: Call, source: string, others: set<string>)
    requires Roomy(d, source, others) && |others| < r.maxSources
    requires c.source == source || c.source in others
    ensures Roomy(After(r, d, c.source, c.now), source, others)
    ensures Get(After(r, d, c.source, c.now), source)
         == if c.source == source then Some(Spend(r, Get(d, source), c.now)) else Get(d, source)
  {
    hide Get, Keys, Put, Trim, Behind, Spend, Distinct;
    var value := Spend(r, Get(d, c.source), c.now);
    PutChangesOne(d, c.source, value);
    PutTrimKeepsPlace(d, c.source, value, r.maxSources, source, others);
    TrimKeeps(Put(d, c.source, value), r.maxSources);
    Absent(d, source);
  }

  /** While fewer than `maxSources` other sources call, each source is served exactly as if it were alone. */
  lemma {:induction false} SourcesAreIndependent(r: Rates, calls: seq<Call>, source: string, others: set<string>)
    requires NamesSources(calls, source, others) && |others| < r.maxSources
    ensures var (replies, d) := RunAll(r, [], calls);
            var (alone, bucket) := Serve(r, None, CallsOf(calls, source));
            && |replies| == |calls| && Roomy(d, source, others)
            && RepliesOf(calls, replies, source) == alone && Get(d, source) == bucket
  {
    hide Allowed, Spend, After, Roomy, Get;
    if calls == [] {
      EmptyDict(source, others);
    } else {
      var init, c := calls[..|calls| - 1], calls[|calls| - 1];
      SourcesAreIndependent(r, init, source, others);
      var (replies, d) := RunAll(r, [], init);
      assert c in calls;
      AfterOne(r, d, c, source, others);
      var all := replies + [Allowed(r, Get(d, c.source), c.now)];
      assert all[..|init|] == replies;
      if c.source == source {
        var times := CallsOf(init, source);
        assert (times + [c.now])[..|times|] == times;
      } else {
        assert CallsOf(calls, source) == CallsOf(init, source);
      }
    }
  }

  lemma {:induction false} EmptyDict(source: string, others: set<string>)
    ensures var d: Sources := []; Roomy(d, source, others) && Get(d, source) == None
  {
  }
}
