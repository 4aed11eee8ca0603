/** The lazily decayed use counter against the sum it stands for: every active tick since the key was last
    tracked, its span decayed by its age. */
module PoolRankingUse {
  import opened Prelude
  import opened OrderedDicts
  import opened PoolRanking
  import opened PoolRankingLaws

  datatype Tick = Tick(time: real, span: real)

  /** The tracked keys, every active tick of each key and the time since which it is tracked, and the last observation's
      time. */
  datatype Book = Book(keys: Tracked, ticks: map<string, seq<Tick>>, since: map<string, real>, clock: real)

  datatype Beat = Beat(loaded: seq<string>, active: seq<string>, tickMinutes: real, now: real)

  function TicksOf(b: Book, key: string): seq<Tick> {
    if key in b.ticks then b.ticks[key] else []
  }

  /** A key that starts being tracked starts without ticks. */
  function Started(b: Book, key: string): map<string, seq<Tick>> {
    if Get(b.keys, key).Some? then b.ticks else b.ticks[key := []]
  }

  function SinceOf(b: Book, key: string): real {
    if key in b.since then b.since[key] else 0.0
  }

  function Since(b: Book, key: string, now: real): map<string, real> {
    if Get(b.keys, key).Some? then b.since else b.since[key := now]
  }

  function LoadOne(b: Book, key: string, now: real): Book {
    Book(Load(b.keys, key, now), Started(b, key), Since(b, key, now), now)
  }

  function UseOne(decay: real -> real, b: Book, key: string, span: real, now: real): Book {
    var ticks := Started(b, key);
    var past := if key in ticks then ticks[key] else [];
    Book(Use(decay, b.keys, key, span, now), ticks[key := past + [Tick(now, span)]], Since(b, key, now), now)
  }

  function LoadMany(b: Book, keys: seq<string>, now: real): Book
    decreases |keys|
  {
    if keys == [] then b else LoadMany(LoadOne(b, keys[0], now), keys[1..], now)
  }

  function UseMany(decay: real -> real, b: Book, keys: seq<string>, span: real, now: real): Book
    decreases |keys|
  {
    if keys == [] then b else UseMany(decay, UseOne(decay, b, keys[0], span, now), keys[1..], span, now)
  }

  /** The minutes a tick counts for: none when negative, ten at most. */
  function Counted(tickMinutes: real): real {
    if tickMinutes < 0.0 then 0.0 else if tickMinutes > 10.0 then 10.0 else tickMinutes
  }

  function Next(decay: real -> real, b: Book, beat: Beat): Book {
    var used := UseMany(decay, LoadMany(b, beat.loaded, beat.now), beat.active, Counted(beat.tickMinutes), beat.now);
    Book(Evict(used.keys), used.ticks, used.since, beat.now)
  }

  function Run(decay: real -> real, b: Book, beats: seq<Beat>): Book
    decreases |beats|
  {
    if beats == [] then b else Run(decay, Next(decay, b, beats[0]), beats[1..])
  }

  predicate Rising(beats: seq<Beat>, at: real) {
    beats == [] || (at <= beats[0].now && Rising(beats[1..], beats[0].now))
  }

  /** The book's table is the one `Observe` computes. */
  lemma {:induction false} BookFollowsObserve(decay: real -> real, b: Book, beat: Beat)
    ensures Next(decay, b, beat).keys == Observe(decay, b.keys, beat.loaded, beat.active, beat.tickMinutes, beat.now)
  {
    LoadManyKeys(b, beat.loaded, beat.now);
    UseManyKeys(decay, LoadMany(b, beat.loaded, beat.now), beat.active, Counted(beat.tickMinutes), beat.now);
  }

  lemma {:induction false} LoadManyKeys(b: Book, keys: seq<string>, now: real)
    ensures LoadMany(b, keys, now).keys == LoadAll(b.keys, keys, now)
    decreases |keys|
  {
    hide Load;
    if keys != [] {
      LoadManyKeys(LoadOne(b, keys[0], now), keys[1..], now);
    }
  }

  lemma {:induction false} UseManyKeys(decay: real -> real, b: Book, keys: seq<string>, span: real, now: real)
    ensures UseMany(decay, b, keys, span, now).keys == UseAll(decay, b.keys, keys, span, now)
    decreases |keys|
  {
    hide Use;
    if keys != [] {
      UseManyKeys(decay, UseOne(decay, b, keys[0], span, now), keys[1..], span, now);
    }
  }

  // ---------------------------------------------------------------- the decayed sum

  /** The sum of spans, each decayed by its age. */
  function DecayedSum(decay: real -> real, ticks: seq<Tick>, now: real): real {
    if ticks == [] then 0.0
    else DecayedSum(decay, ticks[..|ticks| - 1], now) + ticks[|ticks| - 1].span * decay(now - ticks[|ticks| - 1].time)
  }

  /** Decay turns the sum of ages into a product of factors, as every exponential does. */
  ghost predicate Exponential(decay: real -> real) {
    && decay(0.0) == 1.0
    && (forall a :: a >= 0.0 ==> decay(a) >= 0.0)
    && (forall a, b, c :: a >= 0.0 && b >= 0.0 && c == a + b ==> decay(a) * decay(b) == decay(c))
  }

  predicate Until(ticks: seq<Tick>, at: real) {
    forall i :: 0 <= i < |ticks| ==> ticks[i].time <= at && ticks[i].span >= 0.0
  }

  lemma {:induction false} AgesAdd(decay: real -> real, a: real, b: real)
    requires Exponential(decay) && a >= 0.0 && b >= 0.0
    ensures decay(a) * decay(b) == decay(a + b) && decay(a) >= 0.0
  {
  }

  lemma {:induction false} AgeZero(decay: real -> real)
    requires Exponential(decay)
    ensures decay(0.0) == 1.0
  {
  }

  lemma {:induction false} Scale(x: real, y: real, z: real, w: real)
    ensures (x + y * z) * w == x * w + y * (z * w)
  {
  }

  /** Decaying the whole sum is decaying every tick. */
  lemma {:induction false} SumDecays(decay: real -> real, ticks: seq<Tick>, at: real, now: real)
    requires Exponential(decay) && Until(ticks, at) && at <= now
    ensures DecayedSum(decay, ticks, at) * decay(now - at) == DecayedSum(decay, ticks, now)
  {
    hide Exponential;
    if ticks != [] {
      var init, t := ticks[..|ticks| - 1], ticks[|ticks| - 1];
      SumDecays(decay, init, at, now);
      AgesAdd(decay, at - t.time, now - at);
      assert (at - t.time) + (now - at) == now - t.time;
      Scale(DecayedSum(decay, init, at), t.span, decay(at - t.time), decay(now - at));
    }
  }

  lemma {:induction false} SumIsNonnegative(decay: real -> real, ticks: seq<Tick>, at: real)
    requires Exponential(decay) && Until(ticks, at)
    ensures DecayedSum(decay, ticks, at) >= 0.0
  {
    hide Exponential;
    if ticks != [] {
      var init, t := ticks[..|ticks| - 1], ticks[|ticks| - 1];
      SumIsNonnegative(decay, init, at);
      AgesAdd(decay, at - t.time, 0.0);
      Nonnegative(t.span, decay(at - t.time));
    }
  }

  lemma {:induction false} Nonnegative(a: real, b: real)
    requires a >= 0.0 && b >= 0.0
    ensures a * b >= 0.0
  {
  }

  lemma {:induction false} SumGrows(decay: real -> real, ticks: seq<Tick>, span: real, now: real)
    requires Exponential(decay)
    ensures DecayedSum(decay, ticks + [Tick(now, span)], now) == DecayedSum(decay, ticks, now) + span
  {
    hide Exponential;
    AgeZero(decay);
    assert (ticks + [Tick(now, span)])[..|ticks|] == ticks;
  }

  // ---------------------------------------------------------------- the counter is the sum

  /** One tracked entry agrees with its ticks. */
  ghost predicate EntryExact(decay: real -> real, s: Signals, ticks: seq<Tick>, clock: real) {
    && s.lastUse <= clock && Until(ticks, s.lastUse)
    && s.useMinutes == DecayedSum(decay, ticks, s.lastUse)
  }

  ghost predicate Exact(decay: real -> real, b: Book) {
    && Distinct(b.keys)
    && (forall k :: Get(b.keys, k).Some? ==> EntryExact(decay, Get(b.keys, k).value, TicksOf(b, k), b.clock))
    && (forall k :: Get(b.keys, k).Some? ==> Get(b.keys, k).value.firstSeen == SinceOf(b, k))
  }

  lemma {:induction false} EntryDecays(decay: real -> real, s: Signals, ticks: seq<Tick>, clock: real, now: real)
    requires Exponential(decay) && EntryExact(decay, s, ticks, clock) && clock <= now
    ensures s.useMinutes * decay(RealMax(0.0, now - s.lastUse)) == DecayedSum(decay, ticks, now)
    ensures Until(ticks, now) && DecayedSum(decay, ticks, now) >= 0.0
  {
    hide Exponential, DecayedSum;
    SumDecays(decay, ticks, s.lastUse, now);
    SumIsNonnegative(decay, ticks, now);
  }

  lemma {:induction false} AssignOne(d: Tracked, key: string, value: Signals)
    requires Distinct(d)
    ensures Distinct(Assign(d, key, value)) && Keys(Assign(d, key, value)) == Keys(d) + {key}
    ensures forall k :: Get(Assign(d, key, value), k) == if k == key then Some(value) else Get(d, k)
  {
    var out := Assign(d, key, value);
    OneKey(Entry(key, value));
    if d == [] {
      assert out[1..] == d;
    } else {
      ConsKeys(d);
      OneKey(d[0]);
      if d[0].key == key {
        assert out[1..] == d[1..];
        ConsKeys(out);
        DistinctJoin([Entry(key, value)], d[1..]);
      } else {
        AssignOne(d[1..], key, value);
        assert out[1..] == Assign(d[1..], key, value);
        ConsKeys(out);
        DistinctJoin([d[0]], Assign(d[1..], key, value));
      }
    }
  }

  lemma {:induction false} LoadExact(decay: real -> real, b: Book, key: string, now: real)
    requires Exact(decay, b) && b.clock <= now
    ensures Exact(decay, LoadOne(b, key, now))
  {
    hide Get, Distinct, Keys, Until;
    var next := LoadOne(b, key, now);
    Absent(b.keys, key);
    assert Until([], now) by { NoTicks(decay, now); }
    assert DecayedSum(decay, [], now) == 0.0;
    if Get(b.keys, key).None? {
      AddLast(b.keys, Entry(key, Signals(now, 0.0, now)));
    }
  }

  lemma {:induction false} NoTicks(decay: real -> real, now: real)
    ensures Until([], now)
  {
  }

  lemma {:induction false} UseExact(decay: real -> real, b: Book, key: string, span: real, now: real)
    requires Exponential(decay) && Exact(decay, b) && b.clock <= now && span >= 0.0
    ensures Exact(decay, UseOne(decay, b, key, span, now))
  {
    hide Get, Distinct, Keys, Assign, Exponential, DecayedSum;
    var ticks := Started(b, key);
    var past := if key in ticks then ticks[key] else [];
    var used := Decayed(decay, b.keys, key, now);
    assert used == DecayedSum(decay, past, now) && Until(past, now) by {
      if Get(b.keys, key).Some? {
        EntryDecays(decay, Get(b.keys, key).value, TicksOf(b, key), b.clock, now);
      } else {
        NoTicks(decay, now);
        EmptySum(decay, now);
      }
    }
    SumGrows(decay, past, span, now);
    var first := if Get(b.keys, key).Some? then Get(b.keys, key).value.firstSeen else now;
    AssignOne(b.keys, key, Signals(first, used + span, now));
    assert Until(past + [Tick(now, span)], now);
  }

  lemma {:induction false} EmptySum(decay: real -> real, now: real)
    ensures DecayedSum(decay, [], now) == 0.0
  {
  }

  lemma {:induction false} LoadManyExact(decay: real -> real, b: Book, keys: seq<string>, now: real)
    requires Exact(decay, b) && b.clock <= now
    ensures Exact(decay, LoadMany(b, keys, now)) && LoadMany(b, keys, now).clock <= now
    decreases |keys|
  {
    hide Exact, Load;
    if keys != [] {
      LoadExact(decay, b, keys[0], now);
      LoadManyExact(decay, LoadOne(b, keys[0], now), keys[1..], now);
    }
  }

  lemma {:induction false} UseManyExact(decay: real -> real, b: Book, keys: seq<string>, span: real, now: real)
    requires Exponential(decay) && Exact(decay, b) && b.clock <= now && span >= 0.0
    ensures Exact(decay, UseMany(decay, b, keys, span, now)) && UseMany(decay, b, keys, span, now).clock <= now
    decreases |keys|
  {
    hide Exact, Use, Exponential;
    if keys != [] {
      UseExact(decay, b, keys[0], span, now);
      UseManyExact(decay, UseOne(decay, b, keys[0], span, now), keys[1..], span, now);
    }
  }

  lemma {:induction false} NextExact(decay: real -> real, b: Book, beat: Beat)
    requires Exponential(decay) && Exact(decay, b) && b.clock <= beat.now
    ensures Exact(decay, Next(decay, b, beat)) && |Next(decay, b, beat).keys| <= 512
  {
    hide Exponential, Get, Distinct, Keys, Evict, LoadMany, UseMany, EntryExact;
    LoadManyExact(decay, b, beat.loaded, beat.now);
    var loaded := LoadMany(b, beat.loaded, beat.now);
    UseManyExact(decay, loaded, beat.active, Counted(beat.tickMinutes), beat.now);
    var used := UseMany(decay, loaded, beat.active, Counted(beat.tickMinutes), beat.now);
    EvictKeepsTheFreshest(used.keys);
    var next := Next(decay, b, beat);
    forall k | Get(next.keys, k).Some? ensures EntryExact(decay, Get(next.keys, k).value, TicksOf(next, k), next.clock) {
      LaterEntry(decay, Get(used.keys, k).value, TicksOf(used, k), used.clock, next.clock);
    }
  }

  lemma {:induction false} LaterEntry(decay: real -> real, s: Signals, ticks: seq<Tick>, clock: real, later: real)
    requires EntryExact(decay, s, ticks, clock) && clock <= later
    ensures EntryExact(decay, s, ticks, later)
  {
  }

  lemma {:induction false} RunExact(decay: real -> real, b: Book, beats: seq<Beat>)
    requires Exponential(decay) && Exact(decay, b) && Rising(beats, b.clock) && |b.keys| <= 512
    ensures Exact(decay, Run(decay, b, beats)) && |Run(decay, b, beats).keys| <= 512
    decreases |beats|
  {
    hide Exponential, Exact, Next;
    if beats != [] {
      NextExact(decay, b, beats[0]);
      assert Next(decay, b, beats[0]).clock == beats[0].now by { NextClock(decay, b, beats[0]); }
      RunExact(decay, Next(decay, b, beats[0]), beats[1..]);
    }
  }

  lemma {:induction false} NextClock(decay: real -> real, b: Book, beat: Beat)
    ensures Next(decay, b, beat).clock == beat.now
  {
  }

  /** Over any run with a clock that does not go back, a key's decayed use is the sum of the decayed spans of its
      active ticks since it was last tracked, it is first seen when that began, its use is never negative, and at most
      512 keys are tracked. */
  lemma {:induction false} UseIsTheDecayedSum(decay: real -> real, start: real, beats: seq<Beat>, key: string, now: real)
    requires Exponential(decay) && Rising(beats, start)
    requires Run(decay, Book([], map[], map[], start), beats).clock <= now
    ensures var b := Run(decay, Book([], map[], map[], start), beats);
            && Decayed(decay, b.keys, key, now) == (if Get(b.keys, key).Some? then DecayedSum(decay, TicksOf(b, key), now) else 0.0)
            && Decayed(decay, b.keys, key, now) >= 0.0
            && (Get(b.keys, key).Some? ==> Get(b.keys, key).value.firstSeen == SinceOf(b, key))
            && |b.keys| <= 512
  {
    hide Exponential, Run, DecayedSum, Rising, Until;
    var b0 := Book([], map[], map[], start);
    RunExact(decay, b0, beats);
    var b := Run(decay, b0, beats);
    if Get(b.keys, key).Some? {
      EntryDecays(decay, Get(b.keys, key).value, TicksOf(b, key), b.clock, now);
    }
  }
}
