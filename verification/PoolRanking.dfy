/** Pool ranking (vprinter/pool_ranking.py): two signals per filament key, when it was first seen and how much it
    has been used lately, and the choice of which filaments a virtual printer shows when it has too few slots. */
module PoolRanking {
  import opened Prelude
  import opened OrderedDicts
  import opened Sorting

  const RECENT_SECONDS: real := 7.0 * 86400.0
  const MAX_TRACKED_KEYS: nat := 512
  const MAX_SPAN: real := 10.0

  datatype Signals = Signals(firstSeen: real, useMinutes: real, lastUse: real)

  /** The tracked keys in the order they were first tracked. */
  type Tracked = Dict<Signals>

  /** Set a key without moving it. */
  function Assign(d: Tracked, key: string, value: Signals): Tracked {
    if d == [] then [Entry(key, value)]
    else if d[0].key == key then [Entry(key, value)] + d[1..]
    else [d[0]] + Assign(d[1..], key, value)
  }

  // ---------------------------------------------------------------- the two signals

  /** The use of a key, decayed from when it was last updated; `decay` gives the factor for an age in seconds. */
  function Decayed(decay: real -> real, d: Tracked, key: string, now: real): real {
    var rec := Get(d, key);
    if rec.None? then 0.0 else rec.value.useMinutes * decay(RealMax(0.0, now - rec.value.lastUse))
  }

  function Load(d: Tracked, key: string, now: real): Tracked {
    if Get(d, key).Some? then d else d + [Entry(key, Signals(now, 0.0, now))]
  }

  function LoadAll(d: Tracked, keys: seq<string>, now: real): Tracked
    decreases |keys|
  {
    if keys == [] then d else LoadAll(Load(d, keys[0], now), keys[1..], now)
  }

  function Use(decay: real -> real, d: Tracked, key: string, span: real, now: real): Tracked {
    var first := if Get(d, key).Some? then Get(d, key).value.firstSeen else now;
    Assign(d, key, Signals(first, Decayed(decay, d, key, now) + span, now))
  }

  function UseAll(decay: real -> real, d: Tracked, keys: seq<string>, span: real, now: real): Tracked
    decreases |keys|
  {
    if keys == [] then d else UseAll(decay, Use(decay, d, keys[0], span, now), keys[1..], span, now)
  }

  /** A tick's span, so that a wedged clock cannot mint hours of use. */
  function Span(tickMinutes: real): real {
    RealMax(0.0, RealMin(tickMinutes, MAX_SPAN))
  }

  /** The position of the stalest entry: the least recent use, the first one among equals. */
  function Stalest(d: Tracked): (i: nat)
    requires d != []
    ensures i < |d|
    ensures forall j :: 0 <= j < |d| ==> d[i].value.lastUse <= d[j].value.lastUse
    ensures forall j :: 0 <= j < i ==> d[i].value.lastUse < d[j].value.lastUse
  {
    if |d| == 1 then 0
    else
      var last := |d| - 1;
      var i := Stalest(d[..last]);
      assert forall j :: 0 <= j < last ==> d[..last][j] == d[j];
      if d[last].value.lastUse < d[i].value.lastUse then last else i
  }

  function Evict(d: Tracked): Tracked
    decreases |d|
  {
    if |d| <= MAX_TRACKED_KEYS then d else var i := Stalest(d); Evict(d[..i] + d[i + 1..])
  }

  /** One heartbeat's evidence. */
  function Observe(decay: real -> real, d: Tracked, loaded: seq<string>, active: seq<string>, tickMinutes: real, now: real): Tracked {
    Evict(UseAll(decay, LoadAll(d, loaded, now), active, Span(tickMinutes), now))
  }

  // ---------------------------------------------------------------- the choice

  function FirstSeens(d: Tracked): Scores {
    map k | k in Keys(d) :: if Get(d, k).Some? then Get(d, k).value.firstSeen else 0.0
  }

  function Uses(decay: real -> real, d: Tracked, now: real): Scores {
    map k | k in Keys(d) :: Decayed(decay, d, k, now)
  }

  function Filter(s: seq<string>, keep: set<string>): seq<string> {
    if s == [] then [] else (if s[0] in keep then [s[0]] else []) + Filter(s[1..], keep)
  }

  predicate Recent(d: Tracked, key: string, now: real) {
    Score(FirstSeens(d), key) >= now - RECENT_SECONDS
  }

  function RecentOf(d: Tracked, cands: seq<string>, now: real): set<string> {
    set k | k in cands && Recent(d, k, now)
  }

  /** The slots kept for the most used: a quarter of the capacity, at least one, if there are keys that are not recent. */
  function Reserve(others: nat, capacity: nat): nat {
    if others == 0 then 0 else Min(others, Max(1, capacity / 4))
  }

  function Take(s: seq<string>, n: int): seq<string> {
    if n <= 0 then [] else if n >= |s| then s else s[..n]
  }

  /** Over capacity: the newest recent keys, as many as the reserve leaves room for. */
  function RecencyPicks(d: Tracked, cands: seq<string>, capacity: nat, now: real): seq<string> {
    var recent := RecentOf(d, cands, now);
    var ranked := Sort(FirstSeens(d), Filter(cands, recent));
    Take(ranked, capacity - Reserve(|Members(cands) - recent|, capacity))
  }

  /** The remaining slots: the most used of what is left. */
  function UsagePicks(decay: real -> real, d: Tracked, cands: seq<string>, capacity: nat, now: real): seq<string> {
    var chosen := RecencyPicks(d, cands, capacity, now);
    Take(Sort(Uses(decay, d, now), Filter(cands, Members(cands) - Members(chosen))), capacity - |chosen|)
  }

  function Select(decay: real -> real, d: Tracked, candidates: seq<string>, capacity: nat, now: real): seq<string> {
    var cands := Sort(map[], candidates);
    if |cands| <= capacity then cands
    else Sort(map[], RecencyPicks(d, cands, capacity, now) + UsagePicks(decay, d, cands, capacity, now))
  }

  // ---------------------------------------------------------------- imperative form

  class PoolRankingState {
    var keys: Tracked
    const decay: real -> real

    constructor (decay: real -> real)
      ensures keys == [] && this.decay == decay
    {
      keys := [];
      this.decay := decay;
    }

    /** `observe`: stamp the loaded keys, let the active ones accrue the span, evict the stalest beyond the cap. */
    method ObserveTick(loaded: seq<string>, active: seq<string>, tickMinutes: real, now: real)
      modifies this
      ensures keys == Observe(decay, old(keys), loaded, active, tickMinutes, now)
    {
      hide Load, Use, Stalest;
      for i := 0 to |loaded|
        invariant LoadAll(keys, loaded[i..], now) == LoadAll(old(keys), loaded, now)
      {
        assert loaded[i..][1..] == loaded[i + 1..];
        keys := Load(keys, loaded[i], now);
      }
      var span := RealMax(0.0, RealMin(tickMinutes, MAX_SPAN));
      ghost var stamped := keys;
      for i := 0 to |active|
        invariant UseAll(decay, keys, active[i..], span, now) == UseAll(decay, stamped, active, span, now)
      {
        assert active[i..][1..] == active[i + 1..];
        keys := Use(decay, keys, active[i], span, now);
      }
      ghost var used := keys;
      while |keys| > MAX_TRACKED_KEYS
        invariant Evict(keys) == Evict(used)
        decreases |keys|
      {
        var i := Stalest(keys);
        keys := keys[..i] + keys[i + 1..];
      }
    }

    /** `select`. */
    method SelectKeys(candidates: seq<string>, capacity: nat, now: real) returns (chosen: seq<string>)
      ensures chosen == Select(decay, keys, candidates, capacity, now)
    {
      hide Sort, Filter, FirstSeens, Uses;
      var cands := Sort(map[], candidates);
      if |cands| <= capacity {
        return cands;
      }
      var recent := RecentOf(keys, cands, now);
      var ranked := Sort(FirstSeens(keys), Filter(cands, recent));
      var reserve := Reserve(|Members(cands) - recent|, capacity);
      chosen := Take(ranked, capacity - reserve);
      assert chosen + [] == chosen;
      if |chosen| < capacity {
        var rest := Sort(Uses(decay, keys, now), Filter(cands, Members(cands) - Members(chosen)));
        chosen := chosen + Take(rest, capacity - |chosen|);
      }
      chosen := Sort(map[], chosen);
    }
  }
}
