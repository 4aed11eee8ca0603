/** Laws of the pool ranking: what the choice contains, and that the lazily decayed counter is the decayed
    sum of every active tick. */
module PoolRankingLaws {
  import opened Prelude
  import opened OrderedDicts
  import opened Sorting
  import opened PoolRanking

  // ---------------------------------------------------------------- lists

  lemma {:induction false} FilterMembers(s: seq<string>, keep: set<string>)
    ensures Members(Filter(s, keep)) == Members(s) * keep
  {
    if s != [] {
      FilterMembers(s[1..], keep);
      assert s == [s[0]] + s[1..];
      MembersJoin([s[0]], s[1..]);
      MembersJoin(if s[0] in keep then [s[0]] else [], Filter(s[1..], keep));
    }
  }

  lemma {:induction false} TakeBest(m: Scores, s: seq<string>, n: int)
    requires Sorted(m, s)
    ensures Sorted(m, Take(s, n)) && |Take(s, n)| == Max(0, Min(|s|, n)) && Members(Take(s, n)) <= Members(s)
    ensures forall x, y :: x in Members(Take(s, n)) && y in Members(s) - Members(Take(s, n)) ==> Before(m, x, y)
  {
    hide Before;
    if 0 < n < |s| {
      SortedPart(m, s, n);
    }
  }

  /** The best `n` of a set by a score: what one tier takes. */
  lemma {:induction false} TierTakesBest(m: Scores, s: seq<string>, keep: set<string>, n: int)
    ensures var tier := Take(Sort(m, Filter(s, keep)), n);
            && Sorted(m, tier) && Members(tier) <= Members(s) * keep
            && |Members(tier)| == |tier| == Max(0, Min(|Members(s) * keep|, n))
            && forall x, y :: x in Members(tier) && y in Members(s) * keep - Members(tier) ==> Before(m, x, y)
  {
    hide Before, Sort, Filter, Members, Take;
    FilterMembers(s, keep);
    SortIsSorted(m, Filter(s, keep));
    SortedCount(m, Sort(m, Filter(s, keep)));
    TakeBest(m, Sort(m, Filter(s, keep)), n);
    SortedCount(m, Take(Sort(m, Filter(s, keep)), n));
  }

  lemma {:induction false} MembersJoin(a: seq<string>, b: seq<string>)
    ensures Members(a + b) == Members(a) + Members(b)
  {
  }

  lemma {:induction false} DisjointSize<T>(a: set<T>, b: set<T>)
    requires a !! b
    ensures |a + b| == |a| + |b|
  {
  }

  lemma {:induction false} PartSize<T>(a: set<T>, b: set<T>)
    requires a <= b
    ensures |b - a| == |b| - |a|
  {
    assert b == a + (b - a);
    DisjointSize(a, b - a);
  }

  // ---------------------------------------------------------------- the two tiers

  /** Over capacity, the two tiers take different keys and together fill the capacity. */
  lemma {:induction false} TiersFill(decay: real -> real, d: Tracked, cands: seq<string>, capacity: nat, now: real)
    requires |Members(cands)| > capacity
    ensures var recency, usage := RecencyPicks(d, cands, capacity, now), UsagePicks(decay, d, cands, capacity, now);
            && Members(recency) <= RecentOf(d, cands, now) && Members(usage) <= Members(cands) - Members(recency)
            && |Members(recency)| == |recency| && |Members(usage)| == |usage|
            && |recency| + |usage| == capacity
            && |recency| == Max(0, Min(|RecentOf(d, cands, now)|, capacity - Reserve(|Members(cands) - RecentOf(d, cands, now)|, capacity)))
  {
    hide Members, Sort, Filter, Take, Recent, FirstSeens, Uses, Before;
    var recent := RecentOf(d, cands, now);
    RecentAmong(d, cands, now);
    var others := |Members(cands) - recent|;
    var recency := RecencyPicks(d, cands, capacity, now);
    TierTakesBest(FirstSeens(d), cands, recent, capacity - Reserve(others, capacity));
    assert Members(cands) * recent == recent;
    var left := Members(cands) - Members(recency);
    TierTakesBest(Uses(decay, d, now), cands, left, capacity - |recency|);
    assert Members(cands) * left == left;
    PartSize(Members(recency), Members(cands));
  }

  lemma {:induction false} RecentAmong(d: Tracked, cands: seq<string>, now: real)
    ensures RecentOf(d, cands, now) <= Members(cands)
    ensures forall k :: k in RecentOf(d, cands, now) <==> k in Members(cands) && Recent(d, k, now)
  {
  }

  /** The choice is a strictly ordered part of the candidates, as many as fit. */
  lemma {:induction false} SelectFits(decay: real -> real, d: Tracked, candidates: seq<string>, capacity: nat, now: real)
    ensures var chosen := Select(decay, d, candidates, capacity, now);
            && Sorted(map[], chosen) && Members(chosen) <= Members(candidates)
            && |chosen| == Min(|Members(candidates)|, capacity)
  {
    hide Members, Sort, RecencyPicks, UsagePicks, Before, RecentOf;
    var cands := Sort(map[], candidates);
    SortIsSorted(map[], candidates);
    SortedCount(map[], cands);
    if |cands| > capacity {
      ChosenMembers(decay, d, candidates, capacity, now);
      TiersFill(decay, d, cands, capacity, now);
      RecentAmong(d, cands, now);
      var both := RecencyPicks(d, cands, capacity, now) + UsagePicks(decay, d, cands, capacity, now);
      SortIsSorted(map[], both);
      SortedCount(map[], Sort(map[], both));
      DisjointSize(Members(RecencyPicks(d, cands, capacity, now)), Members(UsagePicks(decay, d, cands, capacity, now)));
    }
  }

  /** Over capacity, the choice is the two tiers together. */
  lemma {:induction false} ChosenMembers(decay: real -> real, d: Tracked, candidates: seq<string>, capacity: nat, now: real)
    requires |Sort(map[], candidates)| > capacity
    ensures var cands := Sort(map[], candidates);
            (Members(Select(decay, d, candidates, capacity, now))
             == Members(RecencyPicks(d, cands, capacity, now)) + Members(UsagePicks(decay, d, cands, capacity, now)))
  {
    hide Members, Sort, RecencyPicks, UsagePicks;
    var cands := Sort(map[], candidates);
    var recency, usage := RecencyPicks(d, cands, capacity, now), UsagePicks(decay, d, cands, capacity, now);
    SortIsSorted(map[], recency + usage);
    MembersJoin(recency, usage);
  }

  /** The order and the duplicates of the candidates do not matter. */
  lemma {:induction false} SelectIgnoresOrder(decay: real -> real, d: Tracked, a: seq<string>, b: seq<string>, capacity: nat, now: real)
    requires Members(a) == Members(b)
    ensures Select(decay, d, a, capacity, now) == Select(decay, d, b, capacity, now)
  {
    SortIgnoresOrder(map[], a, b);
  }

  /** When a key was first seen; a key that is not tracked reads as never. */
  function FirstSight(d: Tracked, key: string): real {
    if Get(d, key).Some? then Get(d, key).value.firstSeen else 0.0
  }

  /** `x` is worth more than `y`, or as much and first in the alphabet. */
  predicate Ahead(x: string, worthX: real, y: string, worthY: real) {
    worthX > worthY || (worthX == worthY && Less(x, y))
  }

  /** The candidates first seen in the last seven days. */
  function Newcomers(d: Tracked, candidates: set<string>, now: real): set<string> {
    set k | k in candidates && FirstSight(d, k) >= now - 604800.0
  }

  /** `chosen` is the newest newcomers, as many as a reserve of a quarter of the slots leaves room for, and then the most
      used of the rest. */
  ghost predicate Fair(decay: real -> real, d: Tracked, candidates: set<string>, capacity: nat, now: real, chosen: set<string>,
                       newest: set<string>)
  {
    var recent := Newcomers(d, candidates, now);
    var others := |candidates - recent|;
    var reserve := if others == 0 then 0 else Min(others, Max(1, capacity / 4));
    && newest <= recent && newest <= chosen <= candidates && |chosen| == capacity
    && |newest| == Min(|recent|, Max(0, capacity - reserve))
    && (forall x, y :: x in newest && y in recent - newest ==> Ahead(x, FirstSight(d, x), y, FirstSight(d, y)))
    && (forall x, y :: x in chosen - newest && y in candidates - chosen ==>
          Ahead(x, Decayed(decay, d, x, now), y, Decayed(decay, d, y, now)))
  }

  /** Over capacity the choice is fair: a quarter of the slots, at least one, is kept for the most used when there is
      anything but newcomers; the newest newcomers fill the others, and what is left goes by use. Ties go by name. */
  lemma {:induction false} SelectIsFair(decay: real -> real, d: Tracked, candidates: seq<string>, capacity: nat, now: real)
    requires |Members(candidates)| > capacity
    ensures exists newest :: Fair(decay, d, Members(candidates), capacity, now,
                                  Members(Select(decay, d, candidates, capacity, now)), newest)
  {
    hide Members, Sort, Uses, FirstSeens, Score, Select, RecencyPicks, UsagePicks, RecentOf, Fair;
    var cands := Sort(map[], candidates);
    SortIsSorted(map[], candidates);
    SortedCount(map[], cands);
    ChosenMembers(decay, d, candidates, capacity, now);
    TiersAreFair(decay, d, cands, capacity, now);
  }

  lemma {:induction false} TiersAreFair(decay: real -> real, d: Tracked, cands: seq<string>, capacity: nat, now: real)
    requires |Members(cands)| > capacity
    ensures var newest := Members(RecencyPicks(d, cands, capacity, now));
            var used := Members(UsagePicks(decay, d, cands, capacity, now));
            Fair(decay, d, Members(cands), capacity, now, newest + used, newest)
  {
    hide Members, Sort, Uses, FirstSeens, Score, Less, Select, RecencyPicks, UsagePicks, RecentOf;
    var newest := Members(RecencyPicks(d, cands, capacity, now));
    var used := Members(UsagePicks(decay, d, cands, capacity, now));
    TiersFill(decay, d, cands, capacity, now);
    NewcomersAreRecent(d, cands, now);
    RecentAmong(d, cands, now);
    DisjointSize(newest, used);
    RecencyIsBest(d, cands, capacity, now);
    UsageIsBest(decay, d, cands, capacity, now);
  }

  lemma {:induction false} NewcomersAreRecent(d: Tracked, cands: seq<string>, now: real)
    ensures Newcomers(d, Members(cands), now) == RecentOf(d, cands, now)
  {
    RecentAmong(d, cands, now);
    forall k ensures k in Newcomers(d, Members(cands), now) <==> k in RecentOf(d, cands, now) {
      FirstSightScores(d, k);
    }
  }

  lemma {:induction false} FirstSightScores(d: Tracked, key: string)
    ensures Score(FirstSeens(d), key) == FirstSight(d, key)
  {
    hide Keys, Get;
    Absent(d, key);
  }

  lemma {:induction false} UseScores(decay: real -> real, d: Tracked, key: string, now: real)
    ensures Score(Uses(decay, d, now), key) == Decayed(decay, d, key, now)
  {
    hide Keys, Get;
    Absent(d, key);
  }

  lemma {:induction false} RecencyIsBest(d: Tracked, cands: seq<string>, capacity: nat, now: real)
    ensures var recency := Members(RecencyPicks(d, cands, capacity, now));
            forall x, y :: x in recency && y in RecentOf(d, cands, now) - recency ==> Ahead(x, FirstSight(d, x), y, FirstSight(d, y))
  {
    hide Members, Sort, Filter, Take, Recent, FirstSeens, Score, Less, Reserve, FirstSight;
    var recent := RecentOf(d, cands, now);
    RecentAmong(d, cands, now);
    TierTakesBest(FirstSeens(d), cands, recent, capacity - Reserve(|Members(cands) - recent|, capacity));
    assert Members(cands) * recent == recent;
    var recency := Members(RecencyPicks(d, cands, capacity, now));
    forall x, y | x in recency && y in recent - recency ensures Ahead(x, FirstSight(d, x), y, FirstSight(d, y)) {
      assert Before(FirstSeens(d), x, y);
      FirstSightScores(d, x);
      FirstSightScores(d, y);
    }
  }

  lemma {:induction false} UsageIsBest(decay: real -> real, d: Tracked, cands: seq<string>, capacity: nat, now: real)
    ensures var recency := Members(RecencyPicks(d, cands, capacity, now));
            var usage := Members(UsagePicks(decay, d, cands, capacity, now));
            forall x, y :: x in usage && y in Members(cands) - recency - usage ==>
              Ahead(x, Decayed(decay, d, x, now), y, Decayed(decay, d, y, now))
  {
    hide Members, Sort, Filter, Take, Uses, Score, Less, RecencyPicks, Decayed;
    var recency := RecencyPicks(d, cands, capacity, now);
    var left := Members(cands) - Members(recency);
    TierTakesBest(Uses(decay, d, now), cands, left, capacity - |recency|);
    assert Members(cands) * left == left;
    var usage := Members(UsagePicks(decay, d, cands, capacity, now));
    forall x, y | x in usage && y in Members(cands) - Members(recency) - usage
      ensures Ahead(x, Decayed(decay, d, x, now), y, Decayed(decay, d, y, now))
    {
      assert y in left - usage;
      assert Before(Uses(decay, d, now), x, y);
      UseScores(decay, d, x, now);
      UseScores(decay, d, y, now);
    }
  }

  // ---------------------------------------------------------------- eviction

  lemma {:induction false} RemoveOne(d: Tracked, i: nat)
    requires Distinct(d) && i < |d|
    ensures Distinct(d[..i] + d[i + 1..]) && Keys(d[..i] + d[i + 1..]) == Keys(d) - {d[i].key}
    ensures forall k :: k != d[i].key ==> Get(d[..i] + d[i + 1..], k) == Get(d, k)
    decreases |d|
  {
    var out := d[..i] + d[i + 1..];
    ConsKeys(d);
    if i == 0 {
      assert out == d[1..];
    } else {
      RemoveOne(d[1..], i - 1);
      var rest := d[1..][..i - 1] + d[1..][i..];
      assert out == [d[0]] + rest;
      ConsFacts(d[0], rest);
    }
  }

  lemma {:induction false} ConsFacts(e: Entry<Signals>, rest: Tracked)
    requires Distinct(rest) && e.key !in Keys(rest)
    ensures Distinct([e] + rest) && Keys([e] + rest) == {e.key} + Keys(rest)
    ensures forall k :: Get([e] + rest, k) == if k == e.key then Some(e.value) else Get(rest, k)
  {
    assert ([e] + rest)[1..] == rest;
    OneKey(e);
    ConsKeys([e] + rest);
    DistinctJoin([e], rest);
  }

  /** Eviction brings the table down to its cap, keeps the surviving entries as they are, and drops none that was used
      after one it keeps. */
  lemma {:induction false} EvictKeepsTheFreshest(d: Tracked)
    requires Distinct(d)
    ensures |Evict(d)| == Min(|d|, 512) && Distinct(Evict(d)) && Keys(Evict(d)) <= Keys(d)
    ensures forall k :: Get(Evict(d), k) == if k in Keys(Evict(d)) then Get(d, k) else None
    ensures forall k, j :: k in Keys(d) - Keys(Evict(d)) && j in Keys(Evict(d)) ==>
              Get(d, k).Some? && Get(d, j).Some? && Get(d, k).value.lastUse <= Get(d, j).value.lastUse
    decreases |d|
  {
    hide Keys, Get, Distinct, Stalest;
    AllGets(d);
    if |d| > MAX_TRACKED_KEYS {
      var i := Stalest(d);
      var rest := d[..i] + d[i + 1..];
      RemoveOne(d, i);
      EvictKeepsTheFreshest(rest);
      forall j | j in Keys(d) ensures d[i].value.lastUse <= Get(d, j).value.lastUse {
        LowBound(d, j, d[i].value.lastUse);
      }
      assert Get(d, d[i].key) == Some(d[i].value) by { GetAt(d, i); }
    } else {
      forall k ensures Get(Evict(d), k) == if k in Keys(Evict(d)) then Get(d, k) else None {
        Absent(d, k);
      }
    }
  }

  lemma {:induction false} GetAt(d: Tracked, i: nat)
    requires Distinct(d) && i < |d|
    ensures Get(d, d[i].key) == Some(d[i].value)
  {
    if i > 0 {
      assert d[0].key != d[i].key;
      ConsKeys(d);
      GetAt(d[1..], i - 1);
    }
  }

  lemma {:induction false} AllGets(d: Tracked)
    ensures forall k :: Get(d, k).Some? <==> k in Keys(d)
  {
    forall k ensures Get(d, k).Some? <==> k in Keys(d) {
      Absent(d, k);
    }
  }

  lemma {:induction false} LowBound(d: Tracked, k: string, bound: real)
    requires forall j :: 0 <= j < |d| ==> bound <= d[j].value.lastUse
    ensures Get(d, k).Some? ==> bound <= Get(d, k).value.lastUse
  {
    if d != [] {
      LowBound(d[1..], k, bound);
    }
  }
}
