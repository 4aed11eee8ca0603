/** Laws of the live mirror. */
module LivePoolLaws {
  import opened Prelude
  import opened OrderedDicts
  import opened Sorting
  import PoolRanking
  import PoolRankingLaws
  import opened LivePool

  // ---------------------------------------------------------------- the first tray of a key wins

  function FirstWith(trays: seq<Tray>, k: string): Option<Tray> {
    if trays == [] then None else if TrayKey(trays[0]) == Some(k) then Some(trays[0]) else FirstWith(trays[1..], k)
  }

  lemma {:induction false} OfferOne(d: Dict<Tray>, t: Tray)
    requires Distinct(d)
    ensures Distinct(Offer(d, t))
    ensures forall k :: Get(Offer(d, t), k) == if Get(d, k).Some? then Get(d, k) else if TrayKey(t) == Some(k) then Some(t) else None
  {
    hide Get, Distinct, Keys, TrayKey;
    var key := TrayKey(t);
    if key.Some? && Get(d, key.value).None? {
      Absent(d, key.value);
      AddLast(d, Entry(key.value, t));
    }
  }

  /** After deduplication each key holds the first tray that has it. */
  lemma {:induction false} FirstWins(d: Dict<Tray>, trays: seq<Tray>)
    requires Distinct(d)
    ensures Distinct(OfferAll(d, trays))
    ensures forall k :: Get(OfferAll(d, trays), k) == if Get(d, k).Some? then Get(d, k) else FirstWith(trays, k)
    decreases |trays|
  {
    hide Get, Distinct, Offer, TrayKey;
    if trays != [] {
      OfferOne(d, trays[0]);
      FirstWins(Offer(d, trays[0]), trays[1..]);
    }
  }

  lemma {:induction false} FirstHasKey(trays: seq<Tray>, k: string)
    ensures FirstWith(trays, k).Some? ==> FirstWith(trays, k).value in trays && TrayKey(FirstWith(trays, k).value) == Some(k)
    ensures FirstWith(trays, k).None? ==> forall t :: t in trays ==> TrayKey(t) != Some(k)
  {
    hide TrayKey;
    if trays != [] {
      FirstHasKey(trays[1..], k);
      assert forall t :: t in trays ==> t == trays[0] || t in trays[1..];
    }
  }

  /** The table: one entry per filament loaded anywhere, holding the first tray with it in printer order. */
  lemma {:induction false} DedupeIsExact(statuses: seq<Status>)
    ensures var d, trays := Dedupe(statuses), AllTrays(SortStatuses(statuses));
            && Distinct(d)
            && (forall k :: Get(d, k) == FirstWith(trays, k))
            && (forall t :: t in trays && TrayKey(t).Some? ==> Get(d, TrayKey(t).value).Some?)
            && (forall k :: Get(d, k).Some? ==> Get(d, k).value in trays && TrayKey(Get(d, k).value) == Some(k))
  {
    hide Distinct, Get, TrayKey, AllTrays, SortStatuses, FirstWith;
    var trays := AllTrays(SortStatuses(statuses));
    EmptyTable();
    FirstWins([], trays);
    forall k ensures FirstWith(trays, k).Some? ==> FirstWith(trays, k).value in trays && TrayKey(FirstWith(trays, k).value) == Some(k) {
      FirstHasKey(trays, k);
    }
    forall t | t in trays && TrayKey(t).Some? ensures FirstWith(trays, TrayKey(t).value).Some? {
      FirstHasKey(trays, TrayKey(t).value);
    }
  }

  lemma {:induction false} EmptyTable()
    ensures var d: Dict<Tray> := []; Distinct(d) && forall k :: Get(d, k) == None
  {
  }

  // ---------------------------------------------------------------- the ranked pool shows the choice

  ghost predicate Keyed(d: Dict<Tray>) {
    forall k :: Get(d, k).Some? ==> TrayKey(Get(d, k).value) == Some(k)
  }

  lemma {:induction false} SlotIsIgnored(t: Tray, slot: int)
    ensures TrayKey(t.(slot := slot)) == TrayKey(t) && RowOf(t.(slot := slot)) == RowOf(t)
  {
  }

  lemma {:induction false} PickedHolds(d: Dict<Tray>, chosen: seq<string>, i: nat, k: string)
    requires Keyed(d) && forall j :: j in chosen ==> Get(d, j).Some?
    ensures k in chosen ==> FirstWith(Picked(d, chosen, i), k).Some? && RowOf(FirstWith(Picked(d, chosen, i), k).value) == RowOf(Get(d, k).value)
    ensures k !in chosen ==> FirstWith(Picked(d, chosen, i), k) == None
    decreases |chosen|
  {
    hide Get, TrayKey, RowOf;
    if chosen != [] {
      var c := chosen[0];
      assert c in chosen;
      var t := Get(d, c).value;
      SlotIsIgnored(t, i % 4);
      var rest := Picked(d, chosen[1..], i + 1);
      assert Picked(d, chosen, i) == [t.(slot := i % 4)] + rest;
      assert ([t.(slot := i % 4)] + rest)[1..] == rest;
      PickedHolds(d, chosen[1..], i + 1, k);
      assert k in chosen <==> k == c || k in chosen[1..];
    }
  }

  lemma {:induction false} SameRows(d: Dict<Tray>, e: Dict<Tray>, keys: seq<string>)
    requires forall k :: k in keys ==> Get(d, k).Some? && Get(e, k).Some? && RowOf(Get(d, k).value) == RowOf(Get(e, k).value)
    ensures Rows(d, keys) == Rows(e, keys) && |Rows(d, keys)| == |keys|
  {
    hide Get, RowOf;
    if keys != [] {
      assert keys[0] in keys;
      SameRows(d, e, keys[1..]);
    }
  }

  lemma {:induction false} OneStatus(trays: seq<Tray>)
    ensures AllTrays(SortStatuses([Status("", "", [trays])])) == trays
  {
    var s := Status("", "", [trays]);
    var one := [s];
    assert one[1..] == [];
    assert SortStatuses(one) == [s];
    var units := [trays];
    assert units[1..] == [] && Flatten(units) == trays + [];
    assert AllTrays(one) == Flatten(units) + AllTrays([]);
  }

  /** Running the plain builder over the chosen trays gives exactly the rows of the chosen keys, in their order. */
  lemma {:induction false} RebuildShowsChosen(d: Dict<Tray>, chosen: seq<string>, units: int, trays: int)
    requires Keyed(d) && Sorted(map[], chosen) && |chosen| <= Capacity(units, trays)
    requires forall k :: k in chosen ==> Get(d, k).Some?
    ensures Pool([Status("", "", [Picked(d, chosen, 0)])], units, trays) == Rows(d, chosen)
  {
    hide Get, Distinct, RowOf, TrayKey, Sorted, Sort, KeyList, Keys, Picked, Capacity, Keyed, FirstWith, AllTrays, SortStatuses, OfferAll;
    var picked := Picked(d, chosen, 0);
    OneStatus(picked);
    EmptyTable();
    var e := OfferAll([], picked);
    FirstWins([], picked);
    forall k ensures Get(e, k).Some? <==> k in chosen {
      PickedHolds(d, chosen, 0, k);
    }
    forall k | k in chosen ensures Get(e, k).Some? && RowOf(Get(e, k).value) == RowOf(Get(d, k).value) {
      PickedHolds(d, chosen, 0, k);
    }
    KeyListKeys(e);
    forall k ensures k in Keys(e) <==> k in Members(chosen) {
      Absent(e, k);
    }
    assert Keys(e) == Members(chosen);
    SortIsSorted(map[], KeyList(e));
    SortedIsUnique(map[], Sort(map[], KeyList(e)), chosen);
    SameRows(e, d, chosen);
  }

  /** What is chosen is sorted, loaded, and fits. */
  lemma {:induction false} ChosenFits(d: Dict<Tray>, capacity: nat, ranking: Ranking, now: real)
    requires Distinct(d)
    ensures var chosen := Chosen(d, capacity, ranking, now);
            && Sorted(map[], chosen) && |chosen| == Min(|d|, capacity)
            && forall k :: k in chosen ==> Get(d, k).Some?
  {
    hide Get, Distinct, Sorted, Sort, KeyList, Keys, Members, PoolRanking.Select;
    KeyListKeys(d);
    KeyCount(d);
    var keys := Sort(map[], KeyList(d));
    SortIsSorted(map[], KeyList(d));
    SortedCount(map[], keys);
    var chosen := Chosen(d, capacity, ranking, now);
    if ranking.Ranked? && |d| > capacity {
      PoolRankingLaws.SelectFits(ranking.decay, ranking.keys, KeyList(d), capacity, now);
    } else {
      FirstIsSorted(keys, capacity);
    }
    assert Members(chosen) <= Keys(d);
    forall k | k in chosen ensures Get(d, k).Some? {
      InMembers(chosen, k);
      Absent(d, k);
    }
  }

  lemma {:induction false} InMembers(s: seq<string>, k: string)
    ensures k in s <==> k in Members(s)
  {
  }

  lemma {:induction false} FirstIsSorted(s: seq<string>, n: nat)
    requires Sorted(map[], s)
    ensures Sorted(map[], First(s, n)) && Members(First(s, n)) <= Members(s)
  {
    if n < |s| {
      SortedPart(map[], s, n);
    }
  }

  /** The ranked pool is the rows of the chosen filaments. */
  lemma {:induction false} RankedPoolShowsChosen(statuses: seq<Status>, units: int, trays: int, ranking: Ranking, now: real)
    ensures var d := Dedupe(statuses);
            var chosen := Chosen(d, Capacity(units, trays), ranking, now);
            && RankedPool(statuses, units, trays, ranking, now) == Rows(d, chosen)
            && |RankedPool(statuses, units, trays, ranking, now)| == |chosen| == Min(|d|, Capacity(units, trays))
  {
    hide Distinct, Sorted, Chosen, Dedupe, Pool, RowOf, Get, TrayKey, Capacity;
    DedupeIsExact(statuses);
    var d := Dedupe(statuses);
    ChosenFits(d, Capacity(units, trays), ranking, now);
    var chosen := Chosen(d, Capacity(units, trays), ranking, now);
    RebuildShowsChosen(d, chosen, units, trays);
    SameRows(d, d, chosen);
  }

  /** Without a ranking, or when the filaments fit, the ranked pool is the plain one. */
  lemma {:induction false} RankedEqualsUnranked(statuses: seq<Status>, units: int, trays: int, ranking: Ranking, now: real)
    requires ranking.Unranked? || |Dedupe(statuses)| <= Capacity(units, trays)
    ensures RankedPool(statuses, units, trays, ranking, now) == Pool(statuses, units, trays)
  {
    hide Dedupe, RankedPool, Capacity, Rows, Sort, PoolRanking.Select;
    RankedPoolShowsChosen(statuses, units, trays, ranking, now);
  }

  // ---------------------------------------------------------------- the order of the statuses does not matter

  ghost predicate DistinctIds(s: seq<Status>) {
    forall i, j :: 0 <= i < j < |s| ==> s[i].printerId != s[j].printerId
  }

  ghost predicate ById(s: seq<Status>) {
    forall i, j :: 0 <= i < j < |s| ==> Less(s[i].printerId, s[j].printerId)
  }

  lemma {:induction false} InsertKeepsOrder(s: Status, sorted: seq<Status>)
    requires ById(sorted) && forall t :: t in sorted ==> t.printerId != s.printerId
    ensures ById(InsertStatus(s, sorted)) && multiset(InsertStatus(s, sorted)) == multiset(sorted) + multiset{s}
  {
    hide Less;
    if sorted != [] {
      assert sorted == [sorted[0]] + sorted[1..];
      assert sorted[0] in sorted;
      LessIsTotal(s.printerId, sorted[0].printerId);
      if Less(sorted[0].printerId, s.printerId) {
        var rest := InsertStatus(s, sorted[1..]);
        InsertKeepsOrder(s, sorted[1..]);
        var out := [sorted[0]] + rest;
        forall j | 0 <= j < |rest| ensures Less(sorted[0].printerId, rest[j].printerId) {
          assert rest[j] in multiset(rest);
          assert rest[j] == s || rest[j] in sorted[1..];
        }
        ConsById(sorted[0], rest);
      } else {
        forall j | 0 <= j < |sorted| ensures Less(s.printerId, sorted[j].printerId) {
          if j > 0 {
            LessIsTransitive(s.printerId, sorted[0].printerId, sorted[j].printerId);
          }
        }
        ConsById(s, sorted);
      }
    }
  }

  lemma {:induction false} ConsById(s: Status, rest: seq<Status>)
    requires ById(rest) && forall j :: 0 <= j < |rest| ==> Less(s.printerId, rest[j].printerId)
    ensures ById([s] + rest) && multiset([s] + rest) == multiset{s} + multiset(rest)
  {
    hide Less;
  }

  lemma {:induction false} SortedStatuses(s: seq<Status>)
    requires DistinctIds(s)
    ensures ById(SortStatuses(s)) && multiset(SortStatuses(s)) == multiset(s)
  {
    hide ById, Less;
    if s == [] {
      NoStatuses();
    } else {
      HeadTail(s);
      DistinctTail(s);
      SortedStatuses(s[1..]);
      var rest := SortStatuses(s[1..]);
      forall t | t in rest ensures t.printerId != s[0].printerId {
        assert t in multiset(rest);
        assert t in s[1..];
      }
      InsertKeepsOrder(s[0], rest);
    }
  }

  lemma {:induction false} NoStatuses()
    ensures ById([])
  {
  }

  lemma {:induction false} DistinctTail(s: seq<Status>)
    requires DistinctIds(s) && s != []
    ensures DistinctIds(s[1..]) && forall t :: t in s[1..] ==> t.printerId != s[0].printerId
  {
  }

  /** Lists ordered by id with the same elements are equal. */
  lemma {:induction false} ByIdIsUnique(a: seq<Status>, b: seq<Status>)
    requires ById(a) && ById(b) && multiset(a) == multiset(b)
    ensures a == b
  {
    hide Less;
    assert |multiset(a)| == |multiset(b)|;
    if a != [] {
      assert a[0] in multiset(a) && b[0] in multiset(b);
      var j :| 0 <= j < |b| && b[j] == a[0];
      var i :| 0 <= i < |a| && a[i] == b[0];
      Irreflexive(a, b, i, j);
      HeadTail(a);
      HeadTail(b);
      assert multiset(a[1..]) == multiset(a) - multiset{a[0]};
      assert multiset(b[1..]) == multiset(b) - multiset{b[0]};
      ByIdIsUnique(a[1..], b[1..]);
      assert a == [a[0]] + a[1..] && b == [b[0]] + b[1..];
    }
  }

  lemma {:induction false} Irreflexive(a: seq<Status>, b: seq<Status>, i: nat, j: nat)
    requires ById(a) && ById(b) && i < |a| && j < |b| && b[j] == a[0] && a[i] == b[0]
    ensures a[0] == b[0]
  {
    hide Less;
    if i > 0 && j > 0 {
      LessIsTransitive(a[0].printerId, b[0].printerId, a[0].printerId);
      LessIsStrict(a[0].printerId);
    }
  }

  lemma {:induction false} SortStatusesIgnoresOrder(a: seq<Status>, b: seq<Status>)
    requires multiset(a) == multiset(b) && DistinctIds(a)
    ensures SortStatuses(a) == SortStatuses(b)
  {
    PermutedIds(a, b);
    SortedStatuses(a);
    SortedStatuses(b);
    ByIdIsUnique(SortStatuses(a), SortStatuses(b));
  }

  /** Having distinct ids is a property of the elements. */
  lemma {:induction false} PermutedIds(a: seq<Status>, b: seq<Status>)
    requires multiset(a) == multiset(b) && DistinctIds(a)
    ensures DistinctIds(b)
    decreases |b|
  {
    hide DistinctIds;
    if b == [] {
      NoIds();
    } else {
      var i, rest := RemoveHead(a, b);
      RemovedIds(a, i);
      PermutedIds(rest, b[1..]);
      forall t | t in b[1..] ensures t.printerId != b[0].printerId {
        assert t in multiset(b[1..]);
        assert t in rest;
      }
      ConsIds(b);
    }
  }

  lemma {:induction false} NoIds()
    ensures DistinctIds([])
  {
  }

  lemma {:induction false} ConsIds(b: seq<Status>)
    requires b != [] && DistinctIds(b[1..]) && forall t :: t in b[1..] ==> t.printerId != b[0].printerId
    ensures DistinctIds(b)
  {
    assert b == [b[0]] + b[1..];
    forall i, j | 0 <= i < j < |b| ensures b[i].printerId != b[j].printerId {
      assert b[j] == b[1..][j - 1];
      if i > 0 {
        assert b[i] == b[1..][i - 1];
      }
    }
  }

  /** Taking the head of one list out of a permutation of it. */
  lemma {:induction false} RemoveHead(a: seq<Status>, b: seq<Status>) returns (i: nat, rest: seq<Status>)
    requires multiset(a) == multiset(b) && b != []
    ensures i < |a| && a[i] == b[0] && rest == a[..i] + a[i + 1..] && multiset(rest) == multiset(b[1..])
  {
    assert b[0] in multiset(b);
    assert b[0] in a;
    i :| 0 <= i < |a| && a[i] == b[0];
    rest := a[..i] + a[i + 1..];
    HeadTail(b);
    Removed(a, i);
    assert multiset(rest) + multiset{b[0]} == multiset(b[1..]) + multiset{b[0]};
    assert multiset(rest) == (multiset(rest) + multiset{b[0]}) - multiset{b[0]};
    assert multiset(b[1..]) == (multiset(b[1..]) + multiset{b[0]}) - multiset{b[0]};
  }

  lemma {:induction false} Removed(a: seq<Status>, i: nat)
    requires i < |a|
    ensures multiset(a) == multiset(a[..i] + a[i + 1..]) + multiset{a[i]}
  {
    assert a == a[..i] + ([a[i]] + a[i + 1..]);
  }

  lemma {:induction false} RemovedIds(a: seq<Status>, i: nat)
    requires DistinctIds(a) && i < |a|
    ensures DistinctIds(a[..i] + a[i + 1..]) && forall t :: t in a[..i] + a[i + 1..] ==> t.printerId != a[i].printerId
  {
    var rest := a[..i] + a[i + 1..];
    forall j | 0 <= j < |rest| ensures rest[j].printerId != a[i].printerId {
      assert rest[j] == if j < i then a[j] else a[j + 1];
    }
    forall j, k | 0 <= j < k < |rest| ensures rest[j].printerId != rest[k].printerId {
      assert rest[j] == if j < i then a[j] else a[j + 1];
      assert rest[k] == if k < i then a[k] else a[k + 1];
    }
  }

  /** Permuting statuses with distinct printer ids changes no pool. */
  lemma {:induction false} PoolIgnoresOrder(a: seq<Status>, b: seq<Status>, units: int, trays: int, ranking: Ranking, now: real)
    requires multiset(a) == multiset(b) && DistinctIds(a)
    ensures Pool(a, units, trays) == Pool(b, units, trays)
    ensures RankedPool(a, units, trays, ranking, now) == RankedPool(b, units, trays, ranking, now)
  {
    hide SortStatuses, Chosen, Picked, Sort, Rows, OfferAll;
    SortStatusesIgnoresOrder(a, b);
  }

  // ---------------------------------------------------------------- the mirror settles

  lemma {:induction false} LiveFits(c: Config, statuses: seq<Status>, ranking: Ranking, now: real)
    ensures |Live(c, statuses, ranking, now)| <= Capacity(c.units, c.trays)
  {
    hide RankedPool, Scoped, Dedupe, Chosen, Capacity, Rows;
    RankedPoolShowsChosen(Scoped(statuses, c.model), c.units, c.trays, ranking, now);
  }

  /** A refreshed configuration displays the live pool, and is not stale. */
  lemma {:induction false} RefreshShowsLive(c: Config, statuses: seq<Status>, ranking: Ranking, now: real)
    ensures var r := Refresh(c, statuses, ranking, now);
            && Displayed(r) == Identities(Live(c, statuses, ranking, now))
            && !Stale(r, statuses, ranking, now)
            && r.(pool := c.pool) == c
  {
    hide RankedPool, Scoped, Capacity, Identities;
    LiveFits(c, statuses, ranking, now);
  }

  /** The step answers exactly when some display is out of date; what it hands out displays every configuration's live
      pool and changes nothing else; asking again with the same inputs answers nothing. */
  lemma {:induction false} MirrorSettles(configs: seq<Config>, statuses: seq<Status>, ranking: Ranking, now: real)
    ensures Mirror(configs, statuses, ranking, now).None? <==>
              forall c :: c in configs ==> Displayed(c) == Identities(Live(c, statuses, ranking, now))
    ensures Mirror(configs, statuses, ranking, now).Some? ==>
              var out := Mirror(configs, statuses, ranking, now).value;
              && |out| == |configs|
              && (forall i :: 0 <= i < |out| ==> Displayed(out[i]) == Identities(Live(configs[i], statuses, ranking, now)))
              && (forall i :: 0 <= i < |out| ==> out[i].(pool := configs[i].pool) == configs[i])
              && Mirror(out, statuses, ranking, now) == None
  {
    hide Refresh, Live, Displayed, Identities;
    if Mirror(configs, statuses, ranking, now).Some? {
      var out := Mirror(configs, statuses, ranking, now).value;
      forall i | 0 <= i < |out|
        ensures Displayed(out[i]) == Identities(Live(configs[i], statuses, ranking, now))
        ensures out[i].(pool := configs[i].pool) == configs[i] && !Stale(out[i], statuses, ranking, now) {
        RefreshShowsLive(configs[i], statuses, ranking, now);
      }
      forall c | c in out ensures !Stale(c, statuses, ranking, now) {
        var i :| 0 <= i < |out| && out[i] == c;
      }
    }
  }

  /** The single-printer step settles as well. */
  lemma {:induction false} MirrorOneSettles(config: Config, statuses: seq<Status>)
    ensures MirrorOne(Some(config), statuses).None? <==> Displayed(config) == Identities(Pool(statuses, config.units, config.trays))
    ensures MirrorOne(Some(config), statuses).Some? ==> MirrorOne(MirrorOne(Some(config), statuses), statuses) == None
  {
    hide Pool, RankedPool, Capacity, Identities, Dedupe, Chosen, Rows;
    RankedEqualsUnranked(statuses, config.units, config.trays, Unranked, 0.0);
    RankedPoolShowsChosen(statuses, config.units, config.trays, Unranked, 0.0);
  }
}
