/** The live mirror (vprinter/live_pool.py): the filaments loaded across the printers, without duplicates, as the rows
    a virtual printer shows; and the step that hands out new configurations when what is shown changes. */
module LivePool {
  import opened Prelude
  import opened OrderedDicts
  import opened Sorting
  import PoolRanking

  datatype Tray = Tray(
    material: Option<string>, filamentId: Option<string>, colorHex: Option<string>, product: Option<string>,
    colors: Option<seq<string>>, nozzleMin: Option<int>, nozzleMax: Option<int>, remain: Option<int>, slot: int)

  datatype Status = Status(printerId: string, model: string, units: seq<seq<Tray>>)

  datatype Row = Row(
    trayType: string, infoIdx: string, subBrands: string, color: string, cols: seq<string>,
    tempMin: int, tempMax: int, remain: int)

  /** What the display shows of a row; remaining filament and temperatures are left out. */
  datatype Identity = Identity(trayType: string, infoIdx: string, subBrands: string, color: string, cols: seq<string>)

  datatype Config = Config(serial: string, model: string, units: int, trays: int, pool: seq<Row>)

  /** The ranking signals, when there is a ranking. */
  datatype Ranking = Unranked | Ranked(keys: PoolRanking.Tracked, decay: real -> real)

  datatype Filament = Filament(infoIdx: string, tempMin: int, tempMax: int)

  const PLA := Filament("GFL99", 190, 240)
  const CATALOG: map<string, Filament> := map[
    "PLA" := PLA, "PETG" := Filament("GFG99", 230, 260), "ABS" := Filament("GFB99", 240, 270),
    "TPU" := Filament("GFU99", 200, 240), "PLA-CF" := Filament("GFL99", 200, 250), "PA" := Filament("GFN99", 250, 290)]

  // ---------------------------------------------------------------- text

  predicate Blank(c: char) {
    c == ' ' || '\t' <= c <= '\r'
  }

  function StripLeft(s: string): string {
    if s != [] && Blank(s[0]) then StripLeft(s[1..]) else s
  }

  function StripRight(s: string): string {
    if s != [] && Blank(s[|s| - 1]) then StripRight(s[..|s| - 1]) else s
  }

  function Strip(s: string): string {
    StripRight(StripLeft(s))
  }

  function UpperChar(c: char): char {
    if 'a' <= c <= 'z' then c - 'a' + 'A' else c
  }

  function Upper(s: string): string {
    seq(|s|, i requires 0 <= i < |s| => UpperChar(s[i]))
  }

  function StripHashes(s: string): string {
    if s != [] && s[0] == '#' then StripHashes(s[1..]) else s
  }

  predicate Hex(s: string) {
    forall c :: c in s ==> '0' <= c <= '9' || 'A' <= c <= 'F'
  }

  function Clean(text: Option<string>): string {
    if text.Some? then Strip(text.value) else ""
  }

  function Material(text: Option<string>): string {
    var m := Upper(Clean(text));
    if m == "" then "PLA" else m
  }

  function Color(text: Option<string>): string {
    var s := Upper(StripHashes(Clean(text)));
    if |s| == 6 && Hex(s) then s + "FF" else if |s| == 8 && Hex(s) then s else "FFFFFFFF"
  }

  // ---------------------------------------------------------------- keys and rows

  function KeyText(t: Tray): string {
    Material(t.material) + "|" + Clean(t.filamentId) + "|" + Color(t.colorHex)
  }

  /** `tray_key`: none for an empty slot. */
  function TrayKey(t: Tray): Option<string> {
    if Clean(t.material) == "" then None else Some(KeyText(t))
  }

  function RowOf(t: Tray): Row {
    var material := Material(t.material);
    var color := Color(t.colorHex);
    var catalog := if material in CATALOG then CATALOG[material] else PLA;
    Row(
      material,
      if Clean(t.filamentId) != "" then Clean(t.filamentId) else catalog.infoIdx,
      Clean(t.product),
      color,
      if t.colors.Some? && t.colors.value != [] then Colors(t.colors.value) else [color],
      if t.nozzleMin.Some? then t.nozzleMin.value else catalog.tempMin,
      if t.nozzleMax.Some? then t.nozzleMax.value else catalog.tempMax,
      if t.remain.Some? then Max(0, Min(100, t.remain.value)) else -1)
  }

  function Colors(texts: seq<string>): seq<string> {
    if texts == [] then [] else [Color(Some(texts[0]))] + Colors(texts[1..])
  }

  // ---------------------------------------------------------------- deduplication

  /** Stable order by printer id. */
  function InsertStatus(s: Status, sorted: seq<Status>): seq<Status> {
    if sorted != [] && Less(sorted[0].printerId, s.printerId) then [sorted[0]] + InsertStatus(s, sorted[1..])
    else [s] + sorted
  }

  function SortStatuses(statuses: seq<Status>): seq<Status> {
    if statuses == [] then [] else InsertStatus(statuses[0], SortStatuses(statuses[1..]))
  }

  function Flatten(units: seq<seq<Tray>>): seq<Tray> {
    if units == [] then [] else units[0] + Flatten(units[1..])
  }

  function AllTrays(statuses: seq<Status>): seq<Tray> {
    if statuses == [] then [] else Flatten(statuses[0].units) + AllTrays(statuses[1..])
  }

  /** `setdefault`: the first tray of a key wins. */
  function Offer(d: Dict<Tray>, t: Tray): Dict<Tray> {
    var key := TrayKey(t);
    if key.None? || Get(d, key.value).Some? then d else d + [Entry(key.value, t)]
  }

  function OfferAll(d: Dict<Tray>, trays: seq<Tray>): Dict<Tray>
    decreases |trays|
  {
    if trays == [] then d else OfferAll(Offer(d, trays[0]), trays[1..])
  }

  function Dedupe(statuses: seq<Status>): Dict<Tray> {
    OfferAll([], AllTrays(SortStatuses(statuses)))
  }

  function KeyList(d: Dict<Tray>): seq<string> {
    if d == [] then [] else [d[0].key] + KeyList(d[1..])
  }

  function Rows(d: Dict<Tray>, keys: seq<string>): seq<Row> {
    if keys == [] then []
    else (if Get(d, keys[0]).Some? then [RowOf(Get(d, keys[0]).value)] else []) + Rows(d, keys[1..])
  }

  function Capacity(units: int, trays: int): nat {
    Max(1, units * trays)
  }

  function First<T>(s: seq<T>, n: nat): seq<T> {
    if n < |s| then s[..n] else s
  }

  /** The pool: the rows of the deduplicated filaments in key order, as many as fit. */
  function Pool(statuses: seq<Status>, units: int, trays: int): seq<Row> {
    var d := Dedupe(statuses);
    Rows(d, First(Sort(map[], KeyList(d)), Capacity(units, trays)))
  }

  // ---------------------------------------------------------------- the ranked pool

  function Chosen(d: Dict<Tray>, capacity: nat, ranking: Ranking, now: real): seq<string> {
    if ranking.Ranked? && |d| > capacity then PoolRanking.Select(ranking.decay, ranking.keys, KeyList(d), capacity, now)
    else First(Sort(map[], KeyList(d)), capacity)
  }

  /** The chosen trays, renumbered. */
  function Picked(d: Dict<Tray>, chosen: seq<string>, i: nat): seq<Tray> {
    if chosen == [] then []
    else (if Get(d, chosen[0]).Some? then [Get(d, chosen[0]).value.(slot := i % 4)] else []) + Picked(d, chosen[1..], i + 1)
  }

  /** The ranked pool is built by running the plain builder over one made-up printer holding the chosen trays. */
  function RankedPool(statuses: seq<Status>, units: int, trays: int, ranking: Ranking, now: real): seq<Row> {
    var d := Dedupe(statuses);
    Pool([Status("", "", [Picked(d, Chosen(d, Capacity(units, trays), ranking, now), 0)])], units, trays)
  }

  // ---------------------------------------------------------------- the mirror step

  function Normal(s: string): string {
    LowerCase(Strip(s))
  }

  function OfModel(statuses: seq<Status>, want: string): seq<Status> {
    if statuses == [] then []
    else (if Normal(statuses[0].model) == want then [statuses[0]] else []) + OfModel(statuses[1..], want)
  }

  /** The printers of the model; the whole hub when there are none. */
  function Scoped(statuses: seq<Status>, model: string): seq<Status> {
    var want := Normal(model);
    if want == "" || OfModel(statuses, want) == [] then statuses else OfModel(statuses, want)
  }

  function IdentityOf(r: Row): Identity {
    Identity(r.trayType, r.infoIdx, r.subBrands, r.color, r.cols)
  }

  function Identities(pool: seq<Row>): seq<Identity> {
    seq(|pool|, i requires 0 <= i < |pool| => IdentityOf(pool[i]))
  }

  function Live(c: Config, statuses: seq<Status>, ranking: Ranking, now: real): seq<Row> {
    RankedPool(Scoped(statuses, c.model), c.units, c.trays, ranking, now)
  }

  /** The part of a configuration's pool that is displayed. */
  function Displayed(c: Config): seq<Identity> {
    Identities(First(c.pool, Capacity(c.units, c.trays)))
  }

  predicate Stale(c: Config, statuses: seq<Status>, ranking: Ranking, now: real) {
    Identities(Live(c, statuses, ranking, now)) != Displayed(c)
  }

  function Refresh(c: Config, statuses: seq<Status>, ranking: Ranking, now: real): Config {
    if Stale(c, statuses, ranking, now) then c.(pool := Live(c, statuses, ranking, now)) else c
  }

  function Mirror(configs: seq<Config>, statuses: seq<Status>, ranking: Ranking, now: real): Option<seq<Config>> {
    if exists c :: c in configs && Stale(c, statuses, ranking, now)
    then Some(seq(|configs|, i requires 0 <= i < |configs| => Refresh(configs[i], statuses, ranking, now)))
    else None
  }

  /** The single-printer step: the whole hub, unranked. */
  function MirrorOne(config: Option<Config>, statuses: seq<Status>): Option<Config> {
    if config.None? then None
    else
      var live := Pool(statuses, config.value.units, config.value.trays);
      if Identities(live) == Displayed(config.value) then None else Some(config.value.(pool := live))
  }

  // ---------------------------------------------------------------- imperative form

  lemma {:induction false} OfferJoins(d: Dict<Tray>, a: seq<Tray>, b: seq<Tray>)
    ensures OfferAll(d, a + b) == OfferAll(OfferAll(d, a), b)
    decreases |a|
  {
    hide Offer;
    if a == [] {
      assert a + b == b;
    } else {
      assert (a + b)[1..] == a[1..] + b;
      OfferJoins(Offer(d, a[0]), a[1..], b);
    }
  }

  /** The loops that fill the table: every tray of every unit of every printer, in order. */
  method DedupeTrays(ordered: seq<Status>) returns (deduped: Dict<Tray>)
    ensures deduped == OfferAll([], AllTrays(ordered))
  {
    hide TrayKey;
    deduped := [];
    for s := 0 to |ordered|
      invariant OfferAll(deduped, AllTrays(ordered[s..])) == OfferAll([], AllTrays(ordered))
    {
      assert ordered[s..][1..] == ordered[s + 1..];
      var units := ordered[s].units;
      OfferJoins(deduped, Flatten(units), AllTrays(ordered[s + 1..]));
      ghost var atStatus := deduped;
      for u := 0 to |units|
        invariant OfferAll(deduped, Flatten(units[u..])) == OfferAll(atStatus, Flatten(units))
      {
        assert units[u..][1..] == units[u + 1..];
        OfferJoins(deduped, units[u], Flatten(units[u + 1..]));
        ghost var atUnit := deduped;
        for t := 0 to |units[u]|
          invariant OfferAll(deduped, units[u][t..]) == OfferAll(atUnit, units[u])
        {
          assert units[u][t..][1..] == units[u][t + 1..];
          var key := TrayKey(units[u][t]);
          if key.Some? && Get(deduped, key.value).None? {
            deduped := deduped + [Entry(key.value, units[u][t])];
          }
        }
      }
    }
  }

  /** `vp_pool_from_statuses`. */
  method PoolFromStatuses(statuses: seq<Status>, units: int, trays: int) returns (pool: seq<Row>)
    ensures pool == Pool(statuses, units, trays)
  {
    hide RowOf, Sort, TrayKey, Get;
    var capacity := Max(1, units * trays);
    var deduped := DedupeTrays(SortStatuses(statuses));
    var keys := Sort(map[], KeyList(deduped));
    KeyListKeys(deduped);
    SortIsSorted(map[], KeyList(deduped));
    pool := [];
    var i := 0;
    while i < |keys| && |pool| < capacity
      invariant 0 <= i <= |keys| && |pool| == i <= capacity
      invariant pool == Rows(deduped, keys[..i])
    {
      assert keys[i] in Members(keys);
      Absent(deduped, keys[i]);
      RowsJoin(deduped, keys[..i], [keys[i]]);
      assert keys[..i + 1] == keys[..i] + [keys[i]];
      OneRow(deduped, keys[i]);
      pool := pool + [RowOf(Get(deduped, keys[i]).value)];
      i := i + 1;
    }
    assert keys[..i] == First(keys, capacity);
  }

  lemma {:induction false} OneRow(d: Dict<Tray>, k: string)
    requires Get(d, k).Some?
    ensures Rows(d, [k]) == [RowOf(Get(d, k).value)]
  {
    var one := [k];
    assert one[1..] == [];
  }

  lemma {:induction false} RowsJoin(d: Dict<Tray>, a: seq<string>, b: seq<string>)
    ensures Rows(d, a + b) == Rows(d, a) + Rows(d, b)
  {
    hide Get, RowOf;
    if a == [] {
      assert a + b == b;
    } else {
      assert (a + b)[1..] == a[1..] + b;
      RowsJoin(d, a[1..], b);
      Regroup(if Get(d, a[0]).Some? then [RowOf(Get(d, a[0]).value)] else [], Rows(d, a[1..]), Rows(d, b));
    }
  }

  lemma {:induction false} KeyListKeys(d: Dict<Tray>)
    ensures Members(KeyList(d)) == Keys(d) && |KeyList(d)| == |d|
  {
    if d != [] {
      ConsKeys(d);
      KeyListKeys(d[1..]);
      assert Members(KeyList(d)) == {d[0].key} + Members(KeyList(d[1..]));
    }
  }

  /** `updated_configs_if_pools_changed`. */
  method MirrorStep(configs: seq<Config>, statuses: seq<Status>, ranking: Ranking, now: real) returns (r: Option<seq<Config>>)
    ensures r == Mirror(configs, statuses, ranking, now)
  {
    hide Live, Displayed, Identities;
    var changed := false;
    var out: seq<Config> := [];
    for i := 0 to |configs|
      invariant |out| == i && forall j :: 0 <= j < i ==> out[j] == Refresh(configs[j], statuses, ranking, now)
      invariant changed <==> exists j :: 0 <= j < i && Stale(configs[j], statuses, ranking, now)
    {
      var live := Live(configs[i], statuses, ranking, now);
      if Identities(live) != Displayed(configs[i]) {
        out := out + [configs[i].(pool := live)];
        changed := true;
      } else {
        out := out + [configs[i]];
      }
    }
    assert out == seq(|configs|, i requires 0 <= i < |configs| => Refresh(configs[i], statuses, ranking, now));
    assert changed <==> exists c :: c in configs && Stale(c, statuses, ranking, now) by {
      if changed {
        var j :| 0 <= j < |configs| && Stale(configs[j], statuses, ranking, now);
        assert configs[j] in configs;
      }
    }
    r := if changed then Some(out) else None;
  }
}
