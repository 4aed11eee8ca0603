/** When two trays hold one filament, and what a row shows of its tray, in characters. */
module LivePoolRows {
  import opened Prelude
  import opened OrderedDicts
  import opened Sorting
  import opened LivePool
  import opened LivePoolLaws

  // ---------------------------------------------------------------- text

  predicate AllBlank(s: string) {
    forall i :: 0 <= i < |s| ==> s[i] in {' ', '\t', '\n', '\U{0B}', '\U{0C}', '\r'}
  }

  predicate Edged(s: string) {
    s == "" || (!AllBlank([s[0]]) && !AllBlank([s[|s| - 1]]))
  }

  /** `t` is `s` between the blanks around it. */
  ghost predicate Trims(s: string, t: string) {
    Edged(t) && exists before, after :: AllBlank(before) && AllBlank(after) && s == before + t + after
  }

  /** The trimmed text; nothing for nothing. */
  ghost predicate Reads(text: Option<string>, t: string) {
    if text.Some? then Trims(text.value, t) else t == ""
  }

  /** `t` is `s` in capitals. */
  predicate Shouts(s: string, t: string) {
    |t| == |s| && forall i :: 0 <= i < |s| ==> if 'a' <= s[i] <= 'z' then t[i] as int == s[i] as int - 32 else t[i] == s[i]
  }

  predicate HexDigits(s: string) {
    forall i :: 0 <= i < |s| ==> '0' <= s[i] <= '9' || 'a' <= s[i] <= 'f' || 'A' <= s[i] <= 'F'
  }

  ghost predicate IsMaterial(text: Option<string>, m: string) {
    exists t :: Reads(text, t) && if t == "" then m == "PLA" else Shouts(t, m)
  }

  /** What follows the number signs at the front. */
  ghost predicate Unmarked(s: string, body: string) {
    && (body == "" || body[0] != '#')
    && exists marks: string :: (forall i :: 0 <= i < |marks| ==> marks[i] == '#') && s == marks + body
  }

  /** Six hex digits make an opaque color, eight a color; anything else is opaque white. */
  predicate Paints(body: string, color: string) {
    if |body| == 6 && HexDigits(body) then |color| == 8 && Shouts(body, color[..6]) && color[6..] == "FF"
    else if |body| == 8 && HexDigits(body) then Shouts(body, color)
    else color == "FFFFFFFF"
  }

  ghost predicate IsColor(text: Option<string>, color: string) {
    exists t, body :: Reads(text, t) && Unmarked(t, body) && Paints(body, color)
  }

  // ---------------------------------------------------------------- the text functions

  lemma {:induction false} OneBlank(c: char)
    ensures Blank(c) <==> AllBlank([c])
  {
    assert [c][0] == c;
  }

  lemma {:induction false} BlankJoin(a: string, b: string)
    requires AllBlank(a) && AllBlank(b)
    ensures AllBlank(a + b)
  {
  }

  lemma {:induction false} NoBlanks()
    ensures AllBlank("")
  {
  }

  lemma {:induction false} StripLeftCuts(s: string) returns (before: string)
    ensures AllBlank(before) && s == before + StripLeft(s)
    ensures StripLeft(s) == "" || !AllBlank([StripLeft(s)[0]])
  {
    hide AllBlank, Blank;
    before := "";
    NoBlanks();
    if s != [] {
      OneBlank(s[0]);
      if Blank(s[0]) {
        var rest := StripLeftCuts(s[1..]);
        before := [s[0]] + rest;
        BlankJoin([s[0]], rest);
        Regroup([s[0]], rest, StripLeft(s));
        assert s == [s[0]] + s[1..];
      } else {
        assert s == "" + s;
      }
    }
  }

  lemma {:induction false} StripRightCuts(s: string) returns (after: string)
    ensures AllBlank(after) && s == StripRight(s) + after
    ensures StripRight(s) == "" || !AllBlank([StripRight(s)[|StripRight(s)| - 1]])
  {
    hide AllBlank, Blank;
    after := "";
    NoBlanks();
    if s != [] {
      var last := |s| - 1;
      OneBlank(s[last]);
      if Blank(s[last]) {
        var rest := StripRightCuts(s[..last]);
        after := rest + [s[last]];
        BlankJoin(rest, [s[last]]);
        Regroup(StripRight(s), rest, [s[last]]);
        assert s == s[..last] + [s[last]];
      } else {
        assert s == s + "";
      }
    }
  }

  lemma {:induction false} StripTrims(s: string)
    ensures Trims(s, Strip(s))
  {
    hide AllBlank, StripLeft, StripRight;
    var left := StripLeft(s);
    var before := StripLeftCuts(s);
    var after := StripRightCuts(left);
    Regroup(before, Strip(s), after);
    assert Strip(s) != "" ==> Strip(s)[0] == left[0];
  }

  lemma {:induction false} CleanReads(text: Option<string>)
    ensures Reads(text, Clean(text))
  {
    hide Trims;
    if text.Some? {
      StripTrims(text.value);
    }
  }

  lemma {:induction false} UpperShouts(s: string)
    ensures Shouts(s, Upper(s))
  {
  }

  lemma {:induction false} UpperHex(s: string)
    ensures Hex(Upper(s)) <==> HexDigits(s)
  {
    var u := Upper(s);
    forall i | 0 <= i < |s| ensures ('0' <= u[i] <= '9' || 'A' <= u[i] <= 'F') <==> ('0' <= s[i] <= '9' || 'a' <= s[i] <= 'f' || 'A' <= s[i] <= 'F') {
      assert u[i] == UpperChar(s[i]);
    }
    if Hex(u) {
      assert forall i :: 0 <= i < |s| ==> u[i] in u;
    }
  }

  lemma {:induction false} HashesAreMarks(s: string) returns (marks: string)
    ensures (forall i :: 0 <= i < |marks| ==> marks[i] == '#') && s == marks + StripHashes(s)
    ensures Unmarked(s, StripHashes(s))
  {
    marks := "";
    if s != [] && s[0] == '#' {
      var rest := HashesAreMarks(s[1..]);
      marks := ['#'] + rest;
      Regroup(['#'], rest, StripHashes(s));
      assert s == ['#'] + s[1..];
    } else {
      assert s == marks + s;
    }
  }

  lemma {:induction false} MaterialReads(text: Option<string>)
    ensures IsMaterial(text, Material(text))
  {
    hide Reads, Clean;
    CleanReads(text);
    UpperShouts(Clean(text));
  }

  lemma {:induction false} ColorReads(text: Option<string>)
    ensures IsColor(text, Color(text)) && |Color(text)| == 8
  {
    hide Reads, Clean, Unmarked, Upper, Hex, HexDigits, Shouts, StripHashes;
    var t := Clean(text);
    var body := StripHashes(t);
    CleanReads(text);
    var marks := HashesAreMarks(t);
    UpperShouts(body);
    UpperHex(body);
    UpperLength(body);
    var u := Upper(body);
    assert (u + "FF")[..|u|] == u && (u + "FF")[|u|..] == "FF";
    assert Paints(body, Color(text));
  }

  lemma {:induction false} UpperLength(s: string)
    ensures |Upper(s)| == |s|
  {
  }

  // ---------------------------------------------------------------- one filament

  predicate NoBar(s: string) {
    forall i :: 0 <= i < |s| ==> s[i] != '|'
  }

  lemma {:induction false} FrontIsCut(a: string, b: string, c: string, d: string)
    requires a + b == c + d && |b| == |d|
    ensures a == c && b == d
  {
    assert a == (a + b)[..|a|] && c == (c + d)[..|c|];
    assert b == (a + b)[|a|..] && d == (c + d)[|c|..];
  }

  lemma {:induction false} BarIsCut(a: string, b: string, c: string, d: string)
    requires a + "|" + b == c + "|" + d && NoBar(a) && NoBar(c)
    ensures a == c && b == d
  {
    var x, y := a + "|" + b, c + "|" + d;
    assert x[|a|] == '|' && y[|c|] == '|';
    assert forall i :: 0 <= i < |a| ==> x[i] == a[i];
    assert forall i :: 0 <= i < |c| ==> y[i] == c[i];
    assert |a| == |c|;
    assert a == x[..|a|] && c == y[..|c|] && b == x[|a| + 1..] && d == y[|c| + 1..];
  }

  /** A tray takes part exactly when it names a material. Two trays that do are one filament exactly when their colors are
      the same and so are their materials and ids, written with a bar in between; where the materials hold no bar, that
      is when each of the three is the same. */
  lemma {:induction false} OneFilamentExactly(t: Tray, u: Tray)
    ensures TrayKey(t).None? <==> Reads(t.material, "")
    ensures TrayKey(t).Some? && TrayKey(u).Some? ==>
              exists m, n, i, j, c, d ::
                && IsMaterial(t.material, m) && IsMaterial(u.material, n) && Reads(t.filamentId, i) && Reads(u.filamentId, j)
                && IsColor(t.colorHex, c) && IsColor(u.colorHex, d)
                && (TrayKey(t) == TrayKey(u) <==> c == d && m + "|" + i == n + "|" + j)
                && (NoBar(m) && NoBar(n) ==> (TrayKey(t) == TrayKey(u) <==> m == n && i == j && c == d))
  {
    hide Reads, IsMaterial, IsColor, Material, Color, Clean, NoBar;
    CleanReads(t.material);
    BlankReads(t.material, Clean(t.material));
    if TrayKey(t).Some? && TrayKey(u).Some? {
      var m, n, i, j, c, d := Material(t.material), Material(u.material), Clean(t.filamentId), Clean(u.filamentId),
                              Color(t.colorHex), Color(u.colorHex);
      MaterialReads(t.material);
      MaterialReads(u.material);
      CleanReads(t.filamentId);
      CleanReads(u.filamentId);
      ColorReads(t.colorHex);
      ColorReads(u.colorHex);
      var before, after := m + "|" + i, n + "|" + j;
      assert KeyText(t) == before + ("|" + c) && KeyText(u) == after + ("|" + d);
      if KeyText(t) == KeyText(u) {
        FrontIsCut(before, "|" + c, after, "|" + d);
        assert c == ("|" + c)[1..] && d == ("|" + d)[1..];
        if NoBar(m) && NoBar(n) {
          BarIsCut(m, i, n, j);
        }
      }
    }
  }

  /** A text reads as nothing exactly when trimming it leaves nothing. */
  lemma {:induction false} BlankReads(text: Option<string>, t: string)
    requires Reads(text, t)
    ensures Reads(text, "") <==> t == ""
  {
    if text.Some? && t != "" && Trims(text.value, "") {
      var b1, a1 :| AllBlank(b1) && AllBlank(a1) && text.value == b1 + "" + a1;
      var b2, a2 :| AllBlank(b2) && AllBlank(a2) && text.value == b2 + t + a2;
      assert text.value[|b2|] == t[0];
      BlankAt(b1, a1, |b2|);
      assert false;
    }
  }

  lemma {:induction false} BlankAt(a: string, b: string, i: nat)
    requires AllBlank(a) && AllBlank(b) && i < |a + "" + b|
    ensures AllBlank([(a + "" + b)[i]])
  {
  }

  /** Two trays with one key although neither the material nor the id is the same: a bar in the material. */
  lemma {:induction false} BarsBlur()
    ensures var t := Tray(Some("PLA|X"), None, None, None, None, None, None, None, 0);
            var u := Tray(Some("PLA"), Some("X|"), None, None, None, None, None, None, 1);
            && TrayKey(t).Some? && TrayKey(t) == TrayKey(u)
            && IsMaterial(t.material, "PLA|X") && IsMaterial(u.material, "PLA")
  {
    var t := Tray(Some("PLA|X"), None, None, None, None, None, None, None, 0);
    var u := Tray(Some("PLA"), Some("X|"), None, None, None, None, None, None, 1);
    assert Clean(t.material) == "PLA|X" && Upper("PLA|X") == "PLA|X";
    assert Clean(u.material) == "PLA" && Upper("PLA") == "PLA";
    assert Clean(u.filamentId) == "X|" && Clean(t.filamentId) == "";
    assert "PLA|X" + "|" + "" == "PLA" + "|" + "X|";
    MaterialReads(t.material);
    MaterialReads(u.material);
  }

  // ---------------------------------------------------------------- rows

  /** What the shop keeps of a material; anything unknown is kept like PLA. */
  predicate Stocked(material: string, infoIdx: string, tempMin: int, tempMax: int) {
    if material == "PETG" then infoIdx == "GFG99" && tempMin == 230 && tempMax == 260
    else if material == "ABS" then infoIdx == "GFB99" && tempMin == 240 && tempMax == 270
    else if material == "TPU" then infoIdx == "GFU99" && tempMin == 200 && tempMax == 240
    else if material == "PLA-CF" then infoIdx == "GFL99" && tempMin == 200 && tempMax == 250
    else if material == "PA" then infoIdx == "GFN99" && tempMin == 250 && tempMax == 290
    else infoIdx == "GFL99" && tempMin == 190 && tempMax == 240
  }

  /** A row shows its tray: its material in capitals, its own id or else the stock one, its product, its color and colors,
      its own temperatures or else the stock ones, and what remains in percent, -1 when that is not known. */
  ghost predicate Shows(r: Row, t: Tray) {
    && IsMaterial(t.material, r.trayType) && IsColor(t.colorHex, r.color) && Reads(t.product, r.subBrands)
    && (exists idx, lo, hi, id ::
          && Stocked(r.trayType, idx, lo, hi) && Reads(t.filamentId, id)
          && r.infoIdx == (if id == "" then idx else id)
          && r.tempMin == (if t.nozzleMin.Some? then t.nozzleMin.value else lo)
          && r.tempMax == (if t.nozzleMax.Some? then t.nozzleMax.value else hi))
    && (if t.colors.Some? && t.colors.value != [] then
          |r.cols| == |t.colors.value| && forall i :: 0 <= i < |r.cols| ==> IsColor(Some(t.colors.value[i]), r.cols[i])
        else r.cols == [r.color])
    && (if t.remain.Some? then
          && 0 <= r.remain <= 100 && (0 <= t.remain.value <= 100 ==> r.remain == t.remain.value)
          && (t.remain.value < 0 ==> r.remain == 0) && (t.remain.value > 100 ==> r.remain == 100)
        else r.remain == -1)
  }

  lemma {:induction false} CatalogIsStock(material: string)
    ensures var f := if material in CATALOG then CATALOG[material] else PLA; Stocked(material, f.infoIdx, f.tempMin, f.tempMax)
  {
  }

  lemma {:induction false} ColorsRead(texts: seq<string>)
    ensures |Colors(texts)| == |texts| && forall i :: 0 <= i < |texts| ==> IsColor(Some(texts[i]), Colors(texts)[i])
  {
    hide IsColor, Color;
    if texts != [] {
      ColorReads(Some(texts[0]));
      ColorsRead(texts[1..]);
    }
  }

  lemma {:induction false} RowShows(t: Tray)
    ensures Shows(RowOf(t), t)
  {
    hide IsMaterial, IsColor, Reads, Stocked, Material, Color, Clean, Colors;
    MaterialReads(t.material);
    ColorReads(t.colorHex);
    CleanReads(t.filamentId);
    CleanReads(t.product);
    CatalogIsStock(Material(t.material));
    if t.colors.Some? {
      ColorsRead(t.colors.value);
    }
    var f := if Material(t.material) in CATALOG then CATALOG[Material(t.material)] else PLA;
    assert Stocked(RowOf(t).trayType, f.infoIdx, f.tempMin, f.tempMax) && Reads(t.filamentId, Clean(t.filamentId));
  }

  /** Row by row, `shown` are loaded trays that the pool shows, all of them different filaments. */
  ghost predicate ShowsLoaded(pool: seq<Row>, loaded: seq<Tray>, shown: seq<Tray>) {
    && |shown| == |pool|
    && (forall i :: 0 <= i < |pool| ==> shown[i] in loaded && TrayKey(shown[i]).Some? && Shows(pool[i], shown[i]))
    && (forall i, j :: 0 <= i < j < |shown| ==> TrayKey(shown[i]) != TrayKey(shown[j]))
  }

  lemma {:induction false} RowsShow(d: Dict<Tray>, keys: seq<string>) returns (shown: seq<Tray>)
    requires forall k :: k in keys ==> Get(d, k).Some?
    ensures |Rows(d, keys)| == |shown| == |keys|
    ensures forall i :: 0 <= i < |keys| ==> shown[i] == Get(d, keys[i]).value && Shows(Rows(d, keys)[i], shown[i])
  {
    hide Get, Shows, RowOf;
    shown := [];
    if keys != [] {
      assert keys[0] in keys;
      var rest := RowsShow(d, keys[1..]);
      shown := [Get(d, keys[0]).value] + rest;
      RowShows(Get(d, keys[0]).value);
    }
  }

  lemma {:induction false} ChosenAreShown(d: Dict<Tray>, chosen: seq<string>, loaded: seq<Tray>)
    requires Sorted(map[], chosen) && forall k :: k in chosen ==> Get(d, k).Some?
    requires forall k :: Get(d, k).Some? ==> Get(d, k).value in loaded && TrayKey(Get(d, k).value) == Some(k)
    ensures exists shown :: ShowsLoaded(Rows(d, chosen), loaded, shown)
  {
    hide Get, Shows, TrayKey, Sorted, Rows;
    var shown := RowsShow(d, chosen);
    SortedApart(chosen);
    assert ShowsLoaded(Rows(d, chosen), loaded, shown);
  }

  /** Each row of the ranked pool shows a tray that is loaded, and no two rows show one filament. */
  lemma {:induction false} PoolShowsLoaded(statuses: seq<Status>, units: int, trays: int, ranking: Ranking, now: real)
    ensures exists shown :: ShowsLoaded(RankedPool(statuses, units, trays, ranking, now), AllTrays(SortStatuses(statuses)), shown)
  {
    hide Get, ShowsLoaded, Chosen, Dedupe, RankedPool, Rows, TrayKey, Sorted, Capacity, AllTrays, SortStatuses;
    var d := Dedupe(statuses);
    DedupeIsExact(statuses);
    ChosenFits(d, Capacity(units, trays), ranking, now);
    RankedPoolShowsChosen(statuses, units, trays, ranking, now);
    ChosenAreShown(d, Chosen(d, Capacity(units, trays), ranking, now), AllTrays(SortStatuses(statuses)));
  }

  lemma {:induction false} SortedApart(s: seq<string>)
    requires Sorted(map[], s)
    ensures forall i, j :: 0 <= i < j < |s| ==> s[i] != s[j]
  {
    hide Before;
    forall i, j | 0 <= i < j < |s| ensures s[i] != s[j] {
      assert Before(map[], s[i], s[j]);
      BeforeIsStrict(map[], s[i], s[j]);
    }
  }

  // ---------------------------------------------------------------- what the mirror compares

  /** The two models are one up to the blanks around them and ASCII case. */
  ghost predicate SameModel(a: string, b: string) {
    exists x, y :: Trims(a, x) && Trims(b, y) && SameText(x, y)
  }

  /** The statuses a model mirrors: those of its own printers, or all of them when it is blank or has none. */
  ghost predicate Scopes(statuses: seq<Status>, model: string, scoped: seq<Status>) {
    if !Trims(model, "") && exists s: Status :: s in statuses && SameModel(s.model, model)
    then forall s :: multiset(scoped)[s] == if SameModel(s.model, model) then multiset(statuses)[s] else 0
    else scoped == statuses
  }

  /** Two rows look the same: remaining filament and temperatures do not show. */
  predicate LooksLike(a: Row, b: Row) {
    a.trayType == b.trayType && a.infoIdx == b.infoIdx && a.subBrands == b.subBrands && a.color == b.color && a.cols == b.cols
  }

  /** The slots of the virtual printer already look like the live pool. */
  predicate UpToDate(c: Config, live: seq<Row>) {
    var slots := Max(1, c.units * c.trays);
    && |live| == Min(|c.pool|, slots)
    && forall i :: 0 <= i < |live| ==> LooksLike(live[i], c.pool[i])
  }

  lemma {:induction false} TrimsOnce(s: string, t: string)
    requires Trims(s, t)
    ensures t == Strip(s)
  {
    StripTrims(s);
    var u := Strip(s);
    var b1, a1 :| AllBlank(b1) && AllBlank(a1) && s == b1 + t + a1;
    var b2, a2 :| AllBlank(b2) && AllBlank(a2) && s == b2 + u + a2;
    if t == "" || u == "" {
      hide Trims, Edged;
      BlankReads(Some(s), t);
      BlankReads(Some(s), u);
    } else {
      SameEdges(s, b1, t, a1, b2, u, a2);
    }
  }

  lemma {:induction false} SameEdges(s: string, b1: string, t: string, a1: string, b2: string, u: string, a2: string)
    requires s == b1 + t + a1 == b2 + u + a2 && AllBlank(b1) && AllBlank(a1) && AllBlank(b2) && AllBlank(a2)
    requires t != "" && u != "" && Edged(t) && Edged(u)
    ensures t == u
  {
    EdgeOf(s, b1, t, a1);
    EdgeOf(s, b2, u, a2);
    var i, j := |b1|, |b2|;
    assert i == j;
    assert |s| - |a1| == |s| - |a2|;
    assert t == s[|b1|..|s| - |a1|] && u == s[|b2|..|s| - |a2|];
  }

  /** The first and the last character of `s` that are not blank. */
  lemma {:induction false} EdgeOf(s: string, before: string, t: string, after: string)
    requires s == before + t + after && AllBlank(before) && AllBlank(after) && t != "" && Edged(t)
    ensures forall k :: 0 <= k < |before| ==> AllBlank([s[k]])
    ensures !AllBlank([s[|before|]])
    ensures forall k :: |s| - |after| <= k < |s| ==> AllBlank([s[k]])
    ensures !AllBlank([s[|s| - |after| - 1]])
  {
    assert s[|before|] == t[0] && s[|s| - |after| - 1] == t[|t| - 1];
  }

  lemma {:induction false} NormalIsModel(a: string, b: string)
    ensures Normal(a) == Normal(b) <==> SameModel(a, b)
  {
    hide Trims, SameText;
    StripTrims(a);
    StripTrims(b);
    TextCase(Strip(a), Strip(b));
    if SameModel(a, b) {
      var x, y :| Trims(a, x) && Trims(b, y) && SameText(x, y);
      TrimsOnce(a, x);
      TrimsOnce(b, y);
    }
  }

  lemma {:induction false} BlankModel(model: string)
    ensures Normal(model) == "" <==> Trims(model, "")
  {
    hide Trims;
    StripTrims(model);
    if Trims(model, "") {
      TrimsOnce(model, "");
    }
    assert |Normal(model)| == |Strip(model)|;
  }

  lemma {:induction false} OfModelIsExact(statuses: seq<Status>, want: string, s: Status)
    ensures multiset(OfModel(statuses, want))[s] == if Normal(s.model) == want then multiset(statuses)[s] else 0
  {
    hide Normal;
    if statuses != [] {
      OfModelIsExact(statuses[1..], want, s);
      HeadTail(statuses);
      var rest := OfModel(statuses[1..], want);
      assert multiset([statuses[0]] + rest) == multiset{statuses[0]} + multiset(rest);
    }
  }

  lemma {:induction false} ScopedIsExact(statuses: seq<Status>, model: string)
    ensures Scopes(statuses, model, Scoped(statuses, model))
  {
    hide Normal, SameModel, Trims, OfModel;
    var want := Normal(model);
    var own := OfModel(statuses, want);
    BlankModel(model);
    forall s: Status ensures multiset(own)[s] == if SameModel(s.model, model) then multiset(statuses)[s] else 0 {
      OfModelIsExact(statuses, want, s);
      NormalIsModel(s.model, model);
    }
    if own != [] {
      assert own[0] in multiset(own);
      assert own[0] in statuses && SameModel(own[0].model, model);
    } else {
      forall s | s in statuses ensures !SameModel(s.model, model) {
        assert multiset(own)[s] == 0 && s in multiset(statuses);
      }
    }
  }

  lemma {:induction false} SameIdentities(c: Config, live: seq<Row>)
    ensures Identities(live) == Displayed(c) <==> UpToDate(c, live)
  {
    var shown := First(c.pool, Capacity(c.units, c.trays));
    if UpToDate(c, live) {
      assert forall i :: 0 <= i < |live| ==> Identities(live)[i] == Identities(shown)[i];
    }
    if Identities(live) == Identities(shown) {
      assert |live| == |Identities(live)| == |Identities(shown)| == |shown|;
      forall i | 0 <= i < |live| ensures LooksLike(live[i], c.pool[i]) {
        assert Identities(live)[i] == Identities(shown)[i];
      }
    }
  }

  /** The live pool of a configuration, drawn from the printers its model mirrors. */
  ghost predicate LivePoolOf(c: Config, statuses: seq<Status>, ranking: Ranking, now: real, live: seq<Row>) {
    exists scoped :: Scopes(statuses, c.model, scoped) && live == RankedPool(scoped, c.units, c.trays, ranking, now)
  }

  /** Given the live pool of each configuration: the answer is none when every configuration looks like its own, and
      otherwise every configuration in its place, with its live pool when it does not look like it. */
  ghost predicate Answers(configs: seq<Config>, lives: seq<seq<Row>>, r: Option<seq<Config>>) {
    && |lives| == |configs|
    && (r.None? <==> forall i :: 0 <= i < |configs| ==> UpToDate(configs[i], lives[i]))
    && (r.Some? ==>
          && |r.value| == |configs|
          && forall i :: 0 <= i < |configs| ==>
               r.value[i] == if UpToDate(configs[i], lives[i]) then configs[i] else configs[i].(pool := lives[i]))
  }

  /** The mirror answers so for the live pools drawn from the printers each model mirrors. */
  lemma {:induction false} MirrorIsExact(configs: seq<Config>, statuses: seq<Status>, ranking: Ranking, now: real)
    ensures exists lives :: (&& Answers(configs, lives, Mirror(configs, statuses, ranking, now))
                             && forall i :: 0 <= i < |configs| ==> LivePoolOf(configs[i], statuses, ranking, now, lives[i]))
  {
    hide Scopes, UpToDate, RankedPool, Scoped, Identities, Displayed;
    var lives := seq(|configs|, i requires 0 <= i < |configs| => Live(configs[i], statuses, ranking, now));
    forall i | 0 <= i < |configs|
      ensures LivePoolOf(configs[i], statuses, ranking, now, lives[i])
      ensures Stale(configs[i], statuses, ranking, now) <==> !UpToDate(configs[i], lives[i])
    {
      ScopedIsExact(statuses, configs[i].model);
      SameIdentities(configs[i], lives[i]);
    }
    StaleAt(configs, statuses, ranking, now);
    assert Answers(configs, lives, Mirror(configs, statuses, ranking, now));
  }

  lemma {:induction false} StaleAt(configs: seq<Config>, statuses: seq<Status>, ranking: Ranking, now: real)
    ensures (exists c :: c in configs && Stale(c, statuses, ranking, now))
            <==> exists i :: 0 <= i < |configs| && Stale(configs[i], statuses, ranking, now)
  {
    hide Stale;
    if c :| c in configs && Stale(c, statuses, ranking, now) {
      var i :| 0 <= i < |configs| && configs[i] == c;
    }
  }
}
