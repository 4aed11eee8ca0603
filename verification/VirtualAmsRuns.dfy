/** For one serial, equal versions mean equal displays: what every start, hot change, stop, report and process restart
    keeps for it, whatever the wall clock does, and the runs that break it. */
module VirtualAmsRuns {
  import opened Prelude
  import opened VirtualAms

  /** Every version write of the run succeeds. */
  predicate AllStored(ms: seq<Move>) {
    forall i :: 0 <= i < |ms| ==>
      (ms[i].Start? ==> ms[i].env.write == Stored) && (ms[i].ApplyHot? ==> ms[i].env.write == Stored)
  }

  /** No two serials share a directory. */
  predicate NoClash(serials: set<string>) {
    forall s, t :: s in serials && t in serials && SafeSerial(s) == SafeSerial(t) ==> s == t
  }

  /** Later reports of a serial never go back in version, and equal versions show equal trays. */
  ghost predicate VersionsTellDisplays(log: seq<Sent>) {
    forall i, j :: 0 <= i < j < |log| && log[i].serial == log[j].serial ==>
      log[i].version <= log[j].version && (log[i].version == log[j].version ==> log[i].display == log[j].display)
  }

  ghost predicate RuntimesStored(w: World, serials: set<string>) {
    forall s :: s in w.runtimes ==>
      && s in serials && w.runtimes[s].config.serial == s
      && w.runtimes[s].signature == Shown(w.runtimes[s].config)
      && SafeSerial(s) in w.disk && w.disk[SafeSerial(s)] == w.runtimes[s].version
  }

  ghost predicate LogBelow(w: World, serials: set<string>) {
    forall i :: 0 <= i < |w.log| ==>
      var e := w.log[i];
      && e.serial in serials && SafeSerial(e.serial) in w.disk && e.version <= w.disk[SafeSerial(e.serial)]
      && (e.serial in w.runtimes && e.version == w.runtimes[e.serial].version ==>
            e.display == DisplayOf(w.runtimes[e.serial].config))
  }

  ghost predicate Inv(w: World, serials: set<string>) {
    RuntimesStored(w, serials) && LogBelow(w, serials) && VersionsTellDisplays(w.log)
  }

  lemma {:induction false} StartKeepsInv(w: World, serials: set<string>, c: VpConfig, env: Env)
    requires Inv(w, serials) && NoClash(serials) && c.serial in serials && env.write == Stored
    ensures Inv(StartRuntime(w, c, env), serials)
    ensures forall i :: 0 <= i < |w.log| && w.log[i].serial == c.serial && env.starts ==>
              w.log[i].version < StartRuntime(w, c, env).runtimes[c.serial].version
  {
    hide Shown, SafeSerial, VersionsTellDisplays;
    var w' := StartRuntime(w, c, env);
    forall i | 0 <= i < |w.log|
      ensures w.log[i].serial == c.serial ==> w.log[i].version < w'.disk[SafeSerial(c.serial)]
      ensures w.log[i].serial != c.serial ==> SafeSerial(w.log[i].serial) != SafeSerial(c.serial)
    {
    }
  }

  lemma {:induction false} HotKeepsInv(w: World, serials: set<string>, c: VpConfig, env: Env)
    requires Inv(w, serials) && NoClash(serials) && c.serial in w.runtimes && env.write == Stored
    requires IdentityOf(c) == IdentityOf(w.runtimes[c.serial].config)
    ensures Inv(HotRuntime(w, c, env), serials)
  {
    hide Shown, SafeSerial, VersionsTellDisplays, HotOf;
    var w' := HotRuntime(w, c, env);
    var r := w.runtimes[c.serial];
    if Shown(c) == r.signature {
      assert DisplayOf(c) == DisplayOf(r.config);
    } else {
      forall i | 0 <= i < |w.log|
        ensures w.log[i].serial == c.serial ==> w.log[i].version < w'.runtimes[c.serial].version
        ensures w.log[i].serial != c.serial ==> SafeSerial(w.log[i].serial) != SafeSerial(c.serial)
      {
      }
    }
  }

  lemma {:induction false} ReportKeepsInv(w: World, serials: set<string>, serial: string)
    requires Inv(w, serials) && serial in w.runtimes
    ensures Inv(Apply(w, ReportTo(serial)), serials)
  {
    hide Shown, SafeSerial, DisplayOf;
    var w' := Apply(w, ReportTo(serial));
    forall i, j | 0 <= i < j < |w'.log| && w'.log[i].serial == w'.log[j].serial
      ensures w'.log[i].version <= w'.log[j].version
              && (w'.log[i].version == w'.log[j].version ==> w'.log[i].display == w'.log[j].display)
    {
      assert w'.log[i] == w.log[i];
      if j < |w.log| {
        assert w'.log[j] == w.log[j];
      }
    }
  }

  lemma {:induction false} DropKeepsInv(w: World, serials: set<string>, kept: set<string>)
    requires Inv(w, serials)
    ensures Inv(w.(runtimes := map s | s in w.runtimes && s in kept :: w.runtimes[s]), serials)
  {
    hide Shown, SafeSerial, DisplayOf;
  }

  lemma {:induction false} RestartKeepsInv(w: World, serials: set<string>)
    requires Inv(w, serials)
    ensures Inv(w.(runtimes := map[]), serials)
  {
    hide Shown, SafeSerial, DisplayOf;
  }

  /** A hot change keeps everything a restart would be needed for. */
  predicate HotOnly(w: World, m: Move) {
    m.ApplyHot? && m.config.serial in w.runtimes ==>
      IdentityOf(m.config) == IdentityOf(w.runtimes[m.config.serial].config)
  }

  lemma {:induction false} MoveKeepsInv(w: World, serials: set<string>, m: Move)
    requires Inv(w, serials) && NoClash(serials) && HotOnly(w, m)
    requires m.Start? ==> m.config.serial in serials && m.env.write == Stored
    requires m.ApplyHot? ==> m.env.write == Stored
    ensures Inv(Apply(w, m), serials)
  {
    hide Inv, NoClash, IdentityOf;
    match m
    case Start(c, env) => StartKeepsInv(w, serials, c, env);
    case ApplyHot(c, env) =>
      if c.serial in w.runtimes {
        HotKeepsInv(w, serials, c, env);
      }
    case Stop(serial) =>
      DropKeepsInv(w, serials, w.runtimes.Keys - {serial});
      assert w.runtimes - {serial} == map s | s in w.runtimes && s in w.runtimes.Keys - {serial} :: w.runtimes[s];
    case ReportTo(serial) =>
      if serial in w.runtimes {
        ReportKeepsInv(w, serials, serial);
      }
    case Restart =>
      RestartKeepsInv(w, serials);
  }

  /** Every hot change of the run meets a runtime of the same identity, as the supervisor ensures. */
  ghost predicate HotThroughout(w: World, ms: seq<Move>) {
    forall i :: 0 <= i < |ms| ==> HotOnly(Run(w, ms[..i]), ms[i])
  }

  // ----- reconciles are such runs -------------------------------------------------------------------

  lemma {:induction false} ReconcileEachKeepsInv(w: World, serials: set<string>, configs: seq<VpConfig>, envs: seq<Env>)
    requires |envs| == |configs| && Inv(w, serials) && NoClash(serials)
    requires forall i :: 0 <= i < |configs| ==> configs[i].serial in serials && envs[i].write == Stored
    ensures Inv(ReconcileEach(w, configs, envs), serials)
    decreases |configs|
  {
    if configs != [] {
      hide Inv, NoClash, Apply, IdentityOf, HotOf;
      var ms := MovesFor(w, configs[0], envs[0]);
      RunOne(w, ms);
      if ms != [] {
        MoveKeepsInv(w, serials, ms[0]);
      }
      ReconcileEachKeepsInv(Run(w, ms), serials, configs[1..], envs[1..]);
    }
  }

  /** A reconcile to any list of configurations keeps the invariant. */
  lemma {:induction false} ReconcileKeepsInv(w: World, serials: set<string>, configs: seq<VpConfig>, envs: seq<Env>)
    requires |envs| == |configs| && Inv(w, serials) && NoClash(serials)
    requires forall i :: 0 <= i < |configs| ==> configs[i].serial in serials && envs[i].write == Stored
    ensures Inv(Reconcile(w, configs, envs), serials)
  {
    DropKeepsInv(w, serials, Incoming(configs));
    hide Inv;
    ReconcileEachKeepsInv(w.(runtimes := map s | s in w.runtimes && s in Incoming(configs) :: w.runtimes[s]), serials, configs, envs);
  }

  // ----- and both conditions are needed ---------------------------------------------------------------

  function Plain(serial: string, tray: string): VpConfig {
    VpConfig(serial, "", "", "", "", 1, 1, "", [], [Tray(tray, "")], true)
  }

  function Fine(now: int): Env {
    Env(now, Stored, true, true)
  }

  /** Two serials that map to one directory: a hot change of `t` pulls the shared file below what
      `s` has reported, and the next runtime of `s` reuses an old version for other trays. */
  function Clash(s: string, t: string): seq<Move> {
    [Start(Plain(t, "red"), Fine(10)), Start(Plain(s, "red"), Fine(100)), ReportTo(s),
     ApplyHot(Plain(t, "blue"), Fine(10)), Stop(s), Start(Plain(s, "blue"), Fine(100)), ReportTo(s)]
  }

  /** A failed version write and a restart within the same second: the same failure on one serial. */
  function LostWrite(s: string): seq<Move> {
    [Start(Plain(s, "red"), Env(100, Kept, true, true)), ReportTo(s), Restart,
     Start(Plain(s, "blue"), Fine(100)), ReportTo(s)]
  }

  lemma {:induction false} Shows(serial: string, tray: string)
    ensures Shown(Plain(serial, tray)) == [tray]
  {
  }

  /** The log shows one version of `s` with two displays. */
  lemma {:induction false} TwoDisplays(log: seq<Sent>, s: string, version: int)
    requires log == [Sent(s, version, Display(1, 1, ["red"])), Sent(s, version, Display(1, 1, ["blue"]))]
    ensures !VersionsTellDisplays(log)
  {
    assert log[0].version == log[1].version && log[0].serial == log[1].serial;
    assert ["red"][0] != ["blue"][0];
    assert log[0].display != log[1].display;
  }

  /** When a version write fails, equal versions can show different trays. */
  lemma {:induction false} LostWriteBreaks(s: string)
    ensures !VersionsTellDisplays(Run(World(map[], map[], []), LostWrite(s)).log)
  {
    hide Shown;
    Shows(s, "red");
    Shows(s, "blue");
    var ms := LostWrite(s);
    var w0 := World(map[], map[], []);
    var w1 := Apply(w0, ms[0]);
    var w2 := Apply(w1, ms[1]);
    var w3 := Apply(w2, ms[2]);
    var w4 := Apply(w3, ms[3]);
    var w5 := Apply(w4, ms[4]);
    RunFive(w0, ms[0], ms[1], ms[2], ms[3], ms[4]);
    assert w5.log == [Sent(s, 100, Display(1, 1, ["red"])), Sent(s, 100, Display(1, 1, ["blue"]))];
    TwoDisplays(w5.log, s, 100);
  }

  lemma {:induction false} RunFive(w: World, a: Move, b: Move, c: Move, d: Move, e: Move)
    ensures Run(w, [a, b, c, d, e]) == Apply(Apply(Apply(Apply(Apply(w, a), b), c), d), e)
  {
    hide Apply;
    assert [a, b, c, d, e][..4] == [a, b, c, d];
    assert [a, b, c, d][..3] == [a, b, c];
    assert [a, b, c][..2] == [a, b];
    assert [a, b][..1] == [a];
    assert [a][..0] == [];
    assert Run(w, [a]) == Apply(w, a);
    assert Run(w, [a, b]) == Apply(Run(w, [a]), b);
    assert Run(w, [a, b, c]) == Apply(Run(w, [a, b]), c);
    assert Run(w, [a, b, c, d]) == Apply(Run(w, [a, b, c]), d);
  }

  predicate PlainChar(c: char) {
    'A' <= c <= 'Z' || 'a' <= c <= 'z' || '0' <= c <= '9' || c == '-' || c == '_'
  }

  /** Two serials share a directory exactly when they are equal up to what is no letter, digit, dash or underscore; such a
      character counts as an underscore. */
  lemma {:induction false} DirectoryIsShared(s: string, t: string)
    ensures SafeSerial(s) == SafeSerial(t) <==>
            && |s| == |t|
            && forall i :: 0 <= i < |s| ==>
                 || s[i] == t[i]
                 || ((!PlainChar(s[i]) || s[i] == '_') && (!PlainChar(t[i]) || t[i] == '_'))
  {
    var a, b := SafeSerial(s), SafeSerial(t);
    assert |a| == |s| && |b| == |t|;
    if |s| == |t| {
      forall i | 0 <= i < |s|
        ensures a[i] == b[i] <==> s[i] == t[i] || ((!PlainChar(s[i]) || s[i] == '_') && (!PlainChar(t[i]) || t[i] == '_'))
      {
      }
    }
  }

  /** When two serials share a directory, the guarantee fails although every write succeeds. */
  lemma {:induction false} ClashBreaks(s: string, t: string)
    requires s != t && SafeSerial(s) == SafeSerial(t)
    ensures AllStored(Clash(s, t)) && HotThroughout(World(map[], map[], []), Clash(s, t))
    ensures !VersionsTellDisplays(Run(World(map[], map[], []), Clash(s, t)).log)
  {
    hide Shown, SafeSerial;
    Shows(s, "red");
    Shows(s, "blue");
    Shows(t, "red");
    Shows(t, "blue");
    var ms := Clash(s, t);
    var w0 := World(map[], map[], []);
    var w1 := Apply(w0, ms[0]);
    var w2 := Apply(w1, ms[1]);
    var w3 := Apply(w2, ms[2]);
    var w4 := Apply(w3, ms[3]);
    var w5 := Apply(w4, ms[4]);
    var w6 := Apply(w5, ms[5]);
    var w7 := Apply(w6, ms[6]);
    assert w2.runtimes[t].version == 10 && w2.disk[SafeSerial(s)] == 100;
    assert w4.disk[SafeSerial(s)] == 11 by {
      assert ["red"][0] != ["blue"][0];
    }
    assert w7.log == [Sent(s, 100, Display(1, 1, ["red"])), Sent(s, 100, Display(1, 1, ["blue"]))];
    TwoDisplays(w7.log, s, 100);
    ClashRuns(w0, ms);
    assert Run(w0, ms) == w7;
    forall i | 0 <= i < |ms| ensures HotOnly(Run(w0, ms[..i]), ms[i]) {
      if i == 3 {
        assert Run(w0, ms[..3]) == w3;
      }
    }
  }

  lemma {:induction false} ClashRuns(w: World, ms: seq<Move>)
    requires |ms| == 7
    ensures Run(w, ms[..3]) == Apply(Apply(Apply(w, ms[0]), ms[1]), ms[2])
    ensures Run(w, ms) == Apply(Apply(Apply(Apply(Run(w, ms[..3]), ms[3]), ms[4]), ms[5]), ms[6])
  {
    hide Apply;
    assert ms[..7] == ms;
    assert forall n :: 0 < n <= 7 ==> ms[..n][..n - 1] == ms[..n - 1] && ms[..n][n - 1] == ms[n - 1];
    assert Run(w, ms[..1]) == Apply(Run(w, ms[..0]), ms[0]);
    assert Run(w, ms[..2]) == Apply(Run(w, ms[..1]), ms[1]);
    assert Run(w, ms[..3]) == Apply(Run(w, ms[..2]), ms[2]);
    assert Run(w, ms[..4]) == Apply(Run(w, ms[..3]), ms[3]);
    assert Run(w, ms[..5]) == Apply(Run(w, ms[..4]), ms[4]);
    assert Run(w, ms[..6]) == Apply(Run(w, ms[..5]), ms[5]);
  }
}
