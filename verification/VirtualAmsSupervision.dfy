/** The version guarantee over the supervisor's own runs: when it holds, exactly, and when it fails. */
module VirtualAmsSupervision {
  import opened Prelude
  import opened VirtualAms
  import opened VirtualAmsRuns

  // ---------------------------------------------------------------- one start, exactly

  /** Every version ever reported for the serial is below `version`. */
  ghost predicate Exceeds(log: seq<Sent>, serial: string, version: int) {
    forall i :: 0 <= i < |log| && log[i].serial == serial ==> log[i].version < version
  }

  /** A new runtime's version is above everything its serial reported if and only if the clock is, or the number
      after the stored one is. */
  lemma {:induction false} StartExceedsExactly(w: World, c: VpConfig, env: Env)
    requires env.starts
    ensures Exceeds(w.log, c.serial, StartRuntime(w, c, env).runtimes[c.serial].version)
       <==> Exceeds(w.log, c.serial, env.now) || Exceeds(w.log, c.serial, ReadPersisted(w.disk, c.serial) + 1)
  {
    var stored := ReadPersisted(w.disk, c.serial) + 1;
    assert StartRuntime(w, c, env).runtimes[c.serial].version == if env.now > stored then env.now else stored;
    if Exceeds(w.log, c.serial, Min(env.now, stored)) {
      assert Exceeds(w.log, c.serial, env.now);
    }
  }

  /** A report of this version and display contradicts none sent before. */
  ghost predicate Fits(log: seq<Sent>, serial: string, version: int, display: Display) {
    forall i :: 0 <= i < |log| && log[i].serial == serial ==>
      log[i].version < version || (log[i].version == version && log[i].display == display)
  }

  /** A start that comes up shows nothing its serial has shown differently under the same or a later version. */
  ghost predicate StartFits(w: World, c: VpConfig, env: Env) {
    env.starts ==> Fits(w.log, c.serial, StartRuntime(w, c, env).runtimes[c.serial].version, DisplayOf(c))
  }

  /** The first report of a new runtime keeps the guarantee if and only if the start fits. */
  lemma {:induction false} FirstReportTellsExactly(w: World, c: VpConfig, env: Env)
    requires env.starts && VersionsTellDisplays(w.log)
    ensures VersionsTellDisplays(Apply(Apply(w, Start(c, env)), ReportTo(c.serial)).log) <==> StartFits(w, c, env)
  {
    hide DisplayOf, SafeSerial;
    var r := StartRuntime(w, c, env).runtimes[c.serial];
    var e := Sent(c.serial, r.version, DisplayOf(c));
    var log := w.log + [e];
    assert Apply(Apply(w, Start(c, env)), ReportTo(c.serial)).log == log;
    TellsSnoc(w.log, e);
  }

  lemma {:induction false} TellsSnoc(log: seq<Sent>, e: Sent)
    requires VersionsTellDisplays(log)
    ensures VersionsTellDisplays(log + [e]) <==> Fits(log, e.serial, e.version, e.display)
  {
    var all := log + [e];
    if VersionsTellDisplays(all) {
      forall i | 0 <= i < |log| && log[i].serial == e.serial
        ensures log[i].version < e.version || (log[i].version == e.version && log[i].display == e.display) {
        assert all[i] == log[i] && all[|log|] == e;
      }
    }
  }

  // ---------------------------------------------------------------- runs in which every start fits

  /** What the runtimes need of the reports: no disk, no clock. */
  ghost predicate Tidy(w: World) {
    && VersionsTellDisplays(w.log)
    && (forall s :: s in w.runtimes ==>
          && w.runtimes[s].config.serial == s && w.runtimes[s].signature == Shown(w.runtimes[s].config)
          && Fits(w.log, s, w.runtimes[s].version, DisplayOf(w.runtimes[s].config)))
  }

  ghost predicate MoveFits(w: World, m: Move) {
    (m.Start? ==> StartFits(w, m.config, m.env)) && HotOnly(w, m)
  }

  lemma {:induction false} MoveKeepsTidy(w: World, m: Move)
    requires Tidy(w) && MoveFits(w, m)
    ensures Tidy(Apply(w, m))
  {
    hide Shown, SafeSerial, VersionsTellDisplays, HotOf;
    match m
    case Start(c, env) =>
    case ApplyHot(c, env) =>
      if c.serial in w.runtimes {
        assert DisplayOf(c).units == DisplayOf(w.runtimes[c.serial].config).units;
      }
    case Stop(serial) =>
    case ReportTo(serial) =>
      if serial in w.runtimes {
        ReportKeepsTidy(w, serial);
      }
    case Restart =>
  }

  lemma {:induction false} ReportKeepsTidy(w: World, serial: string)
    requires Tidy(w) && serial in w.runtimes
    ensures Tidy(Apply(w, ReportTo(serial)))
  {
    hide Shown, DisplayOf, VersionsTellDisplays;
    var r := w.runtimes[serial];
    TellsSnoc(w.log, Sent(serial, r.version, DisplayOf(r.config)));
  }

  ghost predicate AllFit(w: World, ms: seq<Move>) {
    forall i :: 0 <= i < |ms| ==> MoveFits(Run(w, ms[..i]), ms[i])
  }

  lemma {:induction false} RunKeepsTidy(w: World, ms: seq<Move>)
    requires Tidy(w) && AllFit(w, ms)
    ensures Tidy(Run(w, ms))
  {
    hide Tidy, MoveFits, Apply;
    if ms != [] {
      var front := ms[..|ms| - 1];
      forall i | 0 <= i < |front| ensures MoveFits(Run(w, front[..i]), front[i]) {
        assert ms[..i] == front[..i] && ms[i] == front[i];
      }
      RunKeepsTidy(w, front);
      assert MoveFits(Run(w, ms[..|ms| - 1]), ms[|ms| - 1]);
      MoveKeepsTidy(Run(w, front), ms[|ms| - 1]);
    }
  }

  /** Every runtime that comes up reports at once. */
  predicate ReportsAtOnce(ms: seq<Move>) {
    forall i :: 0 <= i < |ms| && ms[i].Start? && ms[i].env.starts ==> i + 1 < |ms| && ms[i + 1] == ReportTo(ms[i].config.serial)
  }

  ghost predicate StartsAllFit(w: World, ms: seq<Move>) {
    forall i :: 0 <= i < |ms| && ms[i].Start? ==> StartFits(Run(w, ms[..i]), ms[i].config, ms[i].env)
  }

  /** Over runs whose runtimes report when they come up, whatever the clock does and whichever writes fail: equal
      versions show equal trays and versions never go back, if and only if every start fits. */
  lemma {:induction false} ReportedRunTellsExactly(disk: map<string, int>, ms: seq<Move>)
    requires ReportsAtOnce(ms) && HotThroughout(World(disk, map[], []), ms)
    ensures VersionsTellDisplays(Run(World(disk, map[], []), ms).log) <==> StartsAllFit(World(disk, map[], []), ms)
  {
    hide StartFits, VersionsTellDisplays, Apply, HotOnly;
    var w := World(disk, map[], []);
    NothingToldYet(disk);
    if StartsAllFit(w, ms) {
      forall i | 0 <= i < |ms| ensures MoveFits(Run(w, ms[..i]), ms[i]) {
        assert HotOnly(Run(w, ms[..i]), ms[i]);
      }
      RunKeepsTidy(w, ms);
    }
    if VersionsTellDisplays(Run(w, ms).log) {
      forall i | 0 <= i < |ms| && ms[i].Start? ensures StartFits(Run(w, ms[..i]), ms[i].config, ms[i].env) {
        StartMustFit(w, ms, i);
      }
    }
  }

  lemma {:induction false} NothingToldYet(disk: map<string, int>)
    ensures Tidy(World(disk, map[], []))
  {
  }

  lemma {:induction false} StartMustFit(w: World, ms: seq<Move>, i: nat)
    requires ReportsAtOnce(ms) && VersionsTellDisplays(Run(w, ms).log) && i < |ms| && ms[i].Start?
    ensures StartFits(Run(w, ms[..i]), ms[i].config, ms[i].env)
  {
    hide Apply, VersionsTellDisplays;
    if ms[i].env.starts {
      LogGrows(w, ms, i);
      LogGrows(w, ms, i + 2);
      PrefixTells(Run(w, ms[..i]).log, Run(w, ms).log);
      PrefixTells(Run(w, ms[..i + 2]).log, Run(w, ms).log);
      assert ms[..i + 1][..i] == ms[..i] && ms[..i + 2][..i + 1] == ms[..i + 1];
      assert Run(w, ms[..i + 2]) == Apply(Apply(Run(w, ms[..i]), ms[i]), ms[i + 1]);
      FirstReportTellsExactly(Run(w, ms[..i]), ms[i].config, ms[i].env);
    }
  }

  lemma {:induction false} LogGrows(w: World, ms: seq<Move>, n: nat)
    requires n <= |ms|
    ensures Run(w, ms[..n]).log <= Run(w, ms).log
  {
    if n == |ms| {
      assert ms[..n] == ms;
    } else {
      LogGrows(w, ms[..|ms| - 1], n);
      assert ms[..|ms| - 1][..n] == ms[..n];
    }
  }

  lemma {:induction false} PrefixTells(a: seq<Sent>, b: seq<Sent>)
    requires a <= b && VersionsTellDisplays(b)
    ensures VersionsTellDisplays(a)
  {
  }

  // ---------------------------------------------------------------- the supervisor's runs

  datatype Event = Reconciled(configs: seq<VpConfig>, envs: seq<Env>) | Reported(serial: string) | Restarted

  predicate Answered(e: Event) {
    e.Reconciled? ==> |e.envs| == |e.configs|
  }

  function Next(w: World, e: Event): World
    requires Answered(e)
  {
    match e
    case Reconciled(configs, envs) => Reconcile(w, configs, envs)
    case Reported(serial) => Apply(w, ReportTo(serial))
    case Restarted => Apply(w, Restart)
  }

  predicate AllAnswered(es: seq<Event>) {
    forall i :: 0 <= i < |es| ==> Answered(es[i])
  }

  function Live(w: World, es: seq<Event>): World
    requires AllAnswered(es)
  {
    if es == [] then w else Next(Live(w, es[..|es| - 1]), es[|es| - 1])
  }

  /** Every start of one reconcile fits, when it is reached. */
  ghost predicate StartsFit(w: World, configs: seq<VpConfig>, envs: seq<Env>)
    requires |envs| == |configs|
    decreases |configs|
  {
    configs == []
    || (&& (Start(configs[0], envs[0]) in MovesFor(w, configs[0], envs[0]) ==> StartFits(w, configs[0], envs[0]))
        && StartsFit(Run(w, MovesFor(w, configs[0], envs[0])), configs[1..], envs[1..]))
  }

  function Wanted(w: World, configs: seq<VpConfig>): World {
    w.(runtimes := map s | s in w.runtimes && s in Incoming(configs) :: w.runtimes[s])
  }

  ghost predicate EventFits(w: World, e: Event) {
    e.Reconciled? && |e.envs| == |e.configs| ==> StartsFit(Wanted(w, e.configs), e.configs, e.envs)
  }

  lemma {:induction false} EachKeepsTidy(w: World, configs: seq<VpConfig>, envs: seq<Env>)
    requires |envs| == |configs| && Tidy(w) && StartsFit(w, configs, envs)
    ensures Tidy(ReconcileEach(w, configs, envs))
    decreases |configs|
  {
    hide Tidy, Apply, StartFits, HotOf, IdentityOf;
    if configs != [] {
      var ms := MovesFor(w, configs[0], envs[0]);
      RunOne(w, ms);
      if ms != [] {
        MoveKeepsTidy(w, ms[0]);
      }
      EachKeepsTidy(Run(w, ms), configs[1..], envs[1..]);
    }
  }

  lemma {:induction false} NextKeepsTidy(w: World, e: Event)
    requires Answered(e) && Tidy(w) && EventFits(w, e)
    ensures Tidy(Next(w, e))
  {
    hide Shown, DisplayOf, VersionsTellDisplays, StartsFit, ReconcileEach;
    match e
    case Reconciled(configs, envs) => EachKeepsTidy(Wanted(w, configs), configs, envs);
    case Reported(serial) => MoveKeepsTidy(w, ReportTo(serial));
    case Restarted => MoveKeepsTidy(w, Restart);
  }

  /** Over any run of reconciles, reports and process restarts whose starts fit, with any clock and any failed writes,
      equal versions show equal trays and versions never go back. */
  lemma {:induction false} SupervisorTells(disk: map<string, int>, es: seq<Event>)
    requires AllAnswered(es)
    requires forall i :: 0 <= i < |es| ==> EventFits(Live(World(disk, map[], []), es[..i]), es[i])
    ensures Tidy(Live(World(disk, map[], []), es))
    ensures VersionsTellDisplays(Live(World(disk, map[], []), es).log)
  {
    hide Next, EventFits, VersionsTellDisplays;
    var w := World(disk, map[], []);
    NothingToldYet(disk);
    if es != [] {
      var front := es[..|es| - 1];
      forall i | 0 <= i < |front| ensures EventFits(Live(w, front[..i]), front[i]) {
        assert es[..i] == front[..i] && es[i] == front[i];
        assert EventFits(Live(w, es[..i]), es[i]);
      }
      SupervisorTells(disk, front);
      assert EventFits(Live(w, es[..|es| - 1]), es[|es| - 1]);
      NextKeepsTidy(Live(w, front), es[|es| - 1]);
    }
  }

  // ---------------------------------------------------------------- writes that succeed make every start fit

  predicate EventStored(e: Event, serials: set<string>) {
    e.Reconciled? ==>
      && |e.envs| == |e.configs|
      && forall i :: 0 <= i < |e.configs| ==> e.configs[i].serial in serials && e.envs[i].write == Stored
  }

  lemma {:induction false} NextKeepsInv(w: World, serials: set<string>, e: Event)
    requires Inv(w, serials) && NoClash(serials) && EventStored(e, serials)
    ensures Inv(Next(w, e), serials)
  {
    hide Inv, NoClash, Reconcile;
    match e
    case Reconciled(configs, envs) => ReconcileKeepsInv(w, serials, configs, envs);
    case Reported(serial) => MoveKeepsInv(w, serials, ReportTo(serial));
    case Restarted => MoveKeepsInv(w, serials, Restart);
  }

  lemma {:induction false} LiveKeepsInv(disk: map<string, int>, es: seq<Event>, serials: set<string>)
    requires NoClash(serials) && forall i :: 0 <= i < |es| ==> EventStored(es[i], serials)
    requires AllAnswered(es)
    ensures Inv(Live(World(disk, map[], []), es), serials)
  {
    hide NoClash, Next;
    if es != [] {
      hide Inv;
      LiveKeepsInv(disk, es[..|es| - 1], serials);
      NextKeepsInv(Live(World(disk, map[], []), es[..|es| - 1]), serials, es[|es| - 1]);
    }
  }

  /** Over any run of reconciles, reports and restarts with every version write succeeding and no two serials sharing
      a directory: a serial's reported versions never go back, equal versions show equal trays, and a runtime started
      next is above every version its serial reported. */
  lemma {:induction false} StoredSupervisorTells(disk: map<string, int>, es: seq<Event>, serials: set<string>, c: VpConfig, env: Env)
    requires NoClash(serials) && AllAnswered(es) && forall i :: 0 <= i < |es| ==> EventStored(es[i], serials)
    requires c.serial in serials && env.starts && env.write == Stored
    ensures var w := Live(World(disk, map[], []), es);
            && VersionsTellDisplays(w.log)
            && Exceeds(w.log, c.serial, StartRuntime(w, c, env).runtimes[c.serial].version)
  {
    hide NoClash, Live, VersionsTellDisplays, SafeSerial, Shown, DisplayOf;
    LiveKeepsInv(disk, es, serials);
    StartKeepsInv(Live(World(disk, map[], []), es), serials, c, env);
  }

  // ---------------------------------------------------------------- failed writes

  function TrayName(i: nat): string {
    if i % 2 == 0 then "red" else "blue"
  }

  function Failing(now: int): Env {
    Env(now, Kept, true, true)
  }

  /** The trays change back and forth `n` times within a second, and no version write succeeds. */
  function Flicker(s: string, n: nat): seq<Move> {
    seq(n, i requires 0 <= i < n => ApplyHot(Plain(s, TrayName(i + 1)), Failing(100)))
  }

  /** A printer that comes up, flickers `n` times and reports; the process restarts, and `n` seconds after the first start
      the printer comes up with other trays and reports again. */
  function LateRestart(s: string, n: nat): seq<Move> {
    [Start(Plain(s, TrayName(0)), Fine(100))] + Flicker(s, n)
    + [ReportTo(s), Restart, Start(Plain(s, TrayName(n + 1)), Fine(100 + n)), ReportTo(s)]
  }

  /** The runtime after `n` flickers: its version ran ahead of the file. */
  function Flickered(s: string, n: nat): World {
    var c := Plain(s, TrayName(n));
    World(map[SafeSerial(s) := 100], map[s := Runtime(c, 100 + n, [TrayName(n)], HotOf(c))], [])
  }

  lemma {:induction false} FlickerStep(s: string, n: nat)
    ensures Apply(Flickered(s, n), ApplyHot(Plain(s, TrayName(n + 1)), Failing(100))) == Flickered(s, n + 1)
  {
    hide Shown, SafeSerial, HotOf;
    Shows(s, TrayName(n + 1));
    assert "red"[0] != "blue"[0];
    assert [TrayName(n)][0] != [TrayName(n + 1)][0];
  }

  lemma {:induction false} RunConcat(w: World, a: seq<Move>, b: seq<Move>)
    ensures Run(w, a + b) == Run(Run(w, a), b)
  {
    hide Apply;
    if b == [] {
      assert a + b == a;
    } else {
      RunConcat(w, a, b[..|b| - 1]);
      assert (a + b)[..|a + b| - 1] == a + b[..|b| - 1];
    }
  }

  lemma {:induction false} FlickerRuns(s: string, n: nat)
    ensures Run(Flickered(s, 0), Flicker(s, n)) == Flickered(s, n)
  {
    hide Apply, Flickered, Failing;
    if n > 0 {
      FlickerRuns(s, n - 1);
      FlickerStep(s, n - 1);
      assert Flicker(s, n)[..n - 1] == Flicker(s, n - 1);
    } else {
      assert Flicker(s, 0) == [];
    }
  }

  lemma {:induction false} RunFour(w: World, a: Move, b: Move, c: Move, d: Move)
    ensures Run(w, [a]) == Apply(w, a)
    ensures Run(w, [a, b, c, d]) == Apply(Apply(Apply(Apply(w, a), b), c), d)
  {
    hide Apply;
    assert [a, b, c, d][..3] == [a, b, c] && [a, b, c][..2] == [a, b] && [a, b][..1] == [a] && [a][..0] == [];
    assert Run(w, [a]) == Apply(Run(w, []), a);
    assert Run(w, [a, b]) == Apply(Run(w, [a]), b);
    assert Run(w, [a, b, c]) == Apply(Run(w, [a, b]), c);
  }

  lemma {:induction false} FirstStart(s: string)
    ensures Apply(World(map[], map[], []), Start(Plain(s, TrayName(0)), Fine(100))) == Flickered(s, 0)
  {
    hide Shown, SafeSerial, HotOf;
    Shows(s, TrayName(0));
  }

  lemma {:induction false} LastReports(s: string, n: nat)
    requires n >= 1
    ensures var w := Apply(Apply(Flickered(s, n), ReportTo(s)), Restart);
            Apply(Apply(w, Start(Plain(s, TrayName(n + 1)), Fine(100 + n))), ReportTo(s)).log
            == [Sent(s, 100 + n, Display(1, 1, [TrayName(n)])), Sent(s, 100 + n, Display(1, 1, [TrayName(n + 1)]))]
  {
    hide Shown, SafeSerial, HotOf;
    Shows(s, TrayName(n));
    Shows(s, TrayName(n + 1));
  }

  /** The restart need not come within the second: failed writes can leave the file any number of versions behind, and
      a restart that many seconds later shows one version with two displays. */
  lemma {:induction false} LateRestartBreaks(s: string, n: nat)
    requires n >= 1
    ensures !VersionsTellDisplays(Run(World(map[], map[], []), LateRestart(s, n)).log)
  {
    hide Apply, Flickered, Flicker, Run, Plain, Fine;
    var w := World(map[], map[], []);
    var first := Start(Plain(s, TrayName(0)), Fine(100));
    var again := Start(Plain(s, TrayName(n + 1)), Fine(100 + n));
    var last := [ReportTo(s), Restart, again, ReportTo(s)];
    RunConcat(w, [first] + Flicker(s, n), last);
    RunConcat(w, [first], Flicker(s, n));
    RunFour(w, first, first, first, first);
    FirstStart(s);
    FlickerRuns(s, n);
    RunFour(Flickered(s, n), ReportTo(s), Restart, again, ReportTo(s));
    LastReports(s, n);
    var log := Run(w, LateRestart(s, n)).log;
    assert "red"[0] != "blue"[0];
    assert [TrayName(n)][0] != [TrayName(n + 1)][0];
    assert log[0].display != log[1].display && log[0].serial == log[1].serial && log[0].version == log[1].version;
  }
}
