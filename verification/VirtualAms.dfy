/** The virtual printers' AMS version (vprinter/manager.py): a counter that must move exactly with
    the displayed pool, across hot changes, restarts and steps of the wall clock. */
module VirtualAms {
  import opened Prelude

  /** A tray: the fields the slicer displays, and the volatile rest. */
  datatype Tray = Tray(identity: string, volatile: string)

  datatype VpConfig = VpConfig(
    serial: string, model: string, name: string, fw: string, bindIp: string,
    units: nat, trays: nat, amsType: string, members: seq<(string, string)>, pool: seq<Tray>, enabled: bool)

  /** What, if changed, restarts the runtime. */
  datatype Fingerprint = Fingerprint(
    serial: string, model: string, name: string, fw: string, bindIp: string, units: nat, trays: nat, amsType: string)

  function IdentityOf(c: VpConfig): Fingerprint {
    Fingerprint(c.serial, c.model, c.name, c.fw, c.bindIp, c.units, c.trays, c.amsType)
  }

  function Identities(pool: seq<Tray>): seq<string> {
    seq(|pool|, i requires 0 <= i < |pool| => pool[i].identity)
  }

  datatype HotState = HotState(members: seq<(string, string)>, identities: seq<string>)

  function HotOf(c: VpConfig): HotState {
    HotState(c.members, Identities(c.pool))
  }

  /** The trays a report shows: the pool cut to units times trays. Overflow trays are never sent. */
  function Shown(c: VpConfig): seq<string> {
    Identities(c.pool[..Min(c.units * c.trays, |c.pool|)])
  }

  datatype Display = Display(units: nat, trays: nat, shown: seq<string>)

  function DisplayOf(c: VpConfig): Display {
    Display(c.units, c.trays, Shown(c))
  }

  datatype Runtime = Runtime(config: VpConfig, version: int, signature: seq<string>, hot: HotState)

  /** One report sent to a slicer. */
  datatype Sent = Sent(serial: string, version: int, display: Display)

  /** The version files, the live runtimes and every report ever sent. */
  datatype World = World(disk: map<string, int>, runtimes: map<string, Runtime>, log: seq<Sent>)

  // ----- the version file -------------------------------------------------------------------------

  predicate SafeChar(c: char) {
    'A' <= c <= 'Z' || 'a' <= c <= 'z' || '0' <= c <= '9' || c == '-' || c == '_'
  }

  /** The directory name derived from a serial. */
  function SafeSerial(serial: string): string {
    seq(|serial|, i requires 0 <= i < |serial| => if SafeChar(serial[i]) then serial[i] else '_')
  }

  /** A write can succeed, fail and leave the file, or fail halfway and leave no number in it. */
  datatype Write = Stored | Kept | Wiped

  function Persist(disk: map<string, int>, serial: string, version: int, write: Write): map<string, int> {
    match write
    case Stored => disk[SafeSerial(serial) := version]
    case Kept => disk
    case Wiped => disk - {SafeSerial(serial)}
  }

  function ReadPersisted(disk: map<string, int>, serial: string): int {
    if SafeSerial(serial) in disk then disk[SafeSerial(serial)] else 0
  }

  // ----- moves ------------------------------------------------------------------------------------

  /** What the environment answers: the wall clock in seconds, the fate of the version write,
      whether the servers come up, whether the push to the client succeeds. */
  datatype Env = Env(now: int, write: Write, starts: bool, pushes: bool)

  datatype Move =
    | Start(config: VpConfig, env: Env)
    | ApplyHot(config: VpConfig, env: Env)
    | Stop(serial: string)
    | ReportTo(serial: string)
    | Restart

  function StartRuntime(w: World, c: VpConfig, env: Env): World {
    var version := Max(env.now, ReadPersisted(w.disk, c.serial) + 1);
    World(Persist(w.disk, c.serial, version, env.write),
          if env.starts then w.runtimes[c.serial := Runtime(c, version, Shown(c), HotOf(c))]
          else w.runtimes - {c.serial},
          w.log)
  }

  function HotRuntime(w: World, c: VpConfig, env: Env): World
    requires c.serial in w.runtimes
  {
    var r := w.runtimes[c.serial];
    var changed := Shown(c) != r.signature;
    var version := if changed then Max(env.now, r.version + 1) else r.version;
    World(if changed then Persist(w.disk, c.serial, version, env.write) else w.disk,
          w.runtimes[c.serial := Runtime(c, version, Shown(c), if env.pushes then HotOf(c) else r.hot)],
          w.log)
  }

  function Apply(w: World, m: Move): World {
    match m
    case Start(c, env) => StartRuntime(w, c, env)
    case ApplyHot(c, env) => if c.serial in w.runtimes then HotRuntime(w, c, env) else w
    case Stop(serial) => w.(runtimes := w.runtimes - {serial})
    case ReportTo(serial) =>
      if serial in w.runtimes then
        var r := w.runtimes[serial];
        w.(log := w.log + [Sent(serial, r.version, DisplayOf(r.config))])
      else w
    case Restart => w.(runtimes := map[])
  }

  function Run(w: World, ms: seq<Move>): World {
    if ms == [] then w else Apply(Run(w, ms[..|ms| - 1]), ms[|ms| - 1])
  }

  // ----- reconciling ------------------------------------------------------------------------------

  /** What one configuration asks of the supervisor, given the live runtimes. */
  function MovesFor(w: World, c: VpConfig, env: Env): seq<Move> {
    if !c.enabled then []
    else if c.serial in w.runtimes && IdentityOf(w.runtimes[c.serial].config) == IdentityOf(c) then
      if w.runtimes[c.serial].hot != HotOf(c) then [ApplyHot(c, env)] else []
    else [Start(c, env)]
  }

  function ReconcileEach(w: World, configs: seq<VpConfig>, envs: seq<Env>): World
    requires |envs| == |configs|
    decreases |configs|
  {
    if configs == [] then w else ReconcileEach(Run(w, MovesFor(w, configs[0], envs[0])), configs[1..], envs[1..])
  }

  function Incoming(configs: seq<VpConfig>): set<string> {
    set i | 0 <= i < |configs| && configs[i].enabled :: configs[i].serial
  }

  /** Stop what is no longer wanted, then start, hot-apply or leave each configuration. */
  function Reconcile(w: World, configs: seq<VpConfig>, envs: seq<Env>): World
    requires |envs| == |configs|
  {
    ReconcileEach(w.(runtimes := map s | s in w.runtimes && s in Incoming(configs) :: w.runtimes[s]), configs, envs)
  }

  class Supervisor {
    var disk: map<string, int>
    var runtimes: map<string, Runtime>
    ghost var log: seq<Sent>

    ghost function Value(): World
      reads this
    {
      World(disk, runtimes, log)
    }

    constructor (disk: map<string, int>)
      ensures Value() == World(disk, map[], [])
    {
      this.disk := disk;
      runtimes, log := map[], [];
    }

    method PersistVersion(serial: string, version: int, write: Write)
      modifies this`disk
      ensures disk == Persist(old(disk), serial, version, write)
    {
      match write {
        case Stored => disk := disk[SafeSerial(serial) := version];
        case Kept =>
        case Wiped => disk := disk - {SafeSerial(serial)};
      }
    }

    method StartFresh(c: VpConfig, env: Env)
      modifies this
      ensures Value() == Apply(old(Value()), Start(c, env))
    {
      runtimes := runtimes - {c.serial};
      var version := Max(env.now, ReadPersisted(disk, c.serial) + 1);
      PersistVersion(c.serial, version, env.write);
      if env.starts {
        runtimes := runtimes[c.serial := Runtime(c, version, Shown(c), HotOf(c))];
        assert runtimes == old(runtimes)[c.serial := Runtime(c, version, Shown(c), HotOf(c))];
      }
    }

    method HotApply(c: VpConfig, env: Env)
      requires c.serial in runtimes
      modifies this
      ensures Value() == Apply(old(Value()), ApplyHot(c, env))
    {
      var r := runtimes[c.serial];
      var signature := Shown(c);
      if signature != r.signature {
        r := r.(version := Max(env.now, r.version + 1), signature := signature);
        PersistVersion(c.serial, r.version, env.write);
      }
      r := r.(config := c);
      if env.pushes {
        r := r.(hot := HotOf(c));
      }
      runtimes := runtimes[c.serial := r];
    }

    method ReconcileAll(configs: seq<VpConfig>, envs: seq<Env>)
      requires |envs| == |configs|
      modifies this
      ensures Value() == Reconcile(old(Value()), configs, envs)
    {
      var incoming := Incoming(configs);
      runtimes := map s | s in runtimes && s in incoming :: runtimes[s];
      ghost var kept := Value();
      for i := 0 to |configs|
        invariant ReconcileEach(Value(), configs[i..], envs[i..]) == ReconcileEach(kept, configs, envs)
      {
        var c, env := configs[i], envs[i];
        ghost var before := Value();
        assert configs[i..][0] == c && configs[i..][1..] == configs[i + 1..];
        assert envs[i..][0] == env && envs[i..][1..] == envs[i + 1..];
        if c.enabled {
          if c.serial in runtimes && IdentityOf(runtimes[c.serial].config) == IdentityOf(c) {
            if runtimes[c.serial].hot != HotOf(c) {
              HotApply(c, env);
            }
          } else {
            StartFresh(c, env);
          }
        }
        assert Value() == Run(before, MovesFor(before, c, env)) by {
          RunOne(before, MovesFor(before, c, env));
        }
      }
    }
  }

  lemma {:induction false} RunOne(w: World, ms: seq<Move>)
    requires |ms| <= 1
    ensures Run(w, ms) == if ms == [] then w else Apply(w, ms[0])
  {
  }
}
