/** What the runtimes serve after a reconcile: the members, the address and the trays of the cloud's configurations. */
module VirtualAmsServing {
  import opened Prelude
  import opened VirtualAms
  import opened VirtualAmsSupervision

  // ---------------------------------------------------------------- what is served

  predicate SameFacts(a: VpConfig, b: VpConfig) {
    && a.serial == b.serial && a.model == b.model && a.name == b.name && a.fw == b.fw && a.bindIp == b.bindIp
    && a.units == b.units && a.trays == b.trays && a.amsType == b.amsType
  }

  /** Two pools look the same to the slicer, tray by tray. */
  predicate SameTrays(a: seq<Tray>, b: seq<Tray>) {
    |a| == |b| && forall i :: 0 <= i < |a| ==> a[i].identity == b[i].identity
  }

  predicate SameContent(a: VpConfig, b: VpConfig) {
    a.members == b.members && SameTrays(a.pool, b.pool)
  }

  /** The runtime of that serial serves the configuration. */
  predicate Serves(w: World, c: VpConfig) {
    c.serial in w.runtimes && SameFacts(w.runtimes[c.serial].config, c) && SameContent(w.runtimes[c.serial].config, c)
  }

  predicate LivesAlike(w: World, c: VpConfig) {
    c.serial in w.runtimes && SameFacts(w.runtimes[c.serial].config, c)
  }

  /** The supervisor takes the configuration for the one applied last. */
  predicate TakenForApplied(w: World, c: VpConfig)
    requires c.serial in w.runtimes
  {
    var hot := w.runtimes[c.serial].hot;
    && hot.members == c.members && |hot.identities| == |c.pool|
    && forall i :: 0 <= i < |c.pool| ==> hot.identities[i] == c.pool[i].identity
  }

  /** A report shows the trays that fit, in order, each as the slicer sees it. */
  lemma {:induction false} ReportShowsWhatFits(c: VpConfig)
    ensures var d := DisplayOf(c);
            && d.units == c.units && d.trays == c.trays
            && (|d.shown| == if |c.pool| < c.units * c.trays then |c.pool| else c.units * c.trays)
            && forall i :: 0 <= i < |d.shown| ==> d.shown[i] == c.pool[i].identity
  {
  }

  // ---------------------------------------------------------------- one configuration

  lemma {:induction false} FactsAreIdentity(a: VpConfig, b: VpConfig)
    ensures IdentityOf(a) == IdentityOf(b) <==> SameFacts(a, b)
  {
  }

  lemma {:induction false} TakenIsHot(w: World, c: VpConfig)
    requires c.serial in w.runtimes
    ensures w.runtimes[c.serial].hot == HotOf(c) <==> TakenForApplied(w, c)
  {
  }

  lemma {:induction false} ItselfServes(c: VpConfig)
    ensures SameFacts(c, c) && SameContent(c, c)
  {
  }

  lemma {:induction false} OneServes(w: World, c: VpConfig, env: Env)
    requires c.enabled
    ensures var w' := Run(w, MovesFor(w, c, env));
            && (Serves(w', c) <==>
                  if LivesAlike(w, c) then TakenForApplied(w, c) ==> SameContent(w.runtimes[c.serial].config, c) else env.starts)
            && forall s :: s != c.serial ==> (s in w.runtimes <==> s in w'.runtimes) && (s in w.runtimes ==> w'.runtimes[s] == w.runtimes[s])
  {
    hide IdentityOf, HotOf, SameFacts, SameContent, TakenForApplied, Shown, Persist, ReadPersisted;
    RunOne(w, MovesFor(w, c, env));
    ItselfServes(c);
    if c.serial in w.runtimes {
      FactsAreIdentity(w.runtimes[c.serial].config, c);
      TakenIsHot(w, c);
    }
  }

  // ---------------------------------------------------------------- the whole list

  predicate Unnamed(configs: seq<VpConfig>, serial: string) {
    forall i :: 0 <= i < |configs| && configs[i].enabled ==> configs[i].serial != serial
  }

  predicate SameRuntime(w: World, w': World, s: string) {
    (s in w.runtimes <==> s in w'.runtimes) && (s in w.runtimes ==> w'.runtimes[s] == w.runtimes[s])
  }

  lemma {:induction false} OthersKeep(w: World, configs: seq<VpConfig>, envs: seq<Env>, s: string)
    requires |envs| == |configs| && Unnamed(configs, s)
    ensures SameRuntime(w, ReconcileEach(w, configs, envs), s)
    decreases |configs|
  {
    hide MovesFor, Serves, SameContent, SameFacts, TakenForApplied, LivesAlike;
    if configs != [] {
      FirstKeeps(w, configs[0], envs[0], s);
      OthersKeep(Run(w, MovesFor(w, configs[0], envs[0])), configs[1..], envs[1..], s);
    }
  }

  lemma {:induction false} FirstKeeps(w: World, c: VpConfig, env: Env, s: string)
    requires c.enabled ==> c.serial != s
    ensures SameRuntime(w, Run(w, MovesFor(w, c, env)), s)
  {
    hide Serves, SameContent, SameFacts, TakenForApplied, LivesAlike;
    if c.enabled {
      hide MovesFor;
      OneServes(w, c, env);
    } else {
      RunOne(w, MovesFor(w, c, env));
    }
  }

  /** The configuration at `i` is enabled, and no other enabled one has its serial. */
  predicate NamedOnce(configs: seq<VpConfig>, i: nat) {
    && i < |configs| && configs[i].enabled
    && forall j :: 0 <= j < |configs| && j != i && configs[j].enabled ==> configs[j].serial != configs[i].serial
  }

  /** When `c` will be served by the end of a reconcile that starts at `w`. */
  predicate WillServe(w: World, c: VpConfig, env: Env) {
    if LivesAlike(w, c) then TakenForApplied(w, c) ==> SameContent(w.runtimes[c.serial].config, c) else env.starts
  }

  lemma {:induction false} SameWill(w: World, w': World, c: VpConfig, env: Env)
    requires SameRuntime(w, w', c.serial)
    ensures WillServe(w, c, env) == WillServe(w', c, env) && Serves(w, c) == Serves(w', c)
  {
  }

  lemma {:induction false} EachServes(w: World, configs: seq<VpConfig>, envs: seq<Env>, i: nat)
    requires |envs| == |configs| && NamedOnce(configs, i)
    ensures Serves(ReconcileEach(w, configs, envs), configs[i]) <==> WillServe(w, configs[i], envs[i])
    decreases |configs|
  {
    hide MovesFor, Serves, SameRuntime;
    var next := Run(w, MovesFor(w, configs[0], envs[0]));
    if i == 0 {
      OneServes(w, configs[0], envs[0]);
      OthersKeep(next, configs[1..], envs[1..], configs[0].serial);
      SameWill(next, ReconcileEach(next, configs[1..], envs[1..]), configs[0], envs[0]);
    } else {
      assert NamedOnce(configs[1..], i - 1);
      FirstKeeps(w, configs[0], envs[0], configs[i].serial);
      SameWill(w, next, configs[i], envs[i]);
      EachServes(next, configs[1..], envs[1..], i - 1);
    }
  }

  lemma {:induction false} ListedKeepsRuntime(w: World, configs: seq<VpConfig>, s: string)
    ensures Unnamed(configs, s) ==> s !in Wanted(w, configs).runtimes
    ensures !Unnamed(configs, s) ==> SameRuntime(w, Wanted(w, configs), s)
  {
  }

  /** After a reconcile no runtime is left of a serial that no enabled configuration has. An enabled configuration is served
      exactly when its runtime comes up or one with its very facts was live, except in one case: the supervisor takes it
      for the one it applied last although the runtime serves another. */
  lemma {:induction false} ReconcileServesExactly(w: World, configs: seq<VpConfig>, envs: seq<Env>, i: nat)
    requires |envs| == |configs|
    ensures forall s :: Unnamed(configs, s) ==> s !in Reconcile(w, configs, envs).runtimes
    ensures NamedOnce(configs, i) ==> (Serves(Reconcile(w, configs, envs), configs[i]) <==> WillServe(w, configs[i], envs[i]))
  {
    hide ReconcileEach, Serves, WillServe, SameRuntime, Unnamed, NamedOnce;
    var kept := Wanted(w, configs);
    assert Reconcile(w, configs, envs) == ReconcileEach(kept, configs, envs);
    forall s | Unnamed(configs, s) ensures s !in Reconcile(w, configs, envs).runtimes {
      ListedKeepsRuntime(w, configs, s);
      OthersKeep(kept, configs, envs, s);
      SameDomain(kept, ReconcileEach(kept, configs, envs), s);
    }
    if NamedOnce(configs, i) {
      EachServes(kept, configs, envs, i);
      NamedIsNamed(configs, i);
      ListedKeepsRuntime(w, configs, configs[i].serial);
      SameWill(w, kept, configs[i], envs[i]);
    }
  }

  lemma {:induction false} SameDomain(w: World, w': World, s: string)
    requires SameRuntime(w, w', s)
    ensures s in w.runtimes <==> s in w'.runtimes
  {
  }

  lemma {:induction false} NamedIsNamed(configs: seq<VpConfig>, i: nat)
    requires NamedOnce(configs, i)
    ensures i < |configs| && !Unnamed(configs, configs[i].serial)
  {
  }

  // ---------------------------------------------------------------- over runs whose pushes succeed

  /** The supervisor knows what each runtime serves. */
  predicate Known(w: World) {
    forall s :: s in w.runtimes ==> w.runtimes[s].hot == HotOf(w.runtimes[s].config) && w.runtimes[s].config.serial == s
  }

  predicate Pushed(e: Event) {
    e.Reconciled? ==> forall i :: 0 <= i < |e.envs| ==> e.envs[i].pushes
  }

  lemma {:induction false} EachKeepsKnown(w: World, configs: seq<VpConfig>, envs: seq<Env>)
    requires |envs| == |configs| && Known(w) && forall i :: 0 <= i < |envs| ==> envs[i].pushes
    ensures Known(ReconcileEach(w, configs, envs))
    decreases |configs|
  {
    if configs != [] {
      hide IdentityOf, HotOf, Persist, ReadPersisted, Shown;
      RunOne(w, MovesFor(w, configs[0], envs[0]));
      EachKeepsKnown(Run(w, MovesFor(w, configs[0], envs[0])), configs[1..], envs[1..]);
    }
  }

  lemma {:induction false} LiveIsKnown(disk: map<string, int>, es: seq<Event>)
    requires AllAnswered(es) && forall i :: 0 <= i < |es| ==> Pushed(es[i])
    ensures Known(Live(World(disk, map[], []), es))
  {
    if es != [] {
      hide HotOf, ReconcileEach;
      LiveIsKnown(disk, es[..|es| - 1]);
      var w, e := Live(World(disk, map[], []), es[..|es| - 1]), es[|es| - 1];
      if e.Reconciled? {
        EachKeepsKnown(Wanted(w, e.configs), e.configs, e.envs);
      }
    }
  }

  /** Over any run whose pushes succeeded, every enabled configuration of the next reconcile is served exactly when its
      runtime comes up or one with its facts is live. */
  lemma {:induction false} PushedRunServes(disk: map<string, int>, es: seq<Event>, configs: seq<VpConfig>, envs: seq<Env>, i: nat)
    requires AllAnswered(es) && forall k :: 0 <= k < |es| ==> Pushed(es[k])
    requires |envs| == |configs| && NamedOnce(configs, i)
    ensures var w := Live(World(disk, map[], []), es);
            Serves(Reconcile(w, configs, envs), configs[i]) <==> LivesAlike(w, configs[i]) || envs[i].starts
  {
    hide Live, Reconcile, NamedOnce, Pushed, Serves, HotOf, SameFacts;
    var w := Live(World(disk, map[], []), es);
    LiveIsKnown(disk, es);
    ReconcileServesExactly(w, configs, envs, i);
    NamedIsNamed(configs, i);
    if LivesAlike(w, configs[i]) && TakenForApplied(w, configs[i]) {
      KnownIsServed(w, configs[i]);
    }
  }

  lemma {:induction false} KnownIsServed(w: World, c: VpConfig)
    requires Known(w) && LivesAlike(w, c) && TakenForApplied(w, c)
    ensures SameContent(w.runtimes[c.serial].config, c)
  {
    var r := w.runtimes[c.serial];
    assert r.hot == HotOf(r.config);
    forall i | 0 <= i < |c.pool| ensures r.config.pool[i].identity == c.pool[i].identity {
      assert r.hot.identities[i] == c.pool[i].identity;
    }
  }

  // ---------------------------------------------------------------- a failed push and a change of mind

  function Single(serial: string, members: seq<(string, string)>): VpConfig {
    VpConfig(serial, "", "", "", "", 1, 1, "", members, [], true)
  }

  function Change(serial: string, members: seq<(string, string)>, pushes: bool): Event {
    Reconciled([Single(serial, members)], [Env(0, Stored, true, pushes)])
  }

  /** Members `a`, then `b` with a push that fails, then `a` again, `n` times. */
  function ChangeOfMind(s: string, a: seq<(string, string)>, b: seq<(string, string)>, n: nat): seq<Event> {
    if n == 0 then [Change(s, a, true)] + [Change(s, b, false)] else ChangeOfMind(s, a, b, n - 1) + [Change(s, a, true)]
  }

  lemma {:induction false} ChangeStep(w: World, s: string, members: seq<(string, string)>, pushes: bool)
    ensures var c, e := Single(s, members), Env(0, Stored, true, pushes);
            (Next(w, Change(s, members, pushes)).runtimes == Run(Wanted(w, [c]), MovesFor(Wanted(w, [c]), c, e)).runtimes)
    ensures SameRuntime(w, Wanted(w, [Single(s, members)]), s)
  {
    hide MovesFor, Run, ReconcileEach;
    var c, e := Single(s, members), Env(0, Stored, true, pushes);
    EachOne(Wanted(w, [c]), c, e);
    assert [c][0].enabled && [c][0].serial == s;
    ListedKeepsRuntime(w, [c], s);
  }

  lemma {:induction false} EachOne(w: World, c: VpConfig, e: Env)
    ensures ReconcileEach(w, [c], [e]) == Run(w, MovesFor(w, c, e))
  {
    hide MovesFor, Run;
    var after := Run(w, MovesFor(w, c, e));
    assert [c][1..] == [] && [e][1..] == [];
    assert ReconcileEach(after, [], []) == after;
  }

  lemma {:induction false} LiveSnoc(w: World, es: seq<Event>, e: Event)
    requires AllAnswered(es) && Answered(e)
    ensures AllAnswered(es + [e]) && Live(w, es + [e]) == Next(Live(w, es), e)
  {
    hide Next;
    assert (es + [e])[..|es|] == es;
  }

  lemma {:induction false} LiveOne(w: World, e: Event)
    requires Answered(e)
    ensures AllAnswered([e]) && Live(w, [e]) == Next(w, e)
  {
    hide Next;
    LiveSnoc(w, [], e);
    assert [] + [e] == [e];
  }

  lemma {:induction false} OtherMembers(s: string, a: seq<(string, string)>, b: seq<(string, string)>)
    requires a != b
    ensures HotOf(Single(s, a)) != HotOf(Single(s, b))
  {
  }

  lemma {:induction false} FirstChange(w: World, s: string, a: seq<(string, string)>)
    requires s !in w.runtimes
    ensures var w' := Next(w, Change(s, a, true));
            s in w'.runtimes && w'.runtimes[s].config == Single(s, a) && w'.runtimes[s].hot == HotOf(Single(s, a))
  {
    hide Reconcile, HotOf, Shown;
    ChangeStep(w, s, a, true);
    var c, e := Single(s, a), Env(0, Stored, true, true);
    RunOne(Wanted(w, [c]), MovesFor(Wanted(w, [c]), c, e));
  }

  lemma {:induction false} FailedChange(w: World, s: string, a: seq<(string, string)>, b: seq<(string, string)>)
    requires a != b && s in w.runtimes && w.runtimes[s].config == Single(s, a) && w.runtimes[s].hot == HotOf(Single(s, a))
    ensures var w' := Next(w, Change(s, b, false));
            s in w'.runtimes && w'.runtimes[s].config == Single(s, b) && w'.runtimes[s].hot == HotOf(Single(s, a))
  {
    hide Reconcile, HotOf, Shown;
    ChangeStep(w, s, b, false);
    OtherMembers(s, a, b);
    var c, e := Single(s, b), Env(0, Stored, true, false);
    RunOne(Wanted(w, [c]), MovesFor(Wanted(w, [c]), c, e));
  }

  lemma {:induction false} NoChange(w: World, s: string, a: seq<(string, string)>, b: seq<(string, string)>)
    requires s in w.runtimes && w.runtimes[s].config == Single(s, b) && w.runtimes[s].hot == HotOf(Single(s, a))
    ensures var w' := Next(w, Change(s, a, true));
            s in w'.runtimes && w'.runtimes[s] == w.runtimes[s]
  {
    hide Reconcile, HotOf, Shown;
    ChangeStep(w, s, a, true);
    var c, e := Single(s, a), Env(0, Stored, true, true);
    RunOne(Wanted(w, [c]), MovesFor(Wanted(w, [c]), c, e));
  }

  /** Members `a`, then `b` with a push that fails, then `a` again: the runtime goes on letting `b` in, however many
      reconciles to `a` follow. */
  lemma {:induction false} ChangeOfMindIsLost(disk: map<string, int>, s: string, a: seq<(string, string)>, b: seq<(string, string)>, n: nat)
    requires a != b
    ensures AllAnswered(ChangeOfMind(s, a, b, n))
    ensures var w := Live(World(disk, map[], []), ChangeOfMind(s, a, b, n));
            && s in w.runtimes && w.runtimes[s].config == Single(s, b) && w.runtimes[s].hot == HotOf(Single(s, a))
            && !Serves(w, Single(s, a))
  {
    hide Next, HotOf, Live, AllAnswered;
    var start := World(disk, map[], []);
    if n == 0 {
      LiveOne(start, Change(s, a, true));
      LiveSnoc(start, [Change(s, a, true)], Change(s, b, false));
      FirstChange(start, s, a);
      FailedChange(Live(start, [Change(s, a, true)]), s, a, b);
    } else {
      ChangeOfMindIsLost(disk, s, a, b, n - 1);
      LiveSnoc(start, ChangeOfMind(s, a, b, n - 1), Change(s, a, true));
      NoChange(Live(start, ChangeOfMind(s, a, b, n - 1)), s, a, b);
    }
  }
}
