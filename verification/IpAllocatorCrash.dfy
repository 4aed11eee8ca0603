/** What a crash in the middle of an operation leaves: the process dies, the kernel keeps its addresses, and the next
    process knows only the bindings the state file holds. */
module IpAllocatorCrash {
  import opened Prelude
  import opened IpAllocators
  import opened IpAllocatorRuns

  /** What lives in memory and in the kernel, and what the state file holds. */
  datatype World = World(state: State, saved: map<string, Held>)

  function Reach(w: World, m: Micro): World {
    match m
    case Bind(model, h) => w.(state := w.state.(bindings := w.state.bindings[model := h]))
    case Unbind(model) => w.(state := w.state.(bindings := w.state.bindings - {model}))
    case Save => w.(saved := w.state.bindings)
    case Add(h) => w.(state := w.state.(kernel := w.state.kernel + {h}))
    case Del(h) => w.(state := w.state.(kernel := w.state.kernel - {h}))
    case Stuck(h) => w.(state := w.state.(unreleased := w.state.unreleased + {h}))
  }

  function Perform(w: World, script: seq<Micro>): World {
    if script == [] then w else Reach(Perform(w, script[..|script| - 1]), script[|script| - 1])
  }

  function Script(s: State, op: Op): seq<Micro> {
    match op
    case DoAllocate(model, host) => AllocateScript(s, model, host)
    case DoEnsure(model, ip, routed, host) => EnsureScript(s, model, ip, routed, host)
    case DoRelease(model, host) => ReleaseScript(s, model, host)
  }

  // ---------------------------------------------------------------- scripts, step by step

  lemma {:induction false} PerformOne(w: World, a: Micro)
    ensures Perform(w, [a]) == Reach(w, a) && Perform(w, []) == w
  {
    hide Reach;
    assert [a][..0] == [];
    assert Perform(w, [a]) == Reach(Perform(w, []), a);
  }

  lemma {:induction false} PerformConcat(w: World, a: seq<Micro>, b: seq<Micro>)
    ensures Perform(w, a + b) == Perform(Perform(w, a), b)
  {
    hide Reach;
    if b == [] {
      assert a + b == a;
    } else {
      PerformConcat(w, a, b[..|b| - 1]);
      assert (a + b)[..|a + b| - 1] == a + b[..|b| - 1];
    }
  }

  lemma {:induction false} PerformThree(w: World, a: Micro, b: Micro, c: Micro)
    ensures Perform(w, [a, b]) == Reach(Reach(w, a), b)
    ensures Perform(w, [a, b, c]) == Reach(Reach(Reach(w, a), b), c)
  {
    hide Reach;
    PerformOne(w, a);
    assert [a, b][..1] == [a] && [a, b, c][..2] == [a, b];
    assert Perform(w, [a, b]) == Reach(Perform(w, [a]), b);
    assert Perform(w, [a, b, c]) == Reach(Perform(w, [a, b]), c);
  }

  // ---------------------------------------------------------------- a finished script is the operation

  lemma {:induction false} FreshScriptRuns(s: State, model: string, host: Host, saved: map<string, Held>)
    ensures Perform(World(s, saved), FreshScript(s, model, host)).state == Fresh(s, model, host).0
    ensures FreshScript(s, model, host) != [] ==>
              Perform(World(s, saved), FreshScript(s, model, host)).saved == Fresh(s, model, host).0.bindings
  {
    hide Candidates, FirstFree;
    var script := FreshScript(s, model, host);
    if script != [] {
      PerformThree(World(s, saved), script[0], script[1], script[2]);
      assert script == [script[0], script[1], script[2]];
    }
  }

  lemma {:induction false} AllocateScriptRuns(s: State, model: string, host: Host)
    ensures Perform(World(s, s.bindings), AllocateScript(s, model, host))
            == World(Allocate(s, model, host).0, Allocate(s, model, host).0.bindings)
  {
    hide Fresh, FreshScript;
    var w := World(s, s.bindings);
    FreshSilent(s, model, host);
    if model !in s.bindings {
      FreshScriptRuns(s, model, host, s.bindings);
    } else if Claims(host, s.bindings[model]) {
      PerformOne(w, Add(s.bindings[model]));
    } else {
      var t := s.(bindings := s.bindings - {model});
      FreshSilent(t, model, host);
      PerformThree(w, Unbind(model), Save, Save);
      PerformConcat(w, [Unbind(model), Save], FreshScript(t, model, host));
      FreshScriptRuns(t, model, host, t.bindings);
    }
  }

  lemma {:induction false} FreshSilent(s: State, model: string, host: Host)
    ensures FreshScript(s, model, host) == [] ==> Fresh(s, model, host).0 == s
  {
  }

  lemma {:induction false} EnsureScriptRuns(s: State, model: string, ip: Address, routed: Option<Prefix>, host: Host)
    ensures Perform(World(s, s.bindings), EnsureScript(s, model, ip, routed, host))
            == World(Ensure(s, model, ip, routed, host).0, Ensure(s, model, ip, routed, host).0.bindings)
  {
    hide TargetIface, Perform;
    var w := World(s, s.bindings);
    var iface := TargetIface(s, model, ip, routed, host);
    if (routed.Some? && ip.Text?) || !Truthy(iface) {
      PerformOne(w, Save);
    } else {
      var h := Held(ip, iface.value);
      var first := if model in s.bindings && s.bindings[model] != h then [Removal(host, s.bindings[model])] else [];
      var last := if Claims(host, h) then [Add(h)] else [];
      PerformOne(w, Removal(host, if model in s.bindings then s.bindings[model] else h));
      PerformConcat(w, first + [Bind(model, h), Save], last);
      PerformConcat(w, first, [Bind(model, h), Save]);
      PerformThree(Perform(w, first), Bind(model, h), Save, Save);
      PerformOne(Perform(w, first + [Bind(model, h), Save]), Add(h));
    }
  }

  lemma {:induction false} ReleaseScriptRuns(s: State, model: string, host: Host)
    ensures Perform(World(s, s.bindings), ReleaseScript(s, model, host))
            == World(Release(s, model, host).0, Release(s, model, host).0.bindings)
  {
    hide Perform;
    var w := World(s, s.bindings);
    if model !in s.bindings {
      PerformOne(w, Save);
    } else {
      PerformThree(w, Unbind(model), Save, Removal(host, s.bindings[model]));
    }
  }

  /** Run to its end from a saved state, an operation's script is the operation, and its result is saved. */
  lemma {:induction false} ScriptIsTheOperation(s: State, op: Op)
    ensures Perform(World(s, s.bindings), Script(s, op)) == World(Do(s, op).0, Do(s, op).0.bindings)
  {
    hide Perform, Allocate, Ensure, Release, AllocateScript, EnsureScript, ReleaseScript;
    match op
    case DoAllocate(model, host) => AllocateScriptRuns(s, model, host);
    case DoEnsure(model, ip, routed, host) => EnsureScriptRuns(s, model, ip, routed, host);
    case DoRelease(model, host) => ReleaseScriptRuns(s, model, host);
  }

  // ---------------------------------------------------------------- a crash in between

  /** What the next process starts from. */
  function Resumed(w: World): State {
    w.state.(bindings := w.saved)
  }

  /** The next process after a crash that came when `n` steps of the operation were done. */
  function Crashed(s: State, op: Op, n: nat): State
    requires n <= |Script(s, op)|
  {
    Resumed(Perform(World(s, s.bindings), Script(s, op)[..n]))
  }

  /** The crash came between a fresh claim and its save, or between a release's save and the removal: the address is in
      the kernel, was not there before the agent, and is in no state file. */
  ghost predicate InFlight(s: State, op: Op, n: nat, before: set<Held>) {
    match op
    case DoAllocate(model, host) =>
      var script := AllocateScript(s, model, host);
      && |script| >= 3 && |script| - 2 <= n < |script|
      && script[|script| - 3].Add? && Unowned(s, script[|script| - 3].held, before)
    case DoEnsure(_, _, _, _) => false
    case DoRelease(model, host) =>
      n == 2 && model in s.bindings && s.bindings[model] in s.kernel && Unowned(s, s.bindings[model], before)
  }

  ghost predicate Unowned(s: State, h: Held, before: set<Held>) {
    h !in before && h !in s.unreleased
  }

  lemma {:induction false} FreshCrash(s: State, model: string, host: Host, n: nat, before: set<Held>)
    requires Accounted(s, before) && model !in s.bindings && n <= |FreshScript(s, model, host)|
    ensures Accounted(Resumed(Perform(World(s, s.bindings), FreshScript(s, model, host)[..n])), before)
       <==> !(1 <= n < 3 && Unowned(s, FreshScript(s, model, host)[0].held, before))
  {
    hide Accounted, Fresh, FreshScript, Perform, Unowned;
    var script := FreshScript(s, model, host);
    var w := World(s, s.bindings);
    FreshSilent(s, model, host);
    if n == |script| {
      assert script[..n] == script;
      FreshScriptRuns(s, model, host, s.bindings);
      FreshAccounted(s, model, host, before);
      if script != [] {
        FreshIsUnheld(s, model, host);
      } else {
        PerformOne(w, Save);
      }
    } else {
      FreshIsUnheld(s, model, host);
      PerformOne(w, script[0]);
      PerformThree(w, script[0], script[1], script[2]);
      assert script[..0] == [] && script[..1] == [script[0]] && script[..2] == [script[0], script[1]];
      AddedUnsaved(s, script[0].held, before);
    }
  }

  /** The address a fresh allocation takes is bound to no model. */
  lemma {:induction false} FreshIsUnheld(s: State, model: string, host: Host)
    requires FreshScript(s, model, host) != []
    ensures var script := FreshScript(s, model, host);
            && |script| == 3 && script[0].Add? && script[1] == Bind(model, script[0].held) && script[2] == Save
            && !Bound(s, script[0].held)
  {
    hide Candidates, FirstFree;
    CandidatesAvoid(host, BoundIps(s.bindings));
    var cands := Candidates(host, BoundIps(s.bindings));
    var c := cands[FirstFree(cands, host, host.iface.value)];
    assert c in cands;
    assert forall m :: m in s.bindings ==> s.bindings[m].ip in BoundIps(s.bindings);
  }

  lemma {:induction false} AddedUnsaved(s: State, h: Held, before: set<Held>)
    requires Accounted(s, before) && !Bound(s, h)
    ensures Accounted(s.(kernel := s.kernel + {h}), before) <==> !Unowned(s, h, before)
  {
    var t := s.(kernel := s.kernel + {h});
    assert forall g :: Bound(s, g) <==> Bound(t, g) by {
      forall g ensures Bound(s, g) <==> Bound(t, g) {
        SameBindings(s, t, g);
      }
    }
    assert h in t.kernel;
  }

  lemma {:induction false} SameBindings(s: State, t: State, g: Held)
    requires s.bindings == t.bindings
    ensures Bound(s, g) <==> Bound(t, g)
  {
  }

  lemma {:induction false} AllocateCrash(s: State, model: string, host: Host, n: nat, before: set<Held>)
    requires Accounted(s, before) && Honest(host, s.kernel) && n <= |AllocateScript(s, model, host)|
    ensures Accounted(Crashed(s, DoAllocate(model, host), n), before) <==> !InFlight(s, DoAllocate(model, host), n, before)
  {
    hide Accounted, Fresh, FreshScript, Unowned, Honest;
    var script := AllocateScript(s, model, host);
    if n == |script| {
      assert script[..n] == script;
      AllocateScriptRuns(s, model, host);
      AllocateAccounted(s, model, host, before);
    } else if model !in s.bindings {
      FreshIsUnheld(s, model, host);
      FreshCrash(s, model, host, n, before);
    } else if Claims(host, s.bindings[model]) || n == 0 {
      assert script[..0] == [];
      PerformOne(World(s, s.bindings), Save);
      ShortOfFresh(s, model, host, n);
    } else {
      ReallocateCrash(s, model, host, n, before);
    }
  }

  /** Before the search has added anything, nothing is in flight. */
  lemma {:induction false} ShortOfFresh(s: State, model: string, host: Host, n: nat)
    requires model in s.bindings && (Claims(host, s.bindings[model]) || n < 2) && n < |AllocateScript(s, model, host)|
    ensures forall before :: !InFlight(s, DoAllocate(model, host), n, before)
  {
    if !Claims(host, s.bindings[model]) && FreshScript(s.(bindings := s.bindings - {model}), model, host) != [] {
      FreshIsUnheld(s.(bindings := s.bindings - {model}), model, host);
    }
  }

  lemma {:induction false} ReallocateCrash(s: State, model: string, host: Host, n: nat, before: set<Held>)
    requires Accounted(s, before) && Honest(host, s.kernel) && 0 < n < |AllocateScript(s, model, host)|
    requires model in s.bindings && !Claims(host, s.bindings[model])
    ensures Accounted(Crashed(s, DoAllocate(model, host), n), before) <==> !InFlight(s, DoAllocate(model, host), n, before)
  {
    hide Accounted, Fresh, FreshScript, Unowned, Perform;
    var w := World(s, s.bindings);
    var t := s.(bindings := s.bindings - {model});
    var script, search := AllocateScript(s, model, host), FreshScript(t, model, host);
    PerformOne(w, Unbind(model));
    PerformThree(w, Unbind(model), Save, Save);
    DropsAccounted(s, t, model, before) by {
      assert s.bindings[model] !in t.kernel;
    }
    if n < 2 {
      assert script[..1] == [Unbind(model)];
      ShortOfFresh(s, model, host, n);
    } else {
      FreshIsUnheld(t, model, host);
      assert script[..n] == [Unbind(model), Save] + search[..n - 2];
      PerformConcat(w, [Unbind(model), Save], search[..n - 2]);
      FreshCrash(t, model, host, n - 2, before);
      assert script[|script| - 3] == search[0];
      UnownedAlike(s, t, search[0].held, before);
    }
  }

  lemma {:induction false} UnownedAlike(s: State, t: State, h: Held, before: set<Held>)
    requires s.unreleased == t.unreleased
    ensures Unowned(s, h, before) <==> Unowned(t, h, before)
  {
  }

  lemma {:induction false} ReleaseCrash(s: State, model: string, host: Host, n: nat, before: set<Held>)
    requires Accounted(s, before) && Unshared(s.bindings) && n <= |ReleaseScript(s, model, host)|
    ensures Accounted(Crashed(s, DoRelease(model, host), n), before) <==> !InFlight(s, DoRelease(model, host), n, before)
  {
    hide Perform;
    var w := World(s, s.bindings);
    var script := ReleaseScript(s, model, host);
    PerformOne(w, script[0]);
    assert script[..0] == [] && script[..1] == [script[0]];
    if n == |script| {
      assert script[..n] == script;
      ReleaseScriptRuns(s, model, host);
      ReleaseAccounted(s, model, host, before);
    } else if n == 2 {
      PerformThree(w, script[0], script[1], script[2]);
      assert script[..2] == [script[0], script[1]];
      UnboundInKernel(s, model, before);
    }
  }

  lemma {:induction false} UnboundInKernel(s: State, model: string, before: set<Held>)
    requires Accounted(s, before) && Unshared(s.bindings) && model in s.bindings
    ensures Accounted(s.(bindings := s.bindings - {model}), before)
       <==> !(s.bindings[model] in s.kernel && Unowned(s, s.bindings[model], before))
  {
    var t := s.(bindings := s.bindings - {model});
    var h := s.bindings[model];
    assert !Bound(t, h);
    if !(h in s.kernel && Unowned(s, h, before)) {
      forall g | g in t.kernel ensures g in before || g in t.unreleased || Bound(t, g) {
        if g != h && Bound(s, g) {
          var m :| m in s.bindings && s.bindings[m] == g;
          assert t.bindings[m] == g;
        }
      }
    }
  }

  lemma {:induction false} EnsureCrash(s: State, model: string, ip: Address, routed: Option<Prefix>, host: Host, n: nat, before: set<Held>)
    requires Accounted(s, before) && n <= |EnsureScript(s, model, ip, routed, host)|
    ensures Accounted(Crashed(s, DoEnsure(model, ip, routed, host), n), before)
  {
    hide TargetIface, Perform, Ensure, Accounted;
    var w := World(s, s.bindings);
    var script := EnsureScript(s, model, ip, routed, host);
    if n == |script| {
      assert script[..n] == script;
      EnsureScriptRuns(s, model, ip, routed, host);
      EnsureAccounted(s, model, ip, routed, host, before);
    } else {
      var h := Held(ip, TargetIface(s, model, ip, routed, host).value);
      var first := if model in s.bindings && s.bindings[model] != h then [Removal(host, s.bindings[model])] else [];
      assert script[..n] == if n <= |first| then first[..n] else first + [Bind(model, h), Save][..n - |first|];
      RemovedFirst(s, model, h, host, before);
      PerformOne(w, Save);
      PerformOne(w, Removal(host, if model in s.bindings then s.bindings[model] else h));
      assert first[..|first|] == first && first[..0] == [];
      if n > |first| {
        var rest := [Bind(model, h), Save][..n - |first|];
        PerformConcat(w, first, rest);
        PerformOne(Perform(w, first), Bind(model, h));
        PerformThree(Perform(w, first), Bind(model, h), Save, Save);
        assert rest == [Bind(model, h)] || rest == [Bind(model, h), Save];
      }
    }
  }

  /** A binding that gives way has its old address removed or marked first. */
  lemma {:induction false} RemovedFirst(s: State, model: string, h: Held, host: Host, before: set<Held>)
    requires Accounted(s, before)
    ensures var t := if model in s.bindings && s.bindings[model] != h then Released(s, host, s.bindings[model]) else s;
            && Accounted(t, before)
            && Accounted(t.(bindings := t.bindings[model := h]), before)
  {
    var t := if model in s.bindings && s.bindings[model] != h then Released(s, host, s.bindings[model]) else s;
    var u := t.(bindings := t.bindings[model := h]);
    forall g | g in t.kernel
      ensures g in before || g in t.unreleased || Bound(t, g)
      ensures g in before || g in u.unreleased || Bound(u, g)
    {
      if Bound(s, g) {
        var m :| m in s.bindings && s.bindings[m] == g;
        assert t.bindings[m] == g;
        if m != model {
          assert u.bindings[m] == g;
        } else if g == h {
          assert u.bindings[model] == g;
        }
      }
    }
  }

  /** A crash leaves an address on an interface that no state file knows if and only if it comes between a fresh claim
      and its save or between a release's save and the removal. Claiming a known address saves first and never leaks. */
  lemma {:induction false} CrashLeaksExactly(s: State, op: Op, n: nat, before: set<Held>)
    requires Accounted(s, before) && Unshared(s.bindings) && Honest(op.host, s.kernel) && n <= |Script(s, op)|
    ensures Accounted(Crashed(s, op, n), before) <==> !InFlight(s, op, n, before)
  {
    hide Accounted, Unshared, Honest, Crashed, AllocateScript, EnsureScript, ReleaseScript;
    match op
    case DoAllocate(model, host) => AllocateCrash(s, model, host, n, before);
    case DoEnsure(model, ip, routed, host) => EnsureCrash(s, model, ip, routed, host, n, before);
    case DoRelease(model, host) => ReleaseCrash(s, model, host, n, before);
  }

  // ---------------------------------------------------------------- runs with crashes

  /** The state file holds the bindings from before the operation, those without its model, or its result. */
  ghost predicate OldOrNew(s: State, op: Op, saved: map<string, Held>) {
    saved == s.bindings || saved == s.bindings - {op.model} || saved == Do(s, op).0.bindings
  }

  lemma {:induction false} FreshSaves(s: State, model: string, host: Host, saved: map<string, Held>, n: nat)
    requires n <= |FreshScript(s, model, host)|
    ensures var left := Perform(World(s, saved), FreshScript(s, model, host)[..n]).saved;
            left == saved || left == Fresh(s, model, host).0.bindings
  {
    hide Fresh, FreshScript, Perform;
    var script := FreshScript(s, model, host);
    var w := World(s, saved);
    PerformOne(w, Save);
    if n == 0 {
      assert script[..0] == [];
    } else {
      FreshIsUnheld(s, model, host);
      if n == 3 {
        assert script[..3] == script;
        FreshScriptRuns(s, model, host, saved);
      } else {
        PerformOne(w, script[0]);
        PerformThree(w, script[0], script[1], Save);
        assert script[..1] == [script[0]] && script[..2] == [script[0], script[1]];
      }
    }
  }

  lemma {:induction false} AllocateSaves(s: State, model: string, host: Host, n: nat)
    requires n <= |AllocateScript(s, model, host)|
    ensures OldOrNew(s, DoAllocate(model, host), Crashed(s, DoAllocate(model, host), n).bindings)
  {
    hide Fresh, FreshScript, Perform;
    var w := World(s, s.bindings);
    var script := AllocateScript(s, model, host);
    if model !in s.bindings {
      FreshSaves(s, model, host, s.bindings, n);
    } else if Claims(host, s.bindings[model]) {
      PerformOne(w, script[0]);
      assert script[..n] == [] || script[..n] == [script[0]];
    } else {
      var t := s.(bindings := s.bindings - {model});
      var search := FreshScript(t, model, host);
      PerformOne(w, Unbind(model));
      PerformThree(w, Unbind(model), Save, Save);
      if n < 2 {
        assert script[..n] == [] || script[..n] == [Unbind(model)];
      } else {
        assert script[..n] == [Unbind(model), Save] + search[..n - 2];
        PerformConcat(w, [Unbind(model), Save], search[..n - 2]);
        FreshSaves(t, model, host, t.bindings, n - 2);
      }
    }
  }

  lemma {:induction false} EnsureSaves(s: State, model: string, ip: Address, routed: Option<Prefix>, host: Host, n: nat)
    requires n <= |EnsureScript(s, model, ip, routed, host)|
    ensures OldOrNew(s, DoEnsure(model, ip, routed, host), Crashed(s, DoEnsure(model, ip, routed, host), n).bindings)
  {
    hide TargetIface, Perform;
    var w := World(s, s.bindings);
    var script := EnsureScript(s, model, ip, routed, host);
    if n == |script| {
      assert script[..n] == script;
      EnsureScriptRuns(s, model, ip, routed, host);
    } else {
      hide Ensure;
      var h := Held(ip, TargetIface(s, model, ip, routed, host).value);
      var first := if model in s.bindings && s.bindings[model] != h then [Removal(host, s.bindings[model])] else [];
      assert script[..n] == if n <= |first| then first[..n] else first + [Bind(model, h), Save][..n - |first|];
      PerformOne(w, Removal(host, if model in s.bindings then s.bindings[model] else h));
      assert first[..|first|] == first && first[..0] == [];
      if n > |first| {
        var rest := [Bind(model, h), Save][..n - |first|];
        PerformConcat(w, first, rest);
        PerformOne(Perform(w, first), Bind(model, h));
        PerformThree(Perform(w, first), Bind(model, h), Save, Save);
        assert rest == [Bind(model, h)] || rest == [Bind(model, h), Save];
        assert Do(s, DoEnsure(model, ip, routed, host)).0.bindings == s.bindings[model := h] by {
          EnsureBinds(s, model, ip, routed, host);
        }
      }
    }
  }

  lemma {:induction false} EnsureBinds(s: State, model: string, ip: Address, routed: Option<Prefix>, host: Host)
    requires EnsureScript(s, model, ip, routed, host) != []
    ensures Ensure(s, model, ip, routed, host).0.bindings
            == s.bindings[model := Held(ip, TargetIface(s, model, ip, routed, host).value)]
  {
    hide TargetIface;
  }

  lemma {:induction false} ReleaseSaves(s: State, model: string, host: Host, n: nat)
    requires n <= |ReleaseScript(s, model, host)|
    ensures OldOrNew(s, DoRelease(model, host), Crashed(s, DoRelease(model, host), n).bindings)
  {
    hide Perform;
    var w := World(s, s.bindings);
    var script := ReleaseScript(s, model, host);
    PerformOne(w, script[0]);
    assert script[..0] == [] && script[..1] == [script[0]];
    if |script| > 1 {
      PerformThree(w, script[0], script[1], script[2]);
      assert script[..2] == [script[0], script[1]] && script[..3] == [script[0], script[1], script[2]];
    }
  }

  lemma {:induction false} CrashKeepsUnshared(s: State, op: Op, n: nat)
    requires Unshared(s.bindings) && n <= |Script(s, op)|
    requires op.DoEnsure? ==> !TakenByOther(s, op.model, op.ip)
    ensures Unshared(Crashed(s, op, n).bindings)
  {
    hide Crashed, Do, TakenByOther, AllocateScript, EnsureScript, ReleaseScript;
    match op {
      case DoAllocate(model, host) => AllocateSaves(s, model, host, n);
      case DoEnsure(model, ip, routed, host) => EnsureSaves(s, model, ip, routed, host, n);
      case DoRelease(model, host) => ReleaseSaves(s, model, host, n);
    }
    DoKeepsUnshared(s, op);
  }

  /** An operation runs to its end, a crash cuts it after `n` steps and the agent restarts, or the machine reboots and
      its interfaces come up empty. */
  datatype Event = Finished(op: Op) | Cut(op: Op, n: nat) | Rebooted

  ghost predicate Possible(s: State, e: Event) {
    && (e.Cut? ==> e.n <= |Script(s, e.op)|)
    && (!e.Rebooted? ==> Honest(e.op.host, s.kernel) && (e.op.DoEnsure? ==> !TakenByOther(s, e.op.model, e.op.ip)))
  }

  ghost function Next(s: State, e: Event): State
    requires Possible(s, e)
  {
    match e
    case Finished(op) => Do(s, op).0
    case Cut(op, n) => Crashed(s, op, n)
    case Rebooted => s.(kernel := {})
  }

  /** No crash of the run catches an address in flight. */
  ghost predicate Spared(s: State, es: seq<Event>, before: set<Held>)
    decreases |es|
  {
    es == []
    || (&& Possible(s, es[0]) && (es[0].Cut? ==> !InFlight(s, es[0].op, es[0].n, before))
        && Spared(Next(s, es[0]), es[1..], before))
  }

  ghost function Live(s: State, es: seq<Event>, before: set<Held>): State
    requires Spared(s, es, before)
    decreases |es|
  {
    if es == [] then s else Live(Next(s, es[0]), es[1..], before)
  }

  /** Over any run of operations, reboots, and crashes that catch nothing in flight, every address on an interface is
      bound, was there before, or had its removal fail; and no two models share one. */
  lemma {:induction false} CrashesAreAccounted(s: State, es: seq<Event>, before: set<Held>)
    requires Accounted(s, before) && Unshared(s.bindings) && Spared(s, es, before)
    ensures Accounted(Live(s, es, before), before) && Unshared(Live(s, es, before).bindings)
    decreases |es|
  {
    hide Accounted, Unshared, Do, Crashed, InFlight, Honest, TakenByOther, Script;
    if es != [] {
      match es[0] {
        case Finished(op) =>
          DoAccounted(s, op, before);
          DoKeepsUnshared(s, op);
        case Cut(op, n) =>
          CrashLeaksExactly(s, op, n, before);
          CrashKeepsUnshared(s, op, n);
        case Rebooted =>
          NothingHeld(s, before);
      }
      CrashesAreAccounted(Next(s, es[0]), es[1..], before);
    }
  }

  lemma {:induction false} NothingHeld(s: State, before: set<Held>)
    ensures Accounted(s.(kernel := {}), before)
  {
  }
}
