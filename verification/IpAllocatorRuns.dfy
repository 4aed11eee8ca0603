/** Laws of the address allocator: which addresses it tries, that no two models share one, and that
    no address is left behind on an interface unnoticed. */
module IpAllocatorRuns {
  import opened Prelude
  import opened IpAllocators

  // ---------------------------------------------------------------- the candidates, declaratively

  /** The first `room` usable offsets up to `top`, highest first: only a full list leaves one out, below all it has. */
  ghost predicate Highest(own: nat, mask: nat, exclude: set<Address>, top: int, room: nat, out: seq<nat>) {
    && |out| <= room
    && (forall i :: 0 <= i < |out| ==> 1 < out[i] <= top && Usable(own, mask, exclude, out[i]))
    && (forall i, j :: 0 <= i < j < |out| ==> out[j] < out[i])
    && (forall d :: 1 < d <= top && Usable(own, mask, exclude, d) ==>
          d in out || (|out| == room && forall i :: 0 <= i < |out| ==> d < out[i]))
  }

  lemma {:induction false} TopIsHighest(own: nat, mask: nat, exclude: set<Address>, offset: int, room: nat)
    ensures Highest(own, mask, exclude, offset, room, Top(own, mask, exclude, offset, room))
    decreases offset
  {
    hide Usable;
    if offset > 1 && room > 0 {
      var taken := if Usable(own, mask, exclude, offset) then [offset] else [];
      TopIsHighest(own, mask, exclude, offset - 1, room - |taken|);
      hide Top;
      OneHigher(own, mask, exclude, offset, room, Top(own, mask, exclude, offset - 1, room - |taken|));
    }
  }

  lemma {:induction false} OneHigher(own: nat, mask: nat, exclude: set<Address>, offset: nat, room: nat, rest: seq<nat>)
    requires offset > 1 && room > 0
    requires Highest(own, mask, exclude, offset - 1, if Usable(own, mask, exclude, offset) then room - 1 else room, rest)
    ensures Highest(own, mask, exclude, offset, room, (if Usable(own, mask, exclude, offset) then [offset] else []) + rest)
  {
    hide Usable;
    if Usable(own, mask, exclude, offset) {
      OneListed(own, mask, exclude, offset, room, rest);
    } else {
      assert [] + rest == rest;
    }
  }

  lemma {:induction false} OneListed(own: nat, mask: nat, exclude: set<Address>, offset: nat, room: nat, rest: seq<nat>)
    requires offset > 1 && room > 0 && Usable(own, mask, exclude, offset)
    requires Highest(own, mask, exclude, offset - 1, room - 1, rest)
    ensures Highest(own, mask, exclude, offset, room, [offset] + rest)
  {
    hide Usable;
    var out := [offset] + rest;
    forall d | 1 < d <= offset && Usable(own, mask, exclude, d)
      ensures d in out || (|out| == room && forall i :: 0 <= i < |out| ==> d < out[i])
    {
      if d == offset {
        assert out[0] == d;
      } else if d in rest {
        var j :| 0 <= j < |rest| && rest[j] == d;
        assert out[j + 1] == d;
      } else {
        forall i | 0 <= i < |out| ensures d < out[i] {
          assert i > 0 ==> out[i] == rest[i - 1];
        }
      }
    }
  }

  /** The offsets tried are the highest 32 usable ones between the first host and the broadcast address, whatever the
      netmask. */
  lemma {:induction false} CandidatesAreTheHighest(host: Host, exclude: set<Address>)
    requires host.ownIp.Some? && host.ownIp.value.V4? && host.netmask.Some? && host.netmask.value.V4?
    ensures var own, mask := host.ownIp.value.n, host.netmask.value.n;
            && Candidates(host, exclude) == AddressesAt(own, mask, Offsets(own, mask, exclude))
            && Highest(own, mask, exclude, HostBits(mask) - 1, 32, Offsets(own, mask, exclude))
  {
    hide Top, Highest, HostBits;
    var own, mask := host.ownIp.value.n, host.netmask.value.n;
    TopIsHighest(own, mask, exclude, HostBits(mask) - 1, 32);
  }

  // ---------------------------------------------------------------- netmasks without holes

  predicate AllOnes(n: nat) {
    n == 0 || (n % 2 == 1 && AllOnes(n / 2))
  }

  /** The host bits are the lowest ones. */
  predicate IsPrefix(mask: nat) {
    mask <= ALL_ONES && AllOnes(ALL_ONES - mask)
  }

  lemma {:induction false} AndFits(a: nat, b: nat)
    ensures And(a, b) <= b
  {
    if a != 0 && b != 0 {
      AndFits(a / 2, b / 2);
    }
  }

  /** A number is its bits under a mask and its other bits. */
  lemma {:induction false} AndSplits(a: nat, mask: nat, all: nat)
    requires AllOnes(all) && a <= all && mask <= all
    ensures And(a, mask) + And(a, all - mask) == a
    decreases all
  {
    if all != 0 && a != 0 {
      assert (all - mask) / 2 == all / 2 - mask / 2;
      AndSplits(a / 2, mask / 2, all / 2);
      AndHalves(a, mask);
      AndHalves(a, all - mask);
    }
  }

  lemma {:induction false} AndHalves(a: nat, b: nat)
    ensures And(a, b) == 2 * And(a / 2, b / 2) + if a % 2 == 1 && b % 2 == 1 then 1 else 0
  {
  }

  lemma {:induction false} AndApart(a: nat, mask: nat, all: nat)
    requires AllOnes(all) && mask <= all
    ensures And(And(a, mask), all - mask) == 0
    decreases all
  {
    if all != 0 {
      assert (all - mask) / 2 == all / 2 - mask / 2;
      AndHalves(a, mask);
      AndHalves(And(a, mask), all - mask);
      AndApart(a / 2, mask / 2, all / 2);
    }
  }

  /** Above an offset's bits the network only adds. */
  lemma {:induction false} OrAdds(net: nat, offset: nat, hosts: nat)
    requires AllOnes(hosts) && And(net, hosts) == 0 && offset <= hosts
    ensures Or(net, offset) == net + offset
    decreases hosts
  {
    if hosts != 0 && net != 0 && offset != 0 {
      AndHalves(net, hosts);
      OrAdds(net / 2, offset / 2, hosts / 2);
    }
  }

  /** Four more ones at the low end. */
  lemma {:induction false} OnesGrow(n: nat)
    requires AllOnes(n)
    ensures AllOnes(16 * n + 15)
  {
    hide AllOnes;
    OneMore(n);
    OneMore(2 * n + 1);
    OneMore(4 * n + 3);
    OneMore(8 * n + 7);
  }

  lemma {:induction false} OneMore(n: nat)
    requires AllOnes(n)
    ensures AllOnes(2 * n + 1)
  {
    assert (2 * n + 1) / 2 == n && (2 * n + 1) % 2 == 1;
  }

  lemma {:induction false} FullMask()
    ensures AllOnes(ALL_ONES)
  {
    assert AllOnes(0);
    hide AllOnes;
    OnesGrow(0);
    OnesGrow(0xF);
    OnesGrow(0xFF);
    OnesGrow(0xFFF);
    OnesGrow(0xFFFF);
    OnesGrow(0xF_FFFF);
    OnesGrow(0xFF_FFFF);
    OnesGrow(0xFFF_FFFF);
  }

  /** Under a netmask without holes the own address lies in its subnet, and the candidates are strictly descending
      addresses above the first host and below the broadcast address. */
  lemma {:induction false} PrefixCandidatesDescend(host: Host, exclude: set<Address>)
    requires host.ownIp.Some? && host.ownIp.value.V4? && host.netmask.Some? && host.netmask.value.V4?
    requires host.ownIp.value.n <= ALL_ONES && IsPrefix(host.netmask.value.n)
    ensures var net := And(host.ownIp.value.n, host.netmask.value.n);
            var broadcast := net + HostBits(host.netmask.value.n);
            var out := Candidates(host, exclude);
            && net <= host.ownIp.value.n <= broadcast
            && (forall i :: 0 <= i < |out| ==> out[i].V4? && net + 1 < out[i].n < broadcast)
            && (forall i, j :: 0 <= i < j < |out| ==> out[j].n < out[i].n)
  {
    hide And, Or, AllOnes, Usable, Offsets;
    var own, mask := host.ownIp.value.n, host.netmask.value.n;
    var hosts := ALL_ONES - mask;
    CandidatesAreTheHighest(host, exclude);
    FullMask();
    AndSplits(own, mask, ALL_ONES);
    AndFits(own, hosts);
    AndApart(own, mask, ALL_ONES);
    var os := Offsets(own, mask, exclude);
    forall i | 0 <= i < |os| ensures At(own, mask, os[i]) == V4(And(own, mask) + os[i]) {
      OrAdds(And(own, mask), os[i], hosts);
    }
  }

  lemma {:induction false} CandidatesAvoid(host: Host, exclude: set<Address>)
    ensures forall c :: c in Candidates(host, exclude) ==> c !in exclude
  {
    if host.ownIp.Some? && host.ownIp.value.V4? && host.netmask.Some? && host.netmask.value.V4? {
      hide Reserved, At, HostBits;
      CandidatesAreTheHighest(host, exclude);
    }
  }

  // ---------------------------------------------------------------- operations in a run

  datatype Op =
    | DoAllocate(model: string, host: Host)
    | DoEnsure(model: string, ip: Address, routed: Option<Prefix>, host: Host)
    | DoRelease(model: string, host: Host)

  function Do(s: State, op: Op): (State, Outcome) {
    match op
    case DoAllocate(model, host) => Allocate(s, model, host)
    case DoEnsure(model, ip, routed, host) => Ensure(s, model, ip, routed, host)
    case DoRelease(model, host) => Release(s, model, host)
  }

  function Run(s: State, ops: seq<Op>): State
    decreases |ops|
  {
    if ops == [] then s else Run(Do(s, ops[0]).0, ops[1..])
  }

  // ---------------------------------------------------------------- no two models share an address

  ghost predicate Unshared(bindings: map<string, Held>) {
    forall m, n :: m in bindings && n in bindings && bindings[m].ip == bindings[n].ip ==> m == n
  }

  predicate TakenByOther(s: State, model: string, ip: Address) {
    exists m :: m in s.bindings && m != model && s.bindings[m].ip == ip
  }

  lemma {:induction false} FreshIsUnbound(s: State, model: string, host: Host)
    requires Unshared(s.bindings) && model !in s.bindings
    ensures Unshared(Fresh(s, model, host).0.bindings)
  {
    hide Candidates, FirstFree;
    CandidatesAvoid(host, BoundIps(s.bindings));
    var cands := Candidates(host, BoundIps(s.bindings));
    if Truthy(host.iface) && FirstFree(cands, host, host.iface.value) < |cands| {
      var c := cands[FirstFree(cands, host, host.iface.value)];
      assert c in cands;
      assert forall m :: m in s.bindings ==> s.bindings[m].ip in BoundIps(s.bindings);
    }
  }

  lemma {:induction false} AllocateKeepsUnshared(s: State, model: string, host: Host)
    requires Unshared(s.bindings)
    ensures Unshared(Allocate(s, model, host).0.bindings)
  {
    hide Fresh;
    if model !in s.bindings {
      FreshIsUnbound(s, model, host);
    } else if !Claims(host, s.bindings[model]) {
      FreshIsUnbound(s.(bindings := s.bindings - {model}), model, host);
    }
  }

  /** Claiming a known address keeps addresses unshared exactly when the call is refused before it binds, or no other
      model holds the address. */
  lemma {:induction false} EnsureKeepsUnshared(s: State, model: string, ip: Address, routed: Option<Prefix>, host: Host)
    requires Unshared(s.bindings)
    ensures Unshared(Ensure(s, model, ip, routed, host).0.bindings)
       <==> || !TakenByOther(s, model, ip)
            || (routed.Some? && ip.Text?)
            || !Truthy(TargetIface(s, model, ip, routed, host))
  {
    hide TargetIface;
    var after := Ensure(s, model, ip, routed, host).0.bindings;
    if !(routed.Some? && ip.Text?) && Truthy(TargetIface(s, model, ip, routed, host)) {
      assert after == s.bindings[model := Held(ip, TargetIface(s, model, ip, routed, host).value)];
      if TakenByOther(s, model, ip) {
        var m :| m in s.bindings && m != model && s.bindings[m].ip == ip;
        assert m in after && model in after && after[m].ip == after[model].ip;
      }
    }
  }

  /** The cloud never assigns a model an address another model is bound to. */
  predicate CloudIsConsistent(s: State, ops: seq<Op>)
    decreases |ops|
  {
    ops == []
    || (&& (ops[0].DoEnsure? ==> !TakenByOther(s, ops[0].model, ops[0].ip))
        && CloudIsConsistent(Do(s, ops[0]).0, ops[1..]))
  }

  lemma {:induction false} DoKeepsUnshared(s: State, op: Op)
    requires Unshared(s.bindings) && (op.DoEnsure? ==> !TakenByOther(s, op.model, op.ip))
    ensures Unshared(Do(s, op).0.bindings)
  {
    hide Unshared, TakenByOther, Allocate, Ensure;
    match op
    case DoAllocate(model, host) => AllocateKeepsUnshared(s, model, host);
    case DoEnsure(model, ip, routed, host) => EnsureKeepsUnshared(s, model, ip, routed, host);
    case DoRelease(model, host) => ReleaseKeepsUnshared(s, model, host);
  }

  lemma {:induction false} ReleaseKeepsUnshared(s: State, model: string, host: Host)
    requires Unshared(s.bindings)
    ensures Unshared(Release(s, model, host).0.bindings)
  {
  }

  /** Over any run, no two models share an address. */
  lemma {:induction false} RunKeepsUnshared(s: State, ops: seq<Op>)
    requires Unshared(s.bindings) && CloudIsConsistent(s, ops)
    ensures Unshared(Run(s, ops).bindings)
    decreases |ops|
  {
    hide Unshared, TakenByOther, Do;
    if ops != [] {
      DoKeepsUnshared(s, ops[0]);
      RunKeepsUnshared(Do(s, ops[0]).0, ops[1..]);
    }
  }

  // ---------------------------------------------------------------- no address is left behind

  /** Adding an address the kernel already has succeeds. */
  ghost predicate Honest(host: Host, kernel: set<Held>) {
    forall h :: h in kernel ==> !host.refuses(h)
  }

  /** Every address in the kernel was there before, is bound, or could not be removed. */
  ghost predicate Accounted(s: State, before: set<Held>) {
    forall h :: h in s.kernel ==> h in before || h in s.unreleased || Bound(s, h)
  }

  ghost predicate Bound(s: State, h: Held) {
    exists m :: m in s.bindings && s.bindings[m] == h
  }

  lemma {:induction false} BindsAccounted(s: State, t: State, model: string, h: Held, before: set<Held>)
    requires Accounted(s, before) && model !in s.bindings
    requires t == State(s.bindings[model := h], s.kernel + {h}, s.unreleased)
    ensures Accounted(t, before)
  {
    forall g | g in t.kernel ensures g in before || g in t.unreleased || Bound(t, g) {
      if g == h {
        assert t.bindings[model] == g;
      } else if Bound(s, g) {
        var m :| m in s.bindings && s.bindings[m] == g;
        assert t.bindings[m] == g;
      }
    }
  }

  /** Dropping a binding is accounted for when its address is gone from the kernel or marked as stuck. */
  lemma {:induction false} DropsAccounted(s: State, t: State, model: string, before: set<Held>)
    requires Accounted(s, before) && model in s.bindings
    requires t.bindings == s.bindings - {model}
    requires s.unreleased <= t.unreleased && t.kernel <= s.kernel
    requires s.bindings[model] !in t.kernel || s.bindings[model] in t.unreleased
    ensures Accounted(t, before)
  {
    forall g | g in t.kernel ensures g in before || g in t.unreleased || Bound(t, g) {
      if Bound(s, g) && g != s.bindings[model] {
        var m :| m in s.bindings && s.bindings[m] == g;
        assert t.bindings[m] == g;
      }
    }
  }

  lemma {:induction false} FreshAccounted(s: State, model: string, host: Host, before: set<Held>)
    requires Accounted(s, before) && model !in s.bindings
    ensures Accounted(Fresh(s, model, host).0, before)
  {
    hide Accounted, Candidates, FirstFree;
    var cands := Candidates(host, BoundIps(s.bindings));
    if Truthy(host.iface) && FirstFree(cands, host, host.iface.value) < |cands| {
      var h := Held(cands[FirstFree(cands, host, host.iface.value)], host.iface.value);
      BindsAccounted(s, State(s.bindings[model := h], s.kernel + {h}, s.unreleased), model, h, before);
    }
  }

  lemma {:induction false} AllocateAccounted(s: State, model: string, host: Host, before: set<Held>)
    requires Accounted(s, before) && Honest(host, s.kernel)
    ensures Accounted(Allocate(s, model, host).0, before)
  {
    hide Fresh;
    if model !in s.bindings {
      FreshAccounted(s, model, host, before);
    } else {
      var h := s.bindings[model];
      if Claims(host, h) {
        var t := Claimed(s, host, h);
        forall g | g in t.kernel ensures g in before || g in t.unreleased || Bound(t, g) {
          if g == h {
            assert t.bindings[model] == g;
          } else {
            assert Bound(s, g) ==> Bound(t, g);
          }
        }
      } else {
        var dropped := s.(bindings := s.bindings - {model});
        DropsAccounted(s, dropped, model, before);
        FreshAccounted(dropped, model, host, before);
      }
    }
  }

  /** Releasing first, then binding and claiming the new address. */
  lemma {:induction false} EnsureAccounted(s: State, model: string, ip: Address, routed: Option<Prefix>, host: Host, before: set<Held>)
    requires Accounted(s, before)
    ensures Accounted(Ensure(s, model, ip, routed, host).0, before)
  {
    hide TargetIface;
    var iface := TargetIface(s, model, ip, routed, host);
    if !(routed.Some? && ip.Text?) && Truthy(iface) {
      var h := Held(ip, iface.value);
      var t := Ensure(s, model, ip, routed, host).0;
      assert t.bindings == s.bindings[model := h];
      forall g | g in t.kernel ensures g in before || g in t.unreleased || Bound(t, g) {
        if g == h {
          assert t.bindings[model] == g;
        } else if Bound(s, g) {
          var m :| m in s.bindings && s.bindings[m] == g;
          if m != model {
            assert t.bindings[m] == g;
          }
        }
      }
    }
  }

  lemma {:induction false} ReleaseAccounted(s: State, model: string, host: Host, before: set<Held>)
    requires Accounted(s, before)
    ensures Accounted(Release(s, model, host).0, before)
  {
    hide Accounted;
    if model in s.bindings {
      DropsAccounted(s, Release(s, model, host).0, model, before);
    }
  }

  ghost predicate HonestRun(s: State, ops: seq<Op>)
    decreases |ops|
  {
    ops == [] || (Honest(ops[0].host, s.kernel) && HonestRun(Do(s, ops[0]).0, ops[1..]))
  }

  lemma {:induction false} DoAccounted(s: State, op: Op, before: set<Held>)
    requires Accounted(s, before) && Honest(op.host, s.kernel)
    ensures Accounted(Do(s, op).0, before)
  {
    hide Accounted, Honest, Allocate, Ensure, Release;
    match op
    case DoAllocate(model, host) => AllocateAccounted(s, model, host, before);
    case DoEnsure(model, ip, routed, host) => EnsureAccounted(s, model, ip, routed, host, before);
    case DoRelease(model, host) => ReleaseAccounted(s, model, host, before);
  }

  /** Over any run, every address added is still bound or had its removal fail. */
  lemma {:induction false} RunAccounted(s: State, ops: seq<Op>, before: set<Held>)
    requires Accounted(s, before) && HonestRun(s, ops)
    ensures Accounted(Run(s, ops), before)
    decreases |ops|
  {
    hide Accounted, Honest, Do;
    if ops != [] {
      DoAccounted(s, ops[0], before);
      RunAccounted(Do(s, ops[0]).0, ops[1..], before);
    }
  }

  /** When re-adding an address that is there can fail, allocating abandons it: exactly then is it unaccounted for. */
  lemma {:induction false} LyingKernelLeaks(s: State, model: string, host: Host, before: set<Held>)
    requires Accounted(s, before) && model in s.bindings
    requires s.bindings[model] in s.kernel && s.bindings[model] !in before && s.bindings[model] !in s.unreleased
    requires Unshared(s.bindings)
    ensures Accounted(Allocate(s, model, host).0, before) <==> Claims(host, s.bindings[model])
  {
    var h := s.bindings[model];
    if Claims(host, h) {
      assert Allocate(s, model, host).0 == s by {
        assert s.kernel + {h} == s.kernel;
      }
    } else {
      var t := Allocate(s, model, host).0;
      FreshNeverRebinds(s.(bindings := s.bindings - {model}), model, host, h);
      assert h in t.kernel && !Bound(t, h);
    }
  }

  lemma {:induction false} FreshNeverRebinds(s: State, model: string, host: Host, h: Held)
    requires h in s.kernel && !Bound(s, h) && host.refuses(h) && model !in s.bindings
    ensures var t := Fresh(s, model, host).0; h in t.kernel && t.unreleased == s.unreleased && !Bound(t, h)
  {
    hide Candidates, FirstFree;
    var t := Fresh(s, model, host).0;
    forall m | m in t.bindings ensures t.bindings[m] != h {
    }
  }

  // ---------------------------------------------------------------- which fresh address is chosen

  /** A fresh address is at the highest usable offset that nobody answered for and the kernel accepted. */
  lemma {:induction false} FreshPicksTheHighest(s: State, model: string, host: Host) returns (e: nat)
    requires model !in s.bindings && Allocate(s, model, host).1.ok
    ensures host.ownIp.Some? && host.ownIp.value.V4? && host.netmask.Some? && host.netmask.value.V4? && host.iface.Some?
    ensures var own, mask, bound := host.ownIp.value.n, host.netmask.value.n, BoundIps(s.bindings);
            var taken := Held(At(own, mask, e), host.iface.value);
            && Allocate(s, model, host).0.bindings == s.bindings[model := taken]
            && 1 < e < HostBits(mask) && Usable(own, mask, bound, e)
            && !host.answers(taken.ip) && Claims(host, taken)
            && forall d :: e < d < HostBits(mask) && Usable(own, mask, bound, d) ==>
                 host.answers(At(own, mask, d)) || !Claims(host, Held(At(own, mask, d), host.iface.value))
  {
    hide At, Usable, HostBits, BoundIps, Offsets;
    var bound := BoundIps(s.bindings);
    assert Candidates(host, bound) != [];
    CandidatesAreTheHighest(host, bound);
    var own, mask := host.ownIp.value.n, host.netmask.value.n;
    var offsets := Offsets(own, mask, bound);
    var k := FirstFree(Candidates(host, bound), host, host.iface.value);
    e := offsets[k];
    forall d | e < d < HostBits(mask) && Usable(own, mask, bound, d)
      ensures host.answers(At(own, mask, d)) || !Claims(host, Held(At(own, mask, d), host.iface.value))
    {
      var j :| 0 <= j < |offsets| && offsets[j] == d;
      assert j < k;
      assert Candidates(host, bound)[j] == At(own, mask, d);
    }
  }
}
