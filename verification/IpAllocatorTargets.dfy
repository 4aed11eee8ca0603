/** Where addresses come from and where they go, in numbers: the fresh address of a subnet, and the interface of a
    known one. */
module IpAllocatorTargets {
  import opened Prelude
  import opened IpAllocators
  import opened IpAllocatorRuns

  // ---------------------------------------------------------------- the fresh address of a subnet

  /** `hosts` is one less than the size of a subnet. */
  lemma {:induction false} AndIsRemainder(a: nat, hosts: nat)
    requires AllOnes(hosts)
    ensures And(a, hosts) == a % (hosts + 1)
  {
    if hosts != 0 && a != 0 {
      AndHalves(a, hosts);
      AndIsRemainder(a / 2, hosts / 2);
      HalfRemainder(a, hosts / 2 + 1);
      assert hosts == 2 * (hosts / 2) + 1;
    } else if a == 0 {
      assert 0 % (hosts + 1) == 0;
    }
  }

  lemma {:induction false} HalfRemainder(a: nat, n: nat)
    requires n > 0
    ensures a % (2 * n) == 2 * (a / 2 % n) + a % 2
  {
    var q, r := a / 2 / n, a / 2 % n;
    Divides(a / 2, n);
    assert a == (2 * n) * q + (2 * r + a % 2) by {
      Scaled(n, q);
    }
    UniqueRemainder(a, 2 * n, q, 2 * r + a % 2);
  }

  lemma {:induction false} Divides(a: nat, n: nat)
    requires n > 0
    ensures a == n * (a / n) + a % n && 0 <= a % n < n && a / n >= 0
  {
  }

  lemma {:induction false} Scaled(n: nat, q: nat)
    ensures (2 * n) * q == 2 * (n * q)
  {
  }

  lemma {:induction false} OneMoreTime(n: nat, q: nat)
    ensures n * (q + 1) == n * q + n
  {
  }

  lemma {:induction false} Apart(n: nat, p: nat, q: nat)
    requires p > q
    ensures n * p >= n * q + n
    decreases p
  {
    OneMoreTime(n, p - 1);
    if p - 1 > q {
      Apart(n, p - 1, q);
    }
  }

  lemma {:induction false} UniqueRemainder(a: nat, n: nat, q: nat, r: nat)
    requires n > 0 && r < n && a == n * q + r
    ensures a % n == r
  {
    var p := a / n;
    Divides(a, n);
    if p > q {
      Apart(n, p, q);
    } else if p < q {
      Apart(n, q, p);
    }
  }

  /** The subnet of `size` addresses that an address lies in. */
  function NetOf(own: nat, size: nat): nat
    requires size > 0
  {
    own - own % size
  }

  /** An address that may be handed out in a subnet: above the first host, below the broadcast address, not the hub's own
      and not bound. */
  predicate Free(own: nat, size: nat, bindings: map<string, Held>, n: nat)
    requires size > 0
  {
    && NetOf(own, size) + 1 < n < NetOf(own, size) + size - 1 && n != own
    && forall m :: m in bindings ==> bindings[m].ip != V4(n)
  }

  lemma {:induction false} FreeIsUsable(own: nat, mask: nat, bindings: map<string, Held>, d: nat)
    requires own <= ALL_ONES && IsPrefix(mask) && 1 < d < ALL_ONES - mask
    ensures At(own, mask, d) == V4(NetOf(own, ALL_ONES - mask + 1) + d)
    ensures Usable(own, mask, BoundIps(bindings), d) <==> Free(own, ALL_ONES - mask + 1, bindings, NetOf(own, ALL_ONES - mask + 1) + d)
  {
    hide And, Or, AllOnes;
    var hosts := ALL_ONES - mask;
    SubnetOffset(own, mask, d);
    SubnetOffset(own, mask, 0);
    SubnetOffset(own, mask, 1);
    SubnetOffset(own, mask, hosts);
  }

  lemma {:induction false} SubnetOffset(own: nat, mask: nat, d: nat)
    requires own <= ALL_ONES && IsPrefix(mask) && d <= ALL_ONES - mask
    ensures At(own, mask, d) == V4(NetOf(own, ALL_ONES - mask + 1) + d)
  {
    hide And, Or, AllOnes;
    var hosts := ALL_ONES - mask;
    FullMask();
    AndSplits(own, mask, ALL_ONES);
    AndApart(own, mask, ALL_ONES);
    AndIsRemainder(own, hosts);
    OrAdds(And(own, mask), d, hosts);
  }

  /** Under a netmask without holes, a fresh address is the highest one of the subnet that may be handed out, that nobody
      answers for and that the kernel accepts. */
  lemma {:induction false} FreshIsTheHighestFree(s: State, model: string, host: Host) returns (n: nat)
    requires model !in s.bindings && Allocate(s, model, host).1.ok
    requires host.ownIp.Some? && host.ownIp.value.V4? && host.netmask.Some? && host.netmask.value.V4?
    requires host.ownIp.value.n <= ALL_ONES && IsPrefix(host.netmask.value.n)
    ensures host.iface.Some?
    ensures var own, size := host.ownIp.value.n, 0x1_0000_0000 - host.netmask.value.n;
            var iface := host.iface.value;
            && Free(own, size, s.bindings, n) && !host.answers(V4(n)) && !host.refuses(Held(V4(n), iface))
            && Allocate(s, model, host).0.bindings == s.bindings[model := Held(V4(n), iface)]
            && forall m :: m > n && Free(own, size, s.bindings, m) ==> host.answers(V4(m)) || host.refuses(Held(V4(m), iface))
  {
    hide And, Or, AllOnes, Usable, BoundIps, At, Free, IsPrefix;
    var own, mask, iface := host.ownIp.value.n, host.netmask.value.n, host.iface;
    var e := FreshPicksTheHighest(s, model, host);
    var net, size := NetOf(own, ALL_ONES - mask + 1), ALL_ONES - mask + 1;
    n := net + e;
    FreeIsUsable(own, mask, s.bindings, e);
    forall m | m > n && Free(own, size, s.bindings, m)
      ensures host.answers(V4(m)) || host.refuses(Held(V4(m), host.iface.value))
    {
      FreeBounds(own, size, s.bindings, m);
      FreeIsUsable(own, mask, s.bindings, m - net);
    }
  }

  lemma {:induction false} FreeBounds(own: nat, size: nat, bindings: map<string, Held>, n: nat)
    requires size > 0 && Free(own, size, bindings, n)
    ensures NetOf(own, size) + 1 < n < NetOf(own, size) + size - 1
  {
  }

  // ---------------------------------------------------------------- the interface of a known address

  /** The address lies in the routed prefix. */
  predicate InPrefix(routed: Option<Prefix>, ip: Address) {
    routed.Some? && ip.V4? && routed.value.net <= ip.n && ip.n - routed.value.net < routed.value.size
  }

  /** The model is bound to that very address on an interface that has a name. */
  predicate BoundTo(s: State, model: string, ip: Address) {
    model in s.bindings && s.bindings[model].ip == ip && s.bindings[model].iface != ""
  }

  /** A claim of a known address that found its interface: the model is bound to it there, the binding it replaces is
      removed first, and the kernel has the address unless it refused it. */
  ghost predicate LandsOn(s: State, model: string, h: Held, host: Host, t: State, ok: bool) {
    var replaced := model in s.bindings && s.bindings[model] != h;
    && t.bindings == s.bindings[model := h] && ok == !host.refuses(h)
    && (forall k :: k in t.kernel <==>
          (k == h && ok) || (k in s.kernel && !(replaced && k == s.bindings[model] && !host.keeps(k))))
    && (forall k :: k in t.unreleased <==> k in s.unreleased || (replaced && k == s.bindings[model] && host.keeps(k)))
  }

  /** A known address is claimed on loopback exactly when the routed prefix holds it; otherwise where the model already
      has it, and else on the interface of the default route. It is refused only as a text under a routed prefix, or for
      want of an interface, and then nothing changes. */
  lemma {:induction false} ClaimGoesWhereItBelongs(s: State, model: string, ip: Address, routed: Option<Prefix>, host: Host)
    ensures var (t, r) := Ensure(s, model, ip, routed, host);
            var guessed := if host.iface.Some? then host.iface.value else "";
            && r.tried == 0
            && (if routed.Some? && ip.Text? then t == s && r == Outcome(false, None, None, Some(InvalidIp), 0)
                else if InPrefix(routed, ip) then r.iface == Some("lo") && LandsOn(s, model, Held(ip, "lo"), host, t, r.ok)
                else if BoundTo(s, model, ip) then
                  r.iface == Some(s.bindings[model].iface) && LandsOn(s, model, s.bindings[model], host, t, r.ok)
                else if guessed != "" then r.iface == Some(guessed) && LandsOn(s, model, Held(ip, guessed), host, t, r.ok)
                else t == s && r == Outcome(false, Some(ip), None, Some(NoIface), 0))
  {
  }
}
