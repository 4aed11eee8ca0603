/** The address allocator of the virtual printers (vprinter/ip_allocator.py) against a model of the kernel's
    address table: which addresses it tries, and what each operation does to the bindings and to the kernel. */
module IpAllocators {
  import opened Prelude

  const MAX_CANDIDATES: nat := 32

  /** An IPv4 address by its number, or a text that is not an address. */
  datatype Address = V4(n: nat) | Text(s: string)

  /** An address held on an interface. */
  datatype Held = Held(ip: Address, iface: string)

  datatype Prefix = Prefix(net: nat, size: nat)

  datatype Error = NoIface | NoSubnet | NoCandidates | NoFreeIp | InvalidIp | ClaimFailed | ReleaseFailed

  datatype Outcome = Outcome(ok: bool, bindIp: Option<Address>, iface: Option<string>, error: Option<Error>, tried: nat)

  /** What the machine answers during one operation: the interface of the default route, the own address and its
      netmask, and the outcomes of the probe, add and remove commands. */
  datatype Host = Host(
    iface: Option<string>, ownIp: Option<Address>, netmask: Option<Address>,
    answers: Address -> bool, refuses: Held -> bool, keeps: Held -> bool)

  /** The bindings by model, the kernel's address table, and every address whose removal failed. */
  datatype State = State(bindings: map<string, Held>, kernel: set<Held>, unreleased: set<Held>)

  // ---------------------------------------------------------------- candidates

  const ALL_ONES: nat := 0xFFFF_FFFF

  function And(a: nat, b: nat): nat {
    if a == 0 || b == 0 then 0 else 2 * And(a / 2, b / 2) + if a % 2 == 1 && b % 2 == 1 then 1 else 0
  }

  function Or(a: nat, b: nat): nat {
    if a == 0 then b else if b == 0 then a else 2 * Or(a / 2, b / 2) + if a % 2 == 1 || b % 2 == 1 then 1 else 0
  }

  /** The bits a netmask leaves for hosts. */
  function HostBits(mask: nat): int {
    ALL_ONES - mask
  }

  /** The address at an offset of the own subnet; with a netmask that has holes, offsets can share one. */
  function At(own: nat, mask: nat, offset: nat): Address {
    V4(Or(And(own, mask), offset))
  }

  /** The own address, the network, the broadcast address and the first host are never taken. */
  function Reserved(own: nat, mask: nat): set<Address> {
    {V4(own), At(own, mask, 0), At(own, mask, Max(0, HostBits(mask))), At(own, mask, 1)}
  }

  predicate Usable(own: nat, mask: nat, exclude: set<Address>, offset: nat) {
    At(own, mask, offset) !in Reserved(own, mask) + exclude
  }

  /** The first `room` usable offsets from an offset down to 2. */
  function Top(own: nat, mask: nat, exclude: set<Address>, offset: int, room: nat): seq<nat>
    decreases offset
  {
    if offset <= 1 || room == 0 then []
    else
      var taken := if Usable(own, mask, exclude, offset) then [offset] else [];
      taken + Top(own, mask, exclude, offset - 1, room - |taken|)
  }

  function AddressesAt(own: nat, mask: nat, offsets: seq<nat>): seq<Address> {
    seq(|offsets|, i requires 0 <= i < |offsets| => At(own, mask, offsets[i]))
  }

  /** The offsets tried in a subnet: from below the broadcast address down. */
  function Offsets(own: nat, mask: nat, exclude: set<Address>): seq<nat> {
    Top(own, mask, exclude, HostBits(mask) - 1, MAX_CANDIDATES)
  }

  function Candidates(host: Host, exclude: set<Address>): seq<Address> {
    if host.ownIp.Some? && host.ownIp.value.V4? && host.netmask.Some? && host.netmask.value.V4? then
      AddressesAt(host.ownIp.value.n, host.netmask.value.n, Offsets(host.ownIp.value.n, host.netmask.value.n, exclude))
    else []
  }

  // ---------------------------------------------------------------- commands

  predicate Truthy(text: Option<string>) {
    text.Some? && text.value != ""
  }

  predicate Claims(host: Host, h: Held) {
    !host.refuses(h)
  }

  /** Adding an address that is already there reports `File exists`, which counts as success. */
  function Claimed(s: State, host: Host, h: Held): State {
    if Claims(host, h) then s.(kernel := s.kernel + {h}) else s
  }

  function Released(s: State, host: Host, h: Held): State {
    if host.keeps(h) then s.(unreleased := s.unreleased + {h}) else s.(kernel := s.kernel - {h})
  }

  // ---------------------------------------------------------------- operations

  /** The index of the first candidate nobody answers for and the kernel accepts; the length when there is none. */
  function FirstFree(cands: seq<Address>, host: Host, iface: string): (k: nat)
    ensures k <= |cands|
    ensures k < |cands| ==> !host.answers(cands[k]) && Claims(host, Held(cands[k], iface))
    ensures forall i :: 0 <= i < k ==> host.answers(cands[i]) || !Claims(host, Held(cands[i], iface))
  {
    if cands == [] then 0
    else if !host.answers(cands[0]) && Claims(host, Held(cands[0], iface)) then 0
    else
      var rest := FirstFree(cands[1..], host, iface);
      assert forall i :: 0 <= i < rest ==> cands[1..][i] == cands[i + 1];
      assert forall i :: 1 <= i < rest + 1 ==> cands[i] == cands[1..][i - 1];
      rest + 1
  }

  function BoundIps(bindings: map<string, Held>): set<Address> {
    set m | m in bindings :: bindings[m].ip
  }

  function Fresh(s: State, model: string, host: Host): (State, Outcome) {
    if !Truthy(host.iface) then (s, Outcome(false, None, None, Some(NoIface), 0))
    else if host.ownIp.None? || host.netmask.None? then (s, Outcome(false, None, host.iface, Some(NoSubnet), 0))
    else
      var iface := host.iface.value;
      var cands := Candidates(host, BoundIps(s.bindings));
      if cands == [] then (s, Outcome(false, None, host.iface, Some(NoCandidates), 0))
      else
        var k := FirstFree(cands, host, iface);
        if k == |cands| then (s, Outcome(false, None, host.iface, Some(NoFreeIp), k))
        else
          var h := Held(cands[k], iface);
          (State(s.bindings[model := h], s.kernel + {h}, s.unreleased), Outcome(true, Some(h.ip), Some(iface), None, k + 1))
  }

  function Allocate(s: State, model: string, host: Host): (State, Outcome) {
    if model !in s.bindings then Fresh(s, model, host)
    else
      var h := s.bindings[model];
      if Claims(host, h) then (Claimed(s, host, h), Outcome(true, Some(h.ip), Some(h.iface), None, 0))
      else Fresh(s.(bindings := s.bindings - {model}), model, host)
  }

  predicate Routed(prefix: Prefix, ip: Address) {
    ip.V4? && prefix.net <= ip.n < prefix.net + prefix.size
  }

  /** The interface a known address is claimed on. */
  function TargetIface(s: State, model: string, ip: Address, routed: Option<Prefix>, host: Host): Option<string> {
    if routed.Some? && Routed(routed.value, ip) then Some("lo")
    else if model in s.bindings && s.bindings[model].ip == ip && s.bindings[model].iface != "" then Some(s.bindings[model].iface)
    else host.iface
  }

  function Ensure(s: State, model: string, ip: Address, routed: Option<Prefix>, host: Host): (State, Outcome) {
    if routed.Some? && ip.Text? then (s, Outcome(false, None, None, Some(InvalidIp), 0))
    else
      var iface := TargetIface(s, model, ip, routed, host);
      if !Truthy(iface) then (s, Outcome(false, Some(ip), None, Some(NoIface), 0))
      else
        var h := Held(ip, iface.value);
        var freed := if model in s.bindings && s.bindings[model] != h then Released(s, host, s.bindings[model]) else s;
        var bound := freed.(bindings := freed.bindings[model := h]);
        (Claimed(bound, host, h),
         Outcome(Claims(host, h), Some(ip), iface, if Claims(host, h) then None else Some(ClaimFailed), 0))
  }

  function Release(s: State, model: string, host: Host): (State, Outcome) {
    if model !in s.bindings then (s, Outcome(true, None, None, None, 0))
    else
      var h := s.bindings[model];
      (Released(s.(bindings := s.bindings - {model}), host, h),
       Outcome(true, Some(h.ip), Some(h.iface), if host.keeps(h) then Some(ReleaseFailed) else None, 0))
  }

  // ---------------------------------------------------------------- the order of saves and commands

  /** One step of an operation as it reaches the bindings, the state file or the kernel. */
  datatype Micro = Bind(model: string, held: Held) | Unbind(model: string) | Save | Add(held: Held) | Del(held: Held) | Stuck(held: Held)

  function Removal(host: Host, h: Held): Micro {
    if host.keeps(h) then Stuck(h) else Del(h)
  }

  /** A fresh address is claimed first and saved afterwards. */
  function FreshScript(s: State, model: string, host: Host): (script: seq<Micro>)
    ensures Save in script <==> script != []
    ensures script == [] ==> Fresh(s, model, host).0 == s
  {
    var r := Fresh(s, model, host).1;
    if r.ok && r.bindIp.Some? && r.iface.Some? then
      var h := Held(r.bindIp.value, r.iface.value);
      assert [Add(h), Bind(model, h), Save][2] == Save;
      [Add(h), Bind(model, h), Save]
    else []
  }

  function AllocateScript(s: State, model: string, host: Host): seq<Micro> {
    if model !in s.bindings then FreshScript(s, model, host)
    else if Claims(host, s.bindings[model]) then [Add(s.bindings[model])]
    else [Unbind(model), Save] + FreshScript(s.(bindings := s.bindings - {model}), model, host)
  }

  /** The old address is removed, the new binding saved, and only then claimed. */
  function EnsureScript(s: State, model: string, ip: Address, routed: Option<Prefix>, host: Host): seq<Micro> {
    var iface := TargetIface(s, model, ip, routed, host);
    if (routed.Some? && ip.Text?) || !Truthy(iface) then []
    else
      var h := Held(ip, iface.value);
      (if model in s.bindings && s.bindings[model] != h then [Removal(host, s.bindings[model])] else [])
      + [Bind(model, h), Save] + if Claims(host, h) then [Add(h)] else []
  }

  /** The binding is forgotten and saved before the address is removed. */
  function ReleaseScript(s: State, model: string, host: Host): seq<Micro> {
    if model !in s.bindings then [Save] else [Unbind(model), Save, Removal(host, s.bindings[model])]
  }

  // ---------------------------------------------------------------- imperative form

  lemma {:induction false} TopStep(own: nat, mask: nat, exclude: set<Address>, offset: nat, room: nat)
    requires offset > 1 && room > 0
    ensures var taken := if Usable(own, mask, exclude, offset) then [offset] else [];
            Top(own, mask, exclude, offset, room) == taken + Top(own, mask, exclude, offset - 1, room - |taken|)
    ensures Top(own, mask, exclude, offset - 1, 0) == []
  {
    hide Usable;
  }

  lemma {:induction false} UsableIsUnskipped(own: nat, mask: nat, exclude: set<Address>, offset: nat)
    ensures Usable(own, mask, exclude, offset) <==> At(own, mask, offset) !in Reserved(own, mask) + exclude
  {
    hide At, Reserved;
  }

  lemma {:induction false} TopEnds(own: nat, mask: nat, exclude: set<Address>, offset: int, room: nat)
    requires offset <= 1
    ensures Top(own, mask, exclude, offset, room) == []
  {
  }

  /** `_enumerate_candidates`: walk down from the top of the subnet. */
  method EnumerateCandidates(own: nat, mask: nat, exclude: set<Address>) returns (out: seq<Address>)
    ensures out == AddressesAt(own, mask, Offsets(own, mask, exclude))
  {
    hide At, Reserved, HostBits, And, Or, Top, Usable;
    out := [];
    if HostBits(mask) == 0 {
      TopEnds(own, mask, exclude, -1, MAX_CANDIDATES);
      return;
    }
    var skip := Reserved(own, mask) + exclude;
    ghost var offsets: seq<nat> := [];
    var offset := HostBits(mask) - 1;
    while offset > 1
      invariant |offsets| < MAX_CANDIDATES
      invariant out == AddressesAt(own, mask, offsets)
      invariant offsets + Top(own, mask, exclude, offset, MAX_CANDIDATES - |offsets|) == Offsets(own, mask, exclude)
      decreases offset
    {
      TopStep(own, mask, exclude, offset, MAX_CANDIDATES - |offsets|);
      var ip := At(own, mask, offset);
      assert ip in skip <==> !Usable(own, mask, exclude, offset) by {
        UsableIsUnskipped(own, mask, exclude, offset);
      }
      if ip !in skip {
        out, offsets := out + [ip], offsets + [offset];
        if |out| >= MAX_CANDIDATES {
          return;
        }
      }
      offset := offset - 1;
    }
    TopEnds(own, mask, exclude, offset, MAX_CANDIDATES - |offsets|);
  }

  class IpAllocator {
    var bindings: map<string, Held>
    var routed: Option<Prefix>
    var kernel: set<Held>
    var unreleased: set<Held>
    // What the state file holds.
    var saved: map<string, Held>
    // Every step that reached the bindings, the file or the kernel, in order.
    ghost var trace: seq<Micro>

    function Model(): State
      reads this
    {
      State(bindings, kernel, unreleased)
    }

    /** `_claim_ip`. */
    method ClaimIp(h: Held, host: Host) returns (ok: bool)
      modifies this`kernel, this`trace
      ensures ok == Claims(host, h) && Model() == Claimed(old(Model()), host, h)
      ensures trace == if ok then old(trace) + [Add(h)] else old(trace)
    {
      ok := !host.refuses(h);
      if ok {
        kernel, trace := kernel + {h}, trace + [Add(h)];
      }
    }

    /** `_release_ip`. */
    method ReleaseIp(h: Held, host: Host) returns (ok: bool)
      modifies this`kernel, this`unreleased, this`trace
      ensures ok == !host.keeps(h) && Model() == Released(old(Model()), host, h)
      ensures trace == old(trace) + [Removal(host, h)]
    {
      trace := trace + [Removal(host, h)];
      ok := !host.keeps(h);
      if ok {
        kernel := kernel - {h};
      } else {
        unreleased := unreleased + {h};
      }
    }

    /** `_save`. */
    method SaveBindings()
      modifies this`saved, this`trace
      ensures saved == bindings && trace == old(trace) + [Save]
    {
      saved, trace := bindings, trace + [Save];
    }

    /** The second half of `allocate_for`: try the candidates in order. */
    method AllocateFresh(model: string, host: Host) returns (r: Outcome)
      modifies this
      ensures (Model(), r) == Fresh(old(Model()), model, host)
      ensures trace == old(trace) + FreshScript(old(Model()), model, host)
      ensures saved == if FreshScript(old(Model()), model, host) != [] then bindings else old(saved)
      ensures routed == old(routed)
    {
      hide Offsets, AddressesAt, BoundIps;
      if !Truthy(host.iface) {
        return Outcome(false, None, None, Some(NoIface), 0);
      }
      if host.ownIp.None? || host.netmask.None? {
        return Outcome(false, None, host.iface, Some(NoSubnet), 0);
      }
      var iface := host.iface.value;
      var cands: seq<Address> := [];
      if host.ownIp.value.V4? && host.netmask.value.V4? {
        cands := EnumerateCandidates(host.ownIp.value.n, host.netmask.value.n, BoundIps(bindings));
      }
      if cands == [] {
        return Outcome(false, None, host.iface, Some(NoCandidates), 0);
      }
      hide Candidates;
      var tried := 0;
      while tried < |cands|
        invariant tried <= |cands| && Model() == old(Model()) && routed == old(routed)
        invariant trace == old(trace) && saved == old(saved)
        invariant tried <= FirstFree(cands, host, iface)
      {
        var h := Held(cands[tried], iface);
        tried := tried + 1;
        if !host.answers(h.ip) {
          var ok := ClaimIp(h, host);
          if ok {
            bindings, trace := bindings[model := h], trace + [Bind(model, h)];
            SaveBindings();
            return Outcome(true, Some(h.ip), Some(iface), None, tried);
          }
        }
      }
      r := Outcome(false, None, host.iface, Some(NoFreeIp), tried);
    }

    /** `allocate_for`: keep a binding that can be claimed again, otherwise allocate afresh. */
    method AllocateFor(model: string, host: Host) returns (r: Outcome)
      modifies this
      ensures (Model(), r) == Allocate(old(Model()), model, host)
      ensures trace == old(trace) + AllocateScript(old(Model()), model, host)
      ensures saved == if Save in AllocateScript(old(Model()), model, host) then bindings else old(saved)
      ensures routed == old(routed)
    {
      hide Fresh;
      if model in bindings {
        var h := bindings[model];
        var ok := ClaimIp(h, host);
        if ok {
          return Outcome(true, Some(h.ip), Some(h.iface), None, 0);
        }
        bindings, trace := bindings - {model}, trace + [Unbind(model)];
        SaveBindings();
        assert AllocateScript(old(Model()), model, host)[1] == Save;
      }
      r := AllocateFresh(model, host);
    }

    /** The first half of `ensure_claimed`: the loopback for a routed address, else where it is bound, else the primary. */
    method ChooseIface(model: string, ip: Address, host: Host) returns (iface: Option<string>)
      ensures iface == TargetIface(Model(), model, ip, routed, host)
    {
      if routed.Some? && Routed(routed.value, ip) {
        return Some("lo");
      }
      if model in bindings && bindings[model].ip == ip && bindings[model].iface != "" {
        return Some(bindings[model].iface);
      }
      iface := host.iface;
    }

    /** `ensure_claimed`: release a binding that changed, then bind, save and claim. */
    method EnsureClaimed(model: string, ip: Address, host: Host) returns (r: Outcome)
      modifies this
      ensures (Model(), r) == Ensure(old(Model()), model, ip, routed, host)
      ensures trace == old(trace) + EnsureScript(old(Model()), model, ip, routed, host)
      ensures saved == if Save in EnsureScript(old(Model()), model, ip, routed, host) then bindings else old(saved)
      ensures routed == old(routed)
    {
      hide TargetIface, Routed;
      if routed.Some? && ip.Text? {
        return Outcome(false, None, None, Some(InvalidIp), 0);
      }
      var iface := ChooseIface(model, ip, host);
      if !Truthy(iface) {
        return Outcome(false, Some(ip), None, Some(NoIface), 0);
      }
      var h := Held(ip, iface.value);
      if model in bindings && bindings[model] != h {
        var released := ReleaseIp(bindings[model], host);
      }
      bindings, trace := bindings[model := h], trace + [Bind(model, h)];
      SaveBindings();
      var ok := ClaimIp(h, host);
      r := Outcome(ok, Some(ip), iface, if ok then None else Some(ClaimFailed), 0);
    }

    method ReleaseFor(model: string, host: Host) returns (r: Outcome)
      modifies this
      ensures (Model(), r) == Release(old(Model()), model, host)
      ensures trace == old(trace) + ReleaseScript(old(Model()), model, host)
      ensures saved == if Save in ReleaseScript(old(Model()), model, host) then bindings else old(saved)
      ensures routed == old(routed)
    {
      if model !in bindings {
        SaveBindings();
        return Outcome(true, None, None, None, 0);
      }
      var h := bindings[model];
      bindings, trace := bindings - {model}, trace + [Unbind(model)];
      SaveBindings();
      var ok := ReleaseIp(h, host);
      r := Outcome(true, Some(h.ip), Some(h.iface), if ok then None else Some(ReleaseFailed), 0);
    }
  }
}
