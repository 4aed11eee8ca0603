/** The sliding-window limiter on failed logins and the login check that feeds it (vprinter/auth.py).
    Failures are kept per source address and per access code, in two ordered, bounded buckets. */
module AuthLimiters {
  import opened Prelude
  import opened OrderedDicts

  /** For each key the times of its failures, oldest first. */
  type Bucket = Dict<seq<real>>

  datatype Rules = Rules(limit: int, window: real, maxKeys: nat)

  datatype Limiter = Limiter(byIp: Bucket, byCode: Bucket)

  predicate ValidRules(rules: Rules) {
    rules.window >= 0.0 && rules.maxKeys >= 1
  }

  function IpKey(ip: Option<string>): string {
    if ip.Some? && ip.value != "" then ip.value else "<unknown>"
  }

  function CodeKey(code: Option<string>): string {
    if code.Some? && code.value != "" then code.value else "<missing>"
  }

  // ---------------------------------------------------------------- buckets

  function DropOld(events: seq<real>, cutoff: real): seq<real> {
    if events == [] || events[0] >= cutoff then events else DropOld(events[1..], cutoff)
  }

  function EventsOf(b: Bucket, key: string): seq<real> {
    var queue := Get(b, key);
    if queue.Some? then queue.value else []
  }

  function PruneAll(b: Bucket, cutoff: real): Bucket {
    if b == [] then []
    else
      var kept := DropOld(b[0].value, cutoff);
      (if kept == [] then [] else [Entry(b[0].key, kept)]) + PruneAll(b[1..], cutoff)
  }

  /** Counting a key's failures also makes it the most recent one, or forgets it when none are left. */
  function Touch(b: Bucket, key: string, cutoff: real): Bucket {
    var kept := DropOld(EventsOf(b, key), cutoff);
    Without(b, key) + if kept == [] then [] else [Entry(key, kept)]
  }

  function Append(b: Bucket, key: string, now: real, cutoff: real, maxKeys: nat): Bucket {
    Trim(Put(b, key, DropOld(EventsOf(b, key), cutoff) + [now]), maxKeys)
  }

  // ---------------------------------------------------------------- the limiter

  function Cutoff(rules: Rules, now: real): real {
    now - rules.window
  }

  predicate Over(rules: Rules, b: Bucket, key: string, now: real) {
    |DropOld(EventsOf(PruneAll(b, Cutoff(rules, now)), key), Cutoff(rules, now))| >= rules.limit
  }

  predicate Verdict(rules: Rules, s: Limiter, now: real, ip: string, code: string) {
    Over(rules, s.byIp, ip, now) || Over(rules, s.byCode, code, now)
  }

  /** Asking prunes both buckets, touches the address, and touches the code only when the address is below its limit. */
  function AfterAsk(rules: Rules, s: Limiter, now: real, ip: string, code: string): Limiter {
    var cutoff := Cutoff(rules, now);
    Limiter(
      Touch(PruneAll(s.byIp, cutoff), ip, cutoff),
      if Over(rules, s.byIp, ip, now) then PruneAll(s.byCode, cutoff)
      else Touch(PruneAll(s.byCode, cutoff), code, cutoff))
  }

  function AfterFail(rules: Rules, s: Limiter, now: real, ip: string, code: string): Limiter {
    var cutoff := Cutoff(rules, now);
    Limiter(
      Append(PruneAll(s.byIp, cutoff), ip, now, cutoff, rules.maxKeys),
      Append(PruneAll(s.byCode, cutoff), code, now, cutoff, rules.maxKeys))
  }

  /** A login: refused unseen when limited; otherwise a wrong code is recorded as a failure. */
  function AfterLogin(rules: Rules, s: Limiter, asked: real, failed: real, ip: string, code: string, known: bool): Limiter {
    var next := AfterAsk(rules, s, asked, ip, code);
    if Verdict(rules, s, asked, ip, code) || known then next else AfterFail(rules, next, failed, ip, code)
  }

  // ---------------------------------------------------------------- imperative form

  class AuthRateLimiter {
    const rules: Rules
    var byIp: Bucket
    var byCode: Bucket

    function Model(): Limiter
      reads this
    {
      Limiter(byIp, byCode)
    }

    constructor (limit: int, window: real, maxKeys: int)
      ensures rules == Rules(limit, window, Max(1, maxKeys)) && Model() == Limiter([], [])
    {
      rules := Rules(limit, window, Max(1, maxKeys));
      byIp, byCode := [], [];
    }

    /** `_prune`: drop the failures that left the window from the front of one queue. */
    method Prune(queue: seq<real>, now: real) returns (events: seq<real>)
      ensures events == DropOld(queue, Cutoff(rules, now))
    {
      var cutoff := now - rules.window;
      events := queue;
      while events != [] && events[0] < cutoff
        invariant DropOld(events, cutoff) == DropOld(queue, cutoff)
        decreases |events|
      {
        events := events[1..];
      }
    }

    /** `_prune_bucket`: prune every queue and drop the keys left without failures. */
    method PruneBucket(bucket: Bucket, now: real) returns (kept: Bucket)
      ensures kept == PruneAll(bucket, Cutoff(rules, now))
    {
      kept := [];
      for i := 0 to |bucket|
        invariant kept + PruneAll(bucket[i..], Cutoff(rules, now)) == PruneAll(bucket, Cutoff(rules, now))
      {
        var events := Prune(bucket[i].value, now);
        assert bucket[i..][1..] == bucket[i + 1..];
        if |events| != 0 {
          kept := kept + [Entry(bucket[i].key, events)];
        }
      }
      assert bucket[|bucket|..] == [];
    }

    /** `_count_for_key`. */
    method CountForKey(bucket: Bucket, key: string, now: real) returns (count: nat, after: Bucket)
      ensures count == |DropOld(EventsOf(bucket, key), Cutoff(rules, now))|
      ensures after == Touch(bucket, key, Cutoff(rules, now))
    {
      var events := Prune(EventsOf(bucket, key), now);
      count := |events|;
      after := Without(bucket, key);
      if count > 0 {
        after := after + [Entry(key, events)];
      }
    }

    /** `_append`, with the eviction loop. */
    method AppendTo(bucket: Bucket, key: string, now: real) returns (after: Bucket)
      ensures after == Append(bucket, key, now, Cutoff(rules, now), rules.maxKeys)
    {
      var events := Prune(EventsOf(bucket, key), now);
      after := EvictBeyond(Put(bucket, key, events + [now]), rules.maxKeys);
    }

    method IsLimited(now: real, ip: Option<string>, code: Option<string>) returns (limited: bool)
      modifies this
      ensures limited == Verdict(rules, old(Model()), now, IpKey(ip), CodeKey(code))
      ensures Model() == AfterAsk(rules, old(Model()), now, IpKey(ip), CodeKey(code))
    {
      byIp := PruneBucket(byIp, now);
      byCode := PruneBucket(byCode, now);
      var count: nat;
      count, byIp := CountForKey(byIp, IpKey(ip), now);
      if count >= rules.limit {
        return true;
      }
      count, byCode := CountForKey(byCode, CodeKey(code), now);
      limited := count >= rules.limit;
    }

    method RecordFailure(now: real, ip: Option<string>, code: Option<string>)
      modifies this
      ensures Model() == AfterFail(rules, old(Model()), now, IpKey(ip), CodeKey(code))
    {
      byIp := PruneBucket(byIp, now);
      byCode := PruneBucket(byCode, now);
      byIp := AppendTo(byIp, IpKey(ip), now);
      byCode := AppendTo(byCode, CodeKey(code), now);
    }
  }

  // ---------------------------------------------------------------- the login check

  datatype Member = Member(id: string, codeDigest: string)
  datatype AuthResult = AuthResult(ok: bool, memberId: Option<string>, rateLimited: bool)

  /** What was given for a code; nothing reads as the empty text. */
  function CodeText(accessCode: Option<string>): string {
    if accessCode.Some? then accessCode.value else ""
  }

  /** The member a code belongs to: the first one holding its digest, for codes of at least eight characters. */
  function Lookup(members: seq<Member>, code: string, digest: string -> string): Option<string> {
    if members == [] || |code| < 8 then None
    else if members[0].codeDigest == digest(code) then Some(members[0].id)
    else Lookup(members[1..], code, digest)
  }

  /** A login attempt, made at `asked`; a refusal of an unknown code is recorded at `failed`. */
  function Attempt(rules: Rules, s: Limiter, members: seq<Member>, digest: string -> string,
                   accessCode: Option<string>, ip: Option<string>, asked: real, failed: real): (Limiter, AuthResult)
  {
    var found := Lookup(members, CodeText(accessCode), digest);
    var limited := Verdict(rules, s, asked, IpKey(ip), CodeKey(accessCode));
    (AfterLogin(rules, s, asked, failed, IpKey(ip), CodeKey(accessCode), found.Some?),
     if limited then AuthResult(false, None, true) else AuthResult(found.Some?, found, false))
  }

  class MemberAuthSet {
    var members: seq<Member>
    const limiter: AuthRateLimiter

    constructor (members: seq<Member>, limiter: AuthRateLimiter)
      ensures this.members == members && this.limiter == limiter
    {
      this.members := members;
      this.limiter := limiter;
    }

    /** `lookup_member_id`: every member is compared, wherever the match is. */
    method LookupMemberId(accessCode: Option<string>, digest: string -> string) returns (matched: Option<string>)
      ensures matched == Lookup(members, CodeText(accessCode), digest)
      ensures matched.Some? <==>
                |CodeText(accessCode)| >= 8 && exists i :: 0 <= i < |members| && members[i].codeDigest == digest(CodeText(accessCode))
      ensures matched.Some? ==>
                exists i :: 0 <= i < |members| && members[i].codeDigest == digest(CodeText(accessCode)) && matched.value == members[i].id
                            && forall j :: 0 <= j < i ==> members[j].codeDigest != digest(CodeText(accessCode))
    {
      var provided := CodeText(accessCode);
      var candidate := |provided| >= 8;
      matched := None;
      for i := 0 to |members|
        invariant matched.None? ==> Lookup(members[i..], provided, digest) == Lookup(members, provided, digest)
        invariant matched.None? && candidate ==> forall j :: 0 <= j < i ==> members[j].codeDigest != digest(provided)
        invariant matched.Some? ==> matched == Lookup(members, provided, digest)
        invariant matched.Some? ==>
                    candidate
                    && exists k :: 0 <= k < i && members[k].codeDigest == digest(provided) && matched.value == members[k].id
                                   && forall j :: 0 <= j < k ==> members[j].codeDigest != digest(provided)
      {
        assert members[i..][1..] == members[i + 1..];
        if candidate && members[i].codeDigest == digest(provided) && matched == None {
          matched := Some(members[i].id);
        }
      }
    }

    method Authenticate(accessCode: Option<string>, ip: Option<string>, asked: real, failed: real, digest: string -> string)
      returns (r: AuthResult)
      modifies limiter
      ensures (limiter.Model(), r) == Attempt(limiter.rules, old(limiter.Model()), members, digest, accessCode, ip, asked, failed)
    {
      var limited := limiter.IsLimited(asked, ip, accessCode);
      if limited {
        return AuthResult(false, None, true);
      }
      var memberId := LookupMemberId(accessCode, digest);
      if memberId != None {
        return AuthResult(true, memberId, false);
      }
      limiter.RecordFailure(failed, ip, accessCode);
      r := AuthResult(false, None, false);
    }
  }
}
