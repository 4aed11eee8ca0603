/** What a login attempt answers and records, in every reachable state of the limiter. */
module AuthLogins {
  import opened Prelude
  import opened OrderedDicts
  import opened AuthLimiters
  import opened AuthLimiterRuns
  import opened AuthLimiterLaws

  /** The first member holding the digest of the code. */
  ghost predicate FirstHolder(members: seq<Member>, digest: string -> string, code: string, i: nat) {
    && i < |members| && members[i].codeDigest == digest(code)
    && forall j :: 0 <= j < i ==> members[j].codeDigest != digest(code)
  }

  /** The code lets a member in: it is long enough, and a member holds its digest. */
  predicate Known(members: seq<Member>, digest: string -> string, code: string) {
    |code| >= 8 && exists i :: 0 <= i < |members| && members[i].codeDigest == digest(code)
  }

  lemma {:induction false} LookupIsExact(members: seq<Member>, digest: string -> string, code: string)
    ensures Lookup(members, code, digest).Some? <==> Known(members, digest, code)
    ensures Lookup(members, code, digest).Some? ==>
              exists i: nat :: FirstHolder(members, digest, code, i) && Lookup(members, code, digest) == Some(members[i].id)
  {
    if members != [] && |code| >= 8 {
      var rest := members[1..];
      if members[0].codeDigest == digest(code) {
        assert FirstHolder(members, digest, code, 0);
      } else {
        LookupIsExact(rest, digest, code);
        if Known(members, digest, code) {
          var i :| 0 <= i < |members| && members[i].codeDigest == digest(code);
          assert rest[i - 1].codeDigest == digest(code);
        }
        if Lookup(rest, code, digest).Some? {
          var i: nat :| FirstHolder(rest, digest, code, i) && Lookup(rest, code, digest) == Some(rest[i].id);
          assert FirstHolder(members, digest, code, i + 1);
        }
      }
    }
  }

  /** The address is shut out: the last window holds `limit` of its failures, or of the code's, since each was last
      evicted. */
  ghost predicate ShutOut(rules: Rules, m: Machine, now: real, ip: string, code: string) {
    && Since(m.ips, ip) <= |m.ips.history| && Since(m.codes, code) <= |m.codes.history|
    && (|| InWindow(Remembered(m.ips, ip), ip, now - rules.window, now) >= rules.limit
        || InWindow(Remembered(m.codes, code), code, now - rules.window, now) >= rules.limit)
  }

  /** What an attempt does to the two histories. */
  predicate Records(m: Machine, m': Machine, ip: string, code: string, at: real) {
    && m'.ips.history == m.ips.history + [Failure(ip, at)]
    && m'.codes.history == m.codes.history + [Failure(code, at)]
  }

  /** In every reachable state a login is refused as limited exactly when it is shut out; it is let in exactly when it is
      not shut out and its code is known, as the first member holding the digest; and exactly the other refusals record a
      failure, one for the address and one for the code, where nothing given counts as one name of its own. */
  lemma {:induction false} LoginIsExact(rules: Rules, steps: seq<Step>, at: real, members: seq<Member>, digest: string -> string,
                                        accessCode: Option<string>, ip: Option<string>, asked: real, failed: real)
    requires ValidRules(rules) && Clocked(steps, at) && End(steps, at) <= asked <= failed
    ensures var m := Run(rules, Start(at), steps);
            var (after, r) := Attempt(rules, m.limiter, members, digest, accessCode, ip, asked, failed);
            var code := if accessCode.None? then "" else accessCode.value;
            var ipName := if ip.None? || ip.value == "" then "<unknown>" else ip.value;
            var codeName := if code == "" then "<missing>" else code;
            var m' := Next(rules, m, Login(asked, failed, ipName, codeName, r.ok));
            && r.rateLimited == ShutOut(rules, m, asked, ipName, codeName)
            && r.ok == (!r.rateLimited && Known(members, digest, code))
            && (if r.ok then exists i: nat :: FirstHolder(members, digest, code, i) && r.memberId == Some(members[i].id)
                else r.memberId == None)
            && m'.limiter == after
            && (if r.rateLimited || r.ok then m'.ips == m.ips && m'.codes == m.codes
                else Records(m, m', ipName, codeName, failed))
  {
    hide Run, InWindow, Remembered, Known, FirstHolder, Verdict, AfterAsk, AfterFail, Lookup;
    var code := CodeText(accessCode);
    var ipName, codeName := IpKey(ip), CodeKey(accessCode);
    LookupIsExact(members, digest, code);
    VerdictIsExact(rules, steps, at, asked, ipName, codeName);
  }
}
