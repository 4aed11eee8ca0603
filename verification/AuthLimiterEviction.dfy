/** When the login limiter forgets a key: only after `maxKeys` other keys were named since it last failed. */
module AuthLimiterEviction {
  import opened Prelude
  import opened OrderedDicts
  import opened AuthLimiters
  import opened AuthLimiterRuns
  import opened AuthLimiterLaws

  lemma {:induction false} PruneBehind(b: Bucket, c: real, k: string)
    requires Distinct(b)
    ensures Behind(PruneAll(b, c), k) <= Behind(b, k)
  {
    if b != [] {
      ConsKeys(b);
      PruneBehind(b[1..], c, k);
      PruneEach(b[1..], c);
      var rest := PruneAll(b[1..], c);
      var kept := DropOld(b[0].value, c);
      if kept == [] {
        assert PruneAll(b, c) == rest;
        BehindWithin(rest, k);
      } else {
        assert PruneAll(b, c) == [Entry(b[0].key, kept)] + rest;
        assert PruneAll(b, c)[1..] == rest;
      }
    }
  }

  // ---------------------------------------------------------------- one operation on one bucket

  lemma {:induction false} PruneKeepsPlace(b: Bucket, c: real, k: string, others: set<string>)
    requires Roomy(b, k, others)
    ensures Roomy(PruneAll(b, c), k, others)
  {
    PruneEach(b, c);
    PruneBehind(b, c, k);
  }

  lemma {:induction false} TouchKeepsPlace(b: Bucket, key: string, c: real, k: string, others: set<string>)
    requires Roomy(b, k, others) && (key == k || key in others)
    ensures Roomy(Touch(b, key, c), k, others)
  {
    hide Roomy, EventsOf, DropOld, Without;
    PutKeepsPlace(b, key, DropOld(EventsOf(b, key), c), k, others);
    assert Without(b, key) + [] == Without(b, key);
  }

  // ---------------------------------------------------------------- runs

  /** Every step names `k` or one of the others as its address. */
  predicate NamesIps(steps: seq<Step>, k: string, others: set<string>) {
    forall s :: s in steps ==> s.ip == k || s.ip in others
  }

  predicate NamesCodes(steps: seq<Step>, k: string, others: set<string>) {
    forall s :: s in steps ==> s.code == k || s.code in others
  }

  lemma {:induction false} AskKeepsIp(rules: Rules, m: Machine, now: real, ip: string, code: string, k: string, others: set<string>)
    requires Roomy(m.limiter.byIp, k, others) && (ip == k || ip in others)
    ensures Roomy(Asked(rules, m, now, ip, code).limiter.byIp, k, others)
  {
    hide Roomy, Touch, PruneAll, Over;
    PruneKeepsPlace(m.limiter.byIp, Cutoff(rules, now), k, others);
    TouchKeepsPlace(PruneAll(m.limiter.byIp, Cutoff(rules, now)), ip, Cutoff(rules, now), k, others);
  }

  lemma {:induction false} AskKeepsCode(rules: Rules, m: Machine, now: real, ip: string, code: string, k: string, others: set<string>)
    requires Roomy(m.limiter.byCode, k, others) && (code == k || code in others)
    ensures Roomy(Asked(rules, m, now, ip, code).limiter.byCode, k, others)
  {
    hide Roomy, Touch, PruneAll, Over;
    PruneKeepsPlace(m.limiter.byCode, Cutoff(rules, now), k, others);
    TouchKeepsPlace(PruneAll(m.limiter.byCode, Cutoff(rules, now)), code, Cutoff(rules, now), k, others);
  }

  lemma {:induction false} RecordKeepsIp(rules: Rules, m: Machine, now: real, ip: string, code: string, k: string, others: set<string>)
    requires Roomy(m.limiter.byIp, k, others) && (ip == k || ip in others) && |others| < rules.maxKeys
    ensures Roomy(Record(rules, m, now, ip, code).limiter.byIp, k, others)
    ensures Since(Record(rules, m, now, ip, code).ips, k) == Since(m.ips, k)
  {
    hide Roomy, PruneAll, Keys, Put, Trim, DropOld, EventsOf;
    PruneKeepsPlace(m.limiter.byIp, Cutoff(rules, now), k, others);
    var b := PruneAll(m.limiter.byIp, Cutoff(rules, now));
    PutTrimKeepsPlace(b, ip, DropOld(EventsOf(b, ip), Cutoff(rules, now)) + [now], rules.maxKeys, k, others);
  }

  lemma {:induction false} RecordKeepsCode(rules: Rules, m: Machine, now: real, ip: string, code: string, k: string, others: set<string>)
    requires Roomy(m.limiter.byCode, k, others) && (code == k || code in others) && |others| < rules.maxKeys
    ensures Roomy(Record(rules, m, now, ip, code).limiter.byCode, k, others)
    ensures Since(Record(rules, m, now, ip, code).codes, k) == Since(m.codes, k)
  {
    hide Roomy, PruneAll, Keys, Put, Trim, DropOld, EventsOf;
    PruneKeepsPlace(m.limiter.byCode, Cutoff(rules, now), k, others);
    var b := PruneAll(m.limiter.byCode, Cutoff(rules, now));
    PutTrimKeepsPlace(b, code, DropOld(EventsOf(b, code), Cutoff(rules, now)) + [now], rules.maxKeys, k, others);
  }

  lemma {:induction false} NextKeepsIp(rules: Rules, m: Machine, s: Step, k: string, others: set<string>)
    requires Roomy(m.limiter.byIp, k, others) && (s.ip == k || s.ip in others) && |others| < rules.maxKeys
    ensures Roomy(Next(rules, m, s).limiter.byIp, k, others) && Since(Next(rules, m, s).ips, k) == Since(m.ips, k)
  {
    hide Roomy, Verdict, AfterAsk, Record, Since;
    match s
    case Ask(now, ip, code) => AskKeepsIp(rules, m, now, ip, code, k, others);
    case Fail(now, ip, code) => RecordKeepsIp(rules, m, now, ip, code, k, others);
    case Login(asked, failed, ip, code, known) =>
      AskKeepsIp(rules, m, asked, ip, code, k, others);
      RecordKeepsIp(rules, Asked(rules, m, asked, ip, code), failed, ip, code, k, others);
  }

  lemma {:induction false} NextKeepsCode(rules: Rules, m: Machine, s: Step, k: string, others: set<string>)
    requires Roomy(m.limiter.byCode, k, others) && (s.code == k || s.code in others) && |others| < rules.maxKeys
    ensures Roomy(Next(rules, m, s).limiter.byCode, k, others) && Since(Next(rules, m, s).codes, k) == Since(m.codes, k)
  {
    hide Roomy, Verdict, AfterAsk, Record, Since;
    match s
    case Ask(now, ip, code) => AskKeepsCode(rules, m, now, ip, code, k, others);
    case Fail(now, ip, code) => RecordKeepsCode(rules, m, now, ip, code, k, others);
    case Login(asked, failed, ip, code, known) =>
      AskKeepsCode(rules, m, asked, ip, code, k, others);
      RecordKeepsCode(rules, Asked(rules, m, asked, ip, code), failed, ip, code, k, others);
  }

  /** From a state with only some of the others behind `k`, a run naming `k` and fewer than `maxKeys` others
      never forgets `k`. Right after a failure of `k` nothing is behind it. */
  lemma {:induction false} RememberedUntilCrowded(rules: Rules, m: Machine, steps: seq<Step>, k: string, others: set<string>)
    requires Distinct(m.limiter.byIp) && Behind(m.limiter.byIp, k) <= others
    requires NamesIps(steps, k, others) && |others| < rules.maxKeys
    ensures Since(Run(rules, m, steps).ips, k) == Since(m.ips, k)
    decreases |steps|
  {
    hide Next, Since, Distinct, Behind;
    if steps != [] {
      assert steps[0] in steps;
      NextKeepsIp(rules, m, steps[0], k, others);
      RememberedUntilCrowded(rules, Next(rules, m, steps[0]), steps[1..], k, others);
    }
  }

  lemma {:induction false} CodeRememberedUntilCrowded(rules: Rules, m: Machine, steps: seq<Step>, k: string, others: set<string>)
    requires Distinct(m.limiter.byCode) && Behind(m.limiter.byCode, k) <= others
    requires NamesCodes(steps, k, others) && |others| < rules.maxKeys
    ensures Since(Run(rules, m, steps).codes, k) == Since(m.codes, k)
    decreases |steps|
  {
    hide Next, Since, Distinct, Behind;
    if steps != [] {
      assert steps[0] in steps;
      NextKeepsCode(rules, m, steps[0], k, others);
      CodeRememberedUntilCrowded(rules, Next(rules, m, steps[0]), steps[1..], k, others);
    }
  }

  lemma {:induction false} NothingBehindAFailure(rules: Rules, m: Machine, now: real, ip: string, code: string)
    requires rules.maxKeys >= 1 && Distinct(m.limiter.byIp)
    ensures Behind(Record(rules, m, now, ip, code).limiter.byIp, ip) == {}
  {
    hide Keys, EventsOf, DropOld, PruneAll, Behind, Distinct, Put, Trim;
    var c := Cutoff(rules, now);
    var b := PruneAll(m.limiter.byIp, c);
    var events := DropOld(EventsOf(b, ip), c) + [now];
    PruneEach(m.limiter.byIp, c);
    PutKeepsPlace(b, ip, events, ip, Behind(b, ip));
    PutChangesOne(b, ip, events);
    TrimBehind(Put(b, ip, events), rules.maxKeys, ip);
  }

  /** While at most `maxKeys` addresses and codes have been named, a verdict counts the whole history. */
  lemma {:induction false} VerdictCountsEverything(rules: Rules, steps: seq<Step>, at: real, now: real, ip: string, code: string,
                                                   ips: set<string>, codes: set<string>)
    requires ValidRules(rules) && Clocked(steps, at) && End(steps, at) <= now
    requires NamesIps(steps, ip, ips) && |ips| < rules.maxKeys
    requires NamesCodes(steps, code, codes) && |codes| < rules.maxKeys
    ensures var m := Run(rules, Start(at), steps);
            Verdict(rules, m.limiter, now, ip, code) <==>
              || InWindow(m.ips.history, ip, now - rules.window, now) >= rules.limit
              || InWindow(m.codes.history, code, now - rules.window, now) >= rules.limit
  {
    hide Run, InWindow, Verdict;
    VerdictIsExact(rules, steps, at, now, ip, code);
    RememberedUntilCrowded(rules, Start(at), steps, ip, ips);
    CodeRememberedUntilCrowded(rules, Start(at), steps, code, codes);
    var m := Run(rules, Start(at), steps);
    assert m.ips.history[0..] == m.ips.history && m.codes.history[0..] == m.codes.history;
  }
}
