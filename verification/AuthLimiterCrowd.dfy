/** The price of a bounded table: under every rules that let anyone in at all, a crowd of other addresses makes the
    limiter forget one that had used up its limit, which then fails once more in the same window. */
module AuthLimiterCrowd {
  import opened Prelude
  import opened OrderedDicts
  import opened AuthLimiters
  import opened AuthLimiterRuns
  import opened AuthLimiterLaws

  // ---------------------------------------------------------------- tables filled at one instant

  /** Nothing is empty and nothing is old, so nothing is ever pruned. */
  ghost predicate AtZero(b: Bucket) {
    forall i :: 0 <= i < |b| ==> b[i].value != [] && forall j :: 0 <= j < |b[i].value| ==> b[i].value[j] == 0.0
  }

  lemma {:induction false} NothingOld(e: seq<real>, c: real)
    requires c <= 0.0 && forall j :: 0 <= j < |e| ==> e[j] == 0.0
    ensures DropOld(e, c) == e
  {
  }

  lemma {:induction false} NothingPruned(b: Bucket, c: real)
    requires AtZero(b) && c <= 0.0
    ensures PruneAll(b, c) == b
  {
    if b != [] {
      NothingOld(b[0].value, c);
      NothingPruned(b[1..], c);
      assert b == [b[0]] + b[1..];
    }
  }

  lemma {:induction false} EventsAtZero(b: Bucket, key: string)
    requires AtZero(b)
    ensures forall j :: 0 <= j < |EventsOf(b, key)| ==> EventsOf(b, key)[j] == 0.0
  {
    if b != [] {
      EventsAtZero(b[1..], key);
      assert EventsOf(b, key) == if b[0].key == key then b[0].value else EventsOf(b[1..], key);
    }
  }

  lemma {:induction false} WithoutAtZero(b: Bucket, key: string)
    requires AtZero(b)
    ensures AtZero(Without(b, key))
    ensures Without(Without(b, key), key) == Without(b, key)
    ensures EventsOf(b, key) == [] ==> Without(b, key) == b
  {
    if b != [] {
      WithoutAtZero(b[1..], key);
      var rest := Without(b[1..], key);
      if b[0].key != key {
        assert Without(b, key) == [b[0]] + rest && ([b[0]] + rest)[1..] == rest;
        assert b == [b[0]] + b[1..];
      } else {
        assert Without(b, key) == rest;
        assert EventsOf(b, key) == b[0].value;
      }
    }
  }

  lemma {:induction false} LastOut(b: Bucket, key: string, events: seq<real>)
    ensures Without(b + [Entry(key, events)], key) == Without(b, key)
    ensures Without(b, key) == b ==> EventsOf(b + [Entry(key, events)], key) == events
  {
    var all := b + [Entry(key, events)];
    if b == [] {
      assert all[1..] == [];
    } else {
      assert all[1..] == b[1..] + [Entry(key, events)];
      LastOut(b[1..], key, events);
      if Without(b, key) == b {
        WithoutShorter(b[1..], key);
        assert b[0].key != key;
        assert b[1..] == Without(b, key)[1..];
      }
    }
  }

  lemma {:induction false} WithoutShorter(b: Bucket, key: string)
    ensures |Without(b, key)| <= |b|
  {
    if b != [] {
      WithoutShorter(b[1..], key);
    }
  }

  /** What one more failure at time zero makes of a table. */
  function Failed(b: Bucket, key: string, cap: nat): Bucket {
    Trim(Put(b, key, EventsOf(b, key) + [0.0]), cap)
  }

  lemma {:induction false} SnocAtZero(b: Bucket, key: string, events: seq<real>)
    requires AtZero(b) && forall j :: 0 <= j < |events| ==> events[j] == 0.0
    ensures AtZero(b + [Entry(key, events + [0.0])])
  {
  }

  lemma {:induction false} TrimAtZero(b: Bucket, cap: nat)
    requires AtZero(b)
    ensures AtZero(Trim(b, cap))
  {
    if |b| > cap {
      forall i | 0 <= i < |Trim(b, cap)| ensures Trim(b, cap)[i] == b[i + |b| - cap] {
      }
    }
  }

  lemma {:induction false} FailedAtZero(b: Bucket, key: string, cap: nat)
    requires AtZero(b)
    ensures AtZero(Failed(b, key, cap))
  {
    hide AtZero, EventsOf, Trim, Without;
    WithoutAtZero(b, key);
    EventsAtZero(b, key);
    SnocAtZero(Without(b, key), key, EventsOf(b, key));
    TrimAtZero(Without(b, key) + [Entry(key, EventsOf(b, key) + [0.0])], cap);
  }

  /** Asking and failing at time zero. */
  lemma {:induction false} AskThenFail(b: Bucket, key: string, c: real, cap: nat)
    requires AtZero(b) && c <= 0.0
    ensures var asked := Touch(PruneAll(b, c), key, c);
            Append(PruneAll(asked, c), key, 0.0, c, cap) == Failed(b, key, cap)
  {
    hide PruneAll, DropOld, Get, Trim, AtZero;
    var events := EventsOf(b, key);
    var asked := Touch(b, key, c);
    NothingPruned(b, c);
    EventsAtZero(b, key);
    NothingOld(events, c);
    WithoutAtZero(b, key);
    LastOut(Without(b, key), key, events);
    assert asked == if events == [] then Without(b, key) + [] else Without(b, key) + [Entry(key, events)];
    assert Without(b, key) + [] == Without(b, key);
    TouchedAtZero(b, key, events);
    NothingPruned(asked, c);
  }

  lemma {:induction false} TouchedAtZero(b: Bucket, key: string, events: seq<real>)
    requires AtZero(b) && events == EventsOf(b, key)
    ensures AtZero(Without(b, key)) && (events != [] ==> AtZero(Without(b, key) + [Entry(key, events)]))
    ensures events == [] ==> EventsOf(Without(b, key), key) == []
  {
    WithoutAtZero(b, key);
    EventsAtZero(b, key);
  }

  // ---------------------------------------------------------------- one unseen login

  function Try(ip: string, code: string): Step {
    Login(0.0, 0.0, ip, code, false)
  }

  ghost predicate Quiet(m: Machine) {
    AtZero(m.limiter.byIp) && AtZero(m.limiter.byCode)
  }

  /** An unknown code from an address below its limit, used for the first time, is recorded. */
  lemma {:induction false} TryIsRecorded(rules: Rules, m: Machine, ip: string, code: string)
    requires ValidRules(rules) && Quiet(m)
    requires |EventsOf(m.limiter.byIp, ip)| < rules.limit && EventsOf(m.limiter.byCode, code) == []
    ensures var after := Next(rules, m, Try(ip, code));
            && after.limiter == Limiter(Failed(m.limiter.byIp, ip, rules.maxKeys), Failed(m.limiter.byCode, code, rules.maxKeys))
            && after.ips.history == m.ips.history + [Failure(ip, 0.0)]
            && Quiet(after)
  {
    hide PruneAll, DropOld, EventsOf, Touch, Append, AtZero;
    var c := Cutoff(rules, 0.0);
    NothingPruned(m.limiter.byIp, c);
    NothingPruned(m.limiter.byCode, c);
    EventsAtZero(m.limiter.byIp, ip);
    NothingOld(EventsOf(m.limiter.byIp, ip), c);
    NothingOld([], c);
    AskThenFail(m.limiter.byIp, ip, c, rules.maxKeys);
    AskThenFail(m.limiter.byCode, code, c, rules.maxKeys);
    FailedAtZero(m.limiter.byIp, ip, rules.maxKeys);
    FailedAtZero(m.limiter.byCode, code, rules.maxKeys);
  }

  // ---------------------------------------------------------------- names and codes

  /** Words of one letter are told apart by their length. */
  function Word(letter: char, n: nat): string {
    seq(n + 1, _ => letter)
  }

  /** Every code seen so far is a shorter word than the next one. */
  ghost predicate CodesBelow(b: Bucket, n: nat) {
    forall i :: 0 <= i < |b| ==> |b[i].key| <= n
  }

  lemma {:induction false} LongWordIsNew(b: Bucket, n: nat)
    requires CodesBelow(b, n)
    ensures EventsOf(b, Word('c', n)) == [] && Without(b, Word('c', n)) == b
  {
    if b != [] {
      assert CodesBelow(b[1..], n) by {
        forall i | 0 <= i < |b[1..]| ensures |b[1..][i].key| <= n {
          assert b[1..][i] == b[i + 1];
        }
      }
      LongWordIsNew(b[1..], n);
      assert b[0].key != Word('c', n) by {
        assert |Word('c', n)| == n + 1;
      }
    }
  }

  lemma {:induction false} SnocBelow(b: Bucket, e: Entry<seq<real>>, n: nat)
    requires CodesBelow(b, n) && |e.key| <= n + 1
    ensures CodesBelow(b + [e], n + 1)
  {
  }

  lemma {:induction false} TrimBelow(b: Bucket, cap: nat, n: nat)
    requires CodesBelow(b, n)
    ensures CodesBelow(Trim(b, cap), n)
  {
    if |b| > cap {
      forall i | 0 <= i < cap ensures |Trim(b, cap)[i].key| <= n {
        assert Trim(b, cap)[i] == b[i + |b| - cap];
      }
    }
  }

  lemma {:induction false} NextCode(b: Bucket, n: nat, cap: nat)
    requires CodesBelow(b, n)
    ensures CodesBelow(Failed(b, Word('c', n), cap), n + 1)
  {
    hide CodesBelow, Trim, EventsOf, Without;
    var events := EventsOf(b, Word('c', n)) + [0.0];
    LongWordIsNew(b, n);
    assert |Word('c', n)| == n + 1;
    SnocBelow(b, Entry(Word('c', n), events), n);
    TrimBelow(b + [Entry(Word('c', n), events)], cap, n + 1);
  }

  // ---------------------------------------------------------------- the three acts

  const VICTIM: string := "a"

  function Zeros(n: nat): seq<real> {
    seq(n, _ => 0.0)
  }

  /** The victim uses up its limit, each time with a new code. */
  function Attempts(n: nat): seq<Step> {
    seq(n, i requires 0 <= i < n => Try(VICTIM, Word('c', i)))
  }

  /** Other addresses fail once each, with new codes too. */
  function Crowd(first: nat, n: nat): seq<Step> {
    seq(n, i requires 0 <= i < n => Try(Word('b', i), Word('c', first + i)))
  }

  function Others(n: nat): Bucket {
    seq(n, i requires 0 <= i < n => Entry(Word('b', i), [0.0]))
  }

  lemma {:induction false} RunConcat(rules: Rules, m: Machine, a: seq<Step>, b: seq<Step>)
    ensures Run(rules, m, a + b) == Run(rules, Run(rules, m, a), b)
    decreases |a|
  {
    hide Next;
    if a == [] {
      assert a + b == b;
    } else {
      RunConcat(rules, Next(rules, m, a[0]), a[1..], b);
      assert (a + b)[0] == a[0] && (a + b)[1..] == a[1..] + b;
    }
  }

  lemma {:induction false} RunSnoc(rules: Rules, m: Machine, a: seq<Step>, s: Step)
    ensures Run(rules, m, a + [s]) == Next(rules, Run(rules, m, a), s)
  {
    hide Next;
    RunConcat(rules, m, a, [s]);
    assert [s][1..] == [];
    assert Run(rules, Run(rules, m, a), [s]) == Run(rules, Next(rules, Run(rules, m, a), s), []);
  }

  function VictimCount(h: seq<Failure>): nat {
    InWindow(h, VICTIM, 0.0, 0.0)
  }

  lemma {:induction false} CountSnoc(h: seq<Failure>, ip: string)
    ensures VictimCount(h + [Failure(ip, 0.0)]) == VictimCount(h) + if ip == VICTIM then 1 else 0
  {
    assert (h + [Failure(ip, 0.0)])[..|h|] == h;
  }

  /** The victim alone in the table. */
  function Alone(n: nat): Bucket {
    if n == 0 then [] else [Entry(VICTIM, Zeros(n))]
  }

  lemma {:induction false} AloneGrows(n: nat, cap: nat)
    requires cap >= 1
    ensures EventsOf(Alone(n), VICTIM) == Zeros(n) && Failed(Alone(n), VICTIM, cap) == Alone(n + 1)
  {
    assert Zeros(n) + [0.0] == Zeros(n + 1);
    var none: Bucket := [];
    assert Without(none, VICTIM) == [];
    if n > 0 {
      assert Alone(n)[1..] == none;
    }
  }

  lemma {:induction false} AttemptsRun(rules: Rules, n: nat)
    requires ValidRules(rules) && n <= rules.limit
    ensures var m := Run(rules, Start(0.0), Attempts(n));
            && Quiet(m) && m.limiter.byIp == Alone(n) && CodesBelow(m.limiter.byCode, n)
            && VictimCount(m.ips.history) == n
  {
    hide Next, Failed, AtZero;
    if n == 0 {
      NothingYet();
    } else {
      AttemptsRun(rules, n - 1);
      var m := Run(rules, Start(0.0), Attempts(n - 1));
      RunSnoc(rules, Start(0.0), Attempts(n - 1), Try(VICTIM, Word('c', n - 1)));
      assert Attempts(n) == Attempts(n - 1) + [Try(VICTIM, Word('c', n - 1))];
      AloneGrows(n - 1, rules.maxKeys);
      LongWordIsNew(m.limiter.byCode, n - 1);
      hide EventsOf, Alone, CodesBelow;
      TryIsRecorded(rules, m, VICTIM, Word('c', n - 1));
      NextCode(m.limiter.byCode, n - 1, rules.maxKeys);
      CountSnoc(m.ips.history, VICTIM);
    }
  }

  lemma {:induction false} NothingYet()
    ensures Quiet(Start(0.0)) && CodesBelow([], 0) && Attempts(0) == [] && VictimCount([]) == 0
  {
  }

  lemma {:induction false} OtherIsNew(b: Bucket, n: nat)
    requires forall i :: 0 <= i < |b| ==> b[i].key != Word('b', n)
    ensures EventsOf(b, Word('b', n)) == [] && Without(b, Word('b', n)) == b
  {
    if b != [] {
      forall i | 0 <= i < |b[1..]| ensures b[1..][i].key != Word('b', n) {
        assert b[1..][i] == b[i + 1];
      }
      OtherIsNew(b[1..], n);
    }
  }

  lemma {:induction false} TrimSnoc(d: Bucket, e: Entry<seq<real>>, cap: nat)
    requires cap >= 1
    ensures Trim(Trim(d, cap) + [e], cap) == Trim(d + [e], cap)
  {
  }

  /** The table once the crowd has `n` members: the newest entries that fit. */
  function Full(limit: nat, n: nat, cap: nat): Bucket {
    Trim(Alone(limit) + Others(n), cap)
  }

  lemma {:induction false} OneMoreOther(limit: nat, n: nat, cap: nat)
    requires limit >= 1 && cap >= 1
    ensures EventsOf(Full(limit, n, cap), Word('b', n)) == []
    ensures Failed(Full(limit, n, cap), Word('b', n), cap) == Full(limit, n + 1, cap)
  {
    var wide := Alone(limit) + Others(n);
    var e := Entry(Word('b', n), [0.0]);
    forall i | 0 <= i < |Full(limit, n, cap)| ensures Full(limit, n, cap)[i].key != e.key {
      var j := i + |wide| - |Full(limit, n, cap)|;
      assert Full(limit, n, cap)[i] == wide[j];
      OtherName(limit, n, j);
    }
    OtherIsNew(Full(limit, n, cap), n);
    assert wide + [e] == Alone(limit) + Others(n + 1);
    TrimSnoc(wide, e, cap);
    assert [] + [0.0] == [0.0];
  }

  lemma {:induction false} OtherName(limit: nat, n: nat, j: nat)
    requires limit >= 1 && j < |Alone(limit) + Others(n)|
    ensures (Alone(limit) + Others(n))[j].key != Word('b', n)
  {
    assert |Word('b', n)| == n + 1;
    if j == 0 {
      assert Word('b', n)[0] == 'b' && VICTIM[0] == 'a';
    } else {
      assert (Alone(limit) + Others(n))[j].key == Word('b', j - 1) && |Word('b', j - 1)| == j;
    }
  }

  lemma {:induction false} CrowdRuns(rules: Rules, n: nat)
    requires ValidRules(rules) && rules.limit >= 1
    ensures var m := Run(rules, Start(0.0), Attempts(rules.limit) + Crowd(rules.limit, n));
            && Quiet(m) && m.limiter.byIp == Full(rules.limit, n, rules.maxKeys) && CodesBelow(m.limiter.byCode, rules.limit + n)
            && VictimCount(m.ips.history) == rules.limit
  {
    hide Next, Failed, AtZero, EventsOf, Full, CodesBelow;
    if n == 0 {
      AttemptsRun(rules, rules.limit);
      assert Attempts(rules.limit) + Crowd(rules.limit, 0) == Attempts(rules.limit);
      AloneFits(rules.limit, rules.maxKeys);
    } else {
      CrowdRuns(rules, n - 1);
      var before := Attempts(rules.limit) + Crowd(rules.limit, n - 1);
      var m := Run(rules, Start(0.0), before);
      var s := Try(Word('b', n - 1), Word('c', rules.limit + n - 1));
      RunSnoc(rules, Start(0.0), before, s);
      assert Attempts(rules.limit) + Crowd(rules.limit, n) == before + [s];
      OneMoreOther(rules.limit, n - 1, rules.maxKeys);
      LongWordIsNew(m.limiter.byCode, rules.limit + n - 1);
      TryIsRecorded(rules, m, s.ip, s.code);
      NextCode(m.limiter.byCode, rules.limit + n - 1, rules.maxKeys);
      CountSnoc(m.ips.history, s.ip);
      assert Word('b', n - 1)[0] == 'b' && VICTIM[0] == 'a';
    }
  }

  lemma {:induction false} AloneFits(limit: nat, cap: nat)
    requires cap >= 1
    ensures Full(limit, 0, cap) == Alone(limit)
  {
    assert Alone(limit) + Others(0) == Alone(limit);
  }

  /** A crowd as large as the table pushes the victim out. */
  lemma {:induction false} VictimIsForgotten(limit: nat, cap: nat)
    requires limit >= 1 && cap >= 1
    ensures EventsOf(Full(limit, cap, cap), VICTIM) == []
  {
    assert Full(limit, cap, cap) == Others(cap);
    NotAmongOthers(Others(cap));
  }

  lemma {:induction false} NotAmongOthers(b: Bucket)
    requires forall i :: 0 <= i < |b| ==> b[i].key != [] && b[i].key[0] == 'b'
    ensures EventsOf(b, VICTIM) == []
  {
    if b != [] {
      forall i | 0 <= i < |b[1..]| ensures b[1..][i].key != [] && b[1..][i].key[0] == 'b' {
        assert b[1..][i] == b[i + 1];
      }
      NotAmongOthers(b[1..]);
      assert VICTIM[0] == 'a';
    }
  }

  // ---------------------------------------------------------------- exactly when

  /** A run of logins at one instant in which one address fails more often than its limit. */
  ghost predicate Reopens(rules: Rules, steps: seq<Step>, ip: string) {
    && Clocked(steps, 0.0) && OnlyLogins(steps)
    && InWindow(Run(rules, Start(0.0), steps).ips.history, ip, 0.0, 0.0) > Max(0, rules.limit)
  }

  lemma {:induction false} AllAtOnce(steps: seq<Step>)
    requires forall i :: 0 <= i < |steps| ==> steps[i].Login? && First(steps[i]) == 0.0 && Last(steps[i]) == 0.0
    ensures Clocked(steps, 0.0)
  {
    if steps != [] {
      AllAtOnce(steps[1..]);
    }
  }

  lemma {:induction false} CrowdReopens(rules: Rules) returns (steps: seq<Step>)
    requires ValidRules(rules) && rules.limit >= 1
    ensures Reopens(rules, steps, VICTIM)
  {
    hide Next, Failed, AtZero, EventsOf, Full, CodesBelow, Run;
    var before := Attempts(rules.limit) + Crowd(rules.limit, rules.maxKeys);
    var s := Try(VICTIM, Word('c', rules.limit + rules.maxKeys));
    steps := before + [s];
    CrowdRuns(rules, rules.maxKeys);
    var m := Run(rules, Start(0.0), before);
    VictimIsForgotten(rules.limit, rules.maxKeys);
    LongWordIsNew(m.limiter.byCode, rules.limit + rules.maxKeys);
    TryIsRecorded(rules, m, VICTIM, s.code);
    RunSnoc(rules, Start(0.0), before, s);
    CountSnoc(m.ips.history, VICTIM);
    AllAtOnce(steps);
  }

  /** A limit below one refuses every login unseen. */
  lemma {:induction false} NobodyFails(rules: Rules, m: Machine, steps: seq<Step>)
    requires rules.limit <= 0 && OnlyLogins(steps)
    ensures Run(rules, m, steps).ips.history == m.ips.history
    decreases |steps|
  {
    hide AfterAsk;
    if steps != [] {
      assert steps[0] in steps;
      NobodyFails(rules, Next(rules, m, steps[0]), steps[1..]);
    }
  }

  /** Some run of logins makes an address fail more often than its limit in one window if and only if the limit admits
      anyone at all, however large the table. */
  lemma {:induction false} EvictionReopensAWindow(rules: Rules)
    requires ValidRules(rules)
    ensures (exists steps, ip :: Reopens(rules, steps, ip)) <==> rules.limit >= 1
  {
    hide Reopens;
    if rules.limit >= 1 {
      var steps := CrowdReopens(rules);
    } else {
      forall steps, ip ensures !Reopens(rules, steps, ip) {
        Unbroken(rules, steps, ip);
      }
    }
  }

  lemma {:induction false} Unbroken(rules: Rules, steps: seq<Step>, ip: string)
    requires rules.limit <= 0
    ensures !Reopens(rules, steps, ip)
  {
    hide Run;
    if OnlyLogins(steps) {
      NobodyFails(rules, Start(0.0), steps);
    }
  }
}
