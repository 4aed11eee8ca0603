/** Laws of the login limiter over whole runs. */
module AuthLimiterLaws {
  import opened Prelude
  import opened OrderedDicts
  import opened AuthLimiters
  import opened AuthLimiterRuns

  // ---------------------------------------------------------------- every run keeps the agreement

  ghost predicate Inv(rules: Rules, m: Machine) {
    && Agrees(m.limiter.byIp, m.ips, Cutoff(rules, m.clock)) && Ordered(m.ips.history, m.clock)
    && Agrees(m.limiter.byCode, m.codes, Cutoff(rules, m.clock)) && Ordered(m.codes.history, m.clock)
  }

  lemma {:induction false} StartInv(rules: Rules, at: real)
    ensures Inv(rules, Start(at))
  {
  }

  lemma {:induction false} AskKeepsInv(rules: Rules, m: Machine, now: real, ip: string, code: string)
    requires Inv(rules, m) && m.clock <= now
    ensures Inv(rules, Asked(rules, m, now, ip, code))
  {
    hide Agrees, PruneAll, Touch, Over;
    var c := Cutoff(rules, now);
    PruneAgrees(m.limiter.byIp, m.ips, Cutoff(rules, m.clock), c);
    PruneAgrees(m.limiter.byCode, m.codes, Cutoff(rules, m.clock), c);
    TouchAgrees(PruneAll(m.limiter.byIp, c), m.ips, ip, c);
    TouchAgrees(PruneAll(m.limiter.byCode, c), m.codes, code, c);
  }

  lemma {:induction false} RecordKeepsInv(rules: Rules, m: Machine, now: real, ip: string, code: string)
    requires ValidRules(rules)
    requires Inv(rules, m) && m.clock <= now
    ensures Inv(rules, Record(rules, m, now, ip, code))
  {
    hide Agrees, PruneAll, Append;
    var c := Cutoff(rules, now);
    PruneAgrees(m.limiter.byIp, m.ips, Cutoff(rules, m.clock), c);
    PruneAgrees(m.limiter.byCode, m.codes, Cutoff(rules, m.clock), c);
    AppendAgrees(PruneAll(m.limiter.byIp, c), m.ips, ip, now, c, rules.maxKeys);
    AppendAgrees(PruneAll(m.limiter.byCode, c), m.codes, code, now, c, rules.maxKeys);
  }

  lemma {:induction false} NextKeepsInv(rules: Rules, m: Machine, s: Step)
    requires ValidRules(rules)
    requires Inv(rules, m) && m.clock <= First(s) <= Last(s)
    ensures Inv(rules, Next(rules, m, s)) && Next(rules, m, s).clock <= Last(s)
  {
    hide Inv, Verdict;
    match s
    case Ask(now, ip, code) => AskKeepsInv(rules, m, now, ip, code);
    case Fail(now, ip, code) => RecordKeepsInv(rules, m, now, ip, code);
    case Login(asked, failed, ip, code, known) =>
      AskKeepsInv(rules, m, asked, ip, code);
      RecordKeepsInv(rules, Asked(rules, m, asked, ip, code), failed, ip, code);
  }

  lemma {:induction false} RunKeepsInv(rules: Rules, m: Machine, steps: seq<Step>, at: real)
    requires ValidRules(rules)
    requires Inv(rules, m) && m.clock <= at && Clocked(steps, at)
    ensures Inv(rules, Run(rules, m, steps)) && Run(rules, m, steps).clock <= End(steps, at)
    decreases |steps|
  {
    hide Inv, Next;
    if steps != [] {
      NextKeepsInv(rules, m, steps[0]);
      RunKeepsInv(rules, Next(rules, m, steps[0]), steps[1..], Last(steps[0]));
    }
  }

  // ---------------------------------------------------------------- what a verdict means

  lemma {:induction false} AllOld(h: seq<Failure>, k: string, from: real, to: real)
    requires forall i :: 0 <= i < |h| ==> h[i].time < from
    ensures DropOld(Times(h, k), from) == [] && InWindow(h, k, from, to) == 0
    ensures forall i :: 0 <= i < |Times(h, k)| ==> Times(h, k)[i] < from
  {
    hide DropOld;
    if h == [] {
      AllOldDropped([], from);
    } else {
      AllOld(h[..|h| - 1], k, from, to);
      AllOldDropped(Times(h, k), from);
    }
  }

  lemma {:induction false} AllOldDropped(e: seq<real>, c: real)
    requires forall i :: 0 <= i < |e| ==> e[i] < c
    ensures DropOld(e, c) == []
  {
    if e != [] {
      AllOldDropped(e[1..], c);
    }
  }

  /** A pruned queue counts exactly the failures in the window that ends now. */
  lemma {:induction false} QueueCountsWindow(h: seq<Failure>, k: string, from: real, to: real)
    requires Ordered(h, to)
    ensures |DropOld(Times(h, k), from)| == InWindow(h, k, from, to)
    decreases |h|
  {
    if h != [] {
      var init := h[..|h| - 1];
      var last := h[|h| - 1];
      if last.time < from {
        AllOld(h, k, from, to);
      } else {
        QueueCountsWindow(init, k, from, to);
        if last.key == k {
          DropOldAppend(Times(init, k), last.time, from);
        } else {
          assert Times(h, k) == Times(init, k);
        }
      }
    }
  }

  lemma {:induction false} OverIsExact(rules: Rules, b: Bucket, log: Log, at: real, now: real, k: string)
    requires Agrees(b, log, Cutoff(rules, at)) && Ordered(log.history, at) && at <= now
    ensures Over(rules, b, k, now) <==> InWindow(Remembered(log, k), k, now - rules.window, now) >= rules.limit
  {
    hide PruneAll, DropOld, Times, InWindow, EventsOf;
    var c := Cutoff(rules, now);
    PruneAgrees(b, log, Cutoff(rules, at), c);
    DropOldTwice(Times(Remembered(log, k), k), c, c);
    QueueCountsWindow(Remembered(log, k), k, c, now);
  }

  /** In every reachable state the verdict is the full-history one over what is remembered: limited exactly when
      the window ending now holds at least `limit` failures of the address or of the code. */
  lemma {:induction false} VerdictIsExact(rules: Rules, steps: seq<Step>, at: real, now: real, ip: string, code: string)
    requires ValidRules(rules) && Clocked(steps, at) && End(steps, at) <= now
    ensures var m := Run(rules, Start(at), steps);
            && Since(m.ips, ip) <= |m.ips.history| && Since(m.codes, code) <= |m.codes.history|
            && (Verdict(rules, m.limiter, now, ip, code) <==>
                  || InWindow(Remembered(m.ips, ip), ip, now - rules.window, now) >= rules.limit
                  || InWindow(Remembered(m.codes, code), code, now - rules.window, now) >= rules.limit)
  {
    hide Over, Run, InWindow, EventsOf, Times, DropOld;
    StartInv(rules, at);
    RunKeepsInv(rules, Start(at), steps, at);
    var m := Run(rules, Start(at), steps);
    OverIsExact(rules, m.limiter.byIp, m.ips, m.clock, now, ip);
    OverIsExact(rules, m.limiter.byCode, m.codes, m.clock, now, code);
  }

  // ---------------------------------------------------------------- no window overfills

  /** Any `limit + 1` consecutive failures of a key span more than a window. */
  ghost predicate Spaced(t: seq<real>, limit: int, window: real) {
    && (limit <= 0 ==> t == [])
    && forall i, j :: 0 <= i && j == i + limit && j < |t| && limit > 0 ==> t[i] + window < t[j]
  }

  lemma {:induction false} SpacedCount(t: seq<real>, limit: int, window: real, from: real, to: real)
    requires forall i, j :: 0 <= i < j < |t| ==> t[i] <= t[j]
    requires forall i :: 0 <= i < |t| ==> t[i] <= to
    requires to <= from + window && Spaced(t, limit, window)
    ensures |DropOld(t, from)| <= Max(limit, 0)
  {
    hide DropOld;
    DropOldSuffix(t, from);
    if 0 < limit < |t| {
      assert t[|t| - 1 - limit] + window < t[|t| - 1];
    }
  }

  /** A spaced history has at most `limit` failures of the key in any window. */
  lemma {:induction false} SpacedWindow(h: seq<Failure>, at: real, k: string, limit: int, window: real, from: real, to: real)
    requires Ordered(h, at) && to <= from + window
    requires Spaced(Times(h, k), limit, window)
    ensures InWindow(h, k, from, to) <= Max(limit, 0)
    decreases |h|
  {
    if h != [] && h[|h| - 1].time > to {
      SpacedPrefix(h, k, limit, window);
      SpacedWindow(h[..|h| - 1], at, k, limit, window, from, to);
    } else {
      assert Ordered(h, to);
      QueueCountsWindow(h, k, from, to);
      TimesFrom(h, k, to);
      SpacedCount(Times(h, k), limit, window, from, to);
    }
  }

  lemma {:induction false} SpacedPrefix(h: seq<Failure>, k: string, limit: int, window: real)
    requires h != [] && Spaced(Times(h, k), limit, window)
    ensures Spaced(Times(h[..|h| - 1], k), limit, window)
  {
    var t := Times(h, k);
    var u := Times(h[..|h| - 1], k);
    assert |u| <= |t| && forall i :: 0 <= i < |u| ==> u[i] == t[i];
    forall i, j | 0 <= i && j == i + limit && j < |u| && limit > 0 ensures u[i] + window < u[j] {
      assert t[i] + window < t[j];
    }
  }

  lemma {:induction false} DropOldSuffix(t: seq<real>, from: real)
    requires forall i, j :: 0 <= i < j < |t| ==> t[i] <= t[j]
    ensures |DropOld(t, from)| <= |t|
    ensures forall i :: 0 <= i < |t| ==> (t[i] < from <==> i < |t| - |DropOld(t, from)|)
  {
    if t != [] && t[0] < from {
      var rest := t[1..];
      DropOldSuffix(rest, from);
      forall i | 0 <= i < |t| ensures t[i] < from <==> i < |t| - |DropOld(t, from)| {
        if i > 0 {
          assert rest[i - 1] < from <==> i - 1 < |rest| - |DropOld(rest, from)|;
        }
      }
    }
  }

  lemma {:induction false} TimesFrom(h: seq<Failure>, k: string, at: real)
    requires Ordered(h, at)
    ensures forall i, j :: 0 <= i < j < |Times(h, k)| ==> Times(h, k)[i] <= Times(h, k)[j]
    ensures forall i :: 0 <= i < |Times(h, k)| ==> Times(h, k)[i] <= at
  {
    if h != [] {
      var init := h[..|h| - 1];
      assert Ordered(init, h[|h| - 1].time);
      TimesFrom(init, k, h[|h| - 1].time);
    }
  }

  /** Adding a failure below the limit keeps the spacing. */
  lemma {:induction false} SpacedGrows(t: seq<real>, limit: int, window: real, asked: real, now: real)
    requires forall i, j :: 0 <= i < j < |t| ==> t[i] <= t[j]
    requires Spaced(t, limit, window)
    requires |DropOld(t, asked - window)| < limit && asked <= now
    ensures Spaced(t + [now], limit, window)
  {
    DropOldSuffix(t, asked - window);
    var u := t + [now];
    forall i, j | 0 <= i && j == i + limit && j < |u| && limit > 0 ensures u[i] + window < u[j] {
      if j == |t| {
        assert t[i] < asked - window;
      } else {
        assert t[i] + window < t[j];
      }
    }
  }

  ghost predicate AllSpaced(rules: Rules, log: Log)
    requires Marked(log)
  {
    forall k :: Spaced(Times(Remembered(log, k), k), rules.limit, rules.window)
  }

  /** Failures are only ever recorded by logins. */
  predicate OnlyLogins(steps: seq<Step>) {
    forall s :: s in steps ==> !s.Fail?
  }

  /** Recording a failure of a key that was below its limit keeps every key's spacing. */
  lemma {:induction false} GrowKeepsSpacing(rules: Rules, log: Log, key: string, asked: real, now: real, before: Bucket, after: Bucket)
    requires Marked(log) && AllSpaced(rules, log) && Ordered(log.history, asked) && asked <= now
    requires |DropOld(Times(Remembered(log, key), key), Cutoff(rules, asked))| < rules.limit
    ensures Marked(Grow(log, key, now, before, after)) && AllSpaced(rules, Grow(log, key, now, before, after))
  {
    hide Keys, Times, DropOld, Spaced, Grow, Remembered;
    var grown := Grow(log, key, now, before, after);
    forall k ensures Since(grown, k) <= |grown.history| {
      GrowEach(log, key, now, before, after, k);
    }
    forall k ensures Spaced(Times(Remembered(grown, k), k), rules.limit, rules.window) {
      GrowEach(log, key, now, before, after, k);
      TimesGrow(Remembered(log, k), Failure(key, now), k);
      NothingIsSpaced(k, rules.limit, rules.window);
      if k == key {
        SuffixOrdered(log, k, asked);
        TimesFrom(Remembered(log, k), k, asked);
        SpacedGrows(Times(Remembered(log, k), k), rules.limit, rules.window, asked, now);
      }
    }
  }

  lemma {:induction false} NothingIsSpaced(k: string, limit: int, window: real)
    ensures Spaced(Times([], k), limit, window)
  {
  }

  lemma {:induction false} SuffixOrdered(log: Log, k: string, at: real)
    requires Marked(log) && Ordered(log.history, at)
    ensures Ordered(Remembered(log, k), at)
  {
    assert Since(log, k) <= |log.history|;
  }

  /** The queue of a key that is not over its limit holds fewer than `limit` of its remembered failures. */
  lemma {:induction false} NotOver(rules: Rules, b: Bucket, log: Log, at: real, now: real, k: string)
    requires Agrees(b, log, Cutoff(rules, at)) && at <= now && !Over(rules, b, k, now)
    ensures |DropOld(Times(Remembered(log, k), k), Cutoff(rules, now))| < rules.limit
  {
    hide PruneAll, DropOld, Times, EventsOf;
    var c := Cutoff(rules, now);
    PruneAgrees(b, log, Cutoff(rules, at), c);
    DropOldTwice(Times(Remembered(log, k), k), c, c);
  }

  ghost predicate Safe(rules: Rules, m: Machine) {
    && Inv(rules, m)
    && Marked(m.ips) && Marked(m.codes)
    && AllSpaced(rules, m.ips) && AllSpaced(rules, m.codes)
  }

  lemma {:induction false} NextKeepsSafe(rules: Rules, m: Machine, s: Step)
    requires ValidRules(rules) && !s.Fail?
    requires Safe(rules, m) && m.clock <= First(s) <= Last(s)
    ensures Safe(rules, Next(rules, m, s)) && Next(rules, m, s).clock <= Last(s)
  {
    hide Spaced, Times, Agrees, Ordered, DropOld, Over, AfterAsk, AfterFail;
    NextKeepsInv(rules, m, s);
    AgreesMarks(m.limiter.byIp, m.ips, Cutoff(rules, m.clock));
    AgreesMarks(m.limiter.byCode, m.codes, Cutoff(rules, m.clock));
    if s.Login? && !Verdict(rules, m.limiter, s.asked, s.ip, s.code) && !s.known {
      NotOver(rules, m.limiter.byIp, m.ips, m.clock, s.asked, s.ip);
      NotOver(rules, m.limiter.byCode, m.codes, m.clock, s.asked, s.code);
      OrderedLater(m.ips.history, m.clock, s.asked);
      OrderedLater(m.codes.history, m.clock, s.asked);
      var after := Asked(rules, m, s.asked, s.ip, s.code);
      var next := AfterFail(rules, after.limiter, s.failed, s.ip, s.code);
      var cutoff := Cutoff(rules, s.failed);
      GrowKeepsSpacing(rules, m.ips, s.ip, s.asked, s.failed, PruneAll(after.limiter.byIp, cutoff), next.byIp);
      GrowKeepsSpacing(rules, m.codes, s.code, s.asked, s.failed, PruneAll(after.limiter.byCode, cutoff), next.byCode);
    }
  }

  lemma {:induction false} AgreesMarks(b: Bucket, log: Log, c: real)
    requires Agrees(b, log, c)
    ensures Marked(log)
  {
    hide Distinct, EventsOf;
  }

  lemma {:induction false} OrderedLater(h: seq<Failure>, at: real, later: real)
    requires Ordered(h, at) && at <= later
    ensures Ordered(h, later)
  {
  }

  lemma {:induction false} RunKeepsSafe(rules: Rules, m: Machine, steps: seq<Step>, at: real)
    requires ValidRules(rules) && OnlyLogins(steps)
    requires Safe(rules, m) && m.clock <= at && Clocked(steps, at)
    ensures Safe(rules, Run(rules, m, steps))
    decreases |steps|
  {
    hide Safe, Next;
    if steps != [] {
      assert steps[0] in steps;
      NextKeepsSafe(rules, m, steps[0]);
      RunKeepsSafe(rules, Next(rules, m, steps[0]), steps[1..], Last(steps[0]));
    }
  }

  /** When only logins record failures, no window of the limiter's length holds more than `limit` remembered
      failures of one address, nor of one code. */
  lemma {:induction false} AttemptsAreBounded(rules: Rules, steps: seq<Step>, at: real, key: string, from: real)
    requires ValidRules(rules) && OnlyLogins(steps) && Clocked(steps, at)
    ensures var m := Run(rules, Start(at), steps);
            && Since(m.ips, key) <= |m.ips.history| && Since(m.codes, key) <= |m.codes.history|
            && InWindow(Remembered(m.ips, key), key, from, from + rules.window) <= Max(rules.limit, 0)
            && InWindow(Remembered(m.codes, key), key, from, from + rules.window) <= Max(rules.limit, 0)
  {
    hide Run, InWindow, Times, Spaced, EventsOf;
    StartInv(rules, at);
    forall k ensures Spaced(Times(Remembered(NEW_LOG, k), k), rules.limit, rules.window) {
      NothingIsSpaced(k, rules.limit, rules.window);
    }
    RunKeepsSafe(rules, Start(at), steps, at);
    var m := Run(rules, Start(at), steps);
    SuffixOrdered(m.ips, key, m.clock);
    SuffixOrdered(m.codes, key, m.clock);
    SpacedWindow(Remembered(m.ips, key), m.clock, key, rules.limit, rules.window, from, from + rules.window);
    SpacedWindow(Remembered(m.codes, key), m.clock, key, rules.limit, rules.window, from, from + rules.window);
  }
}
