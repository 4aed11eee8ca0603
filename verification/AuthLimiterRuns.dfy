/** The limiter against the full history of failures: what its verdicts mean, when a key is forgotten,
    and how many failures any window can hold. */
module AuthLimiterRuns {
  import opened Prelude
  import opened OrderedDicts
  import opened AuthLimiters

  datatype Failure = Failure(key: string, time: real)

  /** Every failure ever recorded, and for each evicted key the length of the history at its last eviction. */
  datatype Log = Log(history: seq<Failure>, since: map<string, nat>)

  /** The limiter, its two logs, and the last clock reading it used. */
  datatype Machine = Machine(limiter: Limiter, ips: Log, codes: Log, clock: real)

  const NEW_LOG := Log([], map[])

  function Start(at: real): Machine {
    Machine(Limiter([], []), NEW_LOG, NEW_LOG, at)
  }

  datatype Step =
    | Ask(now: real, ip: string, code: string)
    | Fail(now: real, ip: string, code: string)
    | Login(asked: real, failed: real, ip: string, code: string, known: bool)

  function Since(log: Log, key: string): nat {
    if key in log.since then log.since[key] else 0
  }

  /** Recording one failure: the history grows, and the keys pushed out of the bucket are forgotten. */
  function Grow(log: Log, key: string, now: real, before: Bucket, after: Bucket): Log {
    var gone := Keys(before) + {key} - Keys(after);
    Log(log.history + [Failure(key, now)], log.since + map k | k in gone :: |log.history| + 1)
  }

  function Record(rules: Rules, m: Machine, now: real, ip: string, code: string): Machine {
    var after := AfterFail(rules, m.limiter, now, ip, code);
    var cutoff := Cutoff(rules, now);
    Machine(
      after,
      Grow(m.ips, ip, now, PruneAll(m.limiter.byIp, cutoff), after.byIp),
      Grow(m.codes, code, now, PruneAll(m.limiter.byCode, cutoff), after.byCode),
      now)
  }

  function Asked(rules: Rules, m: Machine, now: real, ip: string, code: string): Machine {
    m.(limiter := AfterAsk(rules, m.limiter, now, ip, code), clock := now)
  }

  function Next(rules: Rules, m: Machine, s: Step): Machine {
    match s
    case Ask(now, ip, code) => Asked(rules, m, now, ip, code)
    case Fail(now, ip, code) => Record(rules, m, now, ip, code)
    case Login(asked, failed, ip, code, known) =>
      var after := Asked(rules, m, asked, ip, code);
      if Verdict(rules, m.limiter, asked, ip, code) || known then after else Record(rules, after, failed, ip, code)
  }

  function Run(rules: Rules, m: Machine, steps: seq<Step>): Machine
    decreases |steps|
  {
    if steps == [] then m else Run(rules, Next(rules, m, steps[0]), steps[1..])
  }

  function First(s: Step): real {
    if s.Login? then s.asked else s.now
  }

  function Last(s: Step): real {
    if s.Login? then s.failed else s.now
  }

  /** The clock never goes back, starting from `at`. */
  predicate Clocked(steps: seq<Step>, at: real) {
    steps == [] || (at <= First(steps[0]) <= Last(steps[0]) && Clocked(steps[1..], Last(steps[0])))
  }

  function End(steps: seq<Step>, at: real): real {
    if steps == [] then at else End(steps[1..], Last(steps[0]))
  }

  // ---------------------------------------------------------------- the full history

  /** The failure times of one key, in order. */
  function Times(h: seq<Failure>, key: string): seq<real> {
    if h == [] then []
    else Times(h[..|h| - 1], key) + if h[|h| - 1].key == key then [h[|h| - 1].time] else []
  }

  /** How many failures of a key fall in a closed window. */
  function InWindow(h: seq<Failure>, key: string, from: real, to: real): nat {
    if h == [] then 0
    else InWindow(h[..|h| - 1], key, from, to) + if h[|h| - 1].key == key && from <= h[|h| - 1].time <= to then 1 else 0
  }

  /** The part of the history since a key was last pushed out; all of it when it never was. */
  function Remembered(log: Log, key: string): seq<Failure>
    requires Since(log, key) <= |log.history|
  {
    log.history[Since(log, key)..]
  }

  // ---------------------------------------------------------------- bucket facts

  lemma {:induction false} DropOldTwice(e: seq<real>, c: real, d: real)
    requires c <= d
    ensures DropOld(DropOld(e, c), d) == DropOld(e, d)
  {
    if e != [] && e[0] < c {
      DropOldTwice(e[1..], c, d);
    }
  }

  lemma {:induction false} DropOldAppend(e: seq<real>, now: real, c: real)
    requires c <= now
    ensures DropOld(e + [now], c) == DropOld(e, c) + [now]
  {
    if e == [] {
      assert e + [now] == [now];
    } else if e[0] < c {
      assert (e + [now])[1..] == e[1..] + [now];
      DropOldAppend(e[1..], now, c);
    }
  }

  /** Pruning prunes each key's queue on its own. */
  lemma {:induction false} PruneEach(b: Bucket, c: real)
    requires Distinct(b)
    ensures Distinct(PruneAll(b, c)) && Keys(PruneAll(b, c)) <= Keys(b)
    ensures forall k :: EventsOf(PruneAll(b, c), k) == DropOld(EventsOf(b, k), c)
  {
    if b != [] {
      ConsKeys(b);
      PruneEach(b[1..], c);
      var rest := PruneAll(b[1..], c);
      var kept := DropOld(b[0].value, c);
      Absent(b[1..], b[0].key);
      assert forall k :: EventsOf(b, k) == if k == b[0].key then b[0].value else EventsOf(b[1..], k);
      if kept == [] {
        assert PruneAll(b, c) == rest;
        DropEmpty(c);
      } else {
        var entry := Entry(b[0].key, kept);
        assert PruneAll(b, c) == [entry] + rest;
        assert ([entry] + rest)[1..] == rest;
        ConsKeys([entry] + rest);
        DistinctJoin([entry], rest);
        forall k ensures EventsOf([entry] + rest, k) == if k == entry.key then kept else EventsOf(rest, k) {
        }
      }
    }
  }

  // ---------------------------------------------------------------- the buckets agree with the history

  ghost predicate Ordered(h: seq<Failure>, at: real) {
    && (forall i :: 0 <= i < |h| ==> h[i].time <= at)
    && (forall i, j :: 0 <= i < j < |h| ==> h[i].time <= h[j].time)
  }

  ghost predicate Marked(log: Log) {
    forall k :: Since(log, k) <= |log.history|
  }

  /** Each queue is exactly the key's remembered failures, less those that left the window. */
  ghost predicate Agrees(b: Bucket, log: Log, cutoff: real) {
    && Distinct(b) && Marked(log)
    && forall k :: EventsOf(b, k) == DropOld(Times(Remembered(log, k), k), cutoff)
  }

  lemma {:induction false} PruneAgrees(b: Bucket, log: Log, c: real, d: real)
    requires Agrees(b, log, c) && c <= d
    ensures Agrees(PruneAll(b, d), log, d)
  {
    hide PruneAll, DropOld, Times, Distinct;
    PruneEach(b, d);
    forall k ensures EventsOf(PruneAll(b, d), k) == DropOld(Times(Remembered(log, k), k), d) {
      DropOldTwice(Times(Remembered(log, k), k), c, d);
    }
  }

  lemma {:induction false} TouchAgrees(b: Bucket, log: Log, key: string, c: real)
    requires Agrees(b, log, c)
    ensures Agrees(Touch(b, key, c), log, c)
  {
    hide DropOld, Times, EventsOf, Remembered, Without;
    var kept := DropOld(EventsOf(b, key), c);
    DropOldTwice(Times(Remembered(log, key), key), c, c);
    WithoutEvents(b, key);
    PutEvents(b, key, kept);
    assert Without(b, key) + [] == Without(b, key);
  }

  lemma {:induction false} WithoutEvents(b: Bucket, key: string)
    requires Distinct(b)
    ensures Distinct(Without(b, key)) && Keys(Without(b, key)) == Keys(b) - {key}
    ensures forall k :: EventsOf(Without(b, key), k) == if k == key then [] else EventsOf(b, k)
  {
    hide Get, Distinct, Keys, Without;
    WithoutKey(b, key);
    Absent(Without(b, key), key);
  }

  lemma {:induction false} NoEvents(b: Bucket, k: string)
    requires k !in Keys(b)
    ensures EventsOf(b, k) == []
  {
    Absent(b, k);
  }

  lemma {:induction false} PutEvents(b: Bucket, key: string, events: seq<real>)
    requires Distinct(b)
    ensures Distinct(Put(b, key, events)) && Keys(Put(b, key, events)) == Keys(b) + {key}
    ensures forall k :: EventsOf(Put(b, key, events), k) == if k == key then events else EventsOf(b, k)
  {
    hide Get, Distinct, Keys, Put;
    PutChangesOne(b, key, events);
  }

  lemma {:induction false} TrimEvents(b: Bucket, maxKeys: nat)
    requires Distinct(b)
    ensures var kept := Trim(b, maxKeys);
            && Distinct(kept) && Keys(kept) <= Keys(b)
            && forall k :: EventsOf(kept, k) == if k in Keys(kept) then EventsOf(b, k) else []
  {
    hide Get, Distinct, Keys, Trim;
    TrimKeeps(b, maxKeys);
  }

  lemma {:induction false} TimesGrow(h: seq<Failure>, f: Failure, k: string)
    ensures Times(h + [f], k) == if f.key == k then Times(h, k) + [f.time] else Times(h, k)
  {
    assert (h + [f])[..|h|] == h;
  }

  /** Recording a failure keeps the agreement, whoever is pushed out. */
  lemma {:induction false} AppendAgrees(b: Bucket, log: Log, key: string, now: real, c: real, maxKeys: nat)
    requires Agrees(b, log, c) && c <= now
    ensures Agrees(Append(b, key, now, c, maxKeys), Grow(log, key, now, b, Append(b, key, now, c, maxKeys)), c)
  {
    hide DropOld, EventsOf, Times, Distinct, Keys, Put, Trim;
    var wide := Put(b, key, DropOld(EventsOf(b, key), c) + [now]);
    PutEvents(b, key, DropOld(EventsOf(b, key), c) + [now]);
    TrimEvents(wide, maxKeys);
    var after := Append(b, key, now, c, maxKeys);
    assert after == Trim(wide, maxKeys);
    var grown := Grow(log, key, now, b, after);
    forall k ensures Since(grown, k) <= |grown.history| && EventsOf(after, k) == DropOld(Times(Remembered(grown, k), k), c) {
      GrowEach(log, key, now, b, after, k);
      if k in Keys(after) || k !in Keys(wide) {
        TimesGrow(Remembered(log, k), Failure(key, now), k);
        if k == key {
          DropOldTwice(Times(Remembered(log, k), k), c, c);
          DropOldAppend(Times(Remembered(log, k), k), now, c);
        } else if k !in Keys(wide) {
          NoEvents(wide, k);
        }
      } else {
        assert Times([], k) == [] by { TimesEmpty(k); }
        assert DropOld([], c) == [] by { DropEmpty(c); }
      }
    }
  }

  lemma {:induction false} TimesEmpty(k: string)
    ensures Times([], k) == []
  {
  }

  lemma {:induction false} DropEmpty(c: real)
    ensures DropOld([], c) == []
  {
  }

  /** What one recorded failure does to the remembered part of each key's history. */
  lemma {:induction false} GrowEach(log: Log, key: string, now: real, before: Bucket, after: Bucket, k: string)
    requires Marked(log)
    ensures var grown := Grow(log, key, now, before, after);
            && Since(grown, k) <= |grown.history|
            && Remembered(grown, k) == if k in Keys(before) + {key} - Keys(after) then [] else Remembered(log, k) + [Failure(key, now)]
  {
    hide Keys;
    assert Since(log, k) <= |log.history|;
  }
}
