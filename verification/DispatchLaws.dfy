/** Laws of the dispatch guards: nothing is done twice while it is remembered, and what one heartbeat reports. */
module DispatchLaws {
  import opened Prelude
  import opened OrderedDicts
  import opened Dispatch

  /** What happened to the things a guard remembers. */
  datatype Event = Started(id: string) | Forgotten(id: string)

  function StartedIn(log: seq<Event>): set<string> {
    set e | e in log && e.Started? :: e.id
  }

  predicate ForgottenIn(log: seq<Event>, id: string) {
    Forgotten(id) in log
  }

  /** Between two starts of one thing that was not forgotten meanwhile, at least a thousand others started. */
  ghost predicate Spread(log: seq<Event>) {
    forall i, j :: 0 <= i < j < |log| && log[i].Started? && log[j] == log[i] && !ForgottenIn(log[i + 1..j], log[i].id) ==>
      |StartedIn(log[i + 1..j])| >= 1000
  }

  /** The guard still covers a start: it remembers it, or enough others started since. */
  ghost predicate Covered(g: Guard, id: string, since: seq<Event>) {
    || (id in Keys(g) && Behind(g, id) <= StartedIn(since))
    || |StartedIn(since)| >= 1000
    || ForgottenIn(since, id)
  }

  ghost predicate Remembers(g: Guard, log: seq<Event>) {
    Distinct(g) && forall i :: 0 <= i < |log| && log[i].Started? ==> Covered(g, log[i].id, log[i + 1..])
  }

  lemma {:induction false} StartedGrows(log: seq<Event>, e: Event)
    ensures StartedIn(log + [e]) == if e.Started? then StartedIn(log) + {e.id} else StartedIn(log)
    ensures forall id :: ForgottenIn(log + [e], id) <==> ForgottenIn(log, id) || e == Forgotten(id)
  {
    if e.Started? {
      assert e in log + [e];
    }
  }

  /** Remembering a start covers it, and keeps every other start covered. */
  lemma {:induction false} RememberCovers(g: Guard, id: string, now: real, other: string, since: seq<Event>)
    requires Distinct(g) && Covered(g, other, since)
    ensures Covered(Remember(g, id, now), other, since + [Started(id)])
  {
    hide Keys, Behind, Distinct, Put, Trim, StartedIn;
    StartedGrows(since, Started(id));
    SubsetSize(StartedIn(since), StartedIn(since + [Started(id)]));
    if other in Keys(g) && Behind(g, other) <= StartedIn(since) {
      PutKeepsPlace(g, id, now, other, StartedIn(since) + {id});
      PutChangesOne(g, id, now);
      TrimBehind(Put(g, id, now), 1000, other);
      SubsetSize(Behind(Put(g, id, now), other), StartedIn(since) + {id});
    }
  }

  lemma {:induction false} RememberIsCovered(g: Guard, id: string, now: real)
    requires Distinct(g)
    ensures Distinct(Remember(g, id, now)) && Covered(Remember(g, id, now), id, [])
  {
    hide Keys, Behind, Distinct, Put, Trim;
    PutKeepsPlace(g, id, now, id, Behind(g, id));
    PutChangesOne(g, id, now);
    TrimKeeps(Put(g, id, now), 1000);
    TrimBehind(Put(g, id, now), 1000, id);
    assert id in Keys(Remember(g, id, now));
  }

  lemma {:induction false} ForgetCovers(g: Guard, id: string, other: string, since: seq<Event>)
    requires Distinct(g) && Covered(g, other, since)
    ensures Covered(Without(g, id), other, since + [Forgotten(id)])
  {
    hide Keys, Behind, Distinct, Without, StartedIn;
    StartedGrows(since, Forgotten(id));
    WithoutKey(g, id);
    WithoutBehind(g, id, other);
  }

  lemma {:induction false} Suffix(log: seq<Event>, e: Event, i: nat)
    requires i <= |log|
    ensures (log + [e])[i..] == log[i..] + [e]
  {
  }

  /** A start of something the guard does not have keeps the starts spread. */
  lemma {:induction false} StartKeepsSpread(g: Guard, log: seq<Event>, id: string, now: real)
    requires Remembers(g, log) && Spread(log) && Get(g, id).None?
    ensures Remembers(Remember(g, id, now), log + [Started(id)]) && Spread(log + [Started(id)])
  {
    hide Keys, Behind, Distinct, Covered, Remember, StartedIn, ForgottenIn, Get;
    var e := Started(id);
    var next := log + [e];
    RememberIsCovered(g, id, now);
    forall i | 0 <= i < |next| && next[i].Started? ensures Covered(Remember(g, id, now), next[i].id, next[i + 1..]) {
      if i < |log| {
        Suffix(log, e, i + 1);
        RememberCovers(g, id, now, log[i].id, log[i + 1..]);
      } else {
        assert next[i + 1..] == [];
      }
    }
    forall i, j | 0 <= i < j < |next| && next[i].Started? && next[j] == next[i] && !ForgottenIn(next[i + 1..j], next[i].id)
      ensures |StartedIn(next[i + 1..j])| >= 1000
    {
      assert next[i + 1..j] == log[i + 1..j];
      if j == |log| {
        assert log[i + 1..j] == log[i + 1..];
        AbsentIsCovered(g, id, log[i + 1..]);
      }
    }
  }

  lemma {:induction false} AbsentIsCovered(g: Guard, id: string, since: seq<Event>)
    requires Get(g, id).None? && Covered(g, id, since) && !ForgottenIn(since, id)
    ensures |StartedIn(since)| >= 1000
  {
    Absent(g, id);
  }

  lemma {:induction false} ForgetKeepsSpread(g: Guard, log: seq<Event>, id: string)
    requires Remembers(g, log) && Spread(log)
    ensures Remembers(Without(g, id), log + [Forgotten(id)]) && Spread(log + [Forgotten(id)])
  {
    hide Keys, Behind, Distinct, Covered, Without, StartedIn, ForgottenIn;
    var e := Forgotten(id);
    var next := log + [e];
    WithoutKey(g, id);
    forall i | 0 <= i < |next| && next[i].Started? ensures Covered(Without(g, id), next[i].id, next[i + 1..]) {
      Suffix(log, e, i + 1);
      ForgetCovers(g, id, log[i].id, log[i + 1..]);
    }
    forall i, j | 0 <= i < j < |next| && next[i].Started? && next[j] == next[i] && !ForgottenIn(next[i + 1..j], next[i].id)
      ensures |StartedIn(next[i + 1..j])| >= 1000
    {
      assert next[i + 1..j] == log[i + 1..j];
    }
  }

  // ---------------------------------------------------------------- queue jobs over whole runs

  datatype JobStep = Assign(items: seq<Assignment>, answers: seq<StartAnswer>, now: real) | Observe(reports: seq<QueueReport>)

  /** The guard and everything that was started or forgotten. */
  datatype JobRun = JobRun(guard: Guard, log: seq<Event>)

  function StartEvents(ids: seq<string>): seq<Event> {
    if ids == [] then [] else StartEvents(ids[..|ids| - 1]) + [Started(ids[|ids| - 1])]
  }

  function ForgetEvents(reports: seq<QueueReport>): seq<Event> {
    if reports == [] then []
    else
      (if reports[0].state.Completed? || reports[0].state.Held? then [Forgotten(reports[0].queueJobId)] else [])
      + ForgetEvents(reports[1..])
  }

  function NextJobs(r: JobRun, s: JobStep): JobRun
    requires s.Assign? ==> |s.items| == |s.answers|
  {
    match s
    case Assign(items, answers, now) =>
      var b := AssignAll(JobBeat(r.guard, [], []), items, answers, now);
      JobRun(b.guard, r.log + StartEvents(b.started))
    case Observe(reports) => JobRun(ForgetAll(r.guard, reports), r.log + ForgetEvents(reports))
  }

  predicate WellFormed(steps: seq<JobStep>) {
    forall s :: s in steps && s.Assign? ==> |s.items| == |s.answers|
  }

  function RunJobs(r: JobRun, steps: seq<JobStep>): JobRun
    requires WellFormed(steps)
    decreases |steps|
  {
    if steps == [] then r
    else
      assert steps[0] in steps;
      RunJobs(NextJobs(r, steps[0]), steps[1..])
  }

  lemma {:induction false} AssignKeepsSpread(b: JobBeat, log: seq<Event>, items: seq<Assignment>, answers: seq<StartAnswer>, now: real)
    requires |items| == |answers|
    requires Remembers(b.guard, log + StartEvents(b.started)) && Spread(log + StartEvents(b.started))
    ensures var after := AssignAll(b, items, answers, now);
            Remembers(after.guard, log + StartEvents(after.started)) && Spread(log + StartEvents(after.started))
    decreases |items|
  {
    hide Remembers, Spread, Get, Remember, PathOk;
    if items != [] {
      var next := AssignOne(b, items[0], answers[0], now);
      if Starts(b.guard, items[0], answers[0]) {
        var id := items[0].queueJobId;
        StartKeepsSpread(b.guard, log + StartEvents(b.started), id, now);
        assert (b.started + [id])[..|b.started|] == b.started;
        assert log + StartEvents(b.started) + [Started(id)] == log + StartEvents(next.started);
      }
      AssignKeepsSpread(next, log, items[1..], answers[1..], now);
    }
  }

  lemma {:induction false} ForgetAllKeepsSpread(g: Guard, log: seq<Event>, reports: seq<QueueReport>)
    requires Remembers(g, log) && Spread(log)
    ensures Remembers(ForgetAll(g, reports), log + ForgetEvents(reports)) && Spread(log + ForgetEvents(reports))
    decreases |reports|
  {
    hide Remembers, Spread, Without;
    if reports == [] {
      assert log + [] == log;
    } else if Terminal(reports[0]) {
      var id := reports[0].queueJobId;
      ForgetKeepsSpread(g, log, id);
      ForgetAllKeepsSpread(Without(g, id), log + [Forgotten(id)], reports[1..]);
      assert log + [Forgotten(id)] + ForgetEvents(reports[1..]) == log + ForgetEvents(reports);
    } else {
      ForgetAllKeepsSpread(g, log, reports[1..]);
      assert ForgetEvents(reports) == ForgetEvents(reports[1..]);
    }
  }

  lemma {:induction false} RunJobsKeepsSpread(r: JobRun, steps: seq<JobStep>)
    requires WellFormed(steps) && Remembers(r.guard, r.log) && Spread(r.log)
    ensures Remembers(RunJobs(r, steps).guard, RunJobs(r, steps).log) && Spread(RunJobs(r, steps).log)
    decreases |steps|
  {
    hide Remembers, Spread, ForgetAll, AssignAll;
    if steps != [] {
      var s := steps[0];
      assert s in steps;
      match s {
        case Assign(items, answers, now) =>
          assert r.log + StartEvents([]) == r.log;
          AssignKeepsSpread(JobBeat(r.guard, [], []), r.log, items, answers, now);
        case Observe(reports) => ForgetAllKeepsSpread(r.guard, r.log, reports);
      }
      RunJobsKeepsSpread(NextJobs(r, s), steps[1..]);
    }
  }

  lemma {:induction false} NothingYet()
    ensures Remembers([], []) && Spread([])
  {
  }

  /** Over any run, a queue job that did not finish or get held in between is started a second time only after a
      thousand other jobs were started. */
  lemma {:induction false} JobsStartOnce(steps: seq<JobStep>, i: nat, j: nat)
    requires WellFormed(steps)
    requires var log := RunJobs(JobRun([], []), steps).log;
             i < j < |log| && log[i].Started? && log[j] == log[i] && !ForgottenIn(log[i + 1..j], log[i].id)
    ensures |StartedIn(RunJobs(JobRun([], []), steps).log[i + 1..j])| >= 1000
  {
    hide RunJobs, Remembers, StartedIn, ForgottenIn;
    NothingYet();
    RunJobsKeepsSpread(JobRun([], []), steps);
  }

  // ---------------------------------------------------------------- commands over whole runs

  datatype CommandStep = CommandStep(items: seq<Command>, answers: seq<SendAnswer>, now: real)

  predicate Answered(steps: seq<CommandStep>) {
    forall s :: s in steps ==> |s.items| == |s.answers|
  }

  function RunCommands(r: JobRun, steps: seq<CommandStep>): JobRun
    requires Answered(steps)
    decreases |steps|
  {
    if steps == [] then r
    else
      assert steps[0] in steps;
      var b := CommandAll(CommandBeat(r.guard, [], [], []), 0, steps[0].items, steps[0].answers, steps[0].now);
      RunCommands(JobRun(b.guard, r.log + StartEvents(b.executed)), steps[1..])
  }

  lemma {:induction false} CommandsKeepSpread(b: CommandBeat, index: nat, log: seq<Event>, items: seq<Command>, answers: seq<SendAnswer>, now: real)
    requires |items| == |answers|
    requires Remembers(b.guard, log + StartEvents(b.executed)) && Spread(log + StartEvents(b.executed))
    ensures var after := CommandAll(b, index, items, answers, now);
            Remembers(after.guard, log + StartEvents(after.executed)) && Spread(log + StartEvents(after.executed))
    decreases |items|
  {
    hide Remembers, Spread, Get, Remember, CommandReports;
    if items != [] {
      var next := CommandOne(b, index, items[0], answers[0], now);
      if Executes(b.guard, index, items[0], answers[0]) {
        var id := items[0].requestId;
        StartKeepsSpread(b.guard, log + StartEvents(b.executed), id, now);
        assert (b.executed + [id])[..|b.executed|] == b.executed;
        assert log + StartEvents(b.executed) + [Started(id)] == log + StartEvents(next.executed);
      }
      CommandsKeepSpread(next, index + 1, log, items[1..], answers[1..], now);
    }
  }

  lemma {:induction false} RunCommandsKeepsSpread(r: JobRun, steps: seq<CommandStep>)
    requires Answered(steps) && Remembers(r.guard, r.log) && Spread(r.log)
    ensures Remembers(RunCommands(r, steps).guard, RunCommands(r, steps).log) && Spread(RunCommands(r, steps).log)
    decreases |steps|
  {
    hide Remembers, Spread, CommandAll;
    if steps != [] {
      var s := steps[0];
      assert s in steps;
      assert r.log + StartEvents([]) == r.log;
      CommandsKeepSpread(CommandBeat(r.guard, [], [], []), 0, r.log, s.items, s.answers, s.now);
      var b := CommandAll(CommandBeat(r.guard, [], [], []), 0, s.items, s.answers, s.now);
      RunCommandsKeepsSpread(JobRun(b.guard, r.log + StartEvents(b.executed)), steps[1..]);
    }
  }

  /** Over any run, a command that was executed is executed again only after a thousand others were. */
  lemma {:induction false} CommandsExecuteOnce(steps: seq<CommandStep>, i: nat, j: nat)
    requires Answered(steps)
    requires var log := RunCommands(JobRun([], []), steps).log;
             i < j < |log| && log[i].Started? && log[j] == log[i] && !ForgottenIn(log[i + 1..j], log[i].id)
    ensures |StartedIn(RunCommands(JobRun([], []), steps).log[i + 1..j])| >= 1000
  {
    hide RunCommands, Remembers, StartedIn, ForgottenIn;
    NothingYet();
    RunCommandsKeepsSpread(JobRun([], []), steps);
  }

  // ---------------------------------------------------------------- one heartbeat

  /** At most sixteen commands are sent in one heartbeat. */
  lemma {:induction false} SendsAreCapped(b: CommandBeat, index: nat, items: seq<Command>, answers: seq<SendAnswer>, now: real)
    requires |items| == |answers|
    ensures |CommandAll(b, index, items, answers, now).sent| <= |b.sent| + Max(0, 16 - index)
    decreases |items|
  {
    hide Get, Remember, CommandReports;
    if items != [] {
      SendsAreCapped(CommandOne(b, index, items[0], answers[0], now), index + 1, items[1..], answers[1..], now);
    }
  }

  /** Every well-formed command is answered by exactly one report, in order. */
  lemma {:induction false} EveryCommandIsAnswered(b: CommandBeat, index: nat, items: seq<Command>, answers: seq<SendAnswer>, now: real)
    requires |items| == |answers| && forall c :: c in items ==> c.Command?
    ensures var after := CommandAll(b, index, items, answers, now);
            && |after.reports| == |b.reports| + |items|
            && after.reports[..|b.reports|] == b.reports
            && forall k :: |b.reports| <= k < |after.reports| ==> after.reports[k].requestId == items[k - |b.reports|].requestId
    decreases |items|
  {
    hide Get, Remember;
    if items != [] {
      assert items[0] in items;
      var next := CommandOne(b, index, items[0], answers[0], now);
      EveryCommandIsAnswered(next, index + 1, items[1..], answers[1..], now);
      var after := CommandAll(b, index, items, answers, now);
      assert after.reports[..|b.reports| + 1] == next.reports;
      assert after.reports[..|b.reports|] == next.reports[..|b.reports|];
      forall k | |b.reports| <= k < |after.reports| ensures after.reports[k].requestId == items[k - |b.reports|].requestId {
        if k == |b.reports| {
          assert after.reports[..|b.reports| + 1][k] == next.reports[k];
        }
      }
    }
  }

  /** The cap counts positions, not sends: commands already executed use it up. When everything in the first sixteen
      positions was executed before, nothing at all is sent, whatever follows. */
  lemma {:induction false} RepeatsUseUpTheCap(b: CommandBeat, index: nat, items: seq<Command>, answers: seq<SendAnswer>, now: real)
    requires |items| == |answers|
    requires forall k :: 0 <= k < |items| && index + k < 16 ==> items[k].Command? && Get(b.guard, items[k].requestId).Some?
    ensures CommandAll(b, index, items, answers, now).sent == b.sent
    ensures CommandAll(b, index, items, answers, now).guard == b.guard
    decreases |items|
  {
    hide Get, Remember, CommandReports;
    if items != [] {
      var next := CommandOne(b, index, items[0], answers[0], now);
      assert index < 16 ==> Get(b.guard, items[0].requestId).Some?;
      assert next.guard == b.guard && next.sent == b.sent;
      forall k | 0 <= k < |items[1..]| && index + 1 + k < 16
        ensures items[1..][k].Command? && Get(b.guard, items[1..][k].requestId).Some? {
        assert items[1..][k] == items[k + 1];
      }
      RepeatsUseUpTheCap(next, index + 1, items[1..], answers[1..], now);
    }
  }

  // ---------------------------------------------------------------- the cap against new commands

  /** One heartbeat's batch of commands, with the guard it starts from. */
  datatype Batch = Batch(guard: Guard, items: seq<Command>, answers: seq<SendAnswer>, now: real)

  predicate Complete(b: Batch) {
    |b.items| == |b.answers|
  }

  /** The beat after the first `k` items. */
  function After(b: Batch, k: nat): CommandBeat
    requires Complete(b) && k <= |b.items|
  {
    CommandAll(CommandBeat(b.guard, [], [], []), 0, b.items[..k], b.answers[..k], b.now)
  }

  /** Item `k` is a command not executed before, as the guard stands when it is reached. */
  predicate New(b: Batch, k: nat)
    requires Complete(b) && k < |b.items|
  {
    b.items[k].Command? && Get(After(b, k).guard, b.items[k].requestId).None?
  }

  function NewBefore(b: Batch, k: nat): nat
    requires Complete(b) && k <= |b.items|
  {
    if k == 0 then 0 else NewBefore(b, k - 1) + if New(b, k - 1) then 1 else 0
  }

  lemma {:induction false} AfterStep(b: Batch, k: nat)
    requires Complete(b) && k < |b.items|
    ensures After(b, k + 1) == CommandOne(After(b, k), k, b.items[k], b.answers[k], b.now)
  {
    hide CommandOne;
    CommandAllJoins(CommandBeat(b.guard, [], [], []), 0, b.items[..k], b.answers[..k], [b.items[k]], [b.answers[k]], b.now);
    assert b.items[..k] + [b.items[k]] == b.items[..k + 1] && b.answers[..k] + [b.answers[k]] == b.answers[..k + 1];
    CommandAllOne(After(b, k), k, b.items[k], b.answers[k], b.now);
  }

  lemma {:induction false} CommandAllOne(b: CommandBeat, index: nat, c: Command, answer: SendAnswer, now: real)
    ensures CommandAll(b, index, [c], [answer], now) == CommandOne(b, index, c, answer, now)
  {
    hide CommandOne;
    var one, ans := [c], [answer];
    assert one[1..] == [] && ans[1..] == [];
  }

  lemma {:induction false} CommandAllJoins(b: CommandBeat, index: nat, xs: seq<Command>, us: seq<SendAnswer>,
                                           ys: seq<Command>, vs: seq<SendAnswer>, now: real)
    requires |xs| == |us| && |ys| == |vs|
    ensures CommandAll(b, index, xs + ys, us + vs, now) == CommandAll(CommandAll(b, index, xs, us, now), index + |xs|, ys, vs, now)
    decreases |xs|
  {
    hide CommandOne;
    if xs == [] {
      assert xs + ys == ys && us + vs == vs;
    } else {
      assert (xs + ys)[1..] == xs[1..] + ys && (us + vs)[1..] == us[1..] + vs;
      CommandAllJoins(CommandOne(b, index, xs[0], us[0], now), index + 1, xs[1..], us[1..], ys, vs, now);
    }
  }

  lemma {:induction false} NewBeforeAll(b: Batch, k: nat)
    requires Complete(b) && k <= |b.items|
    ensures NewBefore(b, k) <= k
    ensures NewBefore(b, k) == k <==> forall i :: 0 <= i < k ==> New(b, i)
  {
    hide New;
    if k > 0 {
      NewBeforeAll(b, k - 1);
    }
  }

  lemma {:induction false} NewBeforeGrows(b: Batch, j: nat, k: nat)
    requires Complete(b) && j <= k <= |b.items|
    ensures NewBefore(b, j) <= NewBefore(b, k)
    ensures (forall i :: j <= i < k ==> !New(b, i)) ==> NewBefore(b, k) == NewBefore(b, j)
    decreases k
  {
    hide New;
    if j < k {
      NewBeforeGrows(b, j, k - 1);
    }
  }

  lemma {:induction false} LeastNew(b: Batch, from: nat, k: nat) returns (least: nat)
    requires Complete(b) && from <= k < |b.items| && New(b, k)
    ensures from <= least <= k && New(b, least) && forall i :: from <= i < least ==> !New(b, i)
    decreases |b.items| - from
  {
    hide New;
    if New(b, from) {
      least := from;
    } else {
      least := LeastNew(b, from + 1, k);
    }
  }

  function TurnedAway(c: Command): CommandReport
    requires c.Command?
  {
    CommandReport(c.requestId, c.command, FailedWith("rate_limited"))
  }

  /** A new command in position sixteen or later is turned away, whatever its printer would answer. */
  lemma {:induction false} PositionDecides(b: Batch, k: nat)
    requires Complete(b) && k < |b.items| && New(b, k)
    ensures After(b, k + 1).sent == After(b, k).sent + if k < 16 && !b.answers[k].Unavailable? then [b.items[k].requestId] else []
    ensures k >= 16 ==>
              After(b, k + 1).reports == After(b, k).reports + [TurnedAway(b.items[k])]
  {
    hide After, Get;
    AfterStep(b, k);
  }

  /** Were repeats free, a new command would be turned away only behind sixteen new ones. That holds of a batch if and
      only if its first sixteen positions are all new commands, or no later one is. */
  lemma {:induction false} RepeatsAreFreeExactly(b: Batch)
    requires Complete(b)
    ensures (forall k :: 16 <= k < |b.items| && New(b, k) ==> NewBefore(b, k) >= 16)
       <==> || (forall k :: 0 <= k < 16 && k < |b.items| ==> New(b, k))
            || (forall k :: 16 <= k < |b.items| ==> !New(b, k))
  {
    hide New, NewBefore;
    if |b.items| > 16 {
      NewBeforeAll(b, 16);
      forall k | 16 <= k < |b.items| ensures NewBefore(b, 16) <= NewBefore(b, k) {
        NewBeforeGrows(b, 16, k);
      }
      if k :| 16 <= k < |b.items| && New(b, k) {
        var least := LeastNew(b, 16, k);
        NewBeforeGrows(b, 16, least);
      }
    }
  }

  function Times<T>(x: T, n: nat): (r: seq<T>)
    ensures |r| == n
  {
    if n == 0 then [] else [x] + Times(x, n - 1)
  }

  /** The promise fails: after `a` was executed, a heartbeat of sixteen repeats of `a` and one new `b`, whose printer
      would carry it out, sends nothing and turns `b` away. */
  lemma {:induction false} RepeatsAreNotFree(a: Command, b: Command, now: real)
    requires a.Command? && b.Command? && a.requestId != b.requestId
    ensures var first := [CommandStep([a], [Done], now)];
            && Answered(first)
            && var batch := Batch(RunCommands(JobRun([], []), first).guard, Times(a, 16) + [b], Times(Done, 17), now);
               && Complete(batch) && New(batch, 16) && NewBefore(batch, 16) == 0
               && After(batch, 17).sent == []
               && After(batch, 17).reports == After(batch, 16).reports + [TurnedAway(b)]
  {
    hide NewBefore, After, CommandAll, RunCommands, Remember, Answered, Times;
    var first := [CommandStep([a], [Done], now)];
    FirstExecuted(a, now);
    var g := RunCommands(JobRun([], []), first).guard;
    TimesFacts(a, 16);
    TimesFacts(Done, 17);
    var batch := Batch(g, Times(a, 16) + [b], Times(Done, 17), now);
    forall k | 0 <= k <= 16 ensures After(batch, k).guard == g && After(batch, k).sent == [] {
      RepeatsChangeNothing(batch, k);
    }
    forall k | 0 <= k < 16 ensures !New(batch, k) {
    }
    NewBeforeGrows(batch, 0, 16);
    NewBeforeAll(batch, 0);
    assert batch.items[16] == b && g[1..] == [];
    assert Get(g[1..], b.requestId) == None;
    PositionDecides(batch, 16);
  }

  lemma {:induction false} TimesFacts<T>(x: T, n: nat)
    ensures forall k :: 0 <= k < n ==> Times(x, n)[k] == x
  {
    if n > 0 {
      TimesFacts(x, n - 1);
    }
  }

  lemma {:induction false} FirstExecuted(a: Command, now: real)
    requires a.Command?
    ensures var first := [CommandStep([a], [Done], now)];
            Answered(first) && RunCommands(JobRun([], []), first).guard == [Entry(a.requestId, now)]
  {
    var first := [CommandStep([a], [Done], now)];
    var b0 := CommandBeat([], [], [], []);
    CommandAllOne(b0, 0, a, Done, now);
    assert Put([], a.requestId, now) == [Entry(a.requestId, now)];
    assert first[1..] == [];
  }

  lemma {:induction false} RepeatsChangeNothing(b: Batch, k: nat)
    requires Complete(b) && k <= |b.items|
    requires forall i :: 0 <= i < k ==> b.items[i].Command? && Get(b.guard, b.items[i].requestId).Some?
    ensures After(b, k).guard == b.guard && After(b, k).sent == []
  {
    hide Get;
    RepeatsUseUpTheCap(CommandBeat(b.guard, [], [], []), 0, b.items[..k], b.answers[..k], b.now);
  }
}
