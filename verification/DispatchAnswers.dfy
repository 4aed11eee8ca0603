/** What every command and every assignment is answered, told from what was executed and started before. */
module DispatchAnswers {
  import opened Prelude
  import opened OrderedDicts
  import opened Dispatch
  import opened DispatchLaws

  // ---------------------------------------------------------------- what a guard recalls

  /** It was started, nothing let go of it since, and fewer than a thousand others were started since. */
  ghost predicate Lately(log: seq<Event>, id: string) {
    exists i :: 0 <= i < |log| && log[i] == Started(id) && |StartedIn(log[i + 1..])| < 1000 && !ForgottenIn(log[i + 1..], id)
  }

  /** The guard recalls everything started lately, and nothing that was never started. */
  ghost predicate Honest(g: Guard, log: seq<Event>) {
    && Distinct(g)
    && (forall id :: Lately(log, id) ==> id in Keys(g))
    && (forall id :: id in Keys(g) ==> Started(id) in log)
  }

  ghost predicate OnlyStarted(g: Guard, log: seq<Event>) {
    forall id :: id in Keys(g) ==> Started(id) in log
  }

  lemma {:induction false} RememberIsStarted(g: Guard, log: seq<Event>, id: string, now: real)
    requires Distinct(g) && OnlyStarted(g, log)
    ensures OnlyStarted(Remember(g, id, now), log + [Started(id)])
  {
    hide Keys, Distinct, Put, Trim;
    PutChangesOne(g, id, now);
    TrimKeeps(Put(g, id, now), 1000);
  }

  lemma {:induction false} HonestGuard(g: Guard, log: seq<Event>)
    requires Remembers(g, log) && OnlyStarted(g, log)
    ensures Honest(g, log)
  {
    hide StartedIn, ForgottenIn, Keys, Behind, Distinct;
    forall id | Lately(log, id) ensures id in Keys(g) {
      var i :| 0 <= i < |log| && log[i] == Started(id) && |StartedIn(log[i + 1..])| < 1000 && !ForgottenIn(log[i + 1..], id);
      assert Covered(g, log[i].id, log[i + 1..]);
    }
  }

  lemma {:induction false} DistinctOf(g: Guard, log: seq<Event>)
    requires Remembers(g, log)
    ensures Distinct(g)
  {
  }

  // ---------------------------------------------------------------- commands

  lemma {:induction false} CommandsAreStarted(b: CommandBeat, index: nat, log: seq<Event>, items: seq<Command>,
                                              answers: seq<SendAnswer>, now: real)
    requires |items| == |answers|
    requires var all := log + StartEvents(b.executed); Remembers(b.guard, all) && Spread(all) && OnlyStarted(b.guard, all)
    ensures var after := CommandAll(b, index, items, answers, now); OnlyStarted(after.guard, log + StartEvents(after.executed))
    decreases |items|
  {
    hide Remembers, Spread, Get, Remember, CommandReports, OnlyStarted;
    if items != [] {
      var next := CommandOne(b, index, items[0], answers[0], now);
      if Executes(b.guard, index, items[0], answers[0]) {
        var id := items[0].requestId;
        DistinctOf(b.guard, log + StartEvents(b.executed));
        RememberIsStarted(b.guard, log + StartEvents(b.executed), id, now);
        StartKeepsSpread(b.guard, log + StartEvents(b.executed), id, now);
        assert (b.executed + [id])[..|b.executed|] == b.executed;
        assert log + StartEvents(b.executed) + [Started(id)] == log + StartEvents(next.executed);
      }
      CommandsAreStarted(next, index + 1, log, items[1..], answers[1..], now);
    }
  }

  lemma {:induction false} RunIsStarted(r: JobRun, steps: seq<CommandStep>)
    requires Answered(steps) && Remembers(r.guard, r.log) && Spread(r.log) && OnlyStarted(r.guard, r.log)
    ensures OnlyStarted(RunCommands(r, steps).guard, RunCommands(r, steps).log)
    decreases |steps|
  {
    hide Remembers, Spread, CommandAll, OnlyStarted;
    if steps != [] {
      var s := steps[0];
      assert s in steps;
      assert r.log + StartEvents([]) == r.log;
      CommandsKeepSpread(CommandBeat(r.guard, [], [], []), 0, r.log, s.items, s.answers, s.now);
      CommandsAreStarted(CommandBeat(r.guard, [], [], []), 0, r.log, s.items, s.answers, s.now);
      var b := CommandAll(CommandBeat(r.guard, [], [], []), 0, s.items, s.answers, s.now);
      RunIsStarted(JobRun(b.guard, r.log + StartEvents(b.executed)), steps[1..]);
    }
  }

  /** What the report of a command says when it is recalled as executed or not. */
  predicate Says(result: Dispatch.Result, recalled: bool, k: nat, answer: SendAnswer) {
    if recalled then result == Okay
    else if k >= 16 then result == FailedWith("rate_limited")
    else
      && (answer.Unavailable? ==> result == FailedWith("printer_unavailable"))
      && (answer.Raised? ==> result == FailedWith("exception"))
      && (answer.Done? ==> result == Okay)
      && (answer.Refused? ==> result == FailedWith(answer.reason))
  }

  /** The command at `k` is answered, given everything executed before it. */
  ghost predicate Answers(c: Command, k: nat, answer: SendAnswer, done: seq<Event>, recalled: bool, before: CommandBeat, after: CommandBeat)
    requires c.Command?
  {
    && (Lately(done, c.requestId) ==> recalled) && (recalled ==> Started(c.requestId) in done)
    && (exists result :: Says(result, recalled, k, answer)
                         && after.reports == before.reports + [CommandReport(c.requestId, c.command, result)])
    && after.executed == before.executed + if !recalled && k < 16 && answer.Done? then [c.requestId] else []
  }

  /** The command at `k` of a batch that comes after `log` is answered. */
  ghost predicate AnsweredAt(batch: Batch, k: nat, log: seq<Event>, recalled: bool)
    requires Complete(batch) && k < |batch.items| && batch.items[k].Command?
  {
    Answers(batch.items[k], k, batch.answers[k], log + StartEvents(After(batch, k).executed), recalled, After(batch, k), After(batch, k + 1))
  }

  lemma {:induction false} CommandIsAnswered(b: CommandBeat, k: nat, c: Command, answer: SendAnswer, now: real, done: seq<Event>)
    requires c.Command? && Honest(b.guard, done)
    ensures exists recalled :: Answers(c, k, answer, done, recalled, b, CommandOne(b, k, c, answer, now))
  {
    hide Lately, Keys, Distinct, Get;
    Absent(b.guard, c.requestId);
    var recalled := Get(b.guard, c.requestId).Some?;
    var next := CommandOne(b, k, c, answer, now);
    var report := CommandReports(b.guard, k, c, answer)[0];
    assert Says(report.result, recalled, k, answer);
    assert b.executed + [] == b.executed;
    assert next.reports == b.reports + [CommandReport(c.requestId, c.command, report.result)];
    assert Answers(c, k, answer, done, recalled, b, next);
  }

  /** Over every run, each well-formed command gets its one answer. It is Okay exactly when the command is recalled as
      executed or is carried out now, within the first sixteen; a recalled one was executed before, and one executed
      before is recalled unless a thousand others were executed since. Nothing else is ever answered Okay. */
  lemma {:induction false} OkayMeansExecuted(steps: seq<CommandStep>, items: seq<Command>, answers: seq<SendAnswer>, now: real, k: nat)
    requires Answered(steps) && |items| == |answers| && k < |items| && items[k].Command?
    ensures var r := RunCommands(JobRun([], []), steps);
            var batch := Batch(r.guard, items, answers, now);
            exists recalled :: AnsweredAt(batch, k, r.log, recalled)
  {
    hide RunCommands, Remembers, Spread, OnlyStarted, CommandAll, Answers, CommandOne, Honest;
    NothingYet();
    NothingStarted();
    RunCommandsKeepsSpread(JobRun([], []), steps);
    RunIsStarted(JobRun([], []), steps);
    var r := RunCommands(JobRun([], []), steps);
    var batch := Batch(r.guard, items, answers, now);
    assert r.log + StartEvents([]) == r.log;
    CommandsKeepSpread(CommandBeat(r.guard, [], [], []), 0, r.log, items[..k], answers[..k], now);
    CommandsAreStarted(CommandBeat(r.guard, [], [], []), 0, r.log, items[..k], answers[..k], now);
    var done := r.log + StartEvents(After(batch, k).executed);
    HonestGuard(After(batch, k).guard, done);
    AfterStep(batch, k);
    CommandIsAnswered(After(batch, k), k, items[k], answers[k], now, done);
    var recalled :| Answers(items[k], k, answers[k], done, recalled, After(batch, k), After(batch, k + 1));
    assert AnsweredAt(batch, k, r.log, recalled);
  }

  lemma {:induction false} NothingStarted()
    ensures OnlyStarted([], [])
  {
  }

  // ---------------------------------------------------------------- queue jobs

  /** A file name that stays inside its directory. */
  predicate StaysInside(name: string) {
    name != "." && name != ".." && forall i :: 0 <= i < |name| ==> name[i] != '/' && name[i] != '\\'
  }

  lemma {:induction false} PathIsInside(a: Assignment)
    requires a.Assignment?
    ensures PathOk(a) <==> a.uidOk && StaysInside(a.fileName)
  {
  }

  lemma {:induction false} JobsAreStarted(b: JobBeat, log: seq<Event>, items: seq<Assignment>, answers: seq<StartAnswer>, now: real)
    requires |items| == |answers|
    requires var all := log + StartEvents(b.started); Remembers(b.guard, all) && Spread(all) && OnlyStarted(b.guard, all)
    ensures var after := AssignAll(b, items, answers, now); OnlyStarted(after.guard, log + StartEvents(after.started))
    decreases |items|
  {
    hide Remembers, Spread, Get, Remember, PathOk, OnlyStarted;
    if items != [] {
      var next := AssignOne(b, items[0], answers[0], now);
      if Starts(b.guard, items[0], answers[0]) {
        var id := items[0].queueJobId;
        DistinctOf(b.guard, log + StartEvents(b.started));
        RememberIsStarted(b.guard, log + StartEvents(b.started), id, now);
        StartKeepsSpread(b.guard, log + StartEvents(b.started), id, now);
        assert (b.started + [id])[..|b.started|] == b.started;
        assert log + StartEvents(b.started) + [Started(id)] == log + StartEvents(next.started);
      }
      JobsAreStarted(next, log, items[1..], answers[1..], now);
    }
  }

  lemma {:induction false} ForgetIsStarted(g: Guard, log: seq<Event>, id: string)
    requires Distinct(g) && OnlyStarted(g, log)
    ensures Distinct(Without(g, id)) && OnlyStarted(Without(g, id), log + [Forgotten(id)])
  {
    hide Distinct, Keys, Without;
    WithoutKey(g, id);
  }

  lemma {:induction false} ForgettingKeepsStarted(g: Guard, log: seq<Event>, reports: seq<QueueReport>)
    requires Distinct(g) && OnlyStarted(g, log)
    ensures OnlyStarted(ForgetAll(g, reports), log + ForgetEvents(reports))
    decreases |reports|
  {
    hide Distinct, OnlyStarted, Without;
    if reports == [] {
      assert log + [] == log;
    } else if Terminal(reports[0]) {
      var id := reports[0].queueJobId;
      ForgetIsStarted(g, log, id);
      ForgettingKeepsStarted(Without(g, id), log + [Forgotten(id)], reports[1..]);
      assert log + [Forgotten(id)] + ForgetEvents(reports[1..]) == log + ForgetEvents(reports);
    } else {
      ForgettingKeepsStarted(g, log, reports[1..]);
      assert ForgetEvents(reports) == ForgetEvents(reports[1..]);
    }
  }

  lemma {:induction false} JobRunIsStarted(r: JobRun, steps: seq<JobStep>)
    requires WellFormed(steps) && Remembers(r.guard, r.log) && Spread(r.log) && OnlyStarted(r.guard, r.log)
    ensures OnlyStarted(RunJobs(r, steps).guard, RunJobs(r, steps).log)
    decreases |steps|
  {
    hide Remembers, Spread, ForgetAll, AssignAll, OnlyStarted;
    if steps != [] {
      var s := steps[0];
      assert s in steps;
      match s {
        case Assign(items, answers, now) =>
          assert r.log + StartEvents([]) == r.log;
          AssignKeepsSpread(JobBeat(r.guard, [], []), r.log, items, answers, now);
          JobsAreStarted(JobBeat(r.guard, [], []), r.log, items, answers, now);
        case Observe(reports) =>
          ForgetAllKeepsSpread(r.guard, r.log, reports);
          DistinctOf(r.guard, r.log);
          ForgettingKeepsStarted(r.guard, r.log, reports);
      }
      JobRunIsStarted(NextJobs(r, s), steps[1..]);
    }
  }

  /** What an assignment is answered when it is recalled as started or not. */
  predicate Replies(rs: seq<QueueReport>, recalled: bool, a: Assignment, answer: StartAnswer)
    requires a.Assignment?
  {
    if recalled then rs == []
    else if !a.uidOk || !StaysInside(a.fileName) then rs == [QueueReport(a.queueJobId, Held("bad_assignment"))]
    else
      && (answer.NoPrinter? ==> rs == [QueueReport(a.queueJobId, Held("printer_unavailable"))])
      && (answer.NoFile? ==> rs == [QueueReport(a.queueJobId, Held("file_not_found"))])
      && (answer.Accepted? ==> rs == [QueueReport(a.queueJobId, Uploading)])
      && (answer.NotStarted? ==> rs == [QueueReport(a.queueJobId, Uploading), QueueReport(a.queueJobId, Held(answer.reason))])
  }

  /** The assignment is answered, given everything started and let go before it. */
  ghost predicate Handles(a: Assignment, answer: StartAnswer, done: seq<Event>, recalled: bool, before: JobBeat, after: JobBeat)
    requires a.Assignment?
  {
    && (Lately(done, a.queueJobId) ==> recalled) && (recalled ==> Started(a.queueJobId) in done)
    && (exists rs :: Replies(rs, recalled, a, answer) && after.reports == before.reports + rs)
    && after.started == before.started
                        + if !recalled && a.uidOk && StaysInside(a.fileName) && answer.Accepted? then [a.queueJobId] else []
  }

  lemma {:induction false} AssignmentIsHandled(b: JobBeat, a: Assignment, answer: StartAnswer, now: real, done: seq<Event>)
    requires a.Assignment? && Honest(b.guard, done)
    ensures exists recalled :: Handles(a, answer, done, recalled, b, AssignOne(b, a, answer, now))
  {
    hide Lately, Keys, Distinct, Get, PathOk, StaysInside;
    Absent(b.guard, a.queueJobId);
    PathIsInside(a);
    var recalled := Get(b.guard, a.queueJobId).Some?;
    assert Replies(AssignReports(b.guard, a, answer), recalled, a, answer);
    assert b.started + [] == b.started;
    assert Handles(a, answer, done, recalled, b, AssignOne(b, a, answer, now));
  }

  lemma {:induction false} AssignAllJoins(b: JobBeat, xs: seq<Assignment>, us: seq<StartAnswer>, y: Assignment, v: StartAnswer, now: real)
    requires |xs| == |us|
    ensures AssignAll(b, xs + [y], us + [v], now) == AssignOne(AssignAll(b, xs, us, now), y, v, now)
    decreases |xs|
  {
    hide AssignOne;
    if xs == [] {
      assert [] + [y] == [y] && [] + [v] == [v] && [y][1..] == [] && [v][1..] == [];
    } else {
      assert (xs + [y])[1..] == xs[1..] + [y] && (us + [v])[1..] == us[1..] + [v];
      AssignAllJoins(AssignOne(b, xs[0], us[0], now), xs[1..], us[1..], y, v, now);
    }
  }

  /** Over every run, each well-formed assignment gets its answer. It reaches the printer only with a name that stays inside
      its directory; a job recalled as started is passed over in silence, and it was started before; one started before is
      recalled unless it ended since or a thousand others were started since. */
  lemma {:induction false} AssignmentsAreHandled(steps: seq<JobStep>, items: seq<Assignment>, answers: seq<StartAnswer>, now: real, k: nat)
    requires WellFormed(steps) && |items| == |answers| && k < |items| && items[k].Assignment?
    ensures var r := RunJobs(JobRun([], []), steps);
            var before := AssignAll(JobBeat(r.guard, [], []), items[..k], answers[..k], now);
            var after := AssignAll(JobBeat(r.guard, [], []), items[..k + 1], answers[..k + 1], now);
            exists recalled :: Handles(items[k], answers[k], r.log + StartEvents(before.started), recalled, before, after)
  {
    hide RunJobs, Remembers, Spread, OnlyStarted, AssignAll, Handles, AssignOne, Honest;
    NothingYet();
    NothingStarted();
    RunJobsKeepsSpread(JobRun([], []), steps);
    JobRunIsStarted(JobRun([], []), steps);
    var r := RunJobs(JobRun([], []), steps);
    var start := JobBeat(r.guard, [], []);
    assert r.log + StartEvents([]) == r.log;
    AssignKeepsSpread(start, r.log, items[..k], answers[..k], now);
    JobsAreStarted(start, r.log, items[..k], answers[..k], now);
    var before := AssignAll(start, items[..k], answers[..k], now);
    var done := r.log + StartEvents(before.started);
    HonestGuard(before.guard, done);
    AssignAllJoins(start, items[..k], answers[..k], items[k], answers[k], now);
    assert items[..k + 1] == items[..k] + [items[k]] && answers[..k + 1] == answers[..k] + [answers[k]];
    AssignmentIsHandled(before, items[k], answers[k], now, done);
  }
}
