/** Dispatching queue jobs and commands to the printers (printers/manager.py), guarded against doing the same one
    twice by two bounded tables of what was done. */
module Dispatch {
  import opened Prelude
  import opened OrderedDicts

  const MAX_REMEMBERED: nat := 1000
  const MAX_PER_HEARTBEAT: nat := 16

  /** What was done, with the time it was done. */
  type Guard = Dict<real>

  function Remember(g: Guard, id: string, now: real): Guard {
    Trim(Put(g, id, now), MAX_REMEMBERED)
  }

  // ---------------------------------------------------------------- queue jobs

  datatype Assignment = Malformed | Assignment(queueJobId: string, uidOk: bool, fileName: string)

  /** What the printer side answers: no adapter that can print, no staged file, started, or refused. */
  datatype StartAnswer = NoPrinter | NoFile | Accepted | NotStarted(reason: string)

  datatype QueueState = Uploading | Held(reason: string) | Printing | Completed

  datatype QueueReport = QueueReport(queueJobId: string, state: QueueState)

  predicate PathOk(a: Assignment)
    requires a.Assignment?
  {
    a.uidOk && a.fileName !in {".", ".."} && '/' !in a.fileName && '\\' !in a.fileName
  }

  /** Whether an assignment reaches the printer. */
  predicate Tried(g: Guard, a: Assignment, answer: StartAnswer) {
    a.Assignment? && Get(g, a.queueJobId).None? && PathOk(a) && !answer.NoPrinter? && !answer.NoFile?
  }

  function AssignReports(g: Guard, a: Assignment, answer: StartAnswer): seq<QueueReport> {
    if a.Malformed? || Get(g, a.queueJobId).Some? then []
    else if !PathOk(a) then [QueueReport(a.queueJobId, Held("bad_assignment"))]
    else match answer
      case NoPrinter => [QueueReport(a.queueJobId, Held("printer_unavailable"))]
      case NoFile => [QueueReport(a.queueJobId, Held("file_not_found"))]
      case Accepted => [QueueReport(a.queueJobId, Uploading)]
      case NotStarted(reason) => [QueueReport(a.queueJobId, Uploading), QueueReport(a.queueJobId, Held(reason))]
  }

  predicate Starts(g: Guard, a: Assignment, answer: StartAnswer) {
    Tried(g, a, answer) && answer.Accepted?
  }

  function AfterAssign(g: Guard, a: Assignment, answer: StartAnswer, now: real): Guard {
    if Starts(g, a, answer) then Remember(g, a.queueJobId, now) else g
  }

  /** One heartbeat's assignments so far: the guard, the reports, and the ids started, in order. */
  datatype JobBeat = JobBeat(guard: Guard, reports: seq<QueueReport>, started: seq<string>)

  function AssignOne(b: JobBeat, a: Assignment, answer: StartAnswer, now: real): JobBeat {
    JobBeat(
      AfterAssign(b.guard, a, answer, now),
      b.reports + AssignReports(b.guard, a, answer),
      if Starts(b.guard, a, answer) then b.started + [a.queueJobId] else b.started)
  }

  function AssignAll(b: JobBeat, items: seq<Assignment>, answers: seq<StartAnswer>, now: real): JobBeat
    requires |items| == |answers|
    decreases |items|
  {
    if items == [] then b else AssignAll(AssignOne(b, items[0], answers[0], now), items[1..], answers[1..], now)
  }

  /** Terminal progress lets a queue job be dispatched again. */
  predicate Terminal(r: QueueReport) {
    r.state.Completed? || r.state.Held?
  }

  function ForgetAll(g: Guard, reports: seq<QueueReport>): Guard
    decreases |reports|
  {
    if reports == [] then g
    else ForgetAll(if Terminal(reports[0]) then Without(g, reports[0].queueJobId) else g, reports[1..])
  }

  /** What one adapter gave before it ended or raised. */
  datatype Collected = Collected(reports: seq<QueueReport>, raised: bool)

  function AllCollected(adapters: seq<Collected>): seq<QueueReport> {
    if adapters == [] then [] else adapters[0].reports + AllCollected(adapters[1..])
  }

  // ---------------------------------------------------------------- commands

  datatype Command = BadCommand | Command(requestId: string, command: string)

  datatype SendAnswer = Unavailable | Raised | Done | Refused(reason: string)

  datatype Result = Okay | FailedWith(detail: string)

  datatype CommandReport = CommandReport(requestId: string, command: string, result: Result)

  /** A command is sent when it was not already executed, its position is below the cap, and there is a printer. */
  predicate Sent(g: Guard, index: nat, c: Command, answer: SendAnswer) {
    c.Command? && Get(g, c.requestId).None? && index < MAX_PER_HEARTBEAT && !answer.Unavailable?
  }

  function CommandReports(g: Guard, index: nat, c: Command, answer: SendAnswer): seq<CommandReport> {
    if c.BadCommand? then []
    else [CommandReport(c.requestId, c.command,
      if Get(g, c.requestId).Some? then Okay
      else if index >= MAX_PER_HEARTBEAT then FailedWith("rate_limited")
      else match answer
        case Unavailable => FailedWith("printer_unavailable")
        case Raised => FailedWith("exception")
        case Done => Okay
        case Refused(reason) => FailedWith(reason))]
  }

  predicate Executes(g: Guard, index: nat, c: Command, answer: SendAnswer) {
    Sent(g, index, c, answer) && answer.Done?
  }

  function AfterCommand(g: Guard, index: nat, c: Command, answer: SendAnswer, now: real): Guard {
    if Executes(g, index, c, answer) then Remember(g, c.requestId, now) else g
  }

  /** One heartbeat's commands so far: the guard, the reports, the ids sent and the ids executed, in order. */
  datatype CommandBeat = CommandBeat(guard: Guard, reports: seq<CommandReport>, sent: seq<string>, executed: seq<string>)

  function CommandOne(b: CommandBeat, index: nat, c: Command, answer: SendAnswer, now: real): CommandBeat {
    CommandBeat(
      AfterCommand(b.guard, index, c, answer, now),
      b.reports + CommandReports(b.guard, index, c, answer),
      if Sent(b.guard, index, c, answer) then b.sent + [c.requestId] else b.sent,
      if Executes(b.guard, index, c, answer) then b.executed + [c.requestId] else b.executed)
  }

  /** The commands from a position on. */
  function CommandAll(b: CommandBeat, index: nat, items: seq<Command>, answers: seq<SendAnswer>, now: real): CommandBeat
    requires |items| == |answers|
    decreases |items|
  {
    if items == [] then b
    else CommandAll(CommandOne(b, index, items[0], answers[0], now), index + 1, items[1..], answers[1..], now)
  }

  // ---------------------------------------------------------------- imperative form

  class Dispatcher {
    var jobs: Guard
    var commands: Guard

    method DispatchAssignments(items: seq<Assignment>, answers: seq<StartAnswer>, now: real)
      returns (reports: seq<QueueReport>, ghost started: seq<string>)
      requires |items| == |answers|
      modifies this`jobs
      ensures JobBeat(jobs, reports, started) == AssignAll(JobBeat(old(jobs), [], []), items, answers, now)
    {
      hide Get, Put, Trim, PathOk;
      reports, started := [], [];
      ghost var whole := AssignAll(JobBeat(jobs, [], []), items, answers, now);
      assert items[0..] == items && answers[0..] == answers;
      for i := 0 to |items|
        invariant AssignAll(JobBeat(jobs, reports, started), items[i..], answers[i..], now) == whole
      {
        var a, answer := items[i], answers[i];
        assert items[i..][0] == a && answers[i..][0] == answer;
        assert items[i..][1..] == items[i + 1..] && answers[i..][1..] == answers[i + 1..];
        ghost var next := AssignOne(JobBeat(jobs, reports, started), a, answer, now);
        if a.Malformed? || Get(jobs, a.queueJobId).Some? {
        } else if !PathOk(a) {
          reports := reports + [QueueReport(a.queueJobId, Held("bad_assignment"))];
        } else if answer.NoPrinter? {
          reports := reports + [QueueReport(a.queueJobId, Held("printer_unavailable"))];
        } else if answer.NoFile? {
          reports := reports + [QueueReport(a.queueJobId, Held("file_not_found"))];
        } else {
          reports := reports + [QueueReport(a.queueJobId, Uploading)];
          if answer.Accepted? {
            jobs := EvictBeyond(Put(jobs, a.queueJobId, now), MAX_REMEMBERED);
            started := started + [a.queueJobId];
          } else {
            reports := reports + [QueueReport(a.queueJobId, Held(answer.reason))];
          }
        }
        assert JobBeat(jobs, reports, started) == next;
      }
    }

    method DispatchCommands(items: seq<Command>, answers: seq<SendAnswer>, now: real)
      returns (reports: seq<CommandReport>, ghost sent: seq<string>, ghost executed: seq<string>)
      requires |items| == |answers|
      modifies this`commands
      ensures CommandBeat(commands, reports, sent, executed) == CommandAll(CommandBeat(old(commands), [], [], []), 0, items, answers, now)
    {
      hide Get, Put, Trim;
      reports, sent, executed := [], [], [];
      ghost var whole := CommandAll(CommandBeat(commands, [], [], []), 0, items, answers, now);
      assert items[0..] == items && answers[0..] == answers;
      for i := 0 to |items|
        invariant CommandAll(CommandBeat(commands, reports, sent, executed), i, items[i..], answers[i..], now) == whole
      {
        var c, answer := items[i], answers[i];
        assert items[i..][0] == c && answers[i..][0] == answer;
        assert items[i..][1..] == items[i + 1..] && answers[i..][1..] == answers[i + 1..];
        ghost var next := CommandOne(CommandBeat(commands, reports, sent, executed), i, c, answer, now);
        if c.BadCommand? {
        } else if Get(commands, c.requestId).Some? {
          reports := reports + [CommandReport(c.requestId, c.command, Okay)];
        } else if i >= MAX_PER_HEARTBEAT {
          reports := reports + [CommandReport(c.requestId, c.command, FailedWith("rate_limited"))];
        } else if answer.Unavailable? {
          reports := reports + [CommandReport(c.requestId, c.command, FailedWith("printer_unavailable"))];
        } else {
          sent := sent + [c.requestId];
          match answer {
            case Raised =>
              reports := reports + [CommandReport(c.requestId, c.command, FailedWith("exception"))];
            case Done =>
              commands := EvictBeyond(Put(commands, c.requestId, now), MAX_REMEMBERED);
              executed := executed + [c.requestId];
              reports := reports + [CommandReport(c.requestId, c.command, Okay)];
            case Refused(reason) =>
              reports := reports + [CommandReport(c.requestId, c.command, FailedWith(reason))];
          }
        }
        assert CommandBeat(commands, reports, sent, executed) == next;
      }
    }

    method CollectFrom(one: Collected) returns (reports: seq<QueueReport>)
      modifies this`jobs
      ensures reports == one.reports && jobs == ForgetAll(old(jobs), one.reports)
    {
      hide Without;
      reports := [];
      for i := 0 to |one.reports|
        invariant reports == one.reports[..i]
        invariant ForgetAll(jobs, one.reports[i..]) == ForgetAll(old(jobs), one.reports)
      {
        assert one.reports[i..][1..] == one.reports[i + 1..];
        reports := reports + [one.reports[i]];
        if Terminal(one.reports[i]) {
          jobs := Without(jobs, one.reports[i].queueJobId);
        }
      }
    }

    /** The drain of observed progress, adapter by adapter, which forgets finished and held jobs. An adapter that
        raises contributes what it had given so far, and the next one is asked all the same. */
    method CollectProgress(adapters: seq<Collected>) returns (reports: seq<QueueReport>)
      modifies this`jobs
      ensures reports == AllCollected(adapters) && jobs == ForgetAll(old(jobs), AllCollected(adapters))
    {
      hide ForgetAll;
      reports := [];
      for a := 0 to |adapters|
        invariant reports + AllCollected(adapters[a..]) == AllCollected(adapters)
        invariant ForgetAll(jobs, AllCollected(adapters[a..])) == ForgetAll(old(jobs), AllCollected(adapters))
      {
        assert adapters[a..][1..] == adapters[a + 1..];
        ForgetJoins(jobs, adapters[a].reports, AllCollected(adapters[a + 1..]));
        Regroup(reports, adapters[a].reports, AllCollected(adapters[a + 1..]));
        var given := CollectFrom(adapters[a]);
        reports := reports + given;
      }
      ForgetNothing(jobs);
    }
  }

  lemma {:induction false} ForgetNothing(g: Guard)
    ensures ForgetAll(g, []) == g
  {
  }

  lemma {:induction false} ForgetJoins(g: Guard, a: seq<QueueReport>, b: seq<QueueReport>)
    ensures ForgetAll(g, a + b) == ForgetAll(ForgetAll(g, a), b)
    decreases |a|
  {
    hide Without;
    if a == [] {
      assert a + b == b;
    } else {
      assert (a + b)[1..] == a[1..] + b;
      ForgetJoins(if Terminal(a[0]) then Without(g, a[0].queueJobId) else g, a[1..], b);
    }
  }
}
