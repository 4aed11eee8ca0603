/** A queue job from its assignment to its last report: the dispatcher and the printers' progress trackers together
    tell the cloud one path of its transition map per start. */
module QueueLives {
  import opened Prelude
  import opened OrderedDicts
  import D = Dispatch
  import L = DispatchLaws
  import P = QueueProgress
  import R = QueueProgressRuns

  /** The dispatcher's guard with its history, and each printer's tracker. */
  datatype World = World(jobs: L.JobRun, trackers: map<string, P.Progress>)

  /** An assignment handed to a printer, whose pending jobs at that moment are given, or a look at a printer. A printer
      stands for one adapter: one that is torn down and rebuilt, with an empty tracker, is another printer. */
  datatype Event =
    | Assigned(printer: string, a: D.Assignment, answer: D.StartAnswer, now: real, pending: seq<P.Job>)
    | Looked(printer: string, jobs: seq<P.Job>, state: string, now: real)

  const START := World(L.JobRun([], []), map[])

  function TrackerOf(w: World, printer: string): P.Progress {
    if printer in w.trackers then w.trackers[printer] else P.EMPTY
  }

  predicate StartedBy(w: World, e: Event) {
    e.Assigned? && D.Starts(w.jobs.guard, e.a, e.answer)
  }

  /** What the printer's tracker sees of an event: a print that started is recorded. */
  function Seen(w: World, e: Event, printer: string): seq<R.Event> {
    if e.printer != printer then []
    else match e
      case Assigned(_, a, _, now, pending) => if StartedBy(w, e) then [R.DispatchEvent(a.queueJobId, pending, now)] else []
      case Looked(_, jobs, state, now) => [R.CollectEvent(jobs, state, now)]
  }

  /** A progress report as the dispatcher passes it on. */
  function Passed(r: P.Report): (passed: D.QueueReport)
    ensures passed.queueJobId == r.queueJobId && (passed.state.Held? <==> r.state == P.Held)
    ensures r.state == P.Held ==> passed.state.reason == r.reason
  {
    D.QueueReport(r.queueJobId,
      match r.state
      case Uploading => D.Uploading
      case Printing => D.Printing
      case Completed => D.Completed
      case Held => D.Held(r.reason))
  }

  function AllPassed(rs: seq<P.Report>): seq<D.QueueReport> {
    seq(|rs|, i requires 0 <= i < |rs| => Passed(rs[i]))
  }

  function StepOf(timeout: real, w: World, e: Event): L.JobStep {
    match e
    case Assigned(_, a, answer, now, _) => L.Assign([a], [answer], now)
    case Looked(printer, jobs, state, now) =>
      L.Observe(AllPassed(P.Collect(timeout, TrackerOf(w, printer), jobs, state, now).1))
  }

  /** The reports an event sends to the cloud. */
  function ReportsOf(timeout: real, w: World, e: Event): seq<D.QueueReport> {
    match e
    case Assigned(_, a, answer, _, _) => D.AssignReports(w.jobs.guard, a, answer)
    case Looked(_, _, _, _) => StepOf(timeout, w, e).reports
  }

  function Next(timeout: real, w: World, e: Event): World {
    World(
      L.NextJobs(w.jobs, StepOf(timeout, w, e)),
      if Seen(w, e, e.printer) == [] then w.trackers
      else w.trackers[e.printer := R.Step(timeout, TrackerOf(w, e.printer), Seen(w, e, e.printer)[0]).0])
  }

  function Live(timeout: real, es: seq<Event>): World {
    if es == [] then START else Next(timeout, Live(timeout, es[..|es| - 1]), es[|es| - 1])
  }

  // ----- each part sees a run of its own --------------------------------------------------------------

  /** What one printer's tracker sees of a run. */
  function Watched(timeout: real, es: seq<Event>, printer: string): seq<R.Event> {
    if es == [] then []
    else
      Watched(timeout, es[..|es| - 1], printer) + Seen(Live(timeout, es[..|es| - 1]), es[|es| - 1], printer)
  }

  function Steps(timeout: real, es: seq<Event>): seq<L.JobStep> {
    if es == [] then []
    else Steps(timeout, es[..|es| - 1]) + [StepOf(timeout, Live(timeout, es[..|es| - 1]), es[|es| - 1])]
  }

  lemma {:induction false} TrackerIsARun(timeout: real, es: seq<Event>, printer: string)
    ensures TrackerOf(Live(timeout, es), printer) == R.Run(timeout, Watched(timeout, es, printer))
  {
    hide R.Step, StepOf, L.NextJobs, StartedBy;
    if es != [] {
      var front, e := es[..|es| - 1], es[|es| - 1];
      var w := Live(timeout, front);
      TrackerIsARun(timeout, front, printer);
      var seen := Seen(w, e, printer);
      if seen == [] {
        assert Watched(timeout, es, printer) == Watched(timeout, front, printer);
      } else {
        var all := Watched(timeout, es, printer);
        assert all == Watched(timeout, front, printer) + [seen[0]];
        assert all[..|all| - 1] == Watched(timeout, front, printer);
      }
    }
  }

  lemma {:induction false} StepsAreWellFormed(timeout: real, es: seq<Event>)
    ensures L.WellFormed(Steps(timeout, es))
  {
    if es != [] {
      StepsAreWellFormed(timeout, es[..|es| - 1]);
    }
  }

  lemma {:induction false} RunJobsConcat(r: L.JobRun, a: seq<L.JobStep>, b: seq<L.JobStep>)
    requires L.WellFormed(a) && L.WellFormed(b)
    ensures L.WellFormed(a + b) && L.RunJobs(r, a + b) == L.RunJobs(L.RunJobs(r, a), b)
    decreases |a|
  {
    hide L.NextJobs;
    if a == [] {
      assert a + b == b;
    } else {
      assert a[0] in a;
      RunJobsConcat(L.NextJobs(r, a[0]), a[1..], b);
      assert (a + b)[0] == a[0] && (a + b)[1..] == a[1..] + b;
    }
  }

  lemma {:induction false} JobsAreARun(timeout: real, es: seq<Event>)
    ensures L.WellFormed(Steps(timeout, es))
    ensures Live(timeout, es).jobs == L.RunJobs(L.JobRun([], []), Steps(timeout, es))
  {
    hide L.NextJobs, R.Step, Seen;
    StepsAreWellFormed(timeout, es);
    if es != [] {
      var front := es[..|es| - 1];
      JobsAreARun(timeout, front);
      var s := StepOf(timeout, Live(timeout, front), es[|es| - 1]);
      RunJobsConcat(L.JobRun([], []), Steps(timeout, front), [s]);
      assert [s][1..] == [];
      assert L.RunJobs(L.RunJobs(L.JobRun([], []), Steps(timeout, front)), [s])
          == L.RunJobs(L.NextJobs(Live(timeout, front).jobs, s), []);
    }
  }

  /** The progress of a printer as it was sent to the cloud. */
  function Progress(timeout: real, es: seq<Event>, printer: string): seq<D.QueueReport> {
    if es == [] then []
    else
      var e := es[|es| - 1];
      Progress(timeout, es[..|es| - 1], printer)
      + if e.Looked? && e.printer == printer then ReportsOf(timeout, Live(timeout, es[..|es| - 1]), e) else []
  }

  /** What the cloud is sent of a printer's progress is its dispatches' words one after another. */
  lemma {:induction false} ProgressIsTheWords(timeout: real, es: seq<Event>, printer: string)
    ensures Progress(timeout, es, printer) == AllPassed(R.Flat(Stories(timeout, es, printer)))
  {
    hide R.Stories, R.Flat, R.Stream, Watched, Progress, AllPassed, R.Told;
    var watched := Watched(timeout, es, printer);
    var c := R.Stories(timeout, watched);
    R.StreamIsStories(timeout, watched);
    R.FlatConcat(c.closed, c.open);
    ProgressIsTheStream(timeout, es, printer);
  }

  lemma {:induction false} ProgressIsTheStream(timeout: real, es: seq<Event>, printer: string)
    ensures Progress(timeout, es, printer) == AllPassed(R.Stream(timeout, Watched(timeout, es, printer)))
  {
    hide R.Step, L.NextJobs, StartedBy, P.Collect, Passed;
    if es != [] {
      var front, e := es[..|es| - 1], es[|es| - 1];
      var w := Live(timeout, front);
      var before := Watched(timeout, front, printer);
      var seen := Seen(w, e, printer);
      ProgressIsTheStream(timeout, front, printer);
      TrackerIsARun(timeout, front, printer);
      if seen == [] {
        assert Watched(timeout, es, printer) == before;
      } else {
        var all := Watched(timeout, es, printer);
        assert all == before + [seen[0]] && all[..|all| - 1] == before;
        StepReports(timeout, w, e, printer);
        PassedConcat(R.Stream(timeout, before), R.Step(timeout, R.Run(timeout, before), seen[0]).1);
      }
    }
  }

  lemma {:induction false} StepReports(timeout: real, w: World, e: Event, printer: string)
    requires Seen(w, e, printer) != []
    ensures AllPassed(R.Step(timeout, TrackerOf(w, printer), Seen(w, e, printer)[0]).1)
            == if e.Looked? then ReportsOf(timeout, w, e) else []
  {
    hide P.Collect;
  }

  lemma {:induction false} PassedConcat(a: seq<P.Report>, b: seq<P.Report>)
    ensures AllPassed(a + b) == AllPassed(a) + AllPassed(b)
  {
    hide Passed;
  }

  // ----- one start, one path ----------------------------------------------------------------------------

  function Stories(timeout: real, es: seq<Event>, printer: string): seq<R.Story> {
    var c := R.Stories(timeout, Watched(timeout, es, printer));
    c.closed + c.open
  }

  /** Event `n` started the `k`th dispatch of a printer: it reported `uploading` and nothing else, and no progress of
      that dispatch had been reported yet. */
  ghost predicate StartsStory(timeout: real, es: seq<Event>, printer: string, k: nat, n: nat)
    requires k < |Stories(timeout, es, printer)|
  {
    && n < |es| && es[n].Assigned? && es[n].printer == printer && es[n].a.Assignment?
    && es[n].a.queueJobId == Stories(timeout, es, printer)[k].id
    && ReportsOf(timeout, Live(timeout, es[..n]), es[n]) == [D.QueueReport(es[n].a.queueJobId, D.Uploading)]
    && |R.Recorded(Watched(timeout, es[..n], printer))| == k
    && k < |Stories(timeout, es[..n + 1], printer)| && Stories(timeout, es[..n + 1], printer)[k].word == []
  }

  lemma {:induction false} StartReports(w: World, e: Event, timeout: real)
    requires StartedBy(w, e)
    ensures ReportsOf(timeout, w, e) == [D.QueueReport(e.a.queueJobId, D.Uploading)]
  {
  }

  lemma {:induction false} RecordedSnoc(es: seq<R.Event>, e: R.Event)
    ensures R.Recorded(es + [e]) == R.Recorded(es) + if e.DispatchEvent? then [e] else []
  {
    assert (es + [e])[..|es|] == es;
  }

  /** The dispatch just recorded has told nothing. */
  lemma {:induction false} FreshStory(timeout: real, es: seq<R.Event>, e: R.Event)
    requires e.DispatchEvent?
    ensures var c := R.Stories(timeout, es + [e]);
            && c.open != [] && c.open[|c.open| - 1].word == []
            && |c.closed + c.open| == |R.Recorded(es)| + 1
  {
    hide R.Run, R.Step;
    R.StoriesFollowDispatches(timeout, es);
    assert (es + [e])[..|es|] == es;
  }

  /** The event that recorded the `k`th dispatch of a printer. */
  lemma {:induction false} StartOf(timeout: real, es: seq<Event>, printer: string, k: nat) returns (n: nat)
    requires k < |R.Recorded(Watched(timeout, es, printer))|
    ensures n < |es| && es[n].printer == printer && StartedBy(Live(timeout, es[..n]), es[n])
    ensures |R.Recorded(Watched(timeout, es[..n], printer))| == k
    ensures R.Recorded(Watched(timeout, es, printer))[k]
            == R.DispatchEvent(es[n].a.queueJobId, es[n].pending, es[n].now)
  {
    hide Live, StartedBy, R.Recorded;
    assert es != [] by {
      NothingRecorded();
    }
    n := |es| - 1;
    var front, e := es[..n], es[n];
    var before := Watched(timeout, front, printer);
    var seen := Seen(Live(timeout, front), e, printer);
    if seen != [] {
      RecordedSnoc(before, seen[0]);
      assert before + [seen[0]] == Watched(timeout, es, printer);
    } else {
      assert before + [] == before;
    }
    if k < |R.Recorded(before)| {
      n := StartOf(timeout, front, printer, k);
      assert front[..n] == es[..n];
    }
  }

  lemma {:induction false} NothingRecorded()
    ensures R.Recorded([]) == []
  {
  }

  /** Over any run, every dispatch of every printer began with one event that reported `uploading`, and what was
      reported of it since is one of the five paths the transition map allows from there. */
  lemma {:induction false} EveryStartHasALegalLife(timeout: real, es: seq<Event>, printer: string, k: nat) returns (n: nat)
    requires k < |Stories(timeout, es, printer)|
    ensures StartsStory(timeout, es, printer, k, n)
    ensures R.Legal(P.Uploading, R.States(Stories(timeout, es, printer)[k].word))
    ensures R.FiveWords(R.States(Stories(timeout, es, printer)[k].word))
  {
    hide R.Stories, R.Recorded, R.States, R.Legal, Live, StartedBy, P.JobKeys, Watched, R.Run;
    var watched := Watched(timeout, es, printer);
    R.StoriesFollowDispatches(timeout, watched);
    n := StartOf(timeout, es, printer, k);
    StartReports(Live(timeout, es[..n]), es[n], timeout);
    NewStory(timeout, es[..n], es[n], printer);
    assert es[..n + 1] == es[..n] + [es[n]];
    var c := R.Stories(timeout, watched);
    R.EveryWordIsLegal(timeout, watched);
    assert Stories(timeout, es, printer)[k] == if k < |c.closed| then c.closed[k] else c.open[k - |c.closed|];
    R.LegalIsFiveWords(R.States(Stories(timeout, es, printer)[k].word));
    StartIsAssigned(Live(timeout, es[..n]), es[n]);
  }

  lemma {:induction false} StartIsAssigned(w: World, e: Event)
    requires StartedBy(w, e)
    ensures e.Assigned? && e.a.Assignment?
  {
  }

  lemma {:induction false} NewStory(timeout: real, es: seq<Event>, e: Event, printer: string)
    requires e.printer == printer && StartedBy(Live(timeout, es), e)
    ensures var k := |R.Recorded(Watched(timeout, es, printer))|;
            && |Stories(timeout, es + [e], printer)| == k + 1 && Stories(timeout, es + [e], printer)[k].word == []
  {
    hide R.Stories, R.Recorded, Live;
    var before := Watched(timeout, es, printer);
    var d := R.DispatchEvent(e.a.queueJobId, e.pending, e.now);
    assert (es + [e])[..|es|] == es;
    assert Watched(timeout, es + [e], printer) == before + [d];
    FreshStory(timeout, before, d);
  }

  /** A queue job whose dispatch has not ended is started again only after a thousand other starts. */
  lemma {:induction false} NoSecondLife(timeout: real, es: seq<Event>, i: nat, j: nat)
    requires var log := Live(timeout, es).jobs.log;
             i < j < |log| && log[i].Started? && log[j] == log[i] && !L.ForgottenIn(log[i + 1..j], log[i].id)
    ensures |L.StartedIn(Live(timeout, es).jobs.log[i + 1..j])| >= 1000
  {
    hide Live, L.RunJobs, Steps, L.ForgottenIn, L.StartedIn;
    JobsAreARun(timeout, es);
    L.JobsStartOnce(Steps(timeout, es), i, j);
  }

  /** And once the last report of a dispatch is out, the job can be started again. */
  lemma {:induction false} EndedJobIsFree(timeout: real, w: World, e: Event, r: D.QueueReport)
    requires e.Looked? && r in ReportsOf(timeout, w, e) && D.Terminal(r)
    ensures Get(Next(timeout, w, e).jobs.guard, r.queueJobId).None?
  {
    hide R.Step, P.Collect;
    ForgetFrees(w.jobs.guard, ReportsOf(timeout, w, e), r);
  }

  lemma {:induction false} ForgetFrees(g: D.Guard, reports: seq<D.QueueReport>, r: D.QueueReport)
    requires r in reports && D.Terminal(r)
    ensures Get(D.ForgetAll(g, reports), r.queueJobId).None?
    decreases |reports|
  {
    hide Get, Without;
    var next := if D.Terminal(reports[0]) then Without(g, reports[0].queueJobId) else g;
    if r == reports[0] {
      WithoutIsFree(g, r.queueJobId);
      StaysFree(next, reports[1..], r.queueJobId);
    } else {
      ForgetFrees(next, reports[1..], r);
    }
  }

  lemma {:induction false} WithoutIsFree(g: D.Guard, id: string)
    ensures Get(Without(g, id), id).None?
  {
    if g != [] {
      WithoutIsFree(g[1..], id);
      WithoutHead(g, id);
    }
  }

  lemma {:induction false} WithoutHead(g: D.Guard, id: string)
    requires g != []
    ensures Without(g, id) == if g[0].key == id then Without(g[1..], id) else [g[0]] + Without(g[1..], id)
    ensures g[0].key != id ==> Without(g, id)[1..] == Without(g[1..], id)
  {
  }

  lemma {:induction false} StaysFree(g: D.Guard, reports: seq<D.QueueReport>, id: string)
    requires Get(g, id).None?
    ensures Get(D.ForgetAll(g, reports), id).None?
    decreases |reports|
  {
    hide Get, Without;
    if reports != [] {
      WithoutKeepsFree(g, reports[0].queueJobId, id);
      StaysFree(if D.Terminal(reports[0]) then Without(g, reports[0].queueJobId) else g, reports[1..], id);
    }
  }

  lemma {:induction false} WithoutKeepsFree(g: D.Guard, other: string, id: string)
    requires Get(g, id).None?
    ensures Get(Without(g, other), id).None?
  {
    if g != [] {
      WithoutKeepsFree(g[1..], other, id);
      WithoutHead(g, other);
    }
  }
}
