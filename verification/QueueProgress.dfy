/** Queue-assignment progress (printers/queue_progress.py): cloud dispatches are resolved, oldest
    first, from the printer's terminal jobs and its telemetry. */
module QueueProgress {
  import opened Prelude

  /** A terminal job as the tracker offers it; an empty key is no key. */
  datatype Job = Job(key: string, status: string)

  datatype Dispatch = Dispatch(queueJobId: string, startedAt: real, reportedPrinting: bool, baseline: set<string>)

  datatype CloudState = Uploading | Printing | Completed | Held

  datatype Report = Report(queueJobId: string, state: CloudState, jobKey: Option<string>, reason: string)

  datatype Progress = Progress(dispatches: seq<Dispatch>, linked: set<string>)

  const EMPTY := Progress([], {})
  const ACTIVE_STATES := {"RUNNING", "PAUSE"}
  const IDLE_STATES := {"", "IDLE", "FINISH", "FAILED", "UNKNOWN"}

  function JobKeys(jobs: seq<Job>): set<string> {
    set i | 0 <= i < |jobs| && jobs[i].key != "" :: jobs[i].key
  }

  predicate IsCandidate(job: Job, d: Dispatch, linked: set<string>) {
    job.key != "" && job.key !in d.baseline && job.key !in linked
  }

  function Candidates(jobs: seq<Job>, d: Dispatch, linked: set<string>): seq<Job> {
    if jobs == [] then []
    else (if IsCandidate(jobs[0], d, linked) then [jobs[0]] else []) + Candidates(jobs[1..], d, linked)
  }

  function RecordDispatch(p: Progress, queueJobId: string, jobs: seq<Job>, now: real): Progress {
    p.(dispatches := p.dispatches + [Dispatch(queueJobId, now, false, JobKeys(jobs))])
  }

  function StatusText(job: Job): string {
    if job.status == "" then "unknown" else job.status
  }

  /** The report a terminal job settles its dispatch with. */
  function Settle(d: Dispatch, job: Job): Report {
    if StatusText(job) == "done" then Report(d.queueJobId, Completed, Some(job.key), "")
    else Report(d.queueJobId, Held, Some(job.key), "print_" + StatusText(job))
  }

  function PrintingReport(d: Dispatch): Report {
    Report(d.queueJobId, Printing, None, "")
  }

  function NotObserved(d: Dispatch): Report {
    Report(d.queueJobId, Held, None, "start_not_observed")
  }

  /** One look at the printer: the new tracker and the reports for the cloud. `state` is the
      upper-cased state text, empty when there is none. */
  function Collect(timeout: real, p: Progress, jobs: seq<Job>, state: string, now: real): (Progress, seq<Report>) {
    var linked := p.linked * JobKeys(jobs);
    if p.dispatches == [] then (Progress([], linked), [])
    else
      var d := p.dispatches[0];
      var candidates := Candidates(jobs, d, linked);
      if |candidates| > 1 then (Progress(p.dispatches, linked), [])
      else if |candidates| == 1 then
        var report := Settle(d, candidates[0]);
        (Progress(p.dispatches[1..], linked + {candidates[0].key}),
         if report.state == Completed && !d.reportedPrinting then [PrintingReport(d), report] else [report])
      else if state in ACTIVE_STATES && !d.reportedPrinting then
        (Progress([d.(reportedPrinting := true)] + p.dispatches[1..], linked), [PrintingReport(d)])
      else if now - d.startedAt >= timeout && !d.reportedPrinting && state in IDLE_STATES then
        (Progress(p.dispatches[1..], linked), [NotObserved(d)])
      else (Progress(p.dispatches, linked), [])
  }

  method FindCandidates(jobs: seq<Job>, d: Dispatch, linked: set<string>) returns (candidates: seq<Job>)
    ensures candidates == Candidates(jobs, d, linked)
  {
    candidates := [];
    for i := 0 to |jobs|
      invariant candidates + Candidates(jobs[i..], d, linked) == Candidates(jobs, d, linked)
    {
      if IsCandidate(jobs[i], d, linked) {
        candidates := candidates + [jobs[i]];
      }
    }
  }

  class QueueProgressTracker {
    const timeout: real
    var dispatches: seq<Dispatch>
    var linked: set<string>

    function Value(): Progress
      reads this
    {
      Progress(dispatches, linked)
    }

    constructor (timeout: real)
      ensures Value() == EMPTY && this.timeout == timeout
    {
      this.timeout := timeout;
      dispatches, linked := [], {};
    }

    method Record(queueJobId: string, jobs: seq<Job>, now: real)
      modifies this`dispatches
      ensures Value() == RecordDispatch(old(Value()), queueJobId, jobs, now)
    {
      dispatches := dispatches + [Dispatch(queueJobId, now, false, JobKeys(jobs))];
    }

    method CollectReports(jobs: seq<Job>, state: string, now: real) returns (reports: seq<Report>)
      modifies this
      ensures (Value(), reports) == Collect(timeout, old(Value()), jobs, state, now)
    {
      linked := linked * JobKeys(jobs);
      if dispatches == [] {
        return [];
      }
      var d := dispatches[0];
      var candidates := FindCandidates(jobs, d, linked);
      if candidates != [] {
        if |candidates| > 1 {
          return [];
        }
        linked := linked + {candidates[0].key};
        dispatches := dispatches[1..];
        var report := Settle(d, candidates[0]);
        if report.state == Completed && !d.reportedPrinting {
          return [PrintingReport(d), report];
        }
        return [report];
      }
      if state in ACTIVE_STATES && !d.reportedPrinting {
        dispatches := [d.(reportedPrinting := true)] + dispatches[1..];
        return [PrintingReport(d)];
      }
      if now - d.startedAt >= timeout && !d.reportedPrinting && state in IDLE_STATES {
        dispatches := dispatches[1..];
        return [NotObserved(d)];
      }
      return [];
    }
  }
}
