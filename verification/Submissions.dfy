/** The capture-to-cloud queue (agent.py): a bounded in-memory queue of captured jobs backed by a
    durable outbox, drained by the heartbeat with retry, dead-letter and auth-outage outcomes. */
module Submissions {
  import opened Prelude
  import Capture

  const QUEUE_MAX: nat := 256
  const MAX_ATTEMPTS: nat := 10

  type Job = Capture.CapturedJob

  /** One POST to the cloud. `ok` is the body's `ok` field when it is a boolean. */
  datatype Reply = Transport | Http(status: int, ok: Option<bool>)

  /** A POST together with what the outbox does if it is asked to write or to delete. */
  datatype Attempt = Attempt(reply: Reply, persistOk: bool, removeOk: bool)

  datatype Verdict = Accept | Reject | DeadLetter | AuthOutage | Retry

  function Judge(r: Reply): Verdict {
    match r
    case Transport => Retry
    case Http(status, ok) =>
      if status == 200 && ok == Some(true) then Accept
      else if status == 200 && ok == Some(false) then Reject
      else if status in {400, 413, 422} then DeadLetter
      else if status in {401, 403} then AuthOutage
      else Retry
  }

  datatype Outcome = Accepted | Rejected | DeadLettered | AttemptsExhausted
  datatype Cause = QueueFull | NoModel | WriteFailed | Crash

  /** The history of the pipeline: copies entering the queue, durable writes, final outcomes, and
      copies that left the queue without a final outcome. */
  datatype Entry =
    | Queued(job: Job)
    | Persisted(job: Job)
    | Finished(job: Job, outcome: Outcome)
    | Lost(job: Job, cause: Cause)

  datatype State = State(queue: seq<Job>, outbox: map<string, Job>, ledger: seq<Entry>)

  const INITIAL := State([], map[], [])

  // ----- the queue ----------------------------------------------------------------------------

  /** Put a job in the queue; a full queue drops its oldest job first. */
  function Enqueue(s: State, job: Job): State {
    if |s.queue| < QUEUE_MAX then s.(queue := s.queue + [job])
    else s.(queue := s.queue[1..] + [job], ledger := s.ledger + [Lost(s.queue[0], QueueFull)])
  }

  function Persist(s: State, job: Job): State {
    s.(outbox := s.outbox[job.uid := job], ledger := s.ledger + [Persisted(job)])
  }

  /** The coordinator's capture callback: a failed durable write falls back to the queue. */
  function OnCapture(s: State, job: Job, persistOk: bool): State {
    var p := if persistOk then Persist(s, job) else s;
    Enqueue(p.(ledger := p.ledger + [Queued(job)]), job)
  }

  /** Reload the outbox into the queue, file by file in the order the directory lists them. */
  function Rehydrate(s: State, listing: seq<string>): State
    decreases |listing|
  {
    if listing == [] then s
    else
      var next :=
        if listing[0] in s.outbox
        then Enqueue(s.(ledger := s.ledger + [Queued(s.outbox[listing[0]])]), s.outbox[listing[0]])
        else s;
      Rehydrate(next, listing[1..])
  }

  /** The jobs the listed outbox files hold, in listing order. */
  function Listed(outbox: map<string, Job>, listing: seq<string>): seq<Job> {
    if listing == [] then []
    else (if listing[0] in outbox then [outbox[listing[0]]] else []) + Listed(outbox, listing[1..])
  }

  function LostAll(jobs: seq<Job>, cause: Cause): seq<Entry> {
    seq(|jobs|, i requires 0 <= i < |jobs| => Lost(jobs[i], cause))
  }

  function DropAll(s: State, cause: Cause): State {
    s.(queue := [], ledger := s.ledger + LostAll(s.queue, cause))
  }

  // ----- draining -----------------------------------------------------------------------------

  function Finish(s: State, job: Job, outcome: Outcome, removeOk: bool): State {
    s.(outbox := if removeOk then s.outbox - {job.uid} else s.outbox,
       ledger := s.ledger + [Finished(job, outcome)])
  }

  /** Count one failed attempt: dead-letter at the cap, else write the raised count and requeue.
      A write that raises abandons the popped copy. */
  function RetryOrDeadLetter(s: State, job: Job, a: Attempt): State {
    var retried := job.(attempts := job.attempts + 1);
    if retried.attempts >= MAX_ATTEMPTS then Finish(s, retried, AttemptsExhausted, a.removeOk)
    else if a.persistOk then Enqueue(Persist(s, retried), retried)
    else s.(ledger := s.ledger + [Lost(job, WriteFailed)])
  }

  /** One iteration of the drain loop on the head of the queue. */
  function SubmitOne(s: State, a: Attempt): State
    requires s.queue != []
  {
    var job := s.queue[0];
    var popped := s.(queue := s.queue[1..]);
    match Judge(a.reply)
    case Accept => Finish(popped, job, Accepted, a.removeOk)
    case Reject => Finish(popped, job, Rejected, a.removeOk)
    case DeadLetter => Finish(popped, job, DeadLettered, a.removeOk)
    case AuthOutage => Enqueue(popped, job)
    case Retry => RetryOrDeadLetter(popped, job, a)
  }

  /** Whether the iteration ends in an exception, which stops the drain. */
  predicate Raises(job: Job, a: Attempt) {
    match Judge(a.reply)
    case AuthOutage => false
    case Retry => if job.attempts + 1 >= MAX_ATTEMPTS then !a.removeOk else !a.persistOk
    case _ => !a.removeOk
  }

  /** The drain loop over at most `n` jobs; it may get fewer attempts than that, when the
      wall-clock budget runs out. */
  function DrainLoop(s: State, n: nat, attempts: seq<Attempt>): State
    decreases |attempts|
  {
    if n == 0 || attempts == [] || s.queue == [] then s
    else if Raises(s.queue[0], attempts[0]) then SubmitOne(s, attempts[0])
    else DrainLoop(SubmitOne(s, attempts[0]), n - 1, attempts[1..])
  }

  function Drain(s: State, model: bool, maxJobs: int, attempts: seq<Attempt>): State {
    if !model then DropAll(s, NoModel)
    else DrainLoop(s, Min(Max(0, maxJobs), |s.queue|), attempts)
  }

  // ----- runs ---------------------------------------------------------------------------------

  /** A crash loses the in-memory queue and keeps the outbox. */
  datatype Event =
    | CaptureEvent(job: Job, persistOk: bool)
    | DrainEvent(model: bool, maxJobs: int, attempts: seq<Attempt>)
    | RehydrateEvent(listing: seq<string>)
    | CrashEvent

  function Step(s: State, e: Event): State {
    match e
    case CaptureEvent(job, persistOk) => OnCapture(s, job, persistOk)
    case DrainEvent(model, maxJobs, attempts) => Drain(s, model, maxJobs, attempts)
    case RehydrateEvent(listing) => Rehydrate(s, listing)
    case CrashEvent => DropAll(s, Crash)
  }

  function Run(s: State, es: seq<Event>): State
    decreases |es|
  {
    if es == [] then s else Run(Step(s, es[0]), es[1..])
  }
}
