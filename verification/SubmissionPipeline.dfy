/** The agent's submission functions as they update the shared queue and the outbox, proved equal
    to the transitions of module Submissions. */
module SubmissionPipelines {
  import opened Prelude
  import opened Submissions

  /** How many submissions the history records as accepted by the cloud. */
  function AcceptedIn(l: seq<Entry>): nat {
    if l == [] then 0
    else AcceptedIn(l[..|l| - 1]) + if l[|l| - 1].Finished? && l[|l| - 1].outcome == Accepted then 1 else 0
  }

  lemma {:induction false} AcceptedSnoc(l: seq<Entry>, e: Entry)
    ensures AcceptedIn(l + [e]) == AcceptedIn(l) + if e.Finished? && e.outcome == Accepted then 1 else 0
  {
    assert (l + [e])[..|l + [e]| - 1] == l;
  }

  lemma {:induction false} SubmitOneCounts(s: State, a: Attempt)
    requires s.queue != []
    ensures AcceptedIn(SubmitOne(s, a).ledger) == AcceptedIn(s.ledger) + if Judge(a.reply) == Accept then 1 else 0
  {
    hide Judge, AcceptedIn;
    var popped := s.(queue := s.queue[1..]);
    var job := s.queue[0];
    var retried := job.(attempts := job.attempts + 1);
    match Judge(a.reply)
    case Accept => AcceptedSnoc(s.ledger, Finished(job, Accepted));
    case Reject => AcceptedSnoc(s.ledger, Finished(job, Rejected));
    case DeadLetter => AcceptedSnoc(s.ledger, Finished(job, DeadLettered));
    case AuthOutage => EnqueueAccepts(popped, job);
    case Retry =>
      if retried.attempts >= MAX_ATTEMPTS {
        AcceptedSnoc(s.ledger, Finished(retried, AttemptsExhausted));
      } else if a.persistOk {
        AcceptedSnoc(s.ledger, Persisted(retried));
        EnqueueAccepts(Persist(popped, retried), retried);
      } else {
        AcceptedSnoc(s.ledger, Lost(job, WriteFailed));
      }
  }

  lemma {:induction false} EnqueueAccepts(s: State, job: Job)
    ensures AcceptedIn(Enqueue(s, job).ledger) == AcceptedIn(s.ledger)
  {
    hide AcceptedIn;
    if |s.queue| >= QUEUE_MAX {
      AcceptedSnoc(s.ledger, Lost(s.queue[0], QueueFull));
    }
  }

  class SubmissionPipeline {
    var queue: seq<Job>
    var outbox: map<string, Job>
    // Everything that happened, for the statements about whole runs.
    ghost var ledger: seq<Entry>

    ghost function Value(): State
      reads this
    {
      State(queue, outbox, ledger)
    }

    constructor ()
      ensures Value() == INITIAL
    {
      queue, outbox, ledger := [], map[], [];
    }

    method Put(job: Job)
      modifies this`queue, this`ledger
      ensures Value() == Enqueue(old(Value()), job)
    {
      if |queue| < QUEUE_MAX {
        queue := queue + [job];
        return;
      }
      ledger := ledger + [Lost(queue[0], QueueFull)];
      queue := queue[1..];
      queue := queue + [job];
    }

    method Write(job: Job)
      modifies this`outbox, this`ledger
      ensures Value() == Persist(old(Value()), job)
    {
      outbox := outbox[job.uid := job];
      ledger := ledger + [Persisted(job)];
    }

    /** `writable` says whether the durable write succeeds. */
    method Capture(job: Job, writable: bool)
      modifies this
      ensures Value() == OnCapture(old(Value()), job, writable)
    {
      if writable {
        Write(job);
      }
      ledger := ledger + [Queued(job)];
      Put(job);
    }

    method Reload(listing: seq<string>) returns (count: nat)
      modifies this`queue, this`ledger
      ensures Value() == Rehydrate(old(Value()), listing)
      ensures count == |Listed(outbox, listing)|
    {
      count := 0;
      for i := 0 to |listing|
        invariant outbox == old(outbox)
        invariant Rehydrate(Value(), listing[i..]) == Rehydrate(old(Value()), listing)
        invariant count + |Listed(outbox, listing[i..])| == |Listed(outbox, listing)|
      {
        if listing[i] in outbox {
          ledger := ledger + [Queued(outbox[listing[i]])];
          Put(outbox[listing[i]]);
          count := count + 1;
        }
      }
    }

    method DropSubmissions(cause: Cause) returns (dropped: nat)
      modifies this`queue, this`ledger
      ensures Value() == DropAll(old(Value()), cause)
      ensures dropped == |old(queue)|
    {
      dropped := 0;
      while queue != []
        invariant dropped + |queue| == |old(queue)|
        invariant queue == old(queue)[dropped..]
        invariant ledger == old(ledger) + LostAll(old(queue)[..dropped], cause)
        invariant outbox == old(outbox)
        decreases |queue|
      {
        assert old(queue)[..dropped + 1] == old(queue)[..dropped] + [queue[0]];
        ledger := ledger + [Lost(queue[0], cause)];
        queue := queue[1..];
        dropped := dropped + 1;
      }
      assert old(queue)[..dropped] == old(queue);
    }

    /** Record a final outcome and delete the outbox record; the deletion may raise. */
    method Conclude(job: Job, outcome: Outcome, removable: bool) returns (raised: bool)
      modifies this`outbox, this`ledger
      ensures Value() == Finish(old(Value()), job, outcome, removable)
      ensures raised == !removable
    {
      ledger := ledger + [Finished(job, outcome)];
      if removable {
        outbox := outbox - {job.uid};
      }
      raised := !removable;
    }

    method RetryOrGiveUp(job: Job, a: Attempt) returns (raised: bool)
      modifies this
      ensures Value() == RetryOrDeadLetter(old(Value()), job, a)
      ensures raised == if job.attempts + 1 >= MAX_ATTEMPTS then !a.removeOk else !a.persistOk
    {
      var attempts := job.attempts + 1;
      if attempts >= MAX_ATTEMPTS {
        raised := Conclude(job.(attempts := attempts), AttemptsExhausted, a.removeOk);
        return;
      }
      if !a.persistOk {
        ledger := ledger + [Lost(job, WriteFailed)];
        return true;
      }
      Write(job.(attempts := attempts));
      Put(job.(attempts := attempts));
      raised := false;
    }

    /** One iteration of the drain: pop the head, post it, act on the answer. */
    method SubmitHead(a: Attempt) returns (raised: bool)
      requires queue != []
      modifies this
      ensures Value() == SubmitOne(old(Value()), a)
      ensures raised == Raises(old(queue)[0], a)
    {
      var job := queue[0];
      queue := queue[1..];
      match Judge(a.reply) {
        case Accept => raised := Conclude(job, Accepted, a.removeOk);
        case Reject => raised := Conclude(job, Rejected, a.removeOk);
        case DeadLetter => raised := Conclude(job, DeadLettered, a.removeOk);
        case AuthOutage =>
          Put(job);
          raised := false;
        case Retry => raised := RetryOrGiveUp(job, a);
      }
    }

    /** `attempts` scripts the cloud's answers; it is shorter than the loop when the wall-clock
        budget of the heartbeat runs out. */
    method DrainSubmissions(model: bool, maxJobs: int, attempts: seq<Attempt>) returns (submitted: nat, raised: bool)
      modifies this
      ensures Value() == Drain(old(Value()), model, maxJobs, attempts)
      ensures raised ==> model
      ensures model && !raised ==> AcceptedIn(ledger) == AcceptedIn(old(ledger)) + submitted
    {
      hide SubmitOne, Raises, Judge, AcceptedIn;
      submitted, raised := 0, false;
      if !model {
        var _ := DropSubmissions(NoModel);
        return;
      }
      var toProcess := Min(Max(0, maxJobs), |queue|);
      var i := 0;
      while i < toProcess && i < |attempts| && queue != []
        invariant i <= toProcess && i <= |attempts|
        invariant AcceptedIn(ledger) == AcceptedIn(old(ledger)) + submitted
        invariant DrainLoop(Value(), toProcess - i, attempts[i..])
                  == DrainLoop(old(Value()), toProcess, attempts)
      {
        SubmitOneCounts(Value(), attempts[i]);
        assert attempts[i..][0] == attempts[i] && attempts[i..][1..] == attempts[i + 1..];
        raised := SubmitHead(attempts[i]);
        if Judge(attempts[i].reply) == Accept {
          submitted := submitted + 1;
        }
        if raised {
          return;
        }
        i := i + 1;
      }
    }
  }
}
