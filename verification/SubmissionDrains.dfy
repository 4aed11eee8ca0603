/** What a drain does to the queue and the outbox under each kind of cloud answer, how a restart
    rebuilds the queue, and the one way a submission can be lost. */
module SubmissionDrains {
  import opened Prelude
  import opened Submissions
  import opened SubmissionAnswers
  import opened SubmissionLaws

  // ----- attempt counts -------------------------------------------------------------------------

  /** Every live copy still has attempts left. */
  ghost predicate AttemptsLeft(s: State) {
    && (forall i :: 0 <= i < |s.queue| ==> 0 <= s.queue[i].attempts < 10)
    && (forall u :: u in s.outbox ==> 0 <= s.outbox[u].attempts < 10)
  }

  lemma {:induction false} EnqueueAttempts(s: State, job: Job)
    requires AttemptsLeft(s) && 0 <= job.attempts < 10
    ensures AttemptsLeft(Enqueue(s, job))
  {
  }

  lemma {:induction false} RehydrateAttempts(s: State, listing: seq<string>)
    requires AttemptsLeft(s)
    ensures AttemptsLeft(Rehydrate(s, listing))
    decreases |listing|
  {
    hide Enqueue;
    if listing != [] {
      if listing[0] in s.outbox {
        EnqueueAttempts(s.(ledger := s.ledger + [Queued(s.outbox[listing[0]])]), s.outbox[listing[0]]);
        RehydrateAttempts(Enqueue(s.(ledger := s.ledger + [Queued(s.outbox[listing[0]])]), s.outbox[listing[0]]), listing[1..]);
      } else {
        RehydrateAttempts(s, listing[1..]);
      }
    }
  }

  lemma {:induction false} SubmitOneAttempts(s: State, a: Attempt)
    requires AttemptsLeft(s) && s.queue != []
    ensures AttemptsLeft(SubmitOne(s, a))
  {
    hide Enqueue, Judge;
    var job := s.queue[0];
    var popped := s.(queue := s.queue[1..]);
    var retried := job.(attempts := job.attempts + 1);
    assert AttemptsLeft(popped);
    if Judge(a.reply) == AuthOutage {
      EnqueueAttempts(popped, job);
    } else if Judge(a.reply) == Retry && retried.attempts < 10 && a.persistOk {
      EnqueueAttempts(Persist(popped, retried), retried);
    }
  }

  lemma {:induction false} DrainAttempts(s: State, n: nat, attempts: seq<Attempt>)
    requires AttemptsLeft(s)
    ensures AttemptsLeft(DrainLoop(s, n, attempts))
    decreases |attempts|
  {
    hide AttemptsLeft, SubmitOne, Raises;
    if n != 0 && attempts != [] && s.queue != [] {
      SubmitOneAttempts(s, attempts[0]);
      if !Raises(s.queue[0], attempts[0]) {
        DrainAttempts(SubmitOne(s, attempts[0]), n - 1, attempts[1..]);
      }
    }
  }

  /** Over every run whose captures start with no attempts (as every capture does), a copy in the
      queue or in the outbox has used fewer attempts than the cap. */
  lemma {:induction false} RunAttempts(s: State, es: seq<Event>)
    requires AttemptsLeft(s)
    requires forall i :: 0 <= i < |es| && es[i].CaptureEvent? ==> es[i].job.attempts == 0
    ensures AttemptsLeft(Run(s, es))
    decreases |es|
  {
    if es != [] {
      match es[0] {
        case CaptureEvent(job, persistOk) =>
          assert es[0].job.attempts == 0;
          EnqueueAttempts((if persistOk then Persist(s, job) else s).(ledger := (if persistOk then Persist(s, job) else s).ledger + [Queued(job)]), job);
        case DrainEvent(model, maxJobs, attempts) =>
          DrainAttempts(s, Min(Max(0, maxJobs), |s.queue|), attempts);
        case RehydrateEvent(listing) => RehydrateAttempts(s, listing);
        case CrashEvent =>
      }
      RunAttempts(Step(s, es[0]), es[1..]);
    }
  }

  /** Attempts still available to the copies in the queue. */
  function Work(q: seq<Job>): int {
    if q == [] then 0 else 10 - q[0].attempts + Work(q[1..])
  }

  lemma {:induction false} WorkSnoc(q: seq<Job>, job: Job)
    ensures Work(q + [job]) == Work(q) + 10 - job.attempts
  {
    if q == [] {
      assert q + [job] == [job];
      assert [job][1..] == [];
    } else {
      WorkSnoc(q[1..], job);
      assert (q + [job])[1..] == q[1..] + [job];
    }
  }

  lemma {:induction false} WorkBounds(s: State)
    requires AttemptsLeft(s)
    ensures |s.queue| <= Work(s.queue) <= 10 * |s.queue|
    decreases |s.queue|
  {
    if s.queue != [] {
      WorkBounds(s.(queue := s.queue[1..]));
    }
  }

  /** Every answer but a 401 or a 403 uses up at least one of the attempts left in the queue. */
  lemma {:induction false} SubmitOneWorks(s: State, a: Attempt)
    requires |s.queue| <= 256 && AttemptsLeft(s) && s.queue != [] && !LockedOut(a.reply)
    ensures Work(SubmitOne(s, a).queue) < Work(s.queue)
    ensures |SubmitOne(s, a).queue| <= |s.queue|
  {
    hide Judge;
    VerdictByCode(a.reply);
    var job := s.queue[0];
    WorkSnoc(s.queue[1..], job.(attempts := job.attempts + 1));
  }

  /** Heartbeat after heartbeat, one POST at a time. */
  function SubmitAll(s: State, attempts: seq<Attempt>): State
    decreases |attempts|
  {
    if attempts == [] || s.queue == [] then s else SubmitAll(SubmitOne(s, attempts[0]), attempts[1..])
  }

  /** Progress: whatever the cloud answers, short of 401 and 403, ten POSTs per queued copy
      empty the queue. */
  lemma {:induction false} QueueEmpties(s: State, attempts: seq<Attempt>)
    requires |s.queue| <= 256 && AttemptsLeft(s)
    requires forall i :: 0 <= i < |attempts| ==> !LockedOut(attempts[i].reply)
    requires |attempts| >= Work(s.queue)
    ensures SubmitAll(s, attempts).queue == []
    decreases |attempts|
  {
    hide AttemptsLeft, SubmitOne, Judge, Work;
    WorkBounds(s);
    if s.queue != [] {
      SubmitOneWorks(s, attempts[0]);
      SubmitOneAttempts(s, attempts[0]);
      QueueEmpties(SubmitOne(s, attempts[0]), attempts[1..]);
    }
  }

  // ----- auth outages and healthy clouds ----------------------------------------------------------

  /** A credential refused with 401 or 403 only rotates the queue: no attempt is counted, nothing is written, removed,
      finished or lost. */
  lemma {:induction false} AuthOutageRotates(s: State, n: nat, attempts: seq<Attempt>)
    requires n <= |attempts| && n <= |s.queue| <= 256
    requires forall i :: 0 <= i < |attempts| ==> LockedOut(attempts[i].reply)
    ensures DrainLoop(s, n, attempts) == s.(queue := s.queue[n..] + s.queue[..n])
    decreases |attempts|
  {
    hide Judge;
    if n > 0 {
      VerdictByCode(attempts[0].reply);
      var t := SubmitOne(s, attempts[0]);
      assert t == s.(queue := s.queue[1..] + [s.queue[0]]);
      AuthOutageRotates(t, n - 1, attempts[1..]);
      assert t.queue[n - 1..] + t.queue[..n - 1] == s.queue[n..] + s.queue[..n];
    } else {
      assert s.queue[0..] + s.queue[..0] == s.queue;
    }
  }

  function Uids(q: seq<Job>): set<string> {
    set i | 0 <= i < |q| :: q[i].uid
  }

  function FinishedAll(q: seq<Job>, outcome: Outcome): seq<Entry> {
    seq(|q|, i requires 0 <= i < |q| => Finished(q[i], outcome))
  }

  /** A healthy cloud takes the head of the queue in order and clears exactly its outbox records. */
  lemma {:induction false} HealthyDrain(s: State, n: nat, attempts: seq<Attempt>)
    requires n <= |attempts| && n <= |s.queue|
    requires forall i :: 0 <= i < |attempts| ==> Takes(attempts[i].reply) && attempts[i].removeOk
    ensures DrainLoop(s, n, attempts)
            == State(s.queue[n..], s.outbox - Uids(s.queue[..n]), s.ledger + FinishedAll(s.queue[..n], Accepted))
    decreases |attempts|
  {
    hide Judge;
    if n > 0 {
      VerdictByCode(attempts[0].reply);
      var q := s.queue;
      var t := SubmitOne(s, attempts[0]);
      assert t == State(q[1..], s.outbox - {q[0].uid}, s.ledger + [Finished(q[0], Accepted)]);
      HealthyDrain(t, n - 1, attempts[1..]);
      assert q[..n] == [q[0]] + q[1..][..n - 1];
      assert Uids(q[..n]) == {q[0].uid} + Uids(q[1..][..n - 1]) by {
        HeadUid(q[0], q[1..][..n - 1]);
      }
      assert FinishedAll(q[..n], Accepted) == [Finished(q[0], Accepted)] + FinishedAll(q[1..][..n - 1], Accepted);
      assert s.outbox - {q[0].uid} - Uids(q[1..][..n - 1]) == s.outbox - Uids(q[..n]);
    } else {
      assert Uids(s.queue[..0]) == {};
      assert s.ledger + FinishedAll(s.queue[..0], Accepted) == s.ledger;
    }
  }

  lemma {:induction false} HeadUid(job: Job, rest: seq<Job>)
    ensures Uids([job] + rest) == {job.uid} + Uids(rest)
  {
    var q := [job] + rest;
    assert q[0] == job;
    forall i | 0 <= i < |rest| ensures rest[i].uid in Uids(q) {
      assert q[i + 1] == rest[i];
    }
  }

  // ----- restarts ---------------------------------------------------------------------------------

  function LastJobs(q: seq<Job>): seq<Job> {
    if |q| <= 256 then q else q[|q| - 256..]
  }

  lemma {:induction false} EnqueueIsLast(q: seq<Job>, job: Job, rest: seq<Job>)
    requires |q| <= 256
    ensures LastJobs(LastJobs(q + [job]) + rest) == LastJobs(q + ([job] + rest))
  {
    assert q + ([job] + rest) == q + [job] + rest;
    if |q| == 256 {
      assert LastJobs(q + [job]) == q[1..] + [job];
    }
  }

  /** Reloading appends the outbox to the queue and keeps the newest that fit, and it leaves the
      outbox as it was. */
  lemma {:induction false} RehydrateQueues(s: State, listing: seq<string>)
    requires |s.queue| <= 256
    ensures Rehydrate(s, listing).queue == LastJobs(s.queue + Listed(s.outbox, listing))
    ensures Rehydrate(s, listing).outbox == s.outbox
    decreases |listing|
  {
    if listing == [] {
      assert s.queue + [] == s.queue;
    } else if listing[0] in s.outbox {
      var job := s.outbox[listing[0]];
      var t := Enqueue(s.(ledger := s.ledger + [Queued(job)]), job);
      assert t.queue == LastJobs(s.queue + [job]) && t.outbox == s.outbox;
      RehydrateQueues(t, listing[1..]);
      EnqueueIsLast(s.queue, job, Listed(s.outbox, listing[1..]));
    } else {
      RehydrateQueues(s, listing[1..]);
      assert Listed(s.outbox, listing) == Listed(s.outbox, listing[1..]);
    }
  }

  lemma {:induction false} ListedAll(outbox: map<string, Job>, listing: seq<string>)
    requires forall i :: 0 <= i < |listing| ==> listing[i] in outbox
    ensures |Listed(outbox, listing)| == |listing|
    ensures forall i :: 0 <= i < |listing| ==> Listed(outbox, listing)[i] == outbox[listing[i]]
  {
    if listing != [] {
      ListedAll(outbox, listing[1..]);
    }
  }

  /** A crash and a reload lose nothing durable: the outbox is untouched, and its records are queued again, each as last
      written, in listing order; the last 256 of them when there are more. */
  lemma {:induction false} CrashThenReload(s: State, listing: seq<string>)
    requires Inv(s)
    requires forall u :: u in listing <==> u in s.outbox
    ensures var r := Rehydrate(DropAll(s, Crash), listing);
            var skipped := Max(0, |listing| - 256);
            && r.outbox == s.outbox && |r.queue| == |listing| - skipped
            && forall i :: 0 <= i < |r.queue| ==>
                 r.queue[i] == s.outbox[listing[skipped + i]]
                 && LastWrite(s.ledger, listing[skipped + i]) == Some(r.queue[i])
  {
    hide Inv, Rehydrate, DropAll, LastWrite, Reloaded;
    var r := Rehydrate(DropAll(s, Crash), listing);
    var skipped := Max(0, |listing| - 256);
    ReloadQueues(s, listing);
    forall i | 0 <= i < |r.queue|
      ensures r.queue[i] == s.outbox[listing[skipped + i]] && LastWrite(s.ledger, listing[skipped + i]) == Some(r.queue[i])
    {
      ReloadedAt(s.outbox, listing, r.queue, i);
      StoredIsLastWritten(s, listing[skipped + i]);
    }
  }

  /** The queue holds the last records of the listing. */
  ghost predicate Reloaded(outbox: map<string, Job>, listing: seq<string>, q: seq<Job>)
    requires forall i :: 0 <= i < |listing| ==> listing[i] in outbox
  {
    var skipped := Max(0, |listing| - 256);
    |q| == |listing| - skipped && forall i :: 0 <= i < |q| ==> q[i] == outbox[listing[skipped + i]]
  }

  lemma {:induction false} ReloadedAt(outbox: map<string, Job>, listing: seq<string>, q: seq<Job>, i: nat)
    requires (forall j :: 0 <= j < |listing| ==> listing[j] in outbox) && Reloaded(outbox, listing, q) && i < |q|
    ensures |q| == |listing| - Max(0, |listing| - 256)
    ensures q[i] == outbox[listing[Max(0, |listing| - 256) + i]]
  {
  }

  lemma {:induction false} ReloadQueues(s: State, listing: seq<string>)
    requires forall i :: 0 <= i < |listing| ==> listing[i] in s.outbox
    ensures var r := Rehydrate(DropAll(s, Crash), listing);
            && r.outbox == s.outbox && |r.queue| == |listing| - Max(0, |listing| - 256)
            && Reloaded(s.outbox, listing, r.queue)
  {
    hide Rehydrate, Listed, LastJobs;
    RehydrateQueues(DropAll(s, Crash), listing);
    ListedAll(s.outbox, listing);
    assert [] + Listed(s.outbox, listing) == Listed(s.outbox, listing);
    LastJobsAt(Listed(s.outbox, listing));
  }

  lemma {:induction false} LastJobsAt(q: seq<Job>)
    ensures var skipped := Max(0, |q| - 256);
            && |LastJobs(q)| == |q| - skipped
            && forall i :: 0 <= i < |LastJobs(q)| ==> LastJobs(q)[i] == q[skipped + i]
  {
  }

  lemma {:induction false} StoredIsLastWritten(s: State, uid: string)
    requires Inv(s) && uid in s.outbox
    ensures LastWrite(s.ledger, uid) == Some(s.outbox[uid])
  {
    hide Durable, Conserved, LastWrite;
  }

  // ----- the one leak -----------------------------------------------------------------------------

  /** Draining one job leaves no trace of it (no queue copy, no record, no final outcome) exactly
      when the answer asks for a retry below the cap, the retry's durable write raises, no earlier
      write of it survives, and no other copy is queued. */
  lemma {:induction false} SubmitOneLoses(s: State, a: Attempt)
    requires Inv(s) && s.queue != []
    ensures var uid := s.queue[0].uid;
            var s' := SubmitOne(s, a);
            (InQueue(s'.queue, uid) == 0 && uid !in s'.outbox && Finishes(s'.ledger, uid) == Finishes(s.ledger, uid))
            <==>
            (Undecided(a.reply) && s.queue[0].attempts + 1 < 10 && !a.persistOk
             && uid !in s.outbox && InQueue(s.queue[1..], uid) == 0)
  {
    hide Judge;
    var job := s.queue[0];
    var rest := s.queue[1..];
    var retried := job.(attempts := job.attempts + 1);
    hide Inv;
    VerdictByCode(a.reply);
    InvBoundsQueue(s);
    match Judge(a.reply)
    case Accept => LedgerSnoc(s.ledger, Finished(job, Accepted), job.uid);
    case Reject => LedgerSnoc(s.ledger, Finished(job, Rejected), job.uid);
    case DeadLetter => LedgerSnoc(s.ledger, Finished(job, DeadLettered), job.uid);
    case AuthOutage => InQueueSnoc(rest, job, job.uid);
    case Retry =>
      if retried.attempts >= 10 {
        LedgerSnoc(s.ledger, Finished(retried, AttemptsExhausted), job.uid);
      } else if a.persistOk {
        InQueueSnoc(rest, retried, job.uid);
      } else {
        LedgerSnoc(s.ledger, Lost(job, WriteFailed), job.uid);
      }
  }

  lemma {:induction false} InvBoundsQueue(s: State)
    requires Inv(s)
    ensures |s.queue| <= 256
  {
  }

  /** The comment in the capture handler says a durability failure must never drop the job. It can:
      a capture whose write fails and whose first retry's write fails too is gone for good. */
  lemma {:induction false} TwoFailedWritesLoseTheJob(job: Job)
    requires job.attempts == 0
    ensures Untracked(Run(INITIAL, [CaptureEvent(job, false), DrainEvent(true, 16, [Attempt(Transport, false, true)])]), job.uid)
  {
    var es := [CaptureEvent(job, false), DrainEvent(true, 16, [Attempt(Transport, false, true)])];
    var s := Step(INITIAL, es[0]);
    assert s == State([job], map[], [Queued(job)]);
    var t := Step(s, es[1]);
    assert t == State([], map[], [Queued(job), Lost(job, WriteFailed)]);
    assert es[1..] == [es[1]] && [es[1]][1..] == [];
    assert Run(s, [es[1]]) == t;
    LedgerSnoc([Queued(job)], Lost(job, WriteFailed), job.uid);
    LedgerSnoc([], Queued(job), job.uid);
    assert [] + [Queued(job)] == [Queued(job)];
    assert [Queued(job)] + [Lost(job, WriteFailed)] == t.ledger;
  }
}
