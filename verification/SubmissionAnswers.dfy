/** What each answer of the cloud does to the submission at the head of the queue, in the status codes of the reply. */
module SubmissionAnswers {
  import opened Prelude
  import opened Submissions

  // ----- the replies ------------------------------------------------------------------------------

  /** The cloud took the job. */
  predicate Takes(r: Reply) {
    r.Http? && r.status == 200 && r.ok == Some(true)
  }

  /** The cloud declined the job. */
  predicate Declines(r: Reply) {
    r.Http? && r.status == 200 && r.ok == Some(false)
  }

  /** The job itself is unusable: posting it again would not help. */
  predicate Unusable(r: Reply) {
    r.Http? && (r.status == 400 || r.status == 413 || r.status == 422)
  }

  /** The hub's credential is refused. */
  predicate LockedOut(r: Reply) {
    r.Http? && (r.status == 401 || r.status == 403)
  }

  /** Anything else: no answer at all, a 200 without a verdict, or any other status. */
  predicate Undecided(r: Reply) {
    || r.Transport?
    || (r.status == 200 && r.ok.None?)
    || (r.status != 200 && r.status != 400 && r.status != 401 && r.status != 403 && r.status != 413 && r.status != 422)
  }

  /** Every reply is exactly one of the five, and the verdict follows it. */
  lemma {:induction false} VerdictByCode(r: Reply)
    ensures Judge(r) == Accept <==> Takes(r)
    ensures Judge(r) == Reject <==> Declines(r)
    ensures Judge(r) == DeadLetter <==> Unusable(r)
    ensures Judge(r) == AuthOutage <==> LockedOut(r)
    ensures Judge(r) == Retry <==> Undecided(r)
  {
    if r.Http? && r.ok.Some? {
      assert r.ok == Some(r.ok.value);
      if r.ok.value {
        assert r.ok == Some(true);
      } else {
        assert r.ok == Some(false);
      }
    }
  }

  // ----- one submission ---------------------------------------------------------------------------

  /** The head left the queue with an outcome, and its record was deleted if that works. */
  predicate Concludes(s: State, a: Attempt, t: State, job: Job, outcome: Outcome)
    requires s.queue != []
  {
    && t.ledger == s.ledger + [Finished(job, outcome)] && t.queue == s.queue[1..]
    && t.outbox == if a.removeOk then s.outbox - {job.uid} else s.outbox
  }

  /** One more attempt is on the head's count: at ten it is given up, before that it is written and queued again, and
      when the write raises this copy is gone. */
  predicate CountsAttempt(s: State, a: Attempt, t: State)
    requires s.queue != []
  {
    var job := s.queue[0];
    var retried := job.(attempts := job.attempts + 1);
    if job.attempts + 1 >= 10 then Concludes(s, a, t, retried, AttemptsExhausted)
    else if a.persistOk then
      t == State(s.queue[1..] + [retried], s.outbox[job.uid := retried], s.ledger + [Persisted(retried)])
    else t == State(s.queue[1..], s.outbox, s.ledger + [Lost(job, WriteFailed)])
  }

  /** The head is accepted exactly on 200 with a true verdict, rejected exactly on 200 with a false one, dead-lettered
      exactly on 400, 413 or 422, goes to the back with nothing else touched exactly on 401 or 403, and has an attempt
      counted exactly on everything else. */
  lemma {:induction false} AnswersDecide(s: State, a: Attempt)
    requires s.queue != [] && |s.queue| <= 256
    ensures var t := SubmitOne(s, a);
            && (Concludes(s, a, t, s.queue[0], Accepted) <==> Takes(a.reply))
            && (Concludes(s, a, t, s.queue[0], Rejected) <==> Declines(a.reply))
            && (Concludes(s, a, t, s.queue[0], DeadLettered) <==> Unusable(a.reply))
            && (t == s.(queue := s.queue[1..] + [s.queue[0]]) <==> LockedOut(a.reply))
            && (CountsAttempt(s, a, t) <==> Undecided(a.reply))
  {
    hide Judge;
    VerdictByCode(a.reply);
    var t := SubmitOne(s, a);
    if LockedOut(a.reply) {
      assert t.ledger == s.ledger;
    } else {
      assert |t.ledger| == |s.ledger| + 1;
      forall outcome ensures Concludes(s, a, t, s.queue[0], outcome) ==> t.ledger[|s.ledger|] == Finished(s.queue[0], outcome) {
      }
      if CountsAttempt(s, a, t) {
        CountedIsSeen(s, a, t);
      }
    }
  }

  /** The history tells a counted attempt from the other outcomes. */
  lemma {:induction false} CountedIsSeen(s: State, a: Attempt, t: State)
    requires s.queue != [] && CountsAttempt(s, a, t)
    ensures |t.ledger| == |s.ledger| + 1
    ensures var last := t.ledger[|s.ledger|];
            last.Persisted? || last.Lost? || (last.Finished? && last.outcome == AttemptsExhausted)
  {
  }

  // ----- a whole drain ----------------------------------------------------------------------------

  /** The state after `k` submissions. */
  function After(s: State, attempts: seq<Attempt>, k: nat): State
    requires k <= |attempts|
  {
    if k == 0 then s
    else
      var t := After(s, attempts, k - 1);
      if t.queue == [] then t else SubmitOne(t, attempts[k - 1])
  }

  /** The write or the deletion that the reply asks for raises, which ends the drain. */
  predicate Stops(job: Job, a: Attempt) {
    if LockedOut(a.reply) then false
    else if Undecided(a.reply) && job.attempts + 1 < 10 then !a.persistOk
    else !a.removeOk
  }

  lemma {:induction false} StopsIsRaises(job: Job, a: Attempt)
    ensures Stops(job, a) <==> Raises(job, a)
  {
    VerdictByCode(a.reply);
  }

  lemma {:induction false} AfterShifts(s: State, attempts: seq<Attempt>, k: nat)
    requires s.queue != [] && k < |attempts|
    ensures After(SubmitOne(s, attempts[0]), attempts[1..], k) == After(s, attempts, k + 1)
  {
    hide SubmitOne;
    if k > 0 {
      AfterShifts(s, attempts, k - 1);
      assert attempts[1..][k - 1] == attempts[k];
    } else {
      assert After(s, attempts, 0) == s;
    }
  }

  lemma {:induction false} OneFewer(s: State, a: Attempt)
    requires s.queue != [] && |s.queue| <= 256
    ensures |s.queue| - 1 <= |SubmitOne(s, a).queue| <= |s.queue|
  {
    hide Judge;
  }

  /** The drain stops only where it has to: nothing was left of its share, or the last submission's write or deletion
      raised. */
  ghost predicate Drained(s: State, n: nat, attempts: seq<Attempt>, k: nat)
    requires k <= |attempts|
  {
    && k <= n
    && (forall i :: 0 <= i < k ==> After(s, attempts, i).queue != [])
    && (forall i :: 0 <= i < k - 1 && After(s, attempts, i).queue != [] ==> !Stops(After(s, attempts, i).queue[0], attempts[i]))
    && (k < n && k < |attempts| ==>
          k > 0 && After(s, attempts, k - 1).queue != [] && Stops(After(s, attempts, k - 1).queue[0], attempts[k - 1]))
  }

  lemma {:induction false} LoopIsItsAnswers(s: State, n: nat, attempts: seq<Attempt>) returns (k: nat)
    requires n <= |s.queue| <= 256
    ensures k <= |attempts| && DrainLoop(s, n, attempts) == After(s, attempts, k) && Drained(s, n, attempts, k)
    decreases |attempts|
  {
    hide SubmitOne, Raises, Stops;
    if n == 0 || attempts == [] {
      k := 0;
    } else {
      var t := SubmitOne(s, attempts[0]);
      StopsIsRaises(s.queue[0], attempts[0]);
      OneFewer(s, attempts[0]);
      assert After(s, attempts, 0) == s && After(s, attempts, 1) == t;
      if Stops(s.queue[0], attempts[0]) {
        k := 1;
      } else {
        var j := LoopIsItsAnswers(t, n - 1, attempts[1..]);
        k := j + 1;
        forall i | 0 <= i <= j && i < |attempts| ensures After(s, attempts, i + 1) == After(t, attempts[1..], i) {
          AfterStep(s, attempts, i);
        }
        DrainedShifts(s, n, attempts, j);
      }
    }
  }

  lemma {:induction false} AfterStep(s: State, attempts: seq<Attempt>, i: nat)
    requires s.queue != [] && i < |attempts|
    ensures After(s, attempts, i + 1) == After(SubmitOne(s, attempts[0]), attempts[1..], i)
  {
    hide SubmitOne, After;
    AfterShifts(s, attempts, i);
  }

  lemma {:induction false} DrainedShifts(s: State, n: nat, attempts: seq<Attempt>, j: nat)
    requires s.queue != [] && n > 0 && j < |attempts| && !Stops(s.queue[0], attempts[0])
    requires Drained(SubmitOne(s, attempts[0]), n - 1, attempts[1..], j)
    ensures Drained(s, n, attempts, j + 1)
  {
    hide SubmitOne, Stops;
    var t, rest := SubmitOne(s, attempts[0]), attempts[1..];
    assert After(s, attempts, 0) == s;
    forall i | 0 <= i <= j ensures After(s, attempts, i + 1) == After(t, rest, i) {
      AfterStep(s, attempts, i);
    }
    hide After;
    forall i | 0 <= i < j + 1 ensures After(s, attempts, i).queue != [] {
      if i > 0 {
        assert After(s, attempts, i) == After(t, rest, i - 1);
      }
    }
    forall i | 0 <= i < j && After(s, attempts, i).queue != []
      ensures !Stops(After(s, attempts, i).queue[0], attempts[i])
    {
      if i > 0 {
        assert After(s, attempts, i) == After(t, rest, i - 1) && rest[i - 1] == attempts[i];
      }
    }
    if j + 1 < n && j + 1 < |attempts| {
      assert After(s, attempts, j) == After(t, rest, j - 1) && rest[j - 1] == attempts[j];
    }
  }

  /** A drain without a model drops the queue and keeps the outbox. With one it posts the jobs at the head of the queue
      one after another, each with the answer its status code means, no more than asked, queued or answered in time. */
  lemma {:induction false} DrainIsItsAnswers(s: State, maxJobs: int, attempts: seq<Attempt>) returns (k: nat)
    requires |s.queue| <= 256
    ensures k <= |attempts| && Drain(s, true, maxJobs, attempts) == After(s, attempts, k)
    ensures Drained(s, Min(Max(0, maxJobs), |s.queue|), attempts, k)
    ensures Drain(s, false, maxJobs, attempts).queue == [] && Drain(s, false, maxJobs, attempts).outbox == s.outbox
  {
    hide After, Drained, DrainLoop;
    k := LoopIsItsAnswers(s, Min(Max(0, maxJobs), |s.queue|), attempts);
  }
}
