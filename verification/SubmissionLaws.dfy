/** Durability and conservation over every run of captures, drains, overflows, no-model drops,
    auth outages, crashes and reloads. */
module SubmissionLaws {
  import opened Prelude
  import opened Submissions

  // ----- counting copies by submission id -----------------------------------------------------

  function InQueue(q: seq<Job>, uid: string): nat {
    if q == [] then 0 else (if q[0].uid == uid then 1 else 0) + InQueue(q[1..], uid)
  }

  function Entered(l: seq<Entry>, uid: string): nat {
    if l == [] then 0 else (if l[0].Queued? && l[0].job.uid == uid then 1 else 0) + Entered(l[1..], uid)
  }

  function Finishes(l: seq<Entry>, uid: string): nat {
    if l == [] then 0 else (if l[0].Finished? && l[0].job.uid == uid then 1 else 0) + Finishes(l[1..], uid)
  }

  function Losses(l: seq<Entry>, uid: string): nat {
    if l == [] then 0 else (if l[0].Lost? && l[0].job.uid == uid then 1 else 0) + Losses(l[1..], uid)
  }

  function Writes(l: seq<Entry>, uid: string): nat {
    if l == [] then 0 else (if l[0].Persisted? && l[0].job.uid == uid then 1 else 0) + Writes(l[1..], uid)
  }

  lemma {:induction false} InQueueConcat(a: seq<Job>, b: seq<Job>, uid: string)
    ensures InQueue(a + b, uid) == InQueue(a, uid) + InQueue(b, uid)
  {
    if a == [] {
      assert a + b == b;
    } else {
      InQueueConcat(a[1..], b, uid);
      assert (a + b)[1..] == a[1..] + b;
    }
  }

  lemma {:induction false} LedgerConcat(a: seq<Entry>, b: seq<Entry>, uid: string)
    ensures Entered(a + b, uid) == Entered(a, uid) + Entered(b, uid)
    ensures Finishes(a + b, uid) == Finishes(a, uid) + Finishes(b, uid)
    ensures Losses(a + b, uid) == Losses(a, uid) + Losses(b, uid)
    ensures Writes(a + b, uid) == Writes(a, uid) + Writes(b, uid)
  {
    if a == [] {
      assert a + b == b;
    } else {
      LedgerConcat(a[1..], b, uid);
      assert (a + b)[1..] == a[1..] + b;
    }
  }

  lemma {:induction false} LedgerSnoc(l: seq<Entry>, e: Entry, uid: string)
    ensures Entered(l + [e], uid) == Entered(l, uid) + if e.Queued? && e.job.uid == uid then 1 else 0
    ensures Finishes(l + [e], uid) == Finishes(l, uid) + if e.Finished? && e.job.uid == uid then 1 else 0
    ensures Losses(l + [e], uid) == Losses(l, uid) + if e.Lost? && e.job.uid == uid then 1 else 0
    ensures Writes(l + [e], uid) == Writes(l, uid) + if e.Persisted? && e.job.uid == uid then 1 else 0
  {
    LedgerConcat(l, [e], uid);
    assert [e][1..] == [];
  }

  lemma {:induction false} InQueueSnoc(q: seq<Job>, job: Job, uid: string)
    ensures InQueue(q + [job], uid) == InQueue(q, uid) + if job.uid == uid then 1 else 0
  {
    InQueueConcat(q, [job], uid);
    assert [job][1..] == [];
  }

  // ----- the run invariant ----------------------------------------------------------------------

  /** The job most recently written to the outbox under `uid`. */
  function LastWrite(l: seq<Entry>, uid: string): Option<Job> {
    if l == [] then None
    else
      var e := l[|l| - 1];
      if e.Persisted? && e.job.uid == uid then Some(e.job) else LastWrite(l[..|l| - 1], uid)
  }

  ghost predicate FinishedAfter(l: seq<Entry>, k: nat, uid: string) {
    exists m :: k < m < |l| && l[m].Finished? && l[m].job.uid == uid
  }

  /** Every durable write is still in the outbox, unless the job reached a final outcome since. */
  ghost predicate Durable(s: State) {
    forall k :: 0 <= k < |s.ledger| && s.ledger[k].Persisted? ==>
      s.ledger[k].job.uid in s.outbox || FinishedAfter(s.ledger, k, s.ledger[k].job.uid)
  }

  /** The outbox holds, under each id, exactly the job last written under it. */
  ghost predicate Faithful(s: State) {
    forall u :: u in s.outbox ==> s.outbox[u].uid == u && LastWrite(s.ledger, u) == Some(s.outbox[u])
  }

  /** Copies that entered the queue are in it, finished, or lost for a stated cause. */
  ghost predicate Conserved(s: State) {
    forall u: string :: Entered(s.ledger, u) == InQueue(s.queue, u) + Finishes(s.ledger, u) + Losses(s.ledger, u)
  }

  ghost predicate Inv(s: State) {
    |s.queue| <= 256 && Durable(s) && Faithful(s) && Conserved(s)
  }

  // ----- primitive moves ------------------------------------------------------------------------

  /** An entry that neither writes nor finishes leaves durability and provenance alone. */
  lemma {:induction false} NeutralEntry(s: State, e: Entry)
    requires Durable(s) && Faithful(s) && (e.Queued? || e.Lost?)
    ensures Durable(s.(ledger := s.ledger + [e])) && Faithful(s.(ledger := s.ledger + [e]))
  {
    var l := s.ledger + [e];
    forall k | 0 <= k < |l| && l[k].Persisted?
      ensures l[k].job.uid in s.outbox || FinishedAfter(l, k, l[k].job.uid)
    {
      assert l[k] == s.ledger[k];
      if l[k].job.uid !in s.outbox {
        var m :| k < m < |s.ledger| && s.ledger[m].Finished? && s.ledger[m].job.uid == l[k].job.uid;
        assert l[m] == s.ledger[m];
      }
    }
    assert l[..|l| - 1] == s.ledger;
  }

  lemma {:induction false} PersistKeeps(s: State, job: Job)
    requires Durable(s) && Faithful(s)
    ensures Durable(Persist(s, job)) && Faithful(Persist(s, job))
  {
    var l := s.ledger + [Persisted(job)];
    forall k | 0 <= k < |l| && l[k].Persisted? && l[k].job.uid !in s.outbox[job.uid := job]
      ensures FinishedAfter(l, k, l[k].job.uid)
    {
      assert l[k] == s.ledger[k];
      var m :| k < m < |s.ledger| && s.ledger[m].Finished? && s.ledger[m].job.uid == l[k].job.uid;
      assert l[m] == s.ledger[m];
    }
    assert l[..|l| - 1] == s.ledger;
  }

  lemma {:induction false} FinishKeeps(s: State, job: Job, outcome: Outcome, removeOk: bool)
    requires Durable(s) && Faithful(s)
    ensures Durable(Finish(s, job, outcome, removeOk)) && Faithful(Finish(s, job, outcome, removeOk))
  {
    var s' := Finish(s, job, outcome, removeOk);
    var l := s'.ledger;
    forall k | 0 <= k < |l| && l[k].Persisted? && l[k].job.uid !in s'.outbox
      ensures FinishedAfter(l, k, l[k].job.uid)
    {
      assert l[k] == s.ledger[k];
      if l[k].job.uid == job.uid {
        assert l[|l| - 1].Finished?;
      } else {
        var m :| k < m < |s.ledger| && s.ledger[m].Finished? && s.ledger[m].job.uid == l[k].job.uid;
        assert l[m] == s.ledger[m];
      }
    }
    assert l[..|l| - 1] == s.ledger;
  }

  lemma {:induction false} EnqueueKeeps(s: State, job: Job)
    requires |s.queue| <= QUEUE_MAX && Durable(s) && Faithful(s)
    ensures var s' := Enqueue(s, job);
            && |s'.queue| <= QUEUE_MAX && Durable(s') && Faithful(s')
            && forall u: string ::
                 InQueue(s'.queue, u) + Losses(s'.ledger, u)
                 == InQueue(s.queue, u) + Losses(s.ledger, u) + (if job.uid == u then 1 else 0)
                 && Entered(s'.ledger, u) == Entered(s.ledger, u) && Finishes(s'.ledger, u) == Finishes(s.ledger, u)
  {
    var s' := Enqueue(s, job);
    if |s.queue| >= QUEUE_MAX {
      NeutralEntry(s, Lost(s.queue[0], QueueFull));
    }
    forall u: string
      ensures
        InQueue(s'.queue, u) + Losses(s'.ledger, u)
        == InQueue(s.queue, u) + Losses(s.ledger, u) + (if job.uid == u then 1 else 0)
        && Entered(s'.ledger, u) == Entered(s.ledger, u) && Finishes(s'.ledger, u) == Finishes(s.ledger, u)
    {
      if |s.queue| < QUEUE_MAX {
        InQueueSnoc(s.queue, job, u);
      } else {
        InQueueSnoc(s.queue[1..], job, u);
        LedgerSnoc(s.ledger, Lost(s.queue[0], QueueFull), u);
      }
    }
  }

  // ----- every step keeps the invariant ---------------------------------------------------------

  /** A copy enters the queue from outside: from a capture, or from the outbox at start-up. */
  lemma {:induction false} EnterKeepsInv(s: State, job: Job)
    requires Inv(s)
    ensures Inv(Enqueue(s.(ledger := s.ledger + [Queued(job)]), job))
  {
    hide Enqueue, Durable, Faithful;
    var t := s.(ledger := s.ledger + [Queued(job)]);
    NeutralEntry(s, Queued(job));
    EnqueueKeeps(t, job);
    forall u: string
      ensures Entered(t.ledger, u) == Entered(s.ledger, u) + (if job.uid == u then 1 else 0)
              && Losses(t.ledger, u) == Losses(s.ledger, u) && Finishes(t.ledger, u) == Finishes(s.ledger, u)
    {
      LedgerSnoc(s.ledger, Queued(job), u);
    }
  }

  lemma {:induction false} PersistKeepsInv(s: State, job: Job)
    requires Inv(s)
    ensures Inv(Persist(s, job))
  {
    hide Durable, Faithful;
    PersistKeeps(s, job);
    forall u: string
      ensures Entered(s.ledger + [Persisted(job)], u) == Entered(s.ledger, u)
              && Losses(s.ledger + [Persisted(job)], u) == Losses(s.ledger, u)
              && Finishes(s.ledger + [Persisted(job)], u) == Finishes(s.ledger, u)
    {
      LedgerSnoc(s.ledger, Persisted(job), u);
    }
  }

  lemma {:induction false} OnCaptureKeepsInv(s: State, job: Job, persistOk: bool)
    requires Inv(s)
    ensures Inv(OnCapture(s, job, persistOk))
  {
    hide Inv, Persist, Enqueue;
    if persistOk {
      PersistKeepsInv(s, job);
      EnterKeepsInv(Persist(s, job), job);
    } else {
      EnterKeepsInv(s, job);
    }
  }

  lemma {:induction false} RehydrateKeepsInv(s: State, listing: seq<string>)
    requires Inv(s)
    ensures Inv(Rehydrate(s, listing))
    decreases |listing|
  {
    hide Inv, Enqueue;
    if listing != [] {
      if listing[0] in s.outbox {
        EnterKeepsInv(s, s.outbox[listing[0]]);
        RehydrateKeepsInv(Enqueue(s.(ledger := s.ledger + [Queued(s.outbox[listing[0]])]), s.outbox[listing[0]]), listing[1..]);
      } else {
        RehydrateKeepsInv(s, listing[1..]);
      }
    }
  }

  lemma {:induction false} LostAllCounts(jobs: seq<Job>, cause: Cause, uid: string)
    ensures Losses(LostAll(jobs, cause), uid) == InQueue(jobs, uid)
    ensures Entered(LostAll(jobs, cause), uid) == 0 && Finishes(LostAll(jobs, cause), uid) == 0
  {
    if jobs != [] {
      assert LostAll(jobs, cause)[1..] == LostAll(jobs[1..], cause);
      LostAllCounts(jobs[1..], cause, uid);
    }
  }

  lemma {:induction false} NeutralEntries(s: State, es: seq<Entry>)
    requires Durable(s) && Faithful(s) && forall i :: 0 <= i < |es| ==> es[i].Lost?
    ensures Durable(s.(ledger := s.ledger + es)) && Faithful(s.(ledger := s.ledger + es))
  {
    hide Durable, Faithful;
    if es == [] {
      assert s.ledger + es == s.ledger;
    } else {
      var front := es[..|es| - 1];
      NeutralEntries(s, front);
      NeutralEntry(s.(ledger := s.ledger + front), es[|es| - 1]);
      assert s.ledger + es == s.ledger + front + [es[|es| - 1]];
    }
  }

  lemma {:induction false} DropAllKeepsInv(s: State, cause: Cause)
    requires Inv(s)
    ensures Inv(DropAll(s, cause))
  {
    hide Durable, Faithful;
    NeutralEntries(s, LostAll(s.queue, cause));
    var s' := DropAll(s, cause);
    assert Durable(s') && Faithful(s') by {
      DurableIgnoresQueue(s.(ledger := s.ledger + LostAll(s.queue, cause)), []);
    }
    forall u: string
      ensures Entered(s'.ledger, u) == InQueue(s'.queue, u) + Finishes(s'.ledger, u) + Losses(s'.ledger, u)
    {
      LostAllCounts(s.queue, cause, u);
      LedgerConcat(s.ledger, LostAll(s.queue, cause), u);
    }
  }

  lemma {:induction false} DurableIgnoresQueue(s: State, q: seq<Job>)
    requires Durable(s) && Faithful(s)
    ensures Durable(s.(queue := q)) && Faithful(s.(queue := q))
  {
  }

  lemma {:induction false} SubmitOneKeepsInv(s: State, a: Attempt)
    requires Inv(s) && s.queue != []
    ensures Inv(SubmitOne(s, a))
  {
    hide Durable, Faithful, Finish, Enqueue, Persist, Judge;
    var job := s.queue[0];
    var popped := s.(queue := s.queue[1..]);
    DurableIgnoresQueue(s, s.queue[1..]);
    match Judge(a.reply)
    case Accept => FinishPopped(s, job, Accepted, a.removeOk);
    case Reject => FinishPopped(s, job, Rejected, a.removeOk);
    case DeadLetter => FinishPopped(s, job, DeadLettered, a.removeOk);
    case AuthOutage => EnqueueKeeps(popped, job);
    case Retry =>
      var retried := job.(attempts := job.attempts + 1);
      if retried.attempts >= MAX_ATTEMPTS {
        FinishPopped(s, retried, AttemptsExhausted, a.removeOk);
      } else if a.persistOk {
        RequeuePopped(s, retried);
      } else {
        NeutralEntry(popped, Lost(job, WriteFailed));
        forall u: string ensures
          var l := s.ledger + [Lost(job, WriteFailed)];
          Entered(l, u) == InQueue(s.queue[1..], u) + Finishes(l, u) + Losses(l, u)
        {
          LedgerSnoc(s.ledger, Lost(job, WriteFailed), u);
        }
      }
  }

  lemma {:induction false} FinishPopped(s: State, job: Job, outcome: Outcome, removeOk: bool)
    requires Inv(s) && s.queue != [] && job.uid == s.queue[0].uid
    ensures Inv(Finish(s.(queue := s.queue[1..]), job, outcome, removeOk))
  {
    hide Durable, Faithful;
    var popped := s.(queue := s.queue[1..]);
    DurableIgnoresQueue(s, s.queue[1..]);
    FinishKeeps(popped, job, outcome, removeOk);
    var l := s.ledger + [Finished(job, outcome)];
    forall u: string ensures Entered(l, u) == InQueue(s.queue[1..], u) + Finishes(l, u) + Losses(l, u) {
      LedgerSnoc(s.ledger, Finished(job, outcome), u);
    }
  }

  lemma {:induction false} RequeuePopped(s: State, job: Job)
    requires Inv(s) && s.queue != [] && job.uid == s.queue[0].uid
    ensures Inv(Enqueue(Persist(s.(queue := s.queue[1..]), job), job))
  {
    hide Durable, Faithful, Enqueue;
    var popped := s.(queue := s.queue[1..]);
    DurableIgnoresQueue(s, s.queue[1..]);
    PersistKeeps(popped, job);
    var p := Persist(popped, job);
    EnqueueKeeps(p, job);
    forall u: string
      ensures Entered(p.ledger, u) == Entered(s.ledger, u) && Losses(p.ledger, u) == Losses(s.ledger, u)
              && Finishes(p.ledger, u) == Finishes(s.ledger, u)
    {
      LedgerSnoc(s.ledger, Persisted(job), u);
    }
  }

  lemma {:induction false} DrainKeepsInv(s: State, n: nat, attempts: seq<Attempt>)
    requires Inv(s)
    ensures Inv(DrainLoop(s, n, attempts))
    decreases |attempts|
  {
    hide Inv, SubmitOne, Raises;
    if n != 0 && attempts != [] && s.queue != [] {
      SubmitOneKeepsInv(s, attempts[0]);
      if !Raises(s.queue[0], attempts[0]) {
        DrainKeepsInv(SubmitOne(s, attempts[0]), n - 1, attempts[1..]);
      }
    }
  }

  lemma {:induction false} StepKeepsInv(s: State, e: Event)
    requires Inv(s)
    ensures Inv(Step(s, e))
  {
    hide Inv, OnCapture, DrainLoop, Rehydrate, DropAll;
    match e
    case CaptureEvent(job, persistOk) => OnCaptureKeepsInv(s, job, persistOk);
    case DrainEvent(model, maxJobs, attempts) =>
      if model {
        DrainKeepsInv(s, Min(Max(0, maxJobs), |s.queue|), attempts);
      } else {
        DropAllKeepsInv(s, NoModel);
      }
    case RehydrateEvent(listing) => RehydrateKeepsInv(s, listing);
    case CrashEvent => DropAllKeepsInv(s, Crash);
  }

  /** Durability over every run: each successful write is in the outbox, as last written, or its
      job has had a final outcome since; and every queued copy is accounted for. */
  lemma {:induction false} RunKeepsInv(s: State, es: seq<Event>)
    requires Inv(s)
    ensures Inv(Run(s, es))
    decreases |es|
  {
    hide Inv, Step;
    if es != [] {
      StepKeepsInv(s, es[0]);
      RunKeepsInv(Step(s, es[0]), es[1..]);
    }
  }

  lemma {:induction false} InitialInv()
    ensures Inv(INITIAL)
  {
  }

  // ----- who can be lost ------------------------------------------------------------------------

  /** A submission the pipeline took in and now knows nothing about. */
  ghost predicate Untracked(s: State, uid: string) {
    && Entered(s.ledger, uid) > 0
    && InQueue(s.queue, uid) == 0 && uid !in s.outbox && Finishes(s.ledger, uid) == 0
  }

  lemma {:induction false} WritesExist(l: seq<Entry>, uid: string)
    ensures Writes(l, uid) > 0 <==> exists k :: 0 <= k < |l| && l[k].Persisted? && l[k].job.uid == uid
    ensures Writes(l, uid) == 0 <==> LastWrite(l, uid).None?
  {
    if l != [] {
      var front, e := l[..|l| - 1], l[|l| - 1];
      WritesExist(front, uid);
      LedgerSnoc(front, e, uid);
      assert l == front + [e];
      if Writes(front, uid) > 0 {
        var k :| 0 <= k < |front| && front[k].Persisted? && front[k].job.uid == uid;
        assert l[k] == front[k];
      }
      if e.Persisted? && e.job.uid == uid {
        assert l[|l| - 1] == e;
      }
      forall k | 0 <= k < |l| && l[k].Persisted? && l[k].job.uid == uid && k < |front|
        ensures front[k].Persisted? && front[k].job.uid == uid
      {
      }
    }
  }

  lemma {:induction false} FinishedCounts(l: seq<Entry>, m: nat, uid: string)
    requires m < |l| && l[m].Finished? && l[m].job.uid == uid
    ensures Finishes(l, uid) > 0
  {
    if m > 0 {
      FinishedCounts(l[1..], m - 1, uid);
    }
  }

  /** A submission goes untracked exactly when it was never once written to the outbox and every
      one of its queued copies was lost before any final outcome. */
  lemma {:induction false} UntrackedExactly(s: State, uid: string)
    requires Inv(s)
    ensures Untracked(s, uid) <==>
            Entered(s.ledger, uid) > 0 && Writes(s.ledger, uid) == 0
            && Losses(s.ledger, uid) == Entered(s.ledger, uid)
  {
    WritesExist(s.ledger, uid);
    if Writes(s.ledger, uid) > 0 {
      var k :| 0 <= k < |s.ledger| && s.ledger[k].Persisted? && s.ledger[k].job.uid == uid;
      if uid !in s.outbox {
        assert FinishedAfter(s.ledger, k, uid);
        var m :| k < m < |s.ledger| && s.ledger[m].Finished? && s.ledger[m].job.uid == uid;
        FinishedCounts(s.ledger, m, uid);
      }
    }
    assert uid in s.outbox ==> LastWrite(s.ledger, uid).Some?;
  }

  /** Over any run from an empty start, a submission with one successful write is never untracked. */
  lemma {:induction false} PersistedIsNeverLost(es: seq<Event>, uid: string)
    ensures Writes(Run(INITIAL, es).ledger, uid) > 0 ==> !Untracked(Run(INITIAL, es), uid)
  {
    InitialInv();
    RunKeepsInv(INITIAL, es);
    UntrackedExactly(Run(INITIAL, es), uid);
  }
}
