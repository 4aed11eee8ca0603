/** The cause of a lost copy is a fact about the moment it was lost: a full queue held 256 copies, a failed write was a
    write that raised, and a missing model or a crash was one. */
module SubmissionCauses {
  import opened Prelude
  import opened SubmissionAnswers
  import opened Submissions

  // ---------------------------------------------------------------- what each cause claims

  function Weight(e: Entry): int {
    match e
    case Queued(_) => 1
    case Persisted(_) => 0
    case Finished(_, _) => -1
    case Lost(_, _) => -1
  }

  /** Copies that entered the queue and have neither finished nor been lost. */
  function Balance(l: seq<Entry>): int {
    if l == [] then 0 else Balance(l[..|l| - 1]) + Weight(l[|l| - 1])
  }

  /** A POST to be retried whose outbox write raises. */
  predicate WriteRaises(a: Attempt) {
    Undecided(a.reply) && !a.persistOk
  }

  /** The drain reached an attempt that popped this very job below its cap, at this point of the history, and whose
      write raised. */
  ghost predicate LostInDrain(s: State, n: nat, attempts: seq<Attempt>, history: seq<Entry>, loss: Entry)
    requires loss.Lost?
    decreases |attempts|
  {
    && n != 0 && attempts != [] && s.queue != []
    && (|| (s.queue[0] == loss.job && loss.job.attempts + 1 < 10 && WriteRaises(attempts[0]) && s.ledger == history)
        || (!Stops(s.queue[0], attempts[0]) && LostInDrain(SubmitOne(s, attempts[0]), n - 1, attempts[1..], history, loss)))
  }

  /** What the cause of a loss says about the event that recorded it, in state `s`, and the history up to it. The 257
      copies are a full queue and the copy about to join it. */
  ghost predicate CauseHolds(s: State, e: Event, history: seq<Entry>, loss: Entry)
    requires loss.Lost?
  {
    match loss.cause
    case QueueFull => (e.CaptureEvent? || e.RehydrateEvent?) && Balance(history) == 257
    case NoModel => e.DrainEvent? && !e.model && loss.job in s.queue
    case WriteFailed =>
      e.DrainEvent? && e.model && LostInDrain(s, Min(Max(0, e.maxJobs), |s.queue|), e.attempts, history, loss)
    case Crash => e.CrashEvent? && loss.job in s.queue
  }

  // ---------------------------------------------------------------- one step

  /** The queue holds exactly the copies the history leaves over. */
  predicate Counted(s: State) {
    |s.queue| == Balance(s.ledger) && |s.queue| <= 256
  }

  ghost predicate LosesTruly(from: State, e: Event, s: State, t: State) {
    && Counted(t) && s.ledger <= t.ledger
    && forall m :: |s.ledger| <= m < |t.ledger| && t.ledger[m].Lost? ==> CauseHolds(from, e, t.ledger[..m], t.ledger[m])
  }

  lemma {:induction false} LosesTrulyTwice(from: State, e: Event, s: State, t: State, u: State)
    requires LosesTruly(from, e, s, t) && LosesTruly(from, e, t, u)
    ensures LosesTruly(from, e, s, u)
  {
    hide CauseHolds, Counted;
    forall m | |s.ledger| <= m < |u.ledger| && u.ledger[m].Lost? ensures CauseHolds(from, e, u.ledger[..m], u.ledger[m]) {
      if m < |t.ledger| {
        assert u.ledger[..m] == t.ledger[..m] && u.ledger[m] == t.ledger[m];
      }
    }
  }

  lemma {:induction false} BalanceSnoc(l: seq<Entry>, x: Entry)
    ensures Balance(l + [x]) == Balance(l) + Weight(x)
  {
    assert (l + [x])[..|l + [x]| - 1] == l;
  }

  /** One more entry, with the queue to match. */
  lemma {:induction false} Appends(from: State, e: Event, s: State, t: State, x: Entry)
    requires t.ledger == s.ledger + [x] && |t.queue| == Balance(s.ledger) + Weight(x) && |t.queue| <= 256
    requires x.Lost? ==> CauseHolds(from, e, s.ledger, x)
    ensures LosesTruly(from, e, s, t)
  {
    hide CauseHolds;
    BalanceSnoc(s.ledger, x);
    assert t.ledger[..|s.ledger|] == s.ledger;
  }

  lemma {:induction false} EnterLosesTruly(from: State, e: Event, s: State, job: Job)
    requires Counted(s) && (e.CaptureEvent? || e.RehydrateEvent?)
    ensures LosesTruly(from, e, s, Enqueue(s.(ledger := s.ledger + [Queued(job)]), job))
  {
    hide LosesTruly, Balance;
    var t := s.(ledger := s.ledger + [Queued(job)]);
    BalanceSnoc(s.ledger, Queued(job));
    if |s.queue| < 256 {
      Appends(from, e, s, Enqueue(t, job), Queued(job));
    } else {
      var loss := Lost(s.queue[0], QueueFull);
      var u := Enqueue(t, job);
      assert u.ledger == t.ledger + [loss];
      EnteredAndLost(from, e, s, u, Queued(job), loss);
    }
  }

  lemma {:induction false} EnteredAndLost(from: State, e: Event, s: State, u: State, x: Entry, loss: Entry)
    requires x.Queued? && loss.Lost? && u.ledger == s.ledger + [x] + [loss]
    requires Counted(s) && |u.queue| == |s.queue| && CauseHolds(from, e, s.ledger + [x], loss)
    ensures LosesTruly(from, e, s, u)
  {
    hide CauseHolds, Balance;
    BalanceSnoc(s.ledger, x);
    BalanceSnoc(s.ledger + [x], loss);
    assert u.ledger[..|s.ledger| + 1] == s.ledger + [x];
    assert u.ledger[|s.ledger|] == x && u.ledger[|s.ledger| + 1] == loss;
  }

  lemma {:induction false} PersistLosesTruly(from: State, e: Event, s: State, job: Job)
    requires Counted(s)
    ensures LosesTruly(from, e, s, Persist(s, job))
  {
    Appends(from, e, s, Persist(s, job), Persisted(job));
  }

  lemma {:induction false} CaptureLosesTruly(from: State, s: State, e: Event)
    requires Counted(s) && e.CaptureEvent?
    ensures LosesTruly(from, e, s, OnCapture(s, e.job, e.persistOk))
  {
    hide LosesTruly, Persist, Enqueue, Counted;
    if e.persistOk {
      var p := Persist(s, e.job);
      PersistLosesTruly(from, e, s, e.job);
      TrulyCounted(from, e, s, p);
      EnterLosesTruly(from, e, p, e.job);
      LosesTrulyTwice(from, e, s, p, OnCapture(s, e.job, e.persistOk));
    } else {
      EnterLosesTruly(from, e, s, e.job);
    }
  }

  lemma {:induction false} TrulyCounted(from: State, e: Event, s: State, t: State)
    requires LosesTruly(from, e, s, t)
    ensures Counted(t)
  {
  }

  lemma {:induction false} NothingLost(from: State, e: Event, s: State)
    requires Counted(s)
    ensures LosesTruly(from, e, s, s)
  {
  }

  lemma {:induction false} RehydrateLosesTruly(from: State, s: State, listing: seq<string>, e: Event)
    requires Counted(s) && e.RehydrateEvent?
    ensures LosesTruly(from, e, s, Rehydrate(s, listing))
    decreases |listing|
  {
    hide LosesTruly, Enqueue, Counted;
    if listing == [] {
      NothingLost(from, e, s);
    } else if listing[0] in s.outbox {
      var t := Enqueue(s.(ledger := s.ledger + [Queued(s.outbox[listing[0]])]), s.outbox[listing[0]]);
      EnterLosesTruly(from, e, s, s.outbox[listing[0]]);
      TrulyCounted(from, e, s, t);
      RehydrateLosesTruly(from, t, listing[1..], e);
      LosesTrulyTwice(from, e, s, t, Rehydrate(s, listing));
    } else {
      RehydrateLosesTruly(from, s, listing[1..], e);
    }
  }

  lemma {:induction false} DropAllLosesTruly(from: State, s: State, cause: Cause, e: Event)
    requires Counted(s) && ((cause == NoModel && e.DrainEvent? && !e.model) || (cause == Crash && e.CrashEvent?))
    requires forall job :: job in s.queue ==> job in from.queue
    ensures LosesTruly(from, e, s, DropAll(s, cause))
    decreases |s.queue|
  {
    hide LosesTruly, Balance;
    if s.queue == [] {
      assert s.ledger + LostAll([], cause) == s.ledger;
      NothingLost(from, e, s);
    } else {
      var loss := Lost(s.queue[0], cause);
      var t := s.(queue := s.queue[1..], ledger := s.ledger + [loss]);
      Appends(from, e, s, t, loss);
      TrulyCounted(from, e, s, t);
      DropAllLosesTruly(from, t, cause, e);
      assert s.ledger + LostAll(s.queue, cause) == t.ledger + LostAll(t.queue, cause);
      LosesTrulyTwice(from, e, s, t, DropAll(s, cause));
    }
  }

  lemma {:induction false} RequeueLosesTruly(from: State, e: Event, s: State, t: State, job: Job)
    requires s.queue != [] && Counted(s) && t == Enqueue(s.(queue := s.queue[1..]), job)
    ensures LosesTruly(from, e, s, t)
  {
  }

  /** What is lost in the rest of a drain is lost in the drain. */
  ghost predicate Reached(from: State, e: Event, s: State, n: nat, attempts: seq<Attempt>)
    requires e.DrainEvent?
  {
    forall history, loss: Entry :: loss.Lost? && LostInDrain(s, n, attempts, history, loss) ==>
      LostInDrain(from, Min(Max(0, e.maxJobs), |from.queue|), e.attempts, history, loss)
  }

  lemma {:induction false} ReachedNext(from: State, e: Event, s: State, n: nat, attempts: seq<Attempt>)
    requires e.DrainEvent? && Reached(from, e, s, n, attempts)
    requires n != 0 && attempts != [] && s.queue != [] && !Stops(s.queue[0], attempts[0])
    ensures Reached(from, e, SubmitOne(s, attempts[0]), n - 1, attempts[1..])
  {
    hide SubmitOne, Stops;
    forall history, loss: Entry | loss.Lost? && LostInDrain(SubmitOne(s, attempts[0]), n - 1, attempts[1..], history, loss)
      ensures LostInDrain(from, Min(Max(0, e.maxJobs), |from.queue|), e.attempts, history, loss)
    {
      assert LostInDrain(s, n, attempts, history, loss);
    }
  }

  lemma {:induction false} SubmitOneLosesTruly(from: State, s: State, n: nat, attempts: seq<Attempt>, e: Event)
    requires Counted(s) && e.DrainEvent? && e.model && n != 0 && attempts != [] && s.queue != []
    requires Reached(from, e, s, n, attempts)
    ensures LosesTruly(from, e, s, SubmitOne(s, attempts[0]))
  {
    hide LosesTruly, Balance;
    var a := attempts[0];
    var job := s.queue[0];
    var retried := job.(attempts := job.attempts + 1);
    VerdictByCode(a.reply);
    match Judge(a.reply)
    case Accept => Appends(from, e, s, SubmitOne(s, a), Finished(job, Accepted));
    case Reject => Appends(from, e, s, SubmitOne(s, a), Finished(job, Rejected));
    case DeadLetter => Appends(from, e, s, SubmitOne(s, a), Finished(job, DeadLettered));
    case AuthOutage => RequeueLosesTruly(from, e, s, SubmitOne(s, a), job);
    case Retry =>
      if retried.attempts >= 10 {
        Appends(from, e, s, SubmitOne(s, a), Finished(retried, AttemptsExhausted));
      } else if a.persistOk {
        Appends(from, e, s, SubmitOne(s, a), Persisted(retried));
      } else {
        assert LostInDrain(s, n, attempts, s.ledger, Lost(job, WriteFailed));
        Appends(from, e, s, SubmitOne(s, a), Lost(job, WriteFailed));
      }
  }

  lemma {:induction false} DrainLosesTruly(from: State, s: State, n: nat, attempts: seq<Attempt>, e: Event)
    requires Counted(s) && e.DrainEvent? && e.model && Reached(from, e, s, n, attempts)
    ensures LosesTruly(from, e, s, DrainLoop(s, n, attempts))
    decreases |attempts|
  {
    hide LosesTruly, SubmitOne, Raises, Stops, Counted, Reached;
    if n == 0 || attempts == [] || s.queue == [] {
      NothingLost(from, e, s);
    } else {
      var t := SubmitOne(s, attempts[0]);
      SubmitOneLosesTruly(from, s, n, attempts, e);
      TrulyCounted(from, e, s, t);
      StopsIsRaises(s.queue[0], attempts[0]);
      if !Raises(s.queue[0], attempts[0]) {
        ReachedNext(from, e, s, n, attempts);
        DrainLosesTruly(from, t, n - 1, attempts[1..], e);
        LosesTrulyTwice(from, e, s, t, DrainLoop(s, n, attempts));
      }
    }
  }

  lemma {:induction false} StepLosesTruly(s: State, e: Event)
    requires Counted(s)
    ensures LosesTruly(s, e, s, Step(s, e))
  {
    hide LosesTruly, Counted, OnCapture, DrainLoop, Rehydrate, DropAll, LostInDrain;
    match e
    case CaptureEvent(job, persistOk) => CaptureLosesTruly(s, s, e);
    case DrainEvent(model, maxJobs, attempts) =>
      if model {
        DrainLosesTruly(s, s, Min(Max(0, maxJobs), |s.queue|), attempts, e);
      } else {
        DropAllLosesTruly(s, s, NoModel, e);
      }
    case RehydrateEvent(listing) => RehydrateLosesTruly(s, s, listing, e);
    case CrashEvent => DropAllLosesTruly(s, s, Crash, e);
  }

  // ---------------------------------------------------------------- runs

  lemma {:induction false} RunConcat(s: State, a: seq<Event>, b: seq<Event>)
    ensures Run(s, a + b) == Run(Run(s, a), b)
    decreases |a|
  {
    hide Step;
    if a == [] {
      assert a + b == b;
    } else {
      RunConcat(Step(s, a[0]), a[1..], b);
      assert (a + b)[0] == a[0] && (a + b)[1..] == a[1..] + b;
    }
  }

  lemma {:induction false} RunSnoc(s: State, es: seq<Event>, e: Event)
    ensures Run(s, es + [e]) == Step(Run(s, es), e)
  {
    hide Step;
    RunConcat(s, es, [e]);
    assert [e][1..] == [];
    assert Run(Run(s, es), [e]) == Run(Step(Run(s, es), e), []);
  }

  /** Over every run the queue holds exactly the copies that entered it and neither finished nor were lost. */
  lemma {:induction false} RunCounts(es: seq<Event>)
    ensures Counted(Run(INITIAL, es))
  {
    hide Step;
    if es != [] {
      var front, e := es[..|es| - 1], es[|es| - 1];
      RunCounts(front);
      RunSnoc(INITIAL, front, e);
      assert es == front + [e];
      StepLosesTruly(Run(INITIAL, front), e);
    }
  }

  /** Loss `m` was recorded by event `k`, and its cause held then. */
  ghost predicate LossExplained(es: seq<Event>, k: nat, m: nat, ledger: seq<Entry>)
    requires m < |ledger| && ledger[m].Lost?
  {
    && k < |es|
    && |Run(INITIAL, es[..k]).ledger| <= m < |Run(INITIAL, es[..k + 1]).ledger|
    && CauseHolds(Run(INITIAL, es[..k]), es[k], ledger[..m], ledger[m])
  }

  /** Over every run each copy ever lost was lost to one event, and the cause it was given held there. */
  lemma {:induction false} CausesAreTrue(es: seq<Event>, m: nat) returns (k: nat)
    requires m < |Run(INITIAL, es).ledger| && Run(INITIAL, es).ledger[m].Lost?
    ensures LossExplained(es, k, m, Run(INITIAL, es).ledger)
  {
    hide Step, CauseHolds;
    assert es != [];
    var n := |es| - 1;
    var s := Run(INITIAL, es[..n]);
    RunCounts(es[..n]);
    RunSnoc(INITIAL, es[..n], es[n]);
    assert es == es[..n] + [es[n]] && es[..n + 1] == es;
    StepLosesTruly(s, es[n]);
    var ledger := Run(INITIAL, es).ledger;
    if m < |s.ledger| {
      k := CausesAreTrue(es[..n], m);
      assert es[..n][..k] == es[..k] && es[..n][..k + 1] == es[..k + 1];
      assert ledger[..m] == s.ledger[..m];
    } else {
      k := n;
    }
  }
}
