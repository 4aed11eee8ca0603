/** The whole path from a member's upload to the cloud: the coordinator's captures feed the submission queue. Each half
    sees a run of its own, so what holds of every run of a half holds of the whole. */
module Pipeline {
  import opened Prelude
  import C = Capture
  import opened CaptureLaws
  import CaptureRuns
  import opened CaptureReasons
  import S = Submissions
  import opened SubmissionLaws
  import opened SubmissionCauses

  datatype World = World(coordinator: C.State, submissions: S.State)

  datatype Happening =
    | Observe(event: CaptureRuns.Event, persistOk: bool)
    | Deliver(model: bool, maxJobs: int, attempts: seq<S.Attempt>)
    | Reload(listing: seq<string>)
    | CrashAndRestart(at: real)

  const START := World(C.INITIAL, S.INITIAL)

  function Handed(pairs: seq<C.Pair>, persistOk: bool): seq<S.Event> {
    seq(|pairs|, i requires 0 <= i < |pairs| => S.CaptureEvent(pairs[i].job, persistOk))
  }

  /** What a happening is to the coordinator. Pending items die with the process, as if cleared. */
  function Seen(h: Happening): seq<CaptureRuns.Event> {
    match h
    case Observe(event, _) => [event]
    case CrashAndRestart(at) => [CaptureRuns.ClearEvent(at)]
    case _ => []
  }

  /** The pairs captured by the step from `c` to `c'`. */
  function NewPairs(c: C.State, c': C.State): seq<C.Pair> {
    c'.captures[Min(|c.captures|, |c'.captures|)..]
  }

  /** What a happening is to the submission queue: each newly captured job is handed over at once. */
  function Told(cfg: C.Config, c: C.State, h: Happening): seq<S.Event> {
    match h
    case Observe(event, persistOk) => Handed(NewPairs(c, CaptureRuns.Step(cfg, c, event)), persistOk)
    case Deliver(model, maxJobs, attempts) => [S.DrainEvent(model, maxJobs, attempts)]
    case Reload(listing) => [S.RehydrateEvent(listing)]
    case CrashAndRestart(_) => [S.CrashEvent]
  }

  function Next(cfg: C.Config, w: World, h: Happening): World {
    World(if Seen(h) == [] then w.coordinator else CaptureRuns.Step(cfg, w.coordinator, Seen(h)[0]),
          S.Run(w.submissions, Told(cfg, w.coordinator, h)))
  }

  function Live(cfg: C.Config, hs: seq<Happening>): World {
    if hs == [] then START else Next(cfg, Live(cfg, hs[..|hs| - 1]), hs[|hs| - 1])
  }

  // ----- each half sees a run -------------------------------------------------------------------------

  function Observed(hs: seq<Happening>): seq<CaptureRuns.Event> {
    if hs == [] then [] else Observed(hs[..|hs| - 1]) + Seen(hs[|hs| - 1])
  }

  function Submitted(cfg: C.Config, hs: seq<Happening>): seq<S.Event> {
    if hs == [] then []
    else
      Submitted(cfg, hs[..|hs| - 1]) + Told(cfg, Live(cfg, hs[..|hs| - 1]).coordinator, hs[|hs| - 1])
  }

  lemma {:induction false} CoordinatorIsARun(cfg: C.Config, hs: seq<Happening>)
    ensures Live(cfg, hs).coordinator == CaptureRuns.Run(cfg, Observed(hs))
  {
    hide CaptureRuns.Step, Told, S.Run;
    if hs != [] {
      var front, h := hs[..|hs| - 1], hs[|hs| - 1];
      CoordinatorIsARun(cfg, front);
      if Seen(h) == [] {
        assert Observed(hs) == Observed(front);
      } else {
        assert Observed(hs) == Observed(front) + [Seen(h)[0]];
        assert Observed(hs)[..|Observed(hs)| - 1] == Observed(front);
      }
    }
  }

  lemma {:induction false} SubmissionsAreARun(cfg: C.Config, hs: seq<Happening>)
    ensures Live(cfg, hs).submissions == S.Run(S.INITIAL, Submitted(cfg, hs))
  {
    hide CaptureRuns.Step, Told, S.Step;
    if hs != [] {
      var front := hs[..|hs| - 1];
      SubmissionsAreARun(cfg, front);
      RunConcat(S.INITIAL, Submitted(cfg, front), Told(cfg, Live(cfg, front).coordinator, hs[|hs| - 1]));
    }
  }

  // ----- captured jobs enter the queue ------------------------------------------------------------------

  /** The coordinator only ever adds captures. */
  lemma {:induction false} CapturesGrow(cfg: C.Config, s: C.State, event: CaptureRuns.Event)
    ensures s.captures <= CaptureRuns.Step(cfg, s, event).captures
  {
    hide C.Admit, C.PruneAll, C.QueueOf, C.Assemble, C.Without;
    if !event.ClearEvent? {
      PruneKeepsCaptures(s, event.at);
    }
  }

  lemma {:induction false} PruneKeepsCaptures(s: C.State, now: real)
    ensures C.PruneAll(s, now).captures == s.captures
  {
  }

  ghost predicate HandedOver(es: seq<S.Event>, job: S.Job) {
    exists j :: 0 <= j < |es| && es[j].CaptureEvent? && es[j].job == job
  }

  lemma {:induction false} CapturesAreHandedOver(cfg: C.Config, hs: seq<Happening>, i: nat)
    requires i < |Live(cfg, hs).coordinator.captures|
    ensures HandedOver(Submitted(cfg, hs), Live(cfg, hs).coordinator.captures[i].job)
  {
    hide CaptureRuns.Step, S.Run;
    var front, h := hs[..|hs| - 1], hs[|hs| - 1];
    var c, c' := Live(cfg, front).coordinator, Live(cfg, hs).coordinator;
    var told := Told(cfg, c, h);
    if Seen(h) != [] {
      CapturesGrow(cfg, c, Seen(h)[0]);
    }
    if i < |c.captures| {
      CapturesAreHandedOver(cfg, front, i);
      var j :| 0 <= j < |Submitted(cfg, front)| && Submitted(cfg, front)[j].CaptureEvent?
               && Submitted(cfg, front)[j].job == c.captures[i].job;
      assert Submitted(cfg, hs)[j] == Submitted(cfg, front)[j];
    } else {
      assert h.Observe? by {
        if h.CrashAndRestart? {
          CrashCapturesNothing(cfg, c, h);
        }
      }
      assert told[i - |c.captures|] == S.CaptureEvent(c'.captures[i].job, h.persistOk);
      assert Submitted(cfg, hs)[|Submitted(cfg, front)| + i - |c.captures|] == told[i - |c.captures|];
    }
  }

  lemma {:induction false} CrashCapturesNothing(cfg: C.Config, c: C.State, h: Happening)
    requires h.CrashAndRestart?
    ensures CaptureRuns.Step(cfg, c, Seen(h)[0]).captures == c.captures
  {
  }

  /** A job handed over is on record as having entered the queue. */
  lemma {:induction false} HandedOverEnters(es: seq<S.Event>, job: S.Job)
    requires HandedOver(es, job)
    ensures Entered(S.Run(S.INITIAL, es).ledger, job.uid) > 0
  {
    hide S.Step, LosesTruly;
    var front, e := es[..|es| - 1], es[|es| - 1];
    var s := S.Run(S.INITIAL, front);
    assert es == front + [e];
    RunSnoc(S.INITIAL, front, e);
    RunCounts(front);
    StepLosesTruly(s, e);
    LedgerGrows(e, s, S.Step(s, e));
    if e.CaptureEvent? && e.job == job {
      CaptureEnters(s, e);
    } else {
      var j :| 0 <= j < |es| && es[j].CaptureEvent? && es[j].job == job;
      assert front[j] == es[j];
      HandedOverEnters(front, job);
      EnteredGrows(s.ledger, S.Step(s, e).ledger, job.uid);
    }
  }

  lemma {:induction false} LedgerGrows(e: S.Event, s: S.State, t: S.State)
    requires LosesTruly(s, e, s, t)
    ensures s.ledger <= t.ledger
  {
  }

  lemma {:induction false} EnteredGrows(l: seq<S.Entry>, l': seq<S.Entry>, uid: string)
    requires l <= l'
    ensures Entered(l, uid) <= Entered(l', uid)
  {
    assert l' == l + l'[|l|..];
    LedgerConcat(l, l'[|l|..], uid);
  }

  lemma {:induction false} CaptureEnters(s: S.State, e: S.Event)
    requires e.CaptureEvent?
    ensures Entered(S.Step(s, e).ledger, e.job.uid) > 0
  {
    var p := if e.persistOk then S.Persist(s, e.job) else s;
    var l := p.ledger + [S.Queued(e.job)];
    LedgerSnoc(p.ledger, S.Queued(e.job), e.job.uid);
    EnteredGrows(l, S.Step(s, e).ledger, e.job.uid);
  }

  // ----- end to end -------------------------------------------------------------------------------------

  /** Over every run: the uploads recorded, and the intents, are exactly those waiting, those dropped and those
      captured. */
  lemma {:induction false} EverythingIsAccountedFor(cfg: C.Config, hs: seq<Happening>)
    ensures UploadLedger(Live(cfg, hs).coordinator) == multiset(CaptureRuns.RecordedUploads(cfg, Observed(hs)))
    ensures IntentLedger(Live(cfg, hs).coordinator) == multiset(CaptureRuns.RecordedIntents(cfg, Observed(hs)))
  {
    hide UploadLedger, IntentLedger, CaptureRuns.Run, Live;
    CoordinatorIsARun(cfg, hs);
    CaptureRuns.RunConserves(cfg, Observed(hs));
  }

  /** And each captured job is in the queue, in the outbox, or finished, unless no durable write of it ever succeeded
      and every queued copy was lost. */
  lemma {:induction false} NothingDisappears(cfg: C.Config, hs: seq<Happening>, i: nat)
    requires i < |Live(cfg, hs).coordinator.captures|
    ensures var s := Live(cfg, hs).submissions;
            var uid := Live(cfg, hs).coordinator.captures[i].job.uid;
            (InQueue(s.queue, uid) > 0 || uid in s.outbox || Finishes(s.ledger, uid) > 0)
            <==> !(Writes(s.ledger, uid) == 0 && Losses(s.ledger, uid) == Entered(s.ledger, uid))
  {
    hide SubmissionLaws.Inv, S.Run, Live, HandedOver;
    var uid := Live(cfg, hs).coordinator.captures[i].job.uid;
    SubmissionsAreARun(cfg, hs);
    InitialInv();
    RunKeepsInv(S.INITIAL, Submitted(cfg, hs));
    CapturesAreHandedOver(cfg, hs, i);
    HandedOverEnters(Submitted(cfg, hs), Live(cfg, hs).coordinator.captures[i].job);
    UntrackedExactly(Live(cfg, hs).submissions, uid);
  }

  /** And each of those drops and losses was recorded at one event, for a reason that held there. */
  lemma {:induction false} LossesAreExplained(cfg: C.Config, hs: seq<Happening>, m: nat)
    ensures var drops := Live(cfg, hs).coordinator.lostUploads;
            m < |drops| ==> exists k: nat :: UploadDropExplained(cfg, Observed(hs), k, m, drops[m])
    ensures var drops := Live(cfg, hs).coordinator.lostIntents;
            m < |drops| ==> exists k: nat :: IntentDropExplained(cfg, Observed(hs), k, m, drops[m])
    ensures var ledger := Live(cfg, hs).submissions.ledger;
            m < |ledger| && ledger[m].Lost? ==> exists k: nat :: LossExplained(Submitted(cfg, hs), k, m, ledger)
  {
    hide S.Run, CaptureRuns.Run, Live, UploadDropExplained, IntentDropExplained, LossExplained;
    CoordinatorIsARun(cfg, hs);
    SubmissionsAreARun(cfg, hs);
    var w := Live(cfg, hs);
    if m < |w.coordinator.lostUploads| {
      var k := UploadReasonsAreTrue(cfg, Observed(hs), m);
    }
    if m < |w.coordinator.lostIntents| {
      var k := IntentReasonsAreTrue(cfg, Observed(hs), m);
    }
    if m < |w.submissions.ledger| && w.submissions.ledger[m].Lost? {
      var k := CausesAreTrue(Submitted(cfg, hs), m);
    }
  }
}
