/** What each look at the printer reports, told from the run alone: the dispatches recorded, the jobs pending at each look,
    the reports made before, the state text and the clock. */
module QueueOutcomes {
  import opened Prelude
  import opened QueueProgress
  import opened QueueProgressRuns

  /** What the tracker reports at position `n` of the run. */
  function Reported(timeout: real, es: seq<Event>, n: nat): seq<Report>
    requires n < |es|
  {
    Step(timeout, Run(timeout, es[..n]), es[n]).1
  }

  predicate IsPending(jobs: seq<Job>, key: string) {
    exists i :: 0 <= i < |jobs| && jobs[i].key == key
  }

  predicate Names(rs: seq<Report>, key: string) {
    exists i :: 0 <= i < |rs| && rs[i].jobKey == Some(key)
  }

  /** A report gave the job to a dispatch, and the job was pending at every look since. */
  ghost predicate Taken(timeout: real, es: seq<Event>, key: string) {
    exists a: nat :: TakenAt(timeout, es, key, a)
  }

  ghost predicate TakenAt(timeout: real, es: seq<Event>, key: string, a: nat) {
    && a < |es| && Names(Reported(timeout, es, a), key)
    && forall c :: a < c < |es| && es[c].CollectEvent? ==> IsPending(es[c].jobs, key)
  }

  /** The job at position `i` of the list is new to the dispatch: it has a key, it was not pending when the print was
      sent, and no dispatch has it. */
  ghost predicate IsNew(timeout: real, before: seq<Event>, sent: Event, jobs: seq<Job>, i: nat) {
    && i < |jobs| && jobs[i].key != ""
    && !IsPending(sent.jobs, jobs[i].key) && !Taken(timeout, before, jobs[i].key)
  }

  ghost predicate OnlyNew(timeout: real, before: seq<Event>, sent: Event, jobs: seq<Job>, i: nat) {
    && IsNew(timeout, before, sent, jobs, i)
    && forall j: nat :: IsNew(timeout, before, sent, jobs, j) ==> j == i
  }

  /** The report that a finished print ends its queue job with. */
  predicate Ends(r: Report, id: string, job: Job) {
    && r.queueJobId == id && r.jobKey == Some(job.key)
    && (r.state == Completed <==> job.status == "done") && (r.state == Held <==> job.status != "done")
    && r.reason == if job.status == "done" then "" else if job.status == "" then "print_unknown" else "print_" + job.status
  }

  predicate Starts(r: Report, id: string) {
    r == Report(id, Printing, None, "")
  }

  predicate NeverStarted(r: Report, id: string) {
    r == Report(id, Held, None, "start_not_observed")
  }

  /** What a look owes the cloud for the oldest unresolved dispatch, which was recorded by `sent`; `said` says whether it
      has been reported as printing. */
  ghost predicate Owed(timeout: real, before: seq<Event>, look: Event, sent: Event, said: bool, rs: seq<Report>)
    requires look.CollectEvent? && sent.DispatchEvent?
  {
    var none := forall i: nat :: !IsNew(timeout, before, sent, look.jobs, i);
    && (forall i: nat :: OnlyNew(timeout, before, sent, look.jobs, i) ==>
          && rs != [] && Ends(rs[|rs| - 1], sent.queueJobId, look.jobs[i])
          && (if look.jobs[i].status == "done" && !said then |rs| == 2 && Starts(rs[0], sent.queueJobId) else |rs| == 1))
    && (none && !said && look.state in {"RUNNING", "PAUSE"} ==> |rs| == 1 && Starts(rs[0], sent.queueJobId))
    && (none && !said && look.state in {"", "IDLE", "FINISH", "FAILED", "UNKNOWN"} && look.now - sent.now >= timeout ==>
          |rs| == 1 && NeverStarted(rs[0], sent.queueJobId))
    && (rs != [] ==>
          || (exists i: nat :: OnlyNew(timeout, before, sent, look.jobs, i))
          || (none && !said && look.state in {"RUNNING", "PAUSE"})
          || (none && !said && look.state in {"", "IDLE", "FINISH", "FAILED", "UNKNOWN"} && look.now - sent.now >= timeout))
  }

  // ----- the links, told from the run -------------------------------------------------------------

  lemma {:induction false} KeysArePending(jobs: seq<Job>, key: string)
    ensures key in JobKeys(jobs) <==> key != "" && IsPending(jobs, key)
  {
  }

  /** One event links what it reports, and keeps the links whose jobs are still pending. */
  lemma {:induction false} StepLinks(timeout: real, p: Progress, e: Event, key: string)
    ensures var (p', rs) := Step(timeout, p, e);
            key in p'.linked <==> Names(rs, key) || (key in p.linked && (e.CollectEvent? ==> key in JobKeys(e.jobs)))
  {
    hide JobKeys;
    var (p', rs) := Step(timeout, p, e);
    if e.CollectEvent? && p.dispatches != [] {
      var d := p.dispatches[0];
      var linked := p.linked * JobKeys(e.jobs);
      var candidates := Candidates(e.jobs, d, linked);
      if |candidates| == 1 {
        hide Candidates;
        assert rs[|rs| - 1].jobKey == Some(candidates[0].key);
      } else {
        assert forall i :: 0 <= i < |rs| ==> rs[i].jobKey == None;
      }
    }
  }

  /** A key is linked exactly when a report took it and it has been pending ever since. */
  lemma {:induction false} LinkedExactly(timeout: real, es: seq<Event>, key: string)
    ensures key in Run(timeout, es).linked <==> Taken(timeout, es, key) && key != ""
  {
    hide Step, Names, IsPending, JobKeys;
    if es != [] {
      var front, e := es[..|es| - 1], es[|es| - 1];
      LinkedExactly(timeout, front, key);
      StepLinks(timeout, Run(timeout, front), e, key);
      NamesAreKeys(timeout, Run(timeout, front), e, key);
      if e.CollectEvent? {
        KeysArePending(e.jobs, key);
      }
      TakenSnoc(timeout, front, e, key);
      assert es == front + [e];
    }
  }

  lemma {:induction false} NamesAreKeys(timeout: real, p: Progress, e: Event, key: string)
    ensures Names(Step(timeout, p, e).1, key) ==> key != ""
  {
    if e.CollectEvent? && p.dispatches != [] {
      hide Candidates, JobKeys;
      var linked := p.linked * JobKeys(e.jobs);
      CandidatesSound(e.jobs, p.dispatches[0], linked);
      var candidates := Candidates(e.jobs, p.dispatches[0], linked);
      assert |candidates| == 1 ==> candidates[0] in candidates;
    }
  }

  lemma {:induction false} TakenSnoc(timeout: real, front: seq<Event>, e: Event, key: string)
    ensures Taken(timeout, front + [e], key) <==>
            || Names(Step(timeout, Run(timeout, front), e).1, key)
            || (Taken(timeout, front, key) && (e.CollectEvent? ==> IsPending(e.jobs, key)))
  {
    hide Step, Names, IsPending, Run;
    var es, n := front + [e], |front|;
    assert es[..n] == front && es[n] == e;
    assert forall a :: 0 <= a < n ==> es[..a] == front[..a] && es[a] == front[a];
    if Taken(timeout, es, key) {
      var a: nat :| TakenAt(timeout, es, key, a);
      if a < n {
        assert TakenAt(timeout, front, key, a);
      }
    }
    if Names(Step(timeout, Run(timeout, front), e).1, key) {
      assert TakenAt(timeout, es, key, n);
    }
    if Taken(timeout, front, key) && (e.CollectEvent? ==> IsPending(e.jobs, key)) {
      var a: nat :| TakenAt(timeout, front, key, a);
      assert TakenAt(timeout, es, key, a);
    }
  }

  // ----- the candidates, counted by position ------------------------------------------------------

  predicate CandidateAt(jobs: seq<Job>, d: Dispatch, linked: set<string>, i: nat) {
    i < |jobs| && IsCandidate(jobs[i], d, linked)
  }

  ghost predicate OnlyCandidate(jobs: seq<Job>, d: Dispatch, linked: set<string>, i: nat) {
    CandidateAt(jobs, d, linked, i) && forall j: nat :: CandidateAt(jobs, d, linked, j) ==> j == i
  }

  lemma {:induction false} CandidateLater(jobs: seq<Job>, d: Dispatch, linked: set<string>, i: nat)
    requires jobs != []
    ensures CandidateAt(jobs, d, linked, i + 1) <==> CandidateAt(jobs[1..], d, linked, i)
  {
    hide IsCandidate;
  }

  lemma {:induction false} NoCandidates(jobs: seq<Job>, d: Dispatch, linked: set<string>)
    ensures Candidates(jobs, d, linked) == [] <==> forall i: nat :: !CandidateAt(jobs, d, linked, i)
  {
    hide IsCandidate;
    if jobs != [] {
      NoCandidates(jobs[1..], d, linked);
      if i: nat :| CandidateAt(jobs[1..], d, linked, i) {
        CandidateLater(jobs, d, linked, i);
      }
      if i: nat :| CandidateAt(jobs, d, linked, i) && i > 0 {
        CandidateLater(jobs, d, linked, i - 1);
      }
      assert CandidateAt(jobs, d, linked, 0) <==> IsCandidate(jobs[0], d, linked);
    }
  }

  lemma {:induction false} OneCandidate(jobs: seq<Job>, d: Dispatch, linked: set<string>, i: nat)
    requires OnlyCandidate(jobs, d, linked, i)
    ensures Candidates(jobs, d, linked) == [jobs[i]]
  {
    hide IsCandidate;
    var rest := jobs[1..];
    if i == 0 {
      forall j: nat ensures !CandidateAt(rest, d, linked, j) {
        CandidateLater(jobs, d, linked, j);
      }
      NoCandidates(rest, d, linked);
    } else {
      forall j: nat ensures CandidateAt(rest, d, linked, j) <==> CandidateAt(jobs, d, linked, j + 1) {
        CandidateLater(jobs, d, linked, j);
      }
      OneCandidate(rest, d, linked, i - 1);
      assert !CandidateAt(jobs, d, linked, 0);
    }
  }

  /** A list with one candidate has one position that holds it. */
  lemma {:induction false} CandidateFound(jobs: seq<Job>, d: Dispatch, linked: set<string>) returns (i: nat)
    requires |Candidates(jobs, d, linked)| == 1
    ensures i < |jobs| && OnlyCandidate(jobs, d, linked, i)
  {
    hide IsCandidate;
    var rest := jobs[1..];
    if IsCandidate(jobs[0], d, linked) {
      i := 0;
      NoCandidates(rest, d, linked);
      forall j: nat | CandidateAt(jobs, d, linked, j) ensures j == 0 {
        if j > 0 {
          CandidateLater(jobs, d, linked, j - 1);
        }
      }
    } else {
      var j := CandidateFound(rest, d, linked);
      i := j + 1;
      CandidateLater(jobs, d, linked, j);
      forall k: nat | CandidateAt(jobs, d, linked, k) ensures k == i {
        if k > 0 {
          CandidateLater(jobs, d, linked, k - 1);
        }
      }
    }
  }

  // ----- the oldest dispatch, told from the run ---------------------------------------------------

  predicate SentBy(d: Dispatch, e: Event) {
    e.DispatchEvent? && d.queueJobId == e.queueJobId && d.startedAt == e.now && d.baseline == JobKeys(e.jobs)
  }

  ghost predicate Lined(ds: seq<Dispatch>, sent: seq<Event>) {
    |ds| <= |sent| && forall i :: 0 <= i < |ds| ==> SentBy(ds[i], sent[|sent| - |ds| + i])
  }

  lemma {:induction false} LineMoves(timeout: real, p: Progress, e: Event, sent: seq<Event>)
    requires e.CollectEvent? && Lined(p.dispatches, sent)
    ensures Lined(Step(timeout, p, e).0.dispatches, sent)
  {
    hide SentBy, Candidates, Settle, JobKeys;
    var ds, ds' := p.dispatches, Step(timeout, p, e).0.dispatches;
    if ds != [] {
      assert SentBy(ds[0].(reportedPrinting := true), sent[|sent| - |ds|]) by {
        SameSender(ds[0], sent[|sent| - |ds|]);
      }
      assert ds' == ds || ds' == ds[1..] || ds' == [ds[0].(reportedPrinting := true)] + ds[1..];
    }
  }

  lemma {:induction false} SameSender(d: Dispatch, e: Event)
    requires SentBy(d, e)
    ensures SentBy(d.(reportedPrinting := true), e)
  {
  }

  /** The waiting dispatches are the last ones recorded. */
  lemma {:induction false} WaitingWereSent(timeout: real, es: seq<Event>)
    ensures Lined(Run(timeout, es).dispatches, Recorded(es))
  {
    if es != [] {
      hide Collect;
      var front, e := es[..|es| - 1], es[|es| - 1];
      WaitingWereSent(timeout, front);
      if e.CollectEvent? {
        LineMoves(timeout, Run(timeout, front), e, Recorded(front));
        assert Recorded(es) == Recorded(front);
      }
    }
  }

  // ----- the main result --------------------------------------------------------------------------

  lemma {:induction false} NewAreCandidates(timeout: real, before: seq<Event>, d: Dispatch, sent: Event, jobs: seq<Job>, i: nat)
    requires SentBy(d, sent)
    ensures IsNew(timeout, before, sent, jobs, i) <==> CandidateAt(jobs, d, Run(timeout, before).linked * JobKeys(jobs), i)
  {
    if i < |jobs| {
      hide Taken, IsPending, JobKeys, Run;
      KeysArePending(sent.jobs, jobs[i].key);
      LinkedExactly(timeout, before, jobs[i].key);
      KeysArePending(jobs, jobs[i].key);
      assert IsPending(jobs, jobs[i].key) by {
        PendingAt(jobs, i);
      }
    }
  }

  lemma {:induction false} PendingAt(jobs: seq<Job>, i: nat)
    requires i < |jobs|
    ensures IsPending(jobs, jobs[i].key)
  {
  }

  lemma {:induction false} SettleEnds(d: Dispatch, job: Job)
    ensures Ends(Settle(d, job), d.queueJobId, job)
    ensures Settle(d, job).state == Completed <==> job.status == "done"
  {
  }

  lemma {:induction false} LookIsOwed(timeout: real, before: seq<Event>, look: Event, sent: Event)
    requires look.CollectEvent?
    requires var p := Run(timeout, before); p.dispatches != [] && SentBy(p.dispatches[0], sent)
    ensures Owed(timeout, before, look, sent, Run(timeout, before).dispatches[0].reportedPrinting,
                 Step(timeout, Run(timeout, before), look).1)
  {
    hide Run, IsNew, Candidates, CandidateAt, Ends, Settle;
    var p := Run(timeout, before);
    var d, linked := p.dispatches[0], p.linked * JobKeys(look.jobs);
    forall i: nat ensures IsNew(timeout, before, sent, look.jobs, i) <==> CandidateAt(look.jobs, d, linked, i) {
      NewAreCandidates(timeout, before, d, sent, look.jobs, i);
    }
    NoCandidates(look.jobs, d, linked);
    var candidates := Candidates(look.jobs, d, linked);
    if |candidates| == 1 {
      var i := CandidateFound(look.jobs, d, linked);
      OneCandidate(look.jobs, d, linked, i);
      SettleEnds(d, look.jobs[i]);
      assert OnlyNew(timeout, before, sent, look.jobs, i);
      OnlyOneIsNew(timeout, before, sent, look.jobs, i);
    } else {
      forall i: nat ensures !OnlyNew(timeout, before, sent, look.jobs, i) {
        if OnlyNew(timeout, before, sent, look.jobs, i) {
          OneCandidate(look.jobs, d, linked, i);
        }
      }
    }
  }

  lemma {:induction false} OnlyOneIsNew(timeout: real, before: seq<Event>, sent: Event, jobs: seq<Job>, i: nat)
    requires OnlyNew(timeout, before, sent, jobs, i)
    ensures forall j: nat :: OnlyNew(timeout, before, sent, jobs, j) ==> j == i
    ensures !forall j: nat :: !IsNew(timeout, before, sent, jobs, j)
  {
    hide IsNew;
  }

  /** Every look of every run reports exactly what is owed for the oldest unresolved dispatch: when one pending job is new,
      that job's end; when none is, that the print started or that it was never seen to start; otherwise nothing. */
  lemma {:induction false} LooksReportWhatIsOwed(timeout: real, es: seq<Event>, n: nat)
    requires n < |es| && es[n].CollectEvent?
    ensures var c, sent, rs := Stories(timeout, es[..n]), Recorded(es[..n]), Reported(timeout, es, n);
            if c.open == [] then rs == []
            else
              && |c.closed| < |sent| && sent[|c.closed|].DispatchEvent?
              && Owed(timeout, es[..n], es[n], sent[|c.closed|], c.open[0].word != [], rs)
  {
    hide Owed, Stories, Recorded, Run, Own, Final, States, JobKeys;
    var before := es[..n];
    var p, c := Run(timeout, before), Stories(timeout, before);
    StreamIsStories(timeout, before);
    StoriesFollowDispatches(timeout, before);
    WaitingWereSent(timeout, before);
    if c.open != [] {
      assert SentBy(p.dispatches[0], Recorded(before)[|c.closed|]);
      LookIsOwed(timeout, before, es[n], Recorded(before)[|c.closed|]);
      SaidWhenPrinting(p.dispatches[0], c.open[0]);
    }
  }

  lemma {:induction false} SaidWhenPrinting(d: Dispatch, s: Story)
    requires Leading(d, s)
    ensures d.reportedPrinting <==> s.word != []
  {
    assert |States(s.word)| == |s.word|;
  }

  /** What one report needs to be there at all. */
  ghost predicate Earned(timeout: real, before: seq<Event>, look: Event, sent: Event, said: bool, r: Report)
    requires look.CollectEvent? && sent.DispatchEvent?
  {
    var none := forall i: nat :: !IsNew(timeout, before, sent, look.jobs, i);
    if r.jobKey.Some? then exists i: nat :: OnlyNew(timeout, before, sent, look.jobs, i) && Ends(r, sent.queueJobId, look.jobs[i])
    else if r.state == Held then
      && NeverStarted(r, sent.queueJobId) && none && !said && look.now - sent.now >= timeout
      && look.state in {"", "IDLE", "FINISH", "FAILED", "UNKNOWN"}
    else
      && Starts(r, sent.queueJobId) && !said
      && (|| (none && look.state in {"RUNNING", "PAUSE"})
          || exists i: nat :: OnlyNew(timeout, before, sent, look.jobs, i) && look.jobs[i].status == "done")
  }

  lemma {:induction false} OwedIsEarned(timeout: real, before: seq<Event>, look: Event, sent: Event, said: bool,
                                        rs: seq<Report>, r: Report)
    requires look.CollectEvent? && sent.DispatchEvent? && Owed(timeout, before, look, sent, said, rs) && r in rs
    ensures Earned(timeout, before, look, sent, said, r)
  {
    hide OnlyNew, IsNew;
    if i: nat :| OnlyNew(timeout, before, sent, look.jobs, i) {
      assert r == rs[|rs| - 1] || r == rs[0];
    }
  }

  /** Every report of every run was earned at its look. It ends a queue job with a printer job only when that was the one
      pending job which was new to the dispatch, as completed exactly when the job's status was "done" and else as held
      for the status; without a job it is held only for a start not observed in time; and it is printing only once. */
  lemma {:induction false} EveryReportIsEarned(timeout: real, es: seq<Event>, n: nat, r: Report)
    requires n < |es| && r in Reported(timeout, es, n)
    ensures var c, sent := Stories(timeout, es[..n]), Recorded(es[..n]);
            && es[n].CollectEvent? && c.open != []
            && |c.closed| < |sent| && sent[|c.closed|].DispatchEvent?
            && Earned(timeout, es[..n], es[n], sent[|c.closed|], c.open[0].word != [], r)
  {
    hide Owed, Earned, Stories, Recorded, Run, Collect;
    LooksReportWhatIsOwed(timeout, es, n);
    var c, sent := Stories(timeout, es[..n]), Recorded(es[..n]);
    OwedIsEarned(timeout, es[..n], es[n], sent[|c.closed|], c.open[0].word != [], Reported(timeout, es, n), r);
  }
}
