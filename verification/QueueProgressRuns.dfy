/** The report stream of any run is the dispatches' words one after another, each word a path of
    the cloud's transition map; and links between dispatches and printer jobs are sound. */
module QueueProgressRuns {
  import opened Prelude
  import opened QueueProgress

  // ----- the cloud's transition map ---------------------------------------------------------------

  predicate Allowed(from: CloudState, to: CloudState) {
    match from
    case Uploading => to == Printing || to == Held
    case Printing => to == Completed || to == Held
    case _ => false
  }

  predicate Legal(from: CloudState, path: seq<CloudState>)
    decreases |path|
  {
    path == [] || (Allowed(from, path[0]) && Legal(path[0], path[1..]))
  }

  function States(w: seq<Report>): seq<CloudState> {
    seq(|w|, i requires 0 <= i < |w| => w[i].state)
  }

  /** The five words a dispatch may spell. */
  predicate FiveWords(path: seq<CloudState>) {
    path == [] || path == [Printing] || Final(path)
  }

  /** The five words are exactly the paths the transition map allows from `uploading`. */
  lemma {:induction false} LegalIsFiveWords(path: seq<CloudState>)
    ensures Legal(Uploading, path) <==> FiveWords(path)
  {
    if |path| >= 2 {
      var tail := path[1..];
      assert tail[0] == path[1] && tail[1..] == path[2..];
      assert Legal(path[0], tail) <==> Allowed(path[0], path[1]) && Legal(path[1], path[2..]);
      if |path| == 2 {
        assert path == [path[0], path[1]] && path[2..] == [];
      } else {
        assert |path[2..]| >= 1;
      }
    } else if |path| == 1 {
      assert path == [path[0]] && path[1..] == [];
    }
  }

  predicate Final(path: seq<CloudState>) {
    path == [Printing, Completed] || path == [Held] || path == [Printing, Held]
  }

  // ----- runs -------------------------------------------------------------------------------------

  datatype Event =
    | DispatchEvent(queueJobId: string, jobs: seq<Job>, now: real)
    | CollectEvent(jobs: seq<Job>, state: string, now: real)

  function Step(timeout: real, p: Progress, e: Event): (Progress, seq<Report>) {
    match e
    case DispatchEvent(id, jobs, now) => (RecordDispatch(p, id, jobs, now), [])
    case CollectEvent(jobs, state, now) => Collect(timeout, p, jobs, state, now)
  }

  function Run(timeout: real, es: seq<Event>): Progress {
    if es == [] then EMPTY else Step(timeout, Run(timeout, es[..|es| - 1]), es[|es| - 1]).0
  }

  /** Everything reported to the cloud over the run, in order. */
  function Stream(timeout: real, es: seq<Event>): seq<Report> {
    if es == [] then []
    else
      Stream(timeout, es[..|es| - 1]) + Step(timeout, Run(timeout, es[..|es| - 1]), es[|es| - 1]).1
  }

  /** The same run told dispatch by dispatch: each dispatch's own reports, with its id and the job
      keys that were already pending when it was recorded. Closed dispatches come first. */
  datatype Story = Story(id: string, baseline: set<string>, word: seq<Report>)
  datatype Chronicle = Chronicle(closed: seq<Story>, open: seq<Story>)

  function Add(s: Story, reports: seq<Report>): Story {
    s.(word := s.word + reports)
  }

  /** `resolved` says whether the oldest open dispatch left the tracker. */
  function Tell(c: Chronicle, e: Event, reports: seq<Report>, resolved: bool): Chronicle {
    match e
    case DispatchEvent(id, jobs, _) => c.(open := c.open + [Story(id, JobKeys(jobs), [])])
    case CollectEvent(_, _, _) =>
      if c.open == [] then c
      else if resolved then Chronicle(c.closed + [Add(c.open[0], reports)], c.open[1..])
      else c.(open := [Add(c.open[0], reports)] + c.open[1..])
  }

  function Stories(timeout: real, es: seq<Event>): Chronicle {
    if es == [] then Chronicle([], [])
    else
      var p, e := Run(timeout, es[..|es| - 1]), es[|es| - 1];
      var (p', reports) := Step(timeout, p, e);
      Tell(Stories(timeout, es[..|es| - 1]), e, reports, |p'.dispatches| < |p.dispatches|)
  }

  function Flat(stories: seq<Story>): seq<Report> {
    if stories == [] then [] else stories[0].word + Flat(stories[1..])
  }

  lemma {:induction false} FlatConcat(a: seq<Story>, b: seq<Story>)
    ensures Flat(a + b) == Flat(a) + Flat(b)
  {
    if a == [] {
      assert a + b == b;
    } else {
      var c := a + b;
      assert c[0] == a[0] && c[1..] == a[1..] + b;
      FlatConcat(a[1..], b);
      assert Flat(c) == a[0].word + (Flat(a[1..]) + Flat(b));
    }
  }

  lemma {:induction false} FlatOne(s: Story)
    ensures Flat([s]) == s.word
  {
    assert [s][1..] == [];
  }

  lemma {:induction false} FlatSilent(stories: seq<Story>)
    requires forall i :: 0 <= i < |stories| ==> stories[i].word == []
    ensures Flat(stories) == []
  {
    if stories != [] {
      FlatSilent(stories[1..]);
    }
  }

  /** Every report names the dispatch, and a job it links was not pending at dispatch time. */
  ghost predicate Own(s: Story) {
    forall i :: 0 <= i < |s.word| ==>
      s.word[i].queueJobId == s.id && (s.word[i].jobKey.Some? ==> s.word[i].jobKey.value !in s.baseline)
  }

  /** A waiting dispatch behind the oldest one has reported nothing. */
  predicate Waiting(d: Dispatch, s: Story) {
    d.queueJobId == s.id && d.baseline == s.baseline && s.word == [] && !d.reportedPrinting
  }

  /** The oldest open dispatch has reported nothing, or that it prints. */
  ghost predicate Leading(d: Dispatch, s: Story) {
    && d.queueJobId == s.id && d.baseline == s.baseline && Own(s)
    && States(s.word) == if d.reportedPrinting then [Printing] else []
  }

  /** Dispatches resolve in order. */
  ghost predicate Told(p: Progress, c: Chronicle) {
    && |p.dispatches| == |c.open|
    && (forall i :: 0 <= i < |c.closed| ==> Own(c.closed[i]) && Final(States(c.closed[i].word)))
    && (c.open != [] ==> Leading(p.dispatches[0], c.open[0]))
    && (forall i :: 1 <= i < |c.open| ==> Waiting(p.dispatches[i], c.open[i]))
  }

  lemma {:induction false} StatesOf(a: Report, b: Report)
    ensures States([]) == [] && States([a]) == [a.state] && States([a, b]) == [a.state, b.state]
  {
  }

  lemma {:induction false} CandidatesSound(jobs: seq<Job>, d: Dispatch, linked: set<string>)
    ensures forall job :: job in Candidates(jobs, d, linked) ==> job in jobs && IsCandidate(job, d, linked)
  {
    if jobs != [] {
      CandidatesSound(jobs[1..], d, linked);
    }
  }

  lemma {:induction false} StatesConcat(a: seq<Report>, b: seq<Report>)
    ensures States(a + b) == States(a) + States(b)
  {
  }

  /** What one look may report for the oldest dispatch, and what becomes of it. */
  ghost predicate Shaped(d: Dispatch, rest: seq<Dispatch>, p': Progress, rs: seq<Report>) {
    && (forall i :: 0 <= i < |rs| ==>
          rs[i].queueJobId == d.queueJobId && (rs[i].jobKey.Some? ==> rs[i].jobKey.value !in d.baseline))
    && (|| (p'.dispatches == [d] + rest && rs == [])
        || (p'.dispatches == [d.(reportedPrinting := true)] + rest && !d.reportedPrinting && States(rs) == [Printing])
        || (p'.dispatches == rest && Final((if d.reportedPrinting then [Printing] else []) + States(rs))))
  }

  lemma {:induction false} SettleShape(d: Dispatch, job: Job, rest: seq<Dispatch>, linked: set<string>)
    requires job.key !in d.baseline
    ensures var report := Settle(d, job);
            Shaped(d, rest, Progress(rest, linked),
                   if report.state == Completed && !d.reportedPrinting then [PrintingReport(d), report] else [report])
  {
    var report := Settle(d, job);
    StatesOf(report, report);
    StatesOf(PrintingReport(d), report);
    assert [Printing] + [Completed] == [Printing, Completed];
    assert [Printing] + [Held] == [Printing, Held] && [] + [Held] == [Held];
    assert [] + [Printing, Completed] == [Printing, Completed];
  }

  lemma {:induction false} CollectShape(timeout: real, p: Progress, jobs: seq<Job>, state: string, now: real)
    requires p.dispatches != []
    ensures var (p', rs) := Collect(timeout, p, jobs, state, now);
            Shaped(p.dispatches[0], p.dispatches[1..], p', rs)
  {
    var d, rest := p.dispatches[0], p.dispatches[1..];
    var linked := p.linked * JobKeys(jobs);
    var candidates := Candidates(jobs, d, linked);
    assert p.dispatches == [d] + rest;
    CandidatesSound(jobs, d, linked);
    if |candidates| == 1 {
      hide Shaped, Settle;
      assert candidates[0] in candidates;
      SettleShape(d, candidates[0], rest, linked + {candidates[0].key});
    } else {
      StatesOf(PrintingReport(d), NotObserved(d));
      StatesOf(NotObserved(d), NotObserved(d));
      assert [] + [Held] == [Held];
    }
  }

  lemma {:induction false} StoryGrows(d: Dispatch, s: Story, rest: seq<Dispatch>, p': Progress, rs: seq<Report>)
    requires Leading(d, s) && Shaped(d, rest, p', rs)
    ensures Own(Add(s, rs))
    ensures || (p'.dispatches == [d] + rest && Leading(d, Add(s, rs)))
            || (p'.dispatches == [d.(reportedPrinting := true)] + rest && Leading(d.(reportedPrinting := true), Add(s, rs)))
            || (p'.dispatches == rest && Final(States(Add(s, rs).word)))
  {
    StatesConcat(s.word, rs);
    assert [] + [Printing] == [Printing];
    if rs == [] {
      assert s.word + rs == s.word;
    }
  }

  lemma {:induction false} ResolvedTold(p: Progress, c: Chronicle, s: Story)
    requires Told(p, c) && c.open != [] && Own(s) && Final(States(s.word))
    ensures Told(p.(dispatches := p.dispatches[1..]), Chronicle(c.closed + [s], c.open[1..]))
  {
    hide Own, States;
    EmptyStates();
    var c' := Chronicle(c.closed + [s], c.open[1..]);
    if c'.open != [] {
      assert Waiting(p.dispatches[1], c.open[1]);
      assert Own(c.open[1]) by {
        OwnSilent(c.open[1]);
      }
    }
    forall i | 1 <= i < |c'.open| ensures Waiting(p.dispatches[1..][i], c'.open[i]) {
      assert Waiting(p.dispatches[i + 1], c.open[i + 1]);
    }
  }

  lemma {:induction false} OwnSilent(s: Story)
    requires s.word == []
    ensures Own(s)
  {
  }

  lemma {:induction false} EmptyStates()
    ensures States([]) == []
  {
  }

  lemma {:induction false} LeadingTold(p: Progress, c: Chronicle, d: Dispatch, s: Story)
    requires Told(p, c) && c.open != [] && Leading(d, s)
    ensures Told(p.(dispatches := [d] + p.dispatches[1..]), c.(open := [s] + c.open[1..]))
  {
    hide Own, States, Leading;
    var c' := c.(open := [s] + c.open[1..]);
    forall i | 1 <= i < |c'.open| ensures Waiting(([d] + p.dispatches[1..])[i], c'.open[i]) {
      assert Waiting(p.dispatches[i], c.open[i]);
    }
  }

  lemma {:induction false} ToldIgnoresLinks(p: Progress, c: Chronicle, linked: set<string>)
    requires Told(p, c)
    ensures Told(p.(linked := linked), c)
  {
  }

  lemma {:induction false} CollectKeepsTold(timeout: real, p: Progress, c: Chronicle, jobs: seq<Job>, state: string, now: real)
    requires Told(p, c)
    ensures var (p', rs) := Collect(timeout, p, jobs, state, now);
            Told(p', Tell(c, CollectEvent(jobs, state, now), rs, |p'.dispatches| < |p.dispatches|))
  {
    var (p', rs) := Collect(timeout, p, jobs, state, now);
    if p.dispatches != [] {
      hide Own, States, Final, Collect, Shaped;
      var d, rest := p.dispatches[0], p.dispatches[1..];
      var s := Add(c.open[0], rs);
      CollectShape(timeout, p, jobs, state, now);
      StoryGrows(d, c.open[0], rest, p', rs);
      if p'.dispatches == rest {
        ResolvedTold(p, c, s);
        ToldIgnoresLinks(p.(dispatches := rest), Chronicle(c.closed + [s], c.open[1..]), p'.linked);
      } else {
        LeadingTold(p, c, p'.dispatches[0], s);
        ToldIgnoresLinks(p.(dispatches := p'.dispatches), c.(open := [s] + c.open[1..]), p'.linked);
      }
    }
  }

  lemma {:induction false} DispatchKeepsTold(p: Progress, c: Chronicle, id: string, jobs: seq<Job>, now: real)
    requires Told(p, c)
    ensures Told(RecordDispatch(p, id, jobs, now), c.(open := c.open + [Story(id, JobKeys(jobs), [])]))
  {
    hide States, Final;
    EmptyStates();
    OwnSilent(Story(id, JobKeys(jobs), []));
  }

  /** Telling a step adds its reports after everything told before. */
  lemma {:induction false} TellExtends(p: Progress, c: Chronicle, e: Event, rs: seq<Report>, resolved: bool)
    requires Told(p, c) && (e.DispatchEvent? || c.open == [] ==> rs == [])
    ensures var c' := Tell(c, e, rs, resolved);
            Flat(c'.closed) + Flat(c'.open) == Flat(c.closed) + Flat(c.open) + rs
  {
    if e.DispatchEvent? {
      FlatConcat(c.open, [Story(e.queueJobId, JobKeys(e.jobs), [])]);
      FlatOne(Story(e.queueJobId, JobKeys(e.jobs), []));
    } else if c.open != [] {
      var s := Add(c.open[0], rs);
      forall i | 0 <= i < |c.open[1..]| ensures c.open[1..][i].word == [] {
        assert Waiting(p.dispatches[i + 1], c.open[i + 1]);
      }
      FlatSilent(c.open[1..]);
      FlatConcat([s], c.open[1..]);
      FlatConcat(c.closed, [s]);
      FlatOne(s);
    }
  }

  /** Every run's report stream is the dispatches' words one after another, in dispatch order. */
  lemma {:induction false} StreamIsStories(timeout: real, es: seq<Event>)
    ensures Told(Run(timeout, es), Stories(timeout, es))
    ensures Stream(timeout, es) == Flat(Stories(timeout, es).closed) + Flat(Stories(timeout, es).open)
  {
    if es != [] {
      var front, e := es[..|es| - 1], es[|es| - 1];
      var p, c := Run(timeout, front), Stories(timeout, front);
      var (p', rs) := Step(timeout, p, e);
      StreamIsStories(timeout, front);
      assert e.DispatchEvent? || c.open == [] ==> rs == [];
      TellExtends(p, c, e, rs, |p'.dispatches| < |p.dispatches|);
      hide Told, Collect, Flat;
      match e
      case DispatchEvent(id, jobs, now) =>
        DispatchKeepsTold(p, c, id, jobs, now);
      case CollectEvent(jobs, state, now) =>
        CollectKeepsTold(timeout, p, c, jobs, state, now);
    }
  }

  /** So for every dispatch of every run the reports are a path of the transition map (nothing,
      printing, printing-completed, held or printing-held), and a final one once it is resolved. */
  lemma {:induction false} EveryWordIsLegal(timeout: real, es: seq<Event>)
    ensures var c := Stories(timeout, es);
            && (forall i :: 0 <= i < |c.open| ==> Legal(Uploading, States(c.open[i].word)))
            && (forall i :: 0 <= i < |c.closed| ==>
                  Legal(Uploading, States(c.closed[i].word)) && Final(States(c.closed[i].word)))
  {
    StreamIsStories(timeout, es);
    hide Own, States, Stories, Run;
    var p, c := Run(timeout, es), Stories(timeout, es);
    EmptyStates();
    forall i | 0 <= i < |c.open| ensures Legal(Uploading, States(c.open[i].word)) {
      assert i > 0 ==> Waiting(p.dispatches[i], c.open[i]);
      LegalIsFiveWords(States(c.open[i].word));
    }
    forall i | 0 <= i < |c.closed| ensures Legal(Uploading, States(c.closed[i].word)) {
      LegalIsFiveWords(States(c.closed[i].word));
    }
  }

  /** The dispatches recorded over a run, oldest first. */
  function Recorded(es: seq<Event>): seq<Event> {
    if es == [] then []
    else Recorded(es[..|es| - 1]) + if es[|es| - 1].DispatchEvent? then [es[|es| - 1]] else []
  }

  /** The stories are told of the dispatches in the order they were recorded. */
  ghost predicate ToldOf(stories: seq<Story>, recorded: seq<Event>) {
    && |stories| == |recorded|
    && forall k :: 0 <= k < |recorded| ==>
         recorded[k].DispatchEvent? && stories[k].id == recorded[k].queueJobId
         && stories[k].baseline == JobKeys(recorded[k].jobs)
  }

  lemma {:induction false} StoriesFollowDispatches(timeout: real, es: seq<Event>)
    ensures ToldOf(Stories(timeout, es).closed + Stories(timeout, es).open, Recorded(es))
  {
    hide Step, Run, JobKeys;
    if es != [] {
      var front, e := es[..|es| - 1], es[|es| - 1];
      StoriesFollowDispatches(timeout, front);
    }
  }

  /** Over any run a report of the `k`th dispatch names that dispatch, and a printer job it links was not pending when
      the dispatch was recorded. */
  lemma {:induction false} LinksOnlyNewJobs(timeout: real, es: seq<Event>, k: nat, i: nat)
    requires k < |Recorded(es)|
    ensures var all := Stories(timeout, es).closed + Stories(timeout, es).open;
            && |all| == |Recorded(es)| && Recorded(es)[k].DispatchEvent?
            && (i < |all[k].word| ==>
                  && all[k].word[i].queueJobId == Recorded(es)[k].queueJobId
                  && (all[k].word[i].jobKey.Some? ==> all[k].word[i].jobKey.value !in JobKeys(Recorded(es)[k].jobs)))
  {
    hide Stories, Recorded, JobKeys, States, Final, Stream, Run;
    StreamIsStories(timeout, es);
    StoriesFollowDispatches(timeout, es);
    var c := Stories(timeout, es);
    var all := c.closed + c.open;
    if k > |c.closed| {
      assert Waiting(Run(timeout, es).dispatches[k - |c.closed|], c.open[k - |c.closed|]);
      OwnSilent(all[k]);
    }
    assert Own(all[k]);
  }

  // ----- links ------------------------------------------------------------------------------------

  /** The printer job that event `e` links to the oldest dispatch, if any. */
  function LinkedBy(p: Progress, e: Event): Option<string> {
    if e.DispatchEvent? || p.dispatches == [] then None
    else
      var candidates := Candidates(e.jobs, p.dispatches[0], p.linked * JobKeys(e.jobs));
      if |candidates| == 1 then Some(candidates[0].key) else None
  }

  lemma {:induction false} LinkJoins(timeout: real, p: Progress, e: Event)
    requires LinkedBy(p, e).Some?
    ensures LinkedBy(p, e).value in Step(timeout, p, e).0.linked
    ensures LinkedBy(p, e).value in JobKeys(e.jobs)
    ensures LinkedBy(p, e).value !in p.linked * JobKeys(e.jobs)
  {
    var linked := p.linked * JobKeys(e.jobs);
    var candidates := Candidates(e.jobs, p.dispatches[0], linked);
    CandidatesSound(e.jobs, p.dispatches[0], linked);
    assert candidates[0] in candidates;
  }

  lemma {:induction false} LinkStays(timeout: real, p: Progress, e: Event, key: string)
    requires key in p.linked && (e.CollectEvent? ==> key in JobKeys(e.jobs))
    ensures key in Step(timeout, p, e).0.linked
  {
  }

  lemma {:induction false} LinkedWhilePending(timeout: real, es: seq<Event>, a: nat, b: nat, key: string)
    requires a < b <= |es| && LinkedBy(Run(timeout, es[..a]), es[a]) == Some(key)
    requires forall c :: a < c < b && es[c].CollectEvent? ==> key in JobKeys(es[c].jobs)
    ensures key in Run(timeout, es[..b]).linked
    decreases b
  {
    hide Step, LinkedBy;
    assert es[..b][..b - 1] == es[..b - 1];
    if b == a + 1 {
      LinkJoins(timeout, Run(timeout, es[..a]), es[a]);
    } else {
      LinkedWhilePending(timeout, es, a, b - 1, key);
      LinkStays(timeout, Run(timeout, es[..b - 1]), es[b - 1], key);
    }
  }

  /** A printer job is linked at most once, unless it left the pending list in between. */
  lemma {:induction false} NoSecondLink(timeout: real, es: seq<Event>, a: nat, b: nat, key: string)
    requires a < b < |es|
    requires LinkedBy(Run(timeout, es[..a]), es[a]) == Some(key)
    requires LinkedBy(Run(timeout, es[..b]), es[b]) == Some(key)
    ensures exists c :: a < c < b && es[c].CollectEvent? && key !in JobKeys(es[c].jobs)
  {
    LinkJoins(timeout, Run(timeout, es[..b]), es[b]);
    if forall c :: a < c < b && es[c].CollectEvent? ==> key in JobKeys(es[c].jobs) {
      LinkedWhilePending(timeout, es, a, b, key);
    }
  }
}
