/** The whole way of a queue job's reports: the dispatcher's and every printer's go into one list, the list is flushed
    over many heartbeats, and the cloud moves each assigned job along its transition map with what it takes. */
module QueueDelivery {
  import opened Prelude
  import opened QueueFlush
  import opened QueueLives
  import D = Dispatch
  import P = QueueProgress
  import R = QueueProgressRuns

  // ----- the cloud's transition map from the assignment on ------------------------------------------------

  function StateOf(r: D.QueueReport): P.CloudState {
    match r.state
    case Uploading => P.Uploading
    case Printing => P.Printing
    case Completed => P.Completed
    case Held(_) => P.Held
  }

  function StatesOf(rs: seq<D.QueueReport>): seq<P.CloudState> {
    seq(|rs|, i requires 0 <= i < |rs| => StateOf(rs[i]))
  }

  /** An assigned job may start uploading or be held; from there the map goes on. */
  predicate LegalFromAssigned(path: seq<P.CloudState>) {
    path == [] || ((path[0] == P.Uploading || path[0] == P.Held) && R.Legal(path[0], path[1..]))
  }

  /** Where an assignment that ended, or never started, has led. */
  predicate Ended(path: seq<P.CloudState>) {
    || path == [] || path == [P.Held] || path == [P.Uploading, P.Held]
    || path == [P.Uploading, P.Printing, P.Completed] || path == [P.Uploading, P.Printing, P.Held]
  }

  predicate Begun(path: seq<P.CloudState>) {
    path == [P.Uploading] || path == [P.Uploading, P.Printing]
  }

  lemma {:induction false} HeldIsLast(path: seq<P.CloudState>)
    ensures R.Legal(P.Held, path) <==> path == []
  {
  }

  /** The seven paths from an assignment. */
  lemma {:induction false} LegalIsSevenPaths(path: seq<P.CloudState>)
    ensures LegalFromAssigned(path) <==> Ended(path) || Begun(path)
  {
    hide R.Legal;
    if path != [] {
      var rest := path[1..];
      R.LegalIsFiveWords(rest);
      HeldIsLast(rest);
      assert path == [path[0]] + rest;
    }
  }

  // ----- one list for everything --------------------------------------------------------------------------

  /** Every report the run put in the list, in order. */
  function AllReports(timeout: real, es: seq<Event>): seq<D.QueueReport> {
    if es == [] then []
    else AllReports(timeout, es[..|es| - 1]) + ReportsOf(timeout, Live(timeout, es[..|es| - 1]), es[|es| - 1])
  }

  /** The assignment events whose prints a printer's tracker still follows, oldest first, by their position. */
  function Owners(timeout: real, es: seq<Event>, printer: string): seq<nat> {
    if es == [] then []
    else
      var front, e := es[..|es| - 1], es[|es| - 1];
      var w, owners := Live(timeout, front), Owners(timeout, front, printer);
      if e.printer != printer then owners
      else if e.Assigned? then (if StartedBy(w, e) then owners + [|front|] else owners)
      else if owners != []
              && |TrackerOf(Next(timeout, w, e), printer).dispatches| < |TrackerOf(w, printer).dispatches| then owners[1..]
      else owners
  }

  /** The assignment an event's reports are about: itself, or the oldest one its printer still follows. */
  function OwnerOf(timeout: real, es: seq<Event>, e: Event): nat {
    if e.Assigned? || Owners(timeout, es, e.printer) == [] then |es| else Owners(timeout, es, e.printer)[0]
  }

  function Repeat(n: nat, times: nat): seq<nat> {
    seq(times, _ => n)
  }

  /** For every report of the list the position of its assignment event. */
  function Tags(timeout: real, es: seq<Event>): (tags: seq<nat>)
    ensures |tags| == |AllReports(timeout, es)|
  {
    if es == [] then []
    else
      var front, e := es[..|es| - 1], es[|es| - 1];
      Tags(timeout, front) + Repeat(OwnerOf(timeout, front, e), |ReportsOf(timeout, Live(timeout, front), e)|)
  }

  /** The items at the places that carry a tag. */
  function Pick<T>(tags: seq<nat>, items: seq<T>, n: nat): seq<T>
    requires |items| <= |tags|
  {
    if items == [] then []
    else
      var m := |items| - 1;
      Pick(tags, items[..m], n) + if tags[m] == n then [items[m]] else []
  }

  /** What is reported of the assignment at position `n`. */
  function Life(timeout: real, es: seq<Event>, n: nat): seq<D.QueueReport> {
    Pick(Tags(timeout, es), AllReports(timeout, es), n)
  }

  // ----- picking ------------------------------------------------------------------------------------------

  lemma {:induction false} PickPrefix<T>(tags: seq<nat>, items: seq<T>, n: nat, m: nat)
    requires m <= |items| <= |tags|
    ensures Pick(tags, items[..m], n) <= Pick(tags, items, n)
  {
    if m == |items| {
      assert items[..m] == items;
    } else {
      var k := |items| - 1;
      PickPrefix(tags, items[..k], n, m);
      assert items[..k][..m] == items[..m];
    }
  }

  lemma {:induction false} PickLonger<T>(tags: seq<nat>, more: seq<nat>, items: seq<T>, n: nat)
    requires |items| <= |tags|
    ensures Pick(tags + more, items, n) == Pick(tags, items, n)
  {
    if items != [] {
      PickLonger(tags, more, items[..|items| - 1], n);
    }
  }

  lemma {:induction false} PickAppend<T>(tags: seq<nat>, items: seq<T>, t: nat, more: seq<T>, n: nat)
    requires |items| == |tags|
    ensures Pick(tags + Repeat(t, |more|), items + more, n) == Pick(tags, items, n) + if t == n then more else []
  {
    if more == [] {
      assert tags + Repeat(t, 0) == tags && items + more == items;
    } else {
      var init := more[..|more| - 1];
      PickAppend(tags, items, t, init, n);
      var all := items + more;
      assert all[..|all| - 1] == items + init;
      assert tags + Repeat(t, |more|) == tags + Repeat(t, |init|) + [t];
      PickLonger(tags + Repeat(t, |init|), [t], items + init, n);
      assert more == init + [more[|init|]];
    }
  }

  lemma {:induction false} PickFirsts(tags: seq<nat>, settled: seq<(D.QueueReport, Answer)>, n: nat)
    requires |settled| <= |tags|
    ensures Firsts(Pick(tags, settled, n)) == Pick(tags, Firsts(settled), n)
  {
    if settled != [] {
      var m := |settled| - 1;
      PickFirsts(tags, settled[..m], n);
      assert Firsts(settled)[..m] == Firsts(settled[..m]);
    }
  }

  lemma {:induction false} PickFinal(tags: seq<nat>, settled: seq<(D.QueueReport, Answer)>, n: nat)
    requires |settled| <= |tags| && AllFinal(settled)
    ensures AllFinal(Pick(tags, settled, n))
  {
    if settled != [] {
      var m := |settled| - 1;
      assert AllFinal(settled[..m]);
      PickFinal(tags, settled[..m], n);
    }
  }

  lemma {:induction false} LifeStep(timeout: real, es: seq<Event>, e: Event, n: nat)
    ensures Life(timeout, es + [e], n)
            == Life(timeout, es, n) + if OwnerOf(timeout, es, e) == n then ReportsOf(timeout, Live(timeout, es), e) else []
  {
    hide Live, ReportsOf, OwnerOf;
    assert (es + [e])[..|es|] == es;
    PickAppend(Tags(timeout, es), AllReports(timeout, es), OwnerOf(timeout, es, e),
               ReportsOf(timeout, Live(timeout, es), e), n);
  }

  // ----- the open assignments -------------------------------------------------------------------------------

  /** Dispatches are the open assignments of a printer, and only the oldest has been seen printing. */
  ghost predicate Follows(es: seq<Event>, printer: string, owners: seq<nat>, ds: seq<P.Dispatch>) {
    && |owners| == |ds|
    && (forall i :: 0 <= i < |owners| ==>
          && owners[i] < |es| && es[owners[i]].Assigned? && es[owners[i]].a.Assignment?
          && es[owners[i]].printer == printer && es[owners[i]].a.queueJobId == ds[i].queueJobId)
    && (forall i, j :: 0 <= i < j < |owners| ==> owners[i] < owners[j])
    && (forall i :: 1 <= i < |ds| ==> !ds[i].reportedPrinting)
  }

  ghost predicate Followed(timeout: real, es: seq<Event>, printer: string) {
    Follows(es, printer, Owners(timeout, es, printer), TrackerOf(Live(timeout, es), printer).dispatches)
  }

  lemma {:induction false} LiveStep(timeout: real, es: seq<Event>, e: Event, printer: string)
    ensures Live(timeout, es + [e]) == Next(timeout, Live(timeout, es), e)
    ensures var t, t' := TrackerOf(Live(timeout, es), printer), TrackerOf(Live(timeout, es + [e]), printer);
            if e.printer != printer || (e.Assigned? && !StartedBy(Live(timeout, es), e)) then t' == t
            else if e.Assigned? then t' == P.RecordDispatch(t, e.a.queueJobId, e.pending, e.now)
            else t' == P.Collect(timeout, t, e.jobs, e.state, e.now).0
  {
    hide L.NextJobs, StartedBy, P.Collect, P.RecordDispatch, StepOf;
    assert (es + [e])[..|es|] == es;
  }

  lemma {:induction false} StartNames(w: World, e: Event)
    requires StartedBy(w, e)
    ensures e.Assigned? && e.a.Assignment?
  {
  }

  lemma {:induction false} StillFollows(es: seq<Event>, e: Event, printer: string, owners: seq<nat>, ds: seq<P.Dispatch>)
    requires Follows(es, printer, owners, ds)
    ensures Follows(es + [e], printer, owners, ds)
  {
  }

  lemma {:induction false} OneMoreFollows(es: seq<Event>, e: Event, owners: seq<nat>, ds: seq<P.Dispatch>, d: P.Dispatch)
    requires Follows(es, e.printer, owners, ds)
    requires e.Assigned? && e.a.Assignment? && d.queueJobId == e.a.queueJobId && !d.reportedPrinting
    ensures Follows(es + [e], e.printer, owners + [|es|], ds + [d])
  {
  }

  lemma {:induction false} RestFollows(es: seq<Event>, printer: string, owners: seq<nat>, ds: seq<P.Dispatch>)
    requires Follows(es, printer, owners, ds) && ds != []
    ensures Follows(es, printer, owners[1..], ds[1..])
  {
    var rest, left := owners[1..], ds[1..];
    forall i | 0 <= i < |rest| ensures rest[i] == owners[i + 1] && left[i] == ds[i + 1] {
    }
  }

  lemma {:induction false} HeadFollows(es: seq<Event>, printer: string, owners: seq<nat>, ds: seq<P.Dispatch>, d: P.Dispatch)
    requires Follows(es, printer, owners, ds) && ds != [] && d.queueJobId == ds[0].queueJobId
    ensures Follows(es, printer, owners, [d] + ds[1..])
  {
    var next := [d] + ds[1..];
    forall i | 1 <= i < |next| ensures next[i] == ds[i] {
    }
  }

  lemma {:induction false} CollectFollows(es: seq<Event>, e: Event, owners: seq<nat>, ds: seq<P.Dispatch>, p': P.Progress, rs: seq<P.Report>)
    requires Follows(es, e.printer, owners, ds) && ds != [] && R.Shaped(ds[0], ds[1..], p', rs)
    ensures |p'.dispatches| < |ds| ==> Follows(es + [e], e.printer, owners[1..], p'.dispatches)
    ensures |p'.dispatches| >= |ds| ==> Follows(es + [e], e.printer, owners, p'.dispatches)
  {
    hide Follows, R.Final, R.States;
    FollowsLength(es, e.printer, owners, ds);
    assert ds == [ds[0]] + ds[1..];
    if p'.dispatches == ds[1..] {
      RestFollows(es, e.printer, owners, ds);
      StillFollows(es, e, e.printer, owners[1..], p'.dispatches);
    } else {
      HeadFollows(es, e.printer, owners, ds, p'.dispatches[0]);
      StillFollows(es, e, e.printer, owners, p'.dispatches);
    }
  }

  lemma {:induction false} FollowedStep(timeout: real, es: seq<Event>, e: Event, printer: string)
    requires Followed(timeout, es, printer)
    ensures Followed(timeout, es + [e], printer)
  {
    hide Live, StartedBy, P.Collect, P.JobKeys, Follows, R.Shaped;
    var w := Live(timeout, es);
    var t, owners := TrackerOf(w, printer), Owners(timeout, es, printer);
    LiveStep(timeout, es, e, printer);
    StillFollows(es, e, printer, owners, t.dispatches);
    FollowsLength(es, printer, owners, t.dispatches);
    assert (es + [e])[..|es|] == es;
    if e.printer == printer && e.Assigned? && StartedBy(w, e) {
      StartNames(w, e);
      OneMoreFollows(es, e, owners, t.dispatches, P.Dispatch(e.a.queueJobId, e.now, false, P.JobKeys(e.pending)));
    } else if e.printer == printer && e.Looked? {
      if t.dispatches == [] {
        IdleCollect(timeout, t, e.jobs, e.state, e.now);
      } else {
        R.CollectShape(timeout, t, e.jobs, e.state, e.now);
        var (p', rs) := P.Collect(timeout, t, e.jobs, e.state, e.now);
        CollectFollows(es, e, owners, t.dispatches, p', rs);
      }
    }
  }

  lemma {:induction false} FollowsLength(es: seq<Event>, printer: string, owners: seq<nat>, ds: seq<P.Dispatch>)
    requires Follows(es, printer, owners, ds)
    ensures |owners| == |ds|
  {
  }

  lemma {:induction false} IdleCollect(timeout: real, t: P.Progress, jobs: seq<P.Job>, state: string, now: real)
    requires t.dispatches == []
    ensures P.Collect(timeout, t, jobs, state, now).0.dispatches == [] && P.Collect(timeout, t, jobs, state, now).1 == []
  {
  }

  lemma {:induction false} AlwaysFollowed(timeout: real, es: seq<Event>, printer: string)
    ensures Followed(timeout, es, printer)
  {
    hide Followed;
    if es == [] {
      NobodyFollowed(timeout, printer);
    } else {
      AlwaysFollowed(timeout, es[..|es| - 1], printer);
      FollowedStep(timeout, es[..|es| - 1], es[|es| - 1], printer);
      assert es == es[..|es| - 1] + [es[|es| - 1]];
    }
  }

  lemma {:induction false} NobodyFollowed(timeout: real, printer: string)
    ensures Followed(timeout, [], printer)
  {
  }

  // ----- every assignment's life ------------------------------------------------------------------------------

  /** The path of an assignment whose print the tracker follows as `d`. */
  predicate OpenPath(d: P.Dispatch, path: seq<P.CloudState>) {
    path == [P.Uploading] + if d.reportedPrinting then [P.Printing] else []
  }

  /** Followed assignments have begun as their dispatch says, the others have ended. */
  ghost predicate LivesWell(owners: seq<nat>, ds: seq<P.Dispatch>, n: nat, path: seq<P.CloudState>)
    requires |owners| == |ds|
  {
    && (forall i :: 0 <= i < |owners| && owners[i] == n ==> OpenPath(ds[i], path))
    && (n !in owners ==> Ended(path))
  }

  lemma {:induction false} StatesConcat(a: seq<D.QueueReport>, b: seq<D.QueueReport>)
    ensures StatesOf(a + b) == StatesOf(a) + StatesOf(b)
  {
  }

  lemma {:induction false} PassedStates(rs: seq<P.Report>)
    ensures StatesOf(AllPassed(rs)) == R.States(rs)
  {
  }

  /** Nothing is reported of an assignment before it is made. */
  lemma {:induction false} NotYetBorn(timeout: real, es: seq<Event>, n: nat)
    requires n >= |es|
    ensures Life(timeout, es, n) == []
  {
    hide Life;
    if es == [] {
      NothingPicked(timeout, n);
    } else {
      var front, e := es[..|es| - 1], es[|es| - 1];
      NotYetBorn(timeout, front, n);
      AlwaysFollowed(timeout, front, e.printer);
      assert es == front + [e];
      LifeStep(timeout, front, e, n);
      OwnerIsOlder(timeout, front, e);
    }
  }

  lemma {:induction false} NothingPicked(timeout: real, n: nat)
    ensures Life(timeout, [], n) == []
  {
  }

  lemma {:induction false} OwnerIsOlder(timeout: real, es: seq<Event>, e: Event)
    requires Followed(timeout, es, e.printer)
    ensures OwnerOf(timeout, es, e) <= |es|
    ensures OwnerOf(timeout, es, e) == |es| && e.Looked? ==> ReportsOf(timeout, Live(timeout, es), e) == []
    ensures OwnerOf(timeout, es, e) < |es| ==>
              e.Looked? && es[OwnerOf(timeout, es, e)].printer == e.printer
              && Owners(timeout, es, e.printer) != [] && OwnerOf(timeout, es, e) == Owners(timeout, es, e.printer)[0]
  {
    hide Live, P.Collect, Owners;
    var t := TrackerOf(Live(timeout, es), e.printer);
    if e.Looked? && t.dispatches == [] {
      IdleCollect(timeout, t, e.jobs, e.state, e.now);
    }
  }

  /** The reports of the assignment itself. */
  lemma {:induction false} FirstReports(timeout: real, w: World, e: Event)
    requires e.Assigned?
    ensures StartedBy(w, e) ==> StatesOf(ReportsOf(timeout, w, e)) == [P.Uploading]
    ensures !StartedBy(w, e) ==> Ended(StatesOf(ReportsOf(timeout, w, e)))
  {
    hide D.PathOk;
    var rs := ReportsOf(timeout, w, e);
    if |rs| == 1 {
      assert StatesOf(rs) == [StateOf(rs[0])];
    } else if |rs| == 2 {
      assert StatesOf(rs) == [StateOf(rs[0]), StateOf(rs[1])];
    }
  }

  predicate Rising(owners: seq<nat>) {
    forall i, j :: 0 <= i < j < |owners| ==> owners[i] < owners[j]
  }

  lemma {:induction false} RestLives(owners: seq<nat>, ds: seq<P.Dispatch>, n: nat, path: seq<P.CloudState>)
    requires |owners| == |ds| && ds != [] && Rising(owners) && n != owners[0] && LivesWell(owners, ds, n, path)
    ensures LivesWell(owners[1..], ds[1..], n, path)
  {
    hide OpenPath, Ended;
    var rest, left := owners[1..], ds[1..];
    forall i | 0 <= i < |rest| ensures rest[i] == owners[i + 1] && left[i] == ds[i + 1] {
    }
    if n in owners {
      var j :| 0 <= j < |owners| && owners[j] == n;
      assert rest[j - 1] == n;
    }
  }

  lemma {:induction false} HeadLives(owners: seq<nat>, ds: seq<P.Dispatch>, d: P.Dispatch, n: nat, path: seq<P.CloudState>, path': seq<P.CloudState>)
    requires |owners| == |ds| && ds != [] && Rising(owners) && LivesWell(owners, ds, n, path)
    requires if n == owners[0] then OpenPath(d, path') else path' == path
    ensures LivesWell(owners, [d] + ds[1..], n, path')
  {
    hide OpenPath, Ended;
    var next := [d] + ds[1..];
    forall i | 1 <= i < |next| ensures next[i] == ds[i] {
    }
  }

  lemma {:induction false} OldestLeaves(owners: seq<nat>, ds: seq<P.Dispatch>, path: seq<P.CloudState>)
    requires |owners| == |ds| && ds != [] && Rising(owners) && Ended(path)
    ensures LivesWell(owners[1..], ds[1..], owners[0], path)
  {
    hide OpenPath, Ended;
    forall i | 0 <= i < |owners[1..]| ensures owners[1..][i] != owners[0] {
    }
  }

  /** One look at the printer moves the oldest followed assignment along and no other. */
  lemma {:induction false} CollectLives(owners: seq<nat>, ds: seq<P.Dispatch>, p': P.Progress, rs: seq<P.Report>,
                                        n: nat, path: seq<P.CloudState>)
    requires |owners| == |ds| && ds != [] && Rising(owners)
    requires R.Shaped(ds[0], ds[1..], p', rs) && LivesWell(owners, ds, n, path)
    ensures var path' := if n == owners[0] then path + R.States(rs) else path;
            if |p'.dispatches| < |ds| then |owners[1..]| == |p'.dispatches| && LivesWell(owners[1..], p'.dispatches, n, path')
            else |owners| == |p'.dispatches| && LivesWell(owners, p'.dispatches, n, path')
  {
    HeadPath(owners, ds, n, path);
    hide LivesWell, Rising, OpenPath, Ended, R.States;
    var path' := if n == owners[0] then path + R.States(rs) else path;
    if n == owners[0] {
      OldestMoves(ds[0], ds[1..], p', rs, path);
    }
    if p'.dispatches == ds[1..] {
      if n == owners[0] {
        OldestLeaves(owners, ds, path');
      } else {
        RestLives(owners, ds, n, path);
      }
    } else {
      HeadMoves(ds, p', rs);
      HeadLives(owners, ds, p'.dispatches[0], n, path, path');
    }
  }

  lemma {:induction false} HeadPath(owners: seq<nat>, ds: seq<P.Dispatch>, n: nat, path: seq<P.CloudState>)
    requires |owners| == |ds| && ds != [] && LivesWell(owners, ds, n, path)
    ensures n == owners[0] ==> OpenPath(ds[0], path)
  {
  }

  lemma {:induction false} HeadMoves(ds: seq<P.Dispatch>, p': P.Progress, rs: seq<P.Report>)
    requires ds != [] && R.Shaped(ds[0], ds[1..], p', rs)
    ensures p'.dispatches == ds[1..] || (|p'.dispatches| == |ds| && p'.dispatches == [p'.dispatches[0]] + ds[1..])
  {
    hide R.Final, R.States;
  }

  lemma {:induction false} OldestMoves(d: P.Dispatch, rest: seq<P.Dispatch>, p': P.Progress, rs: seq<P.Report>, path: seq<P.CloudState>)
    requires R.Shaped(d, rest, p', rs) && OpenPath(d, path)
    ensures if |p'.dispatches| < |rest| + 1 then Ended(path + R.States(rs))
            else p'.dispatches != [] && p'.dispatches[1..] == rest && OpenPath(p'.dispatches[0], path + R.States(rs))
  {
    hide R.States;
    var before := if d.reportedPrinting then [P.Printing] else [];
    assert path + R.States(rs) == [P.Uploading] + (before + R.States(rs));
    if rs == [] {
      R.EmptyStates();
      assert path + [] == path;
    }
  }

  lemma {:induction false} FollowsRises(es: seq<Event>, printer: string, owners: seq<nat>, ds: seq<P.Dispatch>)
    requires Follows(es, printer, owners, ds)
    ensures |owners| == |ds| && Rising(owners)
    ensures forall i :: 0 <= i < |owners| ==> owners[i] < |es| && es[owners[i]].printer == printer
  {
  }

  /** What the last event does to the followed assignments of its printer, and to no other's. */
  lemma {:induction false} OwnersStep(timeout: real, es: seq<Event>, e: Event, printer: string)
    ensures var w := Live(timeout, es);
            Owners(timeout, es + [e], printer)
            == if e.printer != printer || (e.Assigned? && !StartedBy(w, e)) then Owners(timeout, es, printer)
               else if e.Assigned? then Owners(timeout, es, printer) + [|es|]
               else if Owners(timeout, es, printer) != []
                       && |TrackerOf(Next(timeout, w, e), printer).dispatches| < |TrackerOf(w, printer).dispatches|
                    then Owners(timeout, es, printer)[1..]
               else Owners(timeout, es, printer)
  {
    hide Live, StartedBy, Next;
    assert (es + [e])[..|es|] == es;
  }

  /** The path of the assignment just made. */
  lemma {:induction false} NewLife(timeout: real, es: seq<Event>, e: Event)
    ensures var n, p := |es|, e.printer;
            var owners, ds := Owners(timeout, es + [e], p), TrackerOf(Live(timeout, es + [e]), p).dispatches;
            |owners| == |ds| && LivesWell(owners, ds, n, StatesOf(Life(timeout, es + [e], n)))
  {
    hide Live, StartedBy, Follows, Ended, Life, P.Collect, P.JobKeys, Next, ReportsOf;
    var n, p := |es|, e.printer;
    var w, owners := Live(timeout, es), Owners(timeout, es, p);
    AlwaysFollowed(timeout, es, p);
    AlwaysFollowed(timeout, es + [e], p);
    FollowsRises(es, p, owners, TrackerOf(w, p).dispatches);
    FollowsRises(es + [e], p, Owners(timeout, es + [e], p), TrackerOf(Live(timeout, es + [e]), p).dispatches);
    OwnersStep(timeout, es, e, p);
    LiveStep(timeout, es, e, p);
    NotYetBorn(timeout, es, n);
    LifeStep(timeout, es, e, n);
    OwnerIsOlder(timeout, es, e);
    hide Owners;
    if e.Assigned? {
      FirstReports(timeout, w, e);
      assert [] + ReportsOf(timeout, w, e) == ReportsOf(timeout, w, e);
      if StartedBy(w, e) {
        StartNames(w, e);
        StartsOpen(owners, TrackerOf(w, p).dispatches, P.Dispatch(e.a.queueJobId, e.now, false, P.JobKeys(e.pending)), n);
      }
    } else {
      assert Life(timeout, es + [e], n) == [];
      NothingHasEnded();
    }
  }

  lemma {:induction false} NothingHasEnded()
    ensures Ended(StatesOf([]))
  {
  }

  lemma {:induction false} StartsOpen(owners: seq<nat>, ds: seq<P.Dispatch>, d: P.Dispatch, n: nat)
    requires |owners| == |ds| && n !in owners && !d.reportedPrinting
    ensures LivesWell(owners + [n], ds + [d], n, [P.Uploading])
  {
    var all := owners + [n];
    assert all[|owners|] == n;
    assert [P.Uploading] + [] == [P.Uploading];
  }

  lemma {:induction false} StartsBeside(owners: seq<nat>, ds: seq<P.Dispatch>, o: nat, d: P.Dispatch, n: nat, path: seq<P.CloudState>)
    requires |owners| == |ds| && n != o && LivesWell(owners, ds, n, path)
    ensures LivesWell(owners + [o], ds + [d], n, path)
  {
    hide OpenPath, Ended;
  }

  /** Over any run every followed assignment has begun as its dispatch says, and every other one has ended. */
  lemma {:induction false} EveryLifeGoesWell(timeout: real, es: seq<Event>, n: nat)
    requires n < |es|
    ensures var p := es[n].printer;
            var owners, ds := Owners(timeout, es, p), TrackerOf(Live(timeout, es), p).dispatches;
            |owners| == |ds| && LivesWell(owners, ds, n, StatesOf(Life(timeout, es, n)))
  {
    var front, e := es[..|es| - 1], es[|es| - 1];
    assert es == front + [e];
    if n == |front| {
      NewLife(timeout, front, e);
    } else {
      EveryLifeGoesWell(timeout, front, n);
      OldLife(timeout, front, e, n);
    }
  }

  lemma {:induction false} OldLife(timeout: real, es: seq<Event>, e: Event, n: nat)
    requires n < |es|
    requires var p := es[n].printer;
             var owners, ds := Owners(timeout, es, p), TrackerOf(Live(timeout, es), p).dispatches;
             |owners| == |ds| && LivesWell(owners, ds, n, StatesOf(Life(timeout, es, n)))
    ensures var p := es[n].printer;
            var owners, ds := Owners(timeout, es + [e], p), TrackerOf(Live(timeout, es + [e]), p).dispatches;
            |owners| == |ds| && LivesWell(owners, ds, n, StatesOf(Life(timeout, es + [e], n)))
  {
    hide Live, StartedBy, Follows, LivesWell, Life, P.Collect, P.JobKeys, Next, Rising, R.Shaped;
    var p := es[n].printer;
    var w, owners := Live(timeout, es), Owners(timeout, es, p);
    var t := TrackerOf(w, p);
    AlwaysFollowed(timeout, es, p);
    AlwaysFollowed(timeout, es, e.printer);
    FollowsRises(es, p, owners, t.dispatches);
    OwnersStep(timeout, es, e, p);
    LiveStep(timeout, es, e, p);
    LifeStep(timeout, es, e, n);
    OwnerIsOlder(timeout, es, e);
    hide Owners, ReportsOf, OwnerOf;
    assert Life(timeout, es, n) + [] == Life(timeout, es, n);
    if e.printer == p && e.Assigned? && StartedBy(w, e) {
      StartNames(w, e);
      StartsBeside(owners, t.dispatches, |es|, P.Dispatch(e.a.queueJobId, e.now, false, P.JobKeys(e.pending)), n,
                   StatesOf(Life(timeout, es, n)));
    } else if e.printer == p && e.Looked? && t.dispatches != [] {
      var (p', rs) := P.Collect(timeout, t, e.jobs, e.state, e.now);
      R.CollectShape(timeout, t, e.jobs, e.state, e.now);
      CollectLives(owners, t.dispatches, p', rs, n, StatesOf(Life(timeout, es, n)));
      LookReports(timeout, w, e);
      StatesConcat(Life(timeout, es, n), ReportsOf(timeout, w, e));
      LookOwner(timeout, es, e);
    } else if e.printer == p && e.Looked? {
      IdleCollect(timeout, t, e.jobs, e.state, e.now);
    }
  }

  lemma {:induction false} LookReports(timeout: real, w: World, e: Event)
    requires e.Looked?
    ensures StatesOf(ReportsOf(timeout, w, e))
            == R.States(P.Collect(timeout, TrackerOf(w, e.printer), e.jobs, e.state, e.now).1)
  {
    hide P.Collect, StatesOf, R.States, AllPassed;
    PassedStates(P.Collect(timeout, TrackerOf(w, e.printer), e.jobs, e.state, e.now).1);
  }

  lemma {:induction false} LookOwner(timeout: real, es: seq<Event>, e: Event)
    requires e.Looked? && Owners(timeout, es, e.printer) != []
    ensures OwnerOf(timeout, es, e) == Owners(timeout, es, e.printer)[0]
  {
    hide Owners;
  }

  /** Over any run what is reported of an assignment is a path of the transition map from the assignment on. */
  lemma {:induction false} EveryLifeIsLegal(timeout: real, es: seq<Event>, n: nat)
    requires n < |es|
    ensures LegalFromAssigned(StatesOf(Life(timeout, es, n)))
    ensures Ended(StatesOf(Life(timeout, es, n))) || Begun(StatesOf(Life(timeout, es, n)))
  {
    hide Live, Owners, Life, LegalFromAssigned;
    EveryLifeGoesWell(timeout, es, n);
    var owners := Owners(timeout, es, es[n].printer);
    if n in owners {
      var i :| 0 <= i < |owners| && owners[i] == n;
      assert [P.Uploading] + [P.Printing] == [P.Uploading, P.Printing] && [P.Uploading] + [] == [P.Uploading];
    }
    LegalIsSevenPaths(StatesOf(Life(timeout, es, n)));
  }

  // ----- every report belongs to one assignment -----------------------------------------------------------------

  ghost predicate BelongsTo(es: seq<Event>, n: nat, r: D.QueueReport) {
    n < |es| && es[n].Assigned? && es[n].a.Assignment? && r.queueJobId == es[n].a.queueJobId
  }

  lemma {:induction false} StepBelongs(timeout: real, es: seq<Event>, e: Event)
    ensures forall r :: r in ReportsOf(timeout, Live(timeout, es), e) ==> BelongsTo(es + [e], OwnerOf(timeout, es, e), r)
  {
    hide Live, Owners, P.Collect, R.Final, D.PathOk;
    var t := TrackerOf(Live(timeout, es), e.printer);
    AlwaysFollowed(timeout, es, e.printer);
    if e.Looked? {
      if t.dispatches == [] {
        IdleCollect(timeout, t, e.jobs, e.state, e.now);
      } else {
        R.CollectShape(timeout, t, e.jobs, e.state, e.now);
      }
    }
  }

  /** Every report of the list is about the queue job of the assignment it is counted to. */
  lemma {:induction false} EveryReportBelongs(timeout: real, es: seq<Event>, i: nat)
    requires i < |AllReports(timeout, es)|
    ensures BelongsTo(es, Tags(timeout, es)[i], AllReports(timeout, es)[i])
  {
    hide Live, ReportsOf, OwnerOf;
    var front, e := es[..|es| - 1], es[|es| - 1];
    assert es == front + [e];
    if i < |AllReports(timeout, front)| {
      EveryReportBelongs(timeout, front, i);
    } else {
      StepBelongs(timeout, front, e);
      assert AllReports(timeout, es)[i] in ReportsOf(timeout, Live(timeout, front), e);
    }
  }

  // ----- what the cloud takes -------------------------------------------------------------------------------------

  /** A report the map admits only after another. */
  predicate Needs(after: P.CloudState, before: P.CloudState) {
    || (before == P.Uploading && (after == P.Printing || after == P.Completed))
    || (before == P.Printing && after == P.Completed)
  }

  /** The cloud dropped a report and then took one that needs it: `uploading` before `printing` or `completed`, or
      `printing` before `completed`. */
  ghost predicate Skips(answers: seq<(D.QueueReport, Answer)>) {
    exists i, j :: 0 <= i < j < |answers|
      && answers[i].1 == Dropped && answers[j].1 == Sent && Needs(StateOf(answers[j].0), StateOf(answers[i].0))
  }

  /** The answers an assignment's reports have had so far. */
  function AnswersTo(timeout: real, es: seq<Event>, settled: seq<(D.QueueReport, Answer)>, n: nat): seq<(D.QueueReport, Answer)>
    requires |settled| <= |AllReports(timeout, es)|
  {
    Pick(Tags(timeout, es), settled, n)
  }

  function Mark(a: (D.QueueReport, Answer)): seq<P.CloudState> {
    if a.1 == Sent then [StateOf(a.0)] else []
  }

  lemma {:induction false} TakenSnoc(answers: seq<(D.QueueReport, Answer)>, a: (D.QueueReport, Answer))
    ensures StatesOf(Taken(answers + [a])) == StatesOf(Taken(answers)) + Mark(a)
  {
    var all := answers + [a];
    assert all[..|answers|] == answers;
    StatesConcat(Taken(answers), if a.1 == Sent then [a.0] else []);
  }

  lemma {:induction false} TakenMarks(a: (D.QueueReport, Answer), b: (D.QueueReport, Answer), c: (D.QueueReport, Answer))
    ensures StatesOf(Taken<D.QueueReport>([])) == []
    ensures StatesOf(Taken([a])) == Mark(a)
    ensures StatesOf(Taken([a, b])) == Mark(a) + Mark(b)
    ensures StatesOf(Taken([a, b, c])) == Mark(a) + Mark(b) + Mark(c)
  {
    var none: seq<(D.QueueReport, Answer)> := [];
    TakenSnoc(none, a);
    TakenSnoc([a], b);
    TakenSnoc([a, b], c);
    assert none + [a] == [a] && [a] + [b] == [a, b] && [a, b] + [c] == [a, b, c];
  }

  /** Two reports of which the second may be `held`, `printing` or `completed`. */
  lemma {:induction false} TwoAnswers(a: (D.QueueReport, Answer), b: (D.QueueReport, Answer))
    requires a.1 != RetryLater && b.1 != RetryLater
    requires StateOf(a.0) == P.Uploading && (StateOf(b.0) == P.Held || StateOf(b.0) == P.Printing)
    ensures Ended(Mark(a) + Mark(b)) || Begun(Mark(a) + Mark(b)) <==> !Skips([a, b])
  {
    var answers := [a, b];
    assert answers[0] == a && answers[1] == b;
    assert Mark(a) + Mark(b) == if a.1 != Sent then Mark(b) else if b.1 != Sent then Mark(a) else [StateOf(a.0), StateOf(b.0)];
  }

  lemma {:induction false} ThreeAnswers(a: (D.QueueReport, Answer), b: (D.QueueReport, Answer), c: (D.QueueReport, Answer))
    requires a.1 != RetryLater && b.1 != RetryLater && c.1 != RetryLater
    requires StateOf(a.0) == P.Uploading && StateOf(b.0) == P.Printing && (StateOf(c.0) == P.Held || StateOf(c.0) == P.Completed)
    ensures Ended(Mark(a) + Mark(b) + Mark(c)) || Begun(Mark(a) + Mark(b) + Mark(c)) <==> !Skips([a, b, c])
  {
    hide Skips;
    ThreeSkips(a, b, c);
    assert Mark(a) + Mark(b) + Mark(c)
        == if a.1 != Sent then (if b.1 != Sent then Mark(c) else if c.1 != Sent then Mark(b) else [StateOf(b.0), StateOf(c.0)])
           else if b.1 != Sent then (if c.1 != Sent then Mark(a) else [StateOf(a.0), StateOf(c.0)])
           else if c.1 != Sent then [StateOf(a.0), StateOf(b.0)]
           else [StateOf(a.0), StateOf(b.0), StateOf(c.0)];
  }

  lemma {:induction false} ThreeSkips(a: (D.QueueReport, Answer), b: (D.QueueReport, Answer), c: (D.QueueReport, Answer))
    ensures Skips([a, b, c])
       <==> || (a.1 == Dropped && b.1 == Sent && Needs(StateOf(b.0), StateOf(a.0)))
            || (a.1 == Dropped && c.1 == Sent && Needs(StateOf(c.0), StateOf(a.0)))
            || (b.1 == Dropped && c.1 == Sent && Needs(StateOf(c.0), StateOf(b.0)))
  {
    var answers := [a, b, c];
    assert answers[0] == a && answers[1] == b && answers[2] == c;
  }

  /** What the cloud took of a legal life is a legal path if and only if it skipped nothing it needed. */
  lemma {:induction false} TakenIsLegalExactly(life: seq<D.QueueReport>, answers: seq<(D.QueueReport, Answer)>)
    requires LegalFromAssigned(StatesOf(life)) && Firsts(answers) <= life && AllFinal(answers)
    ensures LegalFromAssigned(StatesOf(Taken(answers))) <==> !Skips(answers)
  {
    hide Taken, LegalFromAssigned, Skips, Needs, Mark;
    LegalIsSevenPaths(StatesOf(life));
    LegalIsSevenPaths(StatesOf(Taken(answers)));
    assert |StatesOf(life)| == |life| && |Firsts(answers)| == |answers|;
    forall i | 0 <= i < |answers| ensures StateOf(answers[i].0) == StatesOf(life)[i] {
      assert answers[i].0 == Firsts(answers)[i] == life[i];
    }
    if |answers| == 0 {
      assert answers == [];
      NoAnswers();
    } else if |answers| == 1 {
      assert answers == [answers[0]];
      OneAnswer(answers[0]);
      TakenMarks(answers[0], answers[0], answers[0]);
    } else if |answers| == 2 {
      assert answers == [answers[0], answers[1]];
      TakenMarks(answers[0], answers[1], answers[1]);
      TwoAnswers(answers[0], answers[1]);
    } else {
      assert answers == [answers[0], answers[1], answers[2]];
      TakenMarks(answers[0], answers[1], answers[2]);
      ThreeAnswers(answers[0], answers[1], answers[2]);
    }
  }

  lemma {:induction false} NoAnswers()
    ensures StatesOf(Taken<D.QueueReport>([])) == [] && !Skips([])
  {
  }

  lemma {:induction false} OneAnswer(a: (D.QueueReport, Answer))
    requires StateOf(a.0) == P.Uploading || StateOf(a.0) == P.Held
    ensures (Ended(Mark(a)) || Begun(Mark(a))) && !Skips([a])
  {
  }

  const EMPTY_OUTBOX: Outbox<D.QueueReport> := Outbox([], [])

  /** Over any run of assignments and looks at any printers and any run of heartbeats that sends all their reports,
      whatever the cloud answers: what it took of an assignment is a path of its transition map from the assignment on
      if and only if it dropped no report and then took one that needs it. */
  lemma {:induction false} CloudSeesLegalPathsExactly(timeout: real, es: seq<Event>, beats: seq<Beat<D.QueueReport>>, n: nat)
    requires Answered(EMPTY_OUTBOX, beats) && Produced(beats) == AllReports(timeout, es) && n < |es|
    ensures |AfterBeats(EMPTY_OUTBOX, beats).settled| <= |AllReports(timeout, es)|
    ensures var answers := AnswersTo(timeout, es, AfterBeats(EMPTY_OUTBOX, beats).settled, n);
            LegalFromAssigned(StatesOf(Taken(answers))) <==> !Skips(answers)
  {
    hide AllReports, Tags, LegalFromAssigned, Taken, StatesOf, Skips, AfterBeats, Produced, Pick, AllFinal, Ended, Begun;
    NothingSettled();
    DeliveredInOrder(EMPTY_OUTBOX, beats);
    var o := AfterBeats(EMPTY_OUTBOX, beats);
    var reports, tags := AllReports(timeout, es), Tags(timeout, es);
    var m := |o.settled|;
    assert Firsts(o.settled) + o.waiting == reports;
    assert reports[..m] == Firsts(o.settled);
    EveryLifeIsLegal(timeout, es, n);
    PickPrefix(tags, reports, n, m);
    PickFirsts(tags, o.settled, n);
    PickFinal(tags, o.settled, n);
    TakenIsLegalExactly(Life(timeout, es, n), AnswersTo(timeout, es, o.settled, n));
  }

  lemma {:induction false} NothingSettled()
    ensures AllFinal(EMPTY_OUTBOX.settled)
    ensures Firsts(EMPTY_OUTBOX.settled) + EMPTY_OUTBOX.waiting == []
  {
  }

  /** Where nothing is dropped every assignment is seen along a legal path, however many reports still wait. */
  lemma {:induction false} NothingDroppedIsLegal(timeout: real, es: seq<Event>, beats: seq<Beat<D.QueueReport>>, n: nat)
    requires Answered(EMPTY_OUTBOX, beats) && Produced(beats) == AllReports(timeout, es) && n < |es|
    requires forall a :: a in AfterBeats(EMPTY_OUTBOX, beats).settled ==> a.1 != Dropped
    ensures |AfterBeats(EMPTY_OUTBOX, beats).settled| <= |AllReports(timeout, es)|
    ensures LegalFromAssigned(StatesOf(Taken(AnswersTo(timeout, es, AfterBeats(EMPTY_OUTBOX, beats).settled, n))))
  {
    hide AllReports, Tags, LegalFromAssigned, Taken, StatesOf, AfterBeats, Produced;
    CloudSeesLegalPathsExactly(timeout, es, beats, n);
    PickedFrom(Tags(timeout, es), AfterBeats(EMPTY_OUTBOX, beats).settled, n);
  }

  lemma {:induction false} PickedFrom<T>(tags: seq<nat>, items: seq<T>, n: nat)
    requires |items| <= |tags|
    ensures forall i :: 0 <= i < |Pick(tags, items, n)| ==> Pick(tags, items, n)[i] in items
  {
    if items != [] {
      var m := |items| - 1;
      PickedFrom(tags, items[..m], n);
      assert items[m] in items;
    }
  }

  // ----- both ways to skip happen ---------------------------------------------------------------------------------

  /** A job that is assigned, starts, and is found finished at the next look. */
  function QuickJob(printer: string, id: string, key: string): seq<Event> {
    [Assigned(printer, D.Assignment(id, true, "f"), D.Accepted, 0.0, []), Looked(printer, [P.Job(key, "done")], "", 1.0)]
  }

  lemma {:induction false} ListStep(timeout: real, es: seq<Event>, e: Event)
    ensures AllReports(timeout, es + [e]) == AllReports(timeout, es) + ReportsOf(timeout, Live(timeout, es), e)
    ensures Tags(timeout, es + [e])
            == Tags(timeout, es) + Repeat(OwnerOf(timeout, es, e), |ReportsOf(timeout, Live(timeout, es), e)|)
  {
    hide Live, ReportsOf, OwnerOf, Repeat;
    assert (es + [e])[..|es|] == es;
  }

  lemma {:induction false} NothingListed(timeout: real)
    ensures AllReports(timeout, []) == [] && Tags(timeout, []) == [] && Live(timeout, []) == START
    ensures forall printer :: Owners(timeout, [], printer) == []
  {
  }

  lemma {:induction false} QuickStarts(timeout: real, printer: string, id: string, key: string)
    ensures var first := QuickJob(printer, id, key)[0];
            StartedBy(START, first) && ReportsOf(timeout, START, first) == [D.QueueReport(id, D.Uploading)]
  {
    var a := D.Assignment(id, true, "f");
    assert D.PathOk(a) by {
      assert "f"[0] == 'f' && "."[0] == '.' && ".."[0] == '.';
    }
    hide D.PathOk;
  }

  /** The job started, and its printer follows it. */
  lemma {:induction false} QuickStart(timeout: real, printer: string, id: string, key: string)
    ensures var first := QuickJob(printer, id, key)[0];
            && ReportsOf(timeout, START, first) == [D.QueueReport(id, D.Uploading)]
            && TrackerOf(Live(timeout, [first]), printer) == P.Progress([P.Dispatch(id, 0.0, false, {})], {})
            && Owners(timeout, [first], printer) == [0]
  {
    var first := QuickJob(printer, id, key)[0];
    hide Live, Owners, StartedBy, ReportsOf, P.Collect;
    NothingListed(timeout);
    QuickStarts(timeout, printer, id, key);
    LiveStep(timeout, [], first, printer);
    OwnersStep(timeout, [], first, printer);
    assert [] + [first] == [first] && [] + [0] == [0];
    NoKeys(id);
  }

  lemma {:induction false} NoKeys(id: string)
    ensures P.RecordDispatch(P.EMPTY, id, [], 0.0) == P.Progress([P.Dispatch(id, 0.0, false, {})], {})
    ensures forall printer :: TrackerOf(START, printer) == P.EMPTY
  {
    assert P.JobKeys([]) == {};
    assert [] + [P.Dispatch(id, 0.0, false, {})] == [P.Dispatch(id, 0.0, false, {})];
  }

  lemma {:induction false} QuickLook(timeout: real, w: World, printer: string, id: string, key: string)
    requires key != "" && TrackerOf(w, printer) == P.Progress([P.Dispatch(id, 0.0, false, {})], {})
    ensures ReportsOf(timeout, w, QuickJob(printer, id, key)[1])
            == [D.QueueReport(id, D.Printing), D.QueueReport(id, D.Completed)]
  {
    hide P.Collect;
    QuickCollect(timeout, id, key);
  }

  lemma {:induction false} QuickJobReports(timeout: real, printer: string, id: string, key: string)
    requires key != ""
    ensures AllReports(timeout, QuickJob(printer, id, key))
            == [D.QueueReport(id, D.Uploading), D.QueueReport(id, D.Printing), D.QueueReport(id, D.Completed)]
    ensures Tags(timeout, QuickJob(printer, id, key)) == [0, 0, 0]
  {
    hide Live, Owners, ReportsOf, AllReports, Tags;
    var es := QuickJob(printer, id, key);
    assert es == [es[0]] + [es[1]] && [] + [es[0]] == [es[0]];
    NothingListed(timeout);
    QuickStart(timeout, printer, id, key);
    QuickLook(timeout, Live(timeout, [es[0]]), printer, id, key);
    ListStep(timeout, [], es[0]);
    ListStep(timeout, [es[0]], es[1]);
    LookOwner(timeout, [es[0]], es[1]);
  }

  lemma {:induction false} QuickCollect(timeout: real, id: string, key: string)
    requires key != ""
    ensures var d, job := P.Dispatch(id, 0.0, false, {}), P.Job(key, "done");
            P.Collect(timeout, P.Progress([d], {}), [job], "", 1.0).1 == [P.PrintingReport(d), P.Settle(d, job)]
  {
    var d, job := P.Dispatch(id, 0.0, false, {}), P.Job(key, "done");
    var p := P.Progress([d], {});
    assert [job][1..] == [];
    assert P.Candidates([], d, {}) == [];
    assert P.Candidates([job], d, {}) == [job];
    assert p.linked * P.JobKeys([job]) == {};
  }

  /** An expired login on either of the first two reports: the cloud is told that a job prints and completes which it
      holds as assigned, or that a job completes which it holds as uploading. */
  lemma {:induction false} RefusedReportIsSkipped(timeout: real, printer: string, id: string, key: string)
    requires key != ""
    ensures var reports := AllReports(timeout, QuickJob(printer, id, key));
            && |reports| == 3 && Life(timeout, QuickJob(printer, id, key), 0) == reports
            && StatesOf(Taken(Zip(reports, [Some(401), Some(200), Some(200)]))) == [P.Printing, P.Completed]
            && !LegalFromAssigned([P.Printing, P.Completed])
            && StatesOf(Taken(Zip(reports, [Some(200), Some(401), Some(200)]))) == [P.Uploading, P.Completed]
            && !LegalFromAssigned([P.Uploading, P.Completed])
    ensures Settled([Some(401), Some(200), Some(200)]) == 3 && Settled([Some(200), Some(401), Some(200)]) == 3
  {
    hide Live, ReportsOf, Owners;
    QuickJobReports(timeout, printer, id, key);
    var reports := AllReports(timeout, QuickJob(printer, id, key));
    var u, p, c := reports[0], reports[1], reports[2];
    assert Zip(reports, [Some(401), Some(200), Some(200)]) == [(u, Dropped), (p, Sent), (c, Sent)];
    assert Zip(reports, [Some(200), Some(401), Some(200)]) == [(u, Sent), (p, Dropped), (c, Sent)];
    TakenMarks((u, Dropped), (p, Sent), (c, Sent));
    TakenMarks((u, Sent), (p, Dropped), (c, Sent));
    LegalIsSevenPaths([P.Printing, P.Completed]);
    LegalIsSevenPaths([P.Uploading, P.Completed]);
    AllPicked(Tags(timeout, QuickJob(printer, id, key)), reports, 0);
    AllSettled(Some(401), Some(200), Some(200));
    AllSettled(Some(200), Some(401), Some(200));
  }

  lemma {:induction false} AllSettled(a: Option<int>, b: Option<int>, c: Option<int>)
    requires AnswerOf(a) != RetryLater && AnswerOf(b) != RetryLater && AnswerOf(c) != RetryLater
    ensures Settled([a, b, c]) == 3
  {
    hide AnswerOf;
    assert [a, b, c][1..] == [b, c] && [b, c][1..] == [c] && [c][1..] == [];
    assert Settled([c]) == 1 && Settled([b, c]) == 2;
  }

  lemma {:induction false} AllPicked<T>(tags: seq<nat>, items: seq<T>, n: nat)
    requires |items| <= |tags| && forall i :: 0 <= i < |items| ==> tags[i] == n
    ensures Pick(tags, items, n) == items
  {
    if items != [] {
      AllPicked(tags, items[..|items| - 1], n);
    }
  }
}
