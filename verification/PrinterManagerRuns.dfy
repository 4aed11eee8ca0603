/** No terminal job is lost between its printer and the cloud, through any interleaving of
    observations, acknowledgements and reconciles. */
module PrinterManagerRuns {
  import opened Prelude
  import opened JobTracking
  import opened PrinterManagers

  function Jobs(gone: seq<(JobRecord, Exit)>): seq<JobRecord> {
    seq(|gone|, i requires 0 <= i < |gone| => gone[i].0)
  }

  /** Every job the fleet has taken in: still pending, or gone. */
  ghost function Ledger(f: Fleet): multiset<JobRecord> {
    multiset(Pending(f)) + multiset(Jobs(f.gone))
  }

  // ----- sequence facts ---------------------------------------------------------------------------

  lemma {:induction false} BufferedConcat(a: seq<Adapter>, b: seq<Adapter>)
    ensures Buffered(a + b) == Buffered(a) + Buffered(b)
  {
    if a == [] {
      assert a + b == b;
    } else {
      var c := a + b;
      assert c[0] == a[0] && c[1..] == a[1..] + b;
      BufferedConcat(a[1..], b);
      assert Buffered(c) == a[0].buffer + (Buffered(a[1..]) + Buffered(b));
    }
  }

  lemma {:induction false} BufferedAround(adapters: seq<Adapter>, i: nat)
    requires i < |adapters|
    ensures Buffered(adapters) == Buffered(adapters[..i]) + adapters[i].buffer + Buffered(adapters[i + 1..])
  {
    assert adapters == adapters[..i] + [adapters[i]] + adapters[i + 1..];
    BufferedConcat(adapters[..i] + [adapters[i]], adapters[i + 1..]);
    BufferedConcat(adapters[..i], [adapters[i]]);
    assert [adapters[i]][1..] == [];
  }

  lemma {:induction false} JobsLeft(gone: seq<(JobRecord, Exit)>, jobs: seq<JobRecord>, exit: Exit)
    ensures Jobs(gone + Left(jobs, exit)) == Jobs(gone) + jobs
  {
  }

  lemma {:induction false} WithWithout(jobs: seq<JobRecord>, keys: set<JobKey>)
    ensures multiset(jobs) == multiset(With(jobs, keys)) + multiset(Without(jobs, keys))
  {
    if jobs != [] {
      var w, wo := With(jobs[1..], keys), Without(jobs[1..], keys);
      WithWithout(jobs[1..], keys);
      HeadTail(jobs);
      assert multiset([jobs[0]] + w) == multiset{jobs[0]} + multiset(w);
      assert multiset([jobs[0]] + wo) == multiset{jobs[0]} + multiset(wo);
    }
  }

  lemma {:induction false} WithNames(jobs: seq<JobRecord>, keys: set<JobKey>)
    ensures forall i :: 0 <= i < |With(jobs, keys)| ==> With(jobs, keys)[i].key in keys && With(jobs, keys)[i] in jobs
  {
    if jobs != [] {
      WithNames(jobs[1..], keys);
    }
  }

  lemma {:induction false} WithoutConcat(a: seq<JobRecord>, b: seq<JobRecord>, keys: set<JobKey>)
    ensures Without(a + b, keys) == Without(a, keys) + Without(b, keys)
  {
    if a == [] {
      assert a + b == b;
    } else {
      var c := a + b;
      assert c[0] == a[0] && c[1..] == a[1..] + b;
      WithoutConcat(a[1..], b, keys);
    }
  }

  lemma {:induction false} AckBuffered(adapters: seq<Adapter>, keys: set<JobKey>)
    ensures Buffered(AckAdapters(adapters, keys, {})) == Without(Buffered(adapters), keys)
    ensures Readable(adapters, {}) == Buffered(adapters)
  {
    if adapters != [] {
      AckBuffered(adapters[1..], keys);
      WithoutConcat(adapters[0].buffer, Buffered(adapters[1..]), keys);
    }
  }

  lemma {:induction false} WithConcat(a: seq<JobRecord>, b: seq<JobRecord>, keys: set<JobKey>)
    ensures With(a + b, keys) == With(a, keys) + With(b, keys)
  {
    if a == [] {
      assert a + b == b;
    } else {
      var c := a + b;
      assert c[0] == a[0] && c[1..] == a[1..] + b;
      WithConcat(a[1..], b, keys);
      Regroup(if a[0].key in keys then [a[0]] else [], With(a[1..], keys), With(b, keys));
    }
  }

  /** An acknowledgement splits the buffers into what it names, where it gets through, and the rest. */
  lemma {:induction false} AckSplits(adapters: seq<Adapter>, keys: set<JobKey>, failing: set<string>)
    ensures multiset(Buffered(adapters))
         == multiset(Buffered(AckAdapters(adapters, keys, failing))) + multiset(With(Readable(adapters, failing), keys))
  {
    if adapters != [] {
      hide With, Without;
      var a, rest := adapters[0], adapters[1..];
      AckSplits(rest, keys, failing);
      var kept := Buffered(AckAdapters(rest, keys, failing));
      assert AckAdapters(adapters, keys, failing)[1..] == AckAdapters(rest, keys, failing);
      if a.id in failing {
        assert [] + Readable(rest, failing) == Readable(rest, failing);
      } else {
        WithConcat(a.buffer, Readable(rest, failing), keys);
        WithWithout(a.buffer, keys);
        SplitTogether(a.buffer, Buffered(rest), Without(a.buffer, keys), kept, With(a.buffer, keys), With(Readable(rest, failing), keys));
      }
    }
  }

  lemma {:induction false} SplitTogether<T>(a: seq<T>, b: seq<T>, a1: seq<T>, b1: seq<T>, a2: seq<T>, b2: seq<T>)
    requires multiset(a) == multiset(a2) + multiset(a1) && multiset(b) == multiset(b1) + multiset(b2)
    ensures multiset(a + b) == multiset(a1 + b1) + multiset(a2 + b2)
  {
  }

  // ----- one step at a time -----------------------------------------------------------------------

  /** What an acknowledgement leaves pending: when no adapter raises, everything it does not name, in order;
      and always an adapter that raises keeps its buffer, and nothing disappears. */
  lemma {:induction false} AckIsExact(f: Fleet, keys: set<JobKey>, failing: set<string>)
    ensures failing == {} ==> Pending(AckJobs(f, keys, failing)) == Without(Pending(f), keys)
    ensures |AckJobs(f, keys, failing).adapters| == |f.adapters|
    ensures forall i :: 0 <= i < |f.adapters| ==> AckJobs(f, keys, failing).adapters[i] == AckAdapter(f.adapters[i], keys, failing)
    ensures Ledger(AckJobs(f, keys, failing)) == Ledger(f)
  {
    hide With, Without, Buffered, Readable, AckAdapters, Jobs, Left, AckAdapter;
    AckBuffered(f.adapters, keys);
    AckAdaptersAt(f.adapters, keys, failing);
    WithoutConcat(f.orphans, Buffered(f.adapters), keys);
    AckSplits(f.adapters, keys, failing);
    WithWithout(f.orphans, keys);
    WithConcat(f.orphans, Readable(f.adapters, failing), keys);
    var out := With(Sendable(f, failing), keys);
    JobsLeft(f.gone, out, Acked(keys));
    Moved(multiset(Pending(f)), multiset(Pending(AckJobs(f, keys, failing))), multiset(out),
          multiset(Jobs(f.gone)), multiset(Jobs(f.gone) + out), multiset{});
  }

  lemma {:induction false} TakeAdapter(f: Fleet, i: nat)
    requires i < |f.adapters|
    ensures var rest := Buffered(f.adapters[..i] + f.adapters[i + 1..]);
            && multiset(Pending(f)) == multiset(f.orphans + rest) + multiset(f.adapters[i].buffer)
            && multiset(Pending(f)) == multiset(f.orphans + f.adapters[i].buffer + rest)
  {
    var jobs := f.adapters[i].buffer;
    var front, back := Buffered(f.adapters[..i]), Buffered(f.adapters[i + 1..]);
    BufferedAround(f.adapters, i);
    BufferedConcat(f.adapters[..i], f.adapters[i + 1..]);
    var around := multiset(f.orphans) + multiset(front) + multiset(back);
    assert multiset(f.orphans + (front + jobs + back)) == around + multiset(jobs);
    assert multiset(f.orphans + (front + back)) == around;
    assert multiset(f.orphans + jobs + (front + back)) == around + multiset(jobs);
  }

  lemma {:induction false} StopKeepsLedger(f: Fleet, id: string, failing: set<string>)
    ensures Ledger(Stop(f, id, failing)) == Ledger(f)
    ensures id !in failing ==> multiset(Pending(Stop(f, id, failing))) == multiset(Pending(f))
    ensures id !in failing ==> Stop(f, id, failing).gone == f.gone
  {
    hide Buffered, Jobs, Left;
    var i := IndexOf(f.adapters, id);
    if i < |f.adapters| {
      var jobs := f.adapters[i].buffer;
      TakeAdapter(f, i);
      if id in failing {
        JobsLeft(f.gone, jobs, RescueFailed);
        assert multiset(Jobs(f.gone) + jobs) == multiset(Jobs(f.gone)) + multiset(jobs);
      }
    }
  }

  lemma {:induction false} StopUnlistedKeepsLedger(f: Fleet, ids: seq<string>, desired: set<string>, failing: set<string>)
    ensures Ledger(StopUnlisted(f, ids, desired, failing)) == Ledger(f)
    ensures failing == {} ==> StopUnlisted(f, ids, desired, failing).gone == f.gone
    decreases |ids|
  {
    hide Stop, Ledger;
    if ids != [] {
      StopKeepsLedger(f, ids[0], failing);
      StopUnlistedKeepsLedger(if ids[0] in desired then f else Stop(f, ids[0], failing), ids[1..], desired, failing);
    }
  }

  lemma {:induction false} StartKeepsPending(f: Fleet, a: Adapter)
    requires a.buffer == []
    ensures Pending(f.(adapters := f.adapters + [a])) == Pending(f)
  {
    BufferedConcat(f.adapters, [a]);
    assert [a][1..] == [];
    assert Buffered(f.adapters) + [] == Buffered(f.adapters);
  }

  lemma {:induction false} ReconcileOneKeepsLedger(f: Fleet, p: Printer, failing: set<string>)
    ensures Ledger(ReconcileOne(f, p, failing)) == Ledger(f)
    ensures failing == {} ==> ReconcileOne(f, p, failing).gone == f.gone
  {
    hide Stop, Pending, Jobs;
    if p.id.Some? {
      StopKeepsLedger(f, p.id.value, failing);
      StartKeepsPending(Stop(f, p.id.value, failing), Adapter(p.id.value, p.fingerprint, []));
    }
  }

  lemma {:induction false} ReconcileEachKeepsLedger(f: Fleet, printers: seq<Printer>, failing: set<string>)
    ensures Ledger(ReconcileEach(f, printers, failing)) == Ledger(f)
    ensures failing == {} ==> ReconcileEach(f, printers, failing).gone == f.gone
    decreases |printers|
  {
    hide ReconcileOne, Ledger;
    if printers != [] {
      ReconcileOneKeepsLedger(f, printers[0], failing);
      ReconcileEachKeepsLedger(ReconcileOne(f, printers[0], failing), printers[1..], failing);
    }
  }

  /** Whatever the cloud's new printer list, a reconcile whose rescues do not raise keeps exactly
      the jobs that were pending. */
  lemma {:induction false} ReconcileKeepsPending(f: Fleet, printers: seq<Printer>, failing: set<string>)
    ensures Ledger(Reconcile(f, printers, failing)) == Ledger(f)
    ensures failing == {} ==> multiset(Pending(Reconcile(f, printers, failing))) == multiset(Pending(f))
  {
    var stopped := StopUnlisted(f, Ids(f.adapters), Desired(printers), failing);
    StopUnlistedKeepsLedger(f, Ids(f.adapters), Desired(printers), failing);
    ReconcileEachKeepsLedger(stopped, printers, failing);
    if failing == {} {
      var f' := Reconcile(f, printers, failing);
      assert f'.gone == f.gone;
      assert multiset(Pending(f')) == Ledger(f') - multiset(Jobs(f.gone));
      assert multiset(Pending(f)) == Ledger(f) - multiset(Jobs(f.gone));
    }
  }

  /** A live adapter emits: below 500 entries its buffer gains the job at the end and nothing is lost; at 500 its
      head, the oldest job, is dropped as well, and nothing else. */
  lemma {:induction false} EmitIsExact(f: Fleet, id: string, job: JobRecord)
    requires IndexOf(f.adapters, id) < |f.adapters| && |f.adapters[IndexOf(f.adapters, id)].buffer| <= 500
    ensures var i, f' := IndexOf(f.adapters, id), Emit(f, id, job);
            var buffer := f.adapters[i].buffer;
            && f'.orphans == f.orphans && |f'.adapters| == |f.adapters|
            && (forall j :: 0 <= j < |f.adapters| && j != i ==> f'.adapters[j] == f.adapters[j])
            && (|buffer| < 500 ==> f'.adapters[i].buffer == buffer + [job] && f'.gone == f.gone)
            && (|buffer| == 500 ==> f'.adapters[i].buffer == buffer[1..] + [job] && f'.gone == f.gone + [(buffer[0], Overflowed)])
  {
    var buffer := f.adapters[IndexOf(f.adapters, id)].buffer;
    if |buffer| == 500 {
      assert (buffer + [job])[1..] == buffer[1..] + [job];
      assert (buffer + [job])[..1] == [buffer[0]];
    } else {
      assert Left([], Overflowed) == [];
    }
  }

  lemma {:induction false} EmitKeepsLedger(f: Fleet, id: string, job: JobRecord)
    requires IndexOf(f.adapters, id) < |f.adapters|
    ensures Ledger(Emit(f, id, job)) == Ledger(f) + multiset{job}
  {
    hide Buffered, Jobs, Left;
    var i := IndexOf(f.adapters, id);
    var a := f.adapters[i];
    var a' := a.(buffer := Keep(a.buffer, job));
    var adapters' := f.adapters[i := a'];
    var front, back := Buffered(f.adapters[..i]), Buffered(f.adapters[i + 1..]);
    BufferedAround(f.adapters, i);
    BufferedAround(adapters', i);
    assert adapters'[..i] == f.adapters[..i] && adapters'[i + 1..] == f.adapters[i + 1..];
    JobsLeft(f.gone, Squeezed(a.buffer, job), Overflowed);
    SqueezeSplits(a.buffer, job);
    hide Squeezed, Keep;
    EmitBalance(f.orphans, front, back, a.buffer, job, Squeezed(a.buffer, job), Keep(a.buffer, job), Jobs(f.gone));
  }

  lemma {:induction false} SqueezeSplits(buffer: seq<JobRecord>, job: JobRecord)
    ensures buffer + [job] == Squeezed(buffer, job) + Keep(buffer, job)
  {
  }

  lemma {:induction false} EmitBalance(orphans: seq<JobRecord>, front: seq<JobRecord>, back: seq<JobRecord>,
      buffer: seq<JobRecord>, job: JobRecord, out: seq<JobRecord>, kept: seq<JobRecord>, gone: seq<JobRecord>)
    requires buffer + [job] == out + kept
    ensures multiset(orphans + (front + kept + back)) + multiset(gone + out)
            == multiset(orphans + (front + buffer + back)) + multiset(gone) + multiset{job}
  {
    var around := multiset(orphans) + multiset(front) + multiset(back);
    assert multiset(buffer + [job]) == multiset(out + kept);
    assert multiset(orphans + (front + kept + back)) == around + multiset(kept);
    assert multiset(orphans + (front + buffer + back)) == around + multiset(buffer);
    Traded(around, multiset(buffer), multiset{job}, multiset(out), multiset(kept), multiset(gone));
  }

  lemma {:induction false} Traded<T>(around: multiset<T>, buffer: multiset<T>, one: multiset<T>, out: multiset<T>, kept: multiset<T>, gone: multiset<T>)
    requires buffer + one == out + kept
    ensures (around + kept) + (gone + out) == (around + buffer) + gone + one
  {
    assert (around + kept) + (gone + out) == around + gone + (out + kept);
    assert (around + buffer) + gone + one == around + gone + (buffer + one);
  }

  // ----- runs -------------------------------------------------------------------------------------

  datatype Event =
    | Emitted(id: string, job: JobRecord)
    | AckEvent(keys: set<JobKey>, failing: set<string>)
    | ReconcileEvent(printers: seq<Printer>, failing: set<string>)

  function Step(f: Fleet, e: Event): Fleet {
    match e
    case Emitted(id, job) => Emit(f, id, job)
    case AckEvent(keys, failing) => AckJobs(f, keys, failing)
    case ReconcileEvent(printers, failing) => Reconcile(f, printers, failing)
  }

  function Run(es: seq<Event>): Fleet {
    if es == [] then NONE else Step(Run(es[..|es| - 1]), es[|es| - 1])
  }

  /** The jobs emitted by adapters that were live when they emitted. */
  function Taken(es: seq<Event>): seq<JobRecord> {
    if es == [] then []
    else
      var front, e := es[..|es| - 1], es[|es| - 1];
      Taken(front) + TakenBy(Run(front), e)
  }

  /** Event `k` of the run is an emission into a buffer of exactly 500 jobs, whose head, the oldest, is the `i`th job
      to leave; the 500 jobs the buffer then holds all came after it. */
  ghost predicate OverflowAt(es: seq<Event>, k: nat, i: nat, job: JobRecord) {
    && k < |es| && es[k].Emitted?
    && var f := Run(es[..k]);
       var n := IndexOf(f.adapters, es[k].id);
       && |f.gone| == i && n < |f.adapters| && |f.adapters[n].buffer| == 500 && f.adapters[n].buffer[0] == job
       && n < |Run(es[..k + 1]).adapters| && Run(es[..k + 1]).adapters[n].buffer == f.adapters[n].buffer[1..] + [es[k].job]
  }

  /** The `i`th job to leave left at event `k`. */
  ghost predicate LeftAt(es: seq<Event>, k: nat, i: nat) {
    k < |es| && |Run(es[..k]).gone| <= i < |Run(es[..k + 1]).gone|
  }

  /** Event `k` is an acknowledgement of a job it names, which was among those that could be sent just then. */
  ghost predicate AckedAt(es: seq<Event>, k: nat, i: nat, job: JobRecord, keys: set<JobKey>) {
    && LeftAt(es, k, i) && es[k].AckEvent? && es[k].keys == keys
    && job.key in keys && job in Sendable(Run(es[..k]), es[k].failing)
  }

  /** The job sits in the buffer of an adapter whose rescue raises. */
  ghost predicate HeldByFailing(f: Fleet, job: JobRecord, failing: set<string>) {
    exists a :: a in f.adapters && a.id in failing && job in a.buffer
  }

  /** Event `k` is a reconcile in which the rescue of the adapter that held the job raised. */
  ghost predicate RescueFailedAt(es: seq<Event>, k: nat, i: nat, job: JobRecord) {
    LeftAt(es, k, i) && es[k].ReconcileEvent? && HeldByFailing(Run(es[..k]), job, es[k].failing)
  }

  ghost predicate ExitExplained(es: seq<Event>, i: nat, job: JobRecord, exit: Exit) {
    match exit
    case Acked(keys) => exists k: nat :: AckedAt(es, k, i, job, keys)
    case Overflowed => exists k: nat :: OverflowAt(es, k, i, job)
    case RescueFailed => exists k: nat :: RescueFailedAt(es, k, i, job)
  }

  /** Every buffer is within its cap, and a job leaves only through an acknowledgement naming its key, as the
      oldest of a full buffer, or through the rescue of its adapter that raised. */
  ghost predicate ExitsExplained(es: seq<Event>, f: Fleet) {
    && (forall i :: 0 <= i < |f.adapters| ==> |f.adapters[i].buffer| <= 500)
    && (forall i :: 0 <= i < |f.gone| ==> ExitExplained(es, i, f.gone[i].0, f.gone[i].1))
  }

  ghost predicate RescueCanFail(es: seq<Event>) {
    exists i :: 0 <= i < |es| && es[i].ReconcileEvent? && es[i].failing != {}
  }

  /** What one event takes in. */
  function TakenBy(f: Fleet, e: Event): seq<JobRecord> {
    if e.Emitted? && IndexOf(f.adapters, e.id) < |f.adapters| then [e.job] else []
  }

  lemma {:induction false} StepConserves(f: Fleet, e: Event)
    ensures Ledger(Step(f, e)) == Ledger(f) + multiset(TakenBy(f, e))
  {
    hide Ledger, Emit, AckJobs, Reconcile;
    match e
    case Emitted(id, job) =>
      if IndexOf(f.adapters, id) < |f.adapters| {
        EmitKeepsLedger(f, id, job);
      } else {
        EmitUnknown(f, id, job);
      }
    case AckEvent(keys, failing) => AckIsExact(f, keys, failing);
    case ReconcileEvent(printers, failing) => ReconcileKeepsPending(f, printers, failing);
  }

  /** Conservation over every run: the jobs taken in are exactly those pending and those gone. */
  lemma {:induction false} RunConserves(es: seq<Event>)
    ensures Ledger(Run(es)) == multiset(Taken(es))
  {
    if es == [] {
      assert Jobs([]) == [];
    } else {
      hide Ledger, Step, TakenBy;
      RunConserves(es[..|es| - 1]);
      StepConserves(Run(es[..|es| - 1]), es[|es| - 1]);
    }
  }

  lemma {:induction false} EmitUnknown(f: Fleet, id: string, job: JobRecord)
    requires IndexOf(f.adapters, id) == |f.adapters|
    ensures Emit(f, id, job) == f
  {
  }

  // ----- why jobs leave ---------------------------------------------------------------------------

  /** `f'` only tore adapters down or started empty ones, and every new exit is a failed rescue of a job held by an
      adapter whose rescue raises. */
  ghost predicate OnlyRescues(f: Fleet, f': Fleet, failing: set<string>) {
    && f.gone <= f'.gone
    && (forall i :: |f.gone| <= i < |f'.gone| ==> f'.gone[i].1 == RescueFailed && HeldByFailing(f, f'.gone[i].0, failing))
    && (forall a :: a in f'.adapters ==> a in f.adapters || a.buffer == [])
  }

  lemma {:induction false} HeldBefore(f: Fleet, g: Fleet, job: JobRecord, failing: set<string>)
    requires (forall a :: a in g.adapters ==> a in f.adapters || a.buffer == []) && HeldByFailing(g, job, failing)
    ensures HeldByFailing(f, job, failing)
  {
    var a :| a in g.adapters && a.id in failing && job in a.buffer;
    assert a in f.adapters;
  }

  lemma {:induction false} OnlyRescuesTransitive(f: Fleet, g: Fleet, h: Fleet, failing: set<string>)
    requires OnlyRescues(f, g, failing) && OnlyRescues(g, h, failing)
    ensures OnlyRescues(f, h, failing)
  {
    hide HeldByFailing;
    forall i | |f.gone| <= i < |h.gone| ensures h.gone[i].1 == RescueFailed && HeldByFailing(f, h.gone[i].0, failing) {
      if i < |g.gone| {
        assert h.gone[i] == g.gone[i];
      } else {
        HeldBefore(f, g, h.gone[i].0, failing);
      }
    }
  }

  lemma {:induction false} StopOnlyRescues(f: Fleet, id: string, failing: set<string>)
    ensures OnlyRescues(f, Stop(f, id, failing), failing)
  {
    var n := IndexOf(f.adapters, id);
    var f' := Stop(f, id, failing);
    if n < |f.adapters| && id in failing {
      forall i | |f.gone| <= i < |f'.gone| ensures HeldByFailing(f, f'.gone[i].0, failing) {
        assert f.adapters[n] in f.adapters && f'.gone[i].0 == f.adapters[n].buffer[i - |f.gone|];
      }
    }
  }

  lemma {:induction false} StopUnlistedOnlyRescues(f: Fleet, ids: seq<string>, desired: set<string>, failing: set<string>)
    ensures OnlyRescues(f, StopUnlisted(f, ids, desired, failing), failing)
    decreases |ids|
  {
    if ids != [] {
      hide Stop;
      var g := if ids[0] in desired then f else Stop(f, ids[0], failing);
      StopOnlyRescues(f, ids[0], failing);
      StopUnlistedOnlyRescues(g, ids[1..], desired, failing);
      OnlyRescuesTransitive(f, g, StopUnlisted(f, ids, desired, failing), failing);
    }
  }

  lemma {:induction false} ReconcileOneOnlyRescues(f: Fleet, p: Printer, failing: set<string>)
    ensures OnlyRescues(f, ReconcileOne(f, p, failing), failing)
  {
    hide Stop;
    if p.id.Some? {
      StopOnlyRescues(f, p.id.value, failing);
    }
  }

  lemma {:induction false} ReconcileEachOnlyRescues(f: Fleet, printers: seq<Printer>, failing: set<string>)
    ensures OnlyRescues(f, ReconcileEach(f, printers, failing), failing)
    decreases |printers|
  {
    if printers != [] {
      hide ReconcileOne;
      var g := ReconcileOne(f, printers[0], failing);
      ReconcileOneOnlyRescues(f, printers[0], failing);
      ReconcileEachOnlyRescues(g, printers[1..], failing);
      OnlyRescuesTransitive(f, g, ReconcileEach(g, printers[1..], failing), failing);
    }
  }

  lemma {:induction false} WithoutShrinks(jobs: seq<JobRecord>, keys: set<JobKey>)
    ensures |Without(jobs, keys)| <= |jobs|
  {
    if jobs != [] {
      WithoutShrinks(jobs[1..], keys);
    }
  }

  lemma {:induction false} AckAdaptersAt(adapters: seq<Adapter>, keys: set<JobKey>, failing: set<string>)
    ensures |AckAdapters(adapters, keys, failing)| == |adapters|
    ensures forall i :: 0 <= i < |adapters| ==>
              AckAdapters(adapters, keys, failing)[i] == AckAdapter(adapters[i], keys, failing)
  {
    hide AckAdapter;
    if adapters != [] {
      AckAdaptersAt(adapters[1..], keys, failing);
    }
  }

  /** An explanation stays one as the run goes on. */
  lemma {:induction false} StillExplained(front: seq<Event>, e: Event, i: nat, job: JobRecord, exit: Exit)
    requires ExitExplained(front, i, job, exit)
    ensures ExitExplained(front + [e], i, job, exit)
  {
    hide Run;
    var es := front + [e];
    match exit
    case Acked(keys) =>
      var k: nat :| AckedAt(front, k, i, job, keys);
      assert es[..k] == front[..k] && es[..k + 1] == front[..k + 1] && es[k] == front[k];
      assert AckedAt(es, k, i, job, keys);
    case Overflowed =>
      var k: nat :| OverflowAt(front, k, i, job);
      assert es[..k] == front[..k] && es[..k + 1] == front[..k + 1] && es[k] == front[k];
      assert OverflowAt(es, k, i, job);
    case RescueFailed =>
      var k: nat :| RescueFailedAt(front, k, i, job);
      assert es[..k] == front[..k] && es[..k + 1] == front[..k + 1] && es[k] == front[k];
      assert RescueFailedAt(es, k, i, job);
  }

  lemma {:induction false} Longer(front: seq<Event>, e: Event, f: Fleet)
    requires ExitsExplained(front, f)
    ensures ExitsExplained(front + [e], f)
  {
    hide ExitExplained;
    forall i | 0 <= i < |f.gone| ensures ExitExplained(front + [e], i, f.gone[i].0, f.gone[i].1) {
      StillExplained(front, e, i, f.gone[i].0, f.gone[i].1);
    }
  }

  /** Over every run, each departure of a job is explained. */
  lemma {:induction false} ExitsAreExplained(es: seq<Event>)
    ensures ExitsExplained(es, Run(es))
  {
    if es == [] {
      assert Run(es) == NONE;
    } else {
      var front, e := es[..|es| - 1], es[|es| - 1];
      ExitsAreExplained(front);
      Longer(front, e, Run(front));
      assert es == front + [e];
      hide ExitsExplained;
      match e
      case Emitted(id, job) => EmitExplained(es, id, job);
      case AckEvent(keys, failing) => AckExplained(es, keys, failing);
      case ReconcileEvent(printers, failing) => ReconcileExplained(es, printers, failing);
    }
  }

  lemma {:induction false} EmitExplained(es: seq<Event>, id: string, job: JobRecord)
    requires es != [] && es[|es| - 1] == Emitted(id, job) && ExitsExplained(es, Run(es[..|es| - 1]))
    ensures ExitsExplained(es, Run(es))
  {
    hide ExitExplained, Emit;
    var k := |es| - 1;
    var f := Run(es[..k]);
    var f' := Emit(f, id, job);
    assert es[..k + 1] == es && Run(es) == f';
    var n := IndexOf(f.adapters, id);
    if n < |f.adapters| {
      EmitIsExact(f, id, job);
      if |f.adapters[n].buffer| == 500 {
        OverflowExplained(es, k, f.adapters[n].buffer[0]);
      }
    } else {
      EmitUnknown(f, id, job);
    }
  }

  lemma {:induction false} OverflowExplained(es: seq<Event>, k: nat, job: JobRecord)
    requires k < |es| && OverflowAt(es, k, |Run(es[..k]).gone|, job)
    ensures ExitExplained(es, |Run(es[..k]).gone|, job, Overflowed)
  {
  }

  lemma {:induction false} AckExplained(es: seq<Event>, keys: set<JobKey>, failing: set<string>)
    requires es != [] && es[|es| - 1] == AckEvent(keys, failing) && ExitsExplained(es, Run(es[..|es| - 1]))
    ensures ExitsExplained(es, Run(es))
  {
    hide OverflowAt, RescueFailedAt, Sendable;
    var k := |es| - 1;
    var f := Run(es[..k]);
    assert es[..k + 1] == es && Run(es) == AckJobs(f, keys, failing);
    AckAdaptersAt(f.adapters, keys, failing);
    WithNames(Sendable(f, failing), keys);
    forall i | |f.gone| <= i < |Run(es).gone| ensures ExitExplained(es, i, Run(es).gone[i].0, Run(es).gone[i].1) {
      assert Run(es).gone[i].0 == With(Sendable(f, failing), keys)[i - |f.gone|];
      assert AckedAt(es, k, i, Run(es).gone[i].0, keys);
    }
    forall i | 0 <= i < |f.adapters| ensures |Run(es).adapters[i].buffer| <= 500 {
      WithoutShrinks(f.adapters[i].buffer, keys);
    }
  }

  lemma {:induction false} ReconcileExplained(es: seq<Event>, printers: seq<Printer>, failing: set<string>)
    requires es != [] && es[|es| - 1] == ReconcileEvent(printers, failing) && ExitsExplained(es, Run(es[..|es| - 1]))
    ensures ExitsExplained(es, Run(es))
  {
    hide OverflowAt, AckedAt, HeldByFailing, StopUnlisted, ReconcileEach;
    var k := |es| - 1;
    var f := Run(es[..k]);
    var g := StopUnlisted(f, Ids(f.adapters), Desired(printers), failing);
    var h := Reconcile(f, printers, failing);
    assert es[..k + 1] == es && Run(es) == h;
    StopUnlistedOnlyRescues(f, Ids(f.adapters), Desired(printers), failing);
    ReconcileEachOnlyRescues(g, printers, failing);
    OnlyRescuesTransitive(f, g, h, failing);
    forall i | |f.gone| <= i < |h.gone| ensures ExitExplained(es, i, h.gone[i].0, h.gone[i].1) {
      assert RescueFailedAt(es, k, i, h.gone[i].0);
    }
    forall i | 0 <= i < |h.adapters| ensures |h.adapters[i].buffer| <= 500 {
      assert h.adapters[i] in h.adapters;
    }
  }

  lemma {:induction false} RescueCouldFail(es: seq<Event>, k: nat, i: nat, job: JobRecord)
    requires RescueFailedAt(es, k, i, job)
    ensures RescueCanFail(es)
  {
  }

  /** With rescues that never raise, the jobs taken in are pending, named by the acknowledgement that removed them, or
      dropped as the oldest of 501 in one buffer; nothing else. */
  lemma {:induction false} NoUnackedJobIsLost(es: seq<Event>)
    requires !RescueCanFail(es)
    ensures var f := Run(es);
            && multiset(Taken(es)) == multiset(Pending(f)) + multiset(Jobs(f.gone))
            && forall i :: 0 <= i < |f.gone| ==>
                 || (f.gone[i].1.Overflowed? && exists k: nat :: OverflowAt(es, k, i, f.gone[i].0))
                 || (f.gone[i].1.Acked? && exists k: nat :: AckedAt(es, k, i, f.gone[i].0, f.gone[i].1.keys))
  {
    hide Run, OverflowAt, AckedAt, RescueFailedAt, RescueCanFail;
    RunConserves(es);
    ExitsAreExplained(es);
    forall i | 0 <= i < |Run(es).gone| ensures !Run(es).gone[i].1.RescueFailed? {
      if Run(es).gone[i].1.RescueFailed? {
        assert ExitExplained(es, i, Run(es).gone[i].0, Run(es).gone[i].1);
        var k: nat :| RescueFailedAt(es, k, i, Run(es).gone[i].0);
        RescueCouldFail(es, k, i, Run(es).gone[i].0);
      }
    }
    forall i | 0 <= i < |Run(es).gone| ensures ExitExplained(es, i, Run(es).gone[i].0, Run(es).gone[i].1) {
    }
  }

  function KeysOf(jobs: seq<JobRecord>): set<JobKey> {
    set i | 0 <= i < |jobs| :: jobs[i].key
  }

  /** Where an emitted job lands: last in its adapter's part, everything around it as it was or gone. */
  lemma {:induction false} EmitInserts(f: Fleet, id: string, job: JobRecord) returns (before: seq<JobRecord>, after: seq<JobRecord>)
    requires IndexOf(f.adapters, id) < |f.adapters|
    ensures Pending(Emit(f, id, job)) == before + [job] + after
    ensures forall j :: j in before || j in after ==> j in Pending(f)
  {
    var i := IndexOf(f.adapters, id);
    var g := Emit(f, id, job);
    var front, back := Buffered(f.adapters[..i]), Buffered(f.adapters[i + 1..]);
    var buffer := f.adapters[i].buffer;
    BufferedAround(f.adapters, i);
    BufferedAround(g.adapters, i);
    assert g.adapters[..i] == f.adapters[..i] && g.adapters[i + 1..] == f.adapters[i + 1..];
    var kept := KeptTail(buffer, job);
    assert Pending(f) == f.orphans + (front + buffer + back);
    assert Pending(g) == f.orphans + (front + (kept + [job]) + back);
    before, after := f.orphans + (front + kept), back;
  }

  lemma {:induction false} KeptTail(buffer: seq<JobRecord>, job: JobRecord) returns (kept: seq<JobRecord>)
    ensures Keep(buffer, job) == kept + [job] && forall j :: j in kept ==> j in buffer
  {
    var n := if |buffer| + 1 > 500 then |buffer| + 1 - 500 else 0;
    kept := buffer[n..];
    assert (buffer + [job])[n..] == kept + [job];
  }

  /** The heartbeat's protocol: acknowledging exactly the keys that were sent removes every job sent, and of a job
      emitted meanwhile it removes it exactly when it carries a key that was sent. */
  lemma {:induction false} AckAfterSend(f: Fleet, id: string, late: JobRecord)
    requires IndexOf(f.adapters, id) < |f.adapters|
    ensures Pending(AckJobs(Emit(f, id, late), KeysOf(Pending(f)), {}))
         == if late.key in KeysOf(Pending(f)) then [] else [late]
  {
    hide Pending, Emit, AckJobs, AckAdapter, Ledger;
    var keys := KeysOf(Pending(f));
    var before, after := EmitInserts(f, id, late);
    AckIsExact(Emit(f, id, late), keys, {});
    WithoutConcat(before + [late], after, keys);
    WithoutConcat(before, [late], keys);
    forall j | j in Pending(f) ensures j.key in keys {
    }
    WithoutAll(before, keys);
    WithoutAll(after, keys);
    WithoutOne(late, keys);
  }

  lemma {:induction false} WithoutOne(job: JobRecord, keys: set<JobKey>)
    ensures Without([job], keys) == if job.key in keys then [] else [job]
  {
    assert [job][1..] == [];
  }

  lemma {:induction false} WithoutAll(jobs: seq<JobRecord>, keys: set<JobKey>)
    requires forall j :: j in jobs ==> j.key in keys
    ensures Without(jobs, keys) == []
  {
    if jobs != [] {
      WithoutAll(jobs[1..], keys);
    }
  }
}
