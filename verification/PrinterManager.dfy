/** The printer manager (printers/manager.py): adapters come and go with the cloud's printer list,
    and the terminal jobs they buffer survive until the cloud acknowledges them. */
module PrinterManagers {
  import opened Prelude
  import opened JobTracking

  /** One live adapter: its connection fingerprint and its buffer of unacknowledged jobs. */
  datatype Adapter = Adapter(id: string, fingerprint: string, buffer: seq<JobRecord>)

  datatype Exit = Acked(keys: set<JobKey>) | Overflowed | RescueFailed

  /** `gone` records every job that left the buffers, and how. */
  datatype Fleet = Fleet(adapters: seq<Adapter>, orphans: seq<JobRecord>, gone: seq<(JobRecord, Exit)>)

  const NONE := Fleet([], [], [])

  datatype Vendor = Bambu | Klipper | OtherVendor

  /** One printer of the cloud's list. `complete` says its connection facts are present, `starts`
      that an adapter for it can be imported and started, `wedged` that a live adapter is stuck in
      a hard error past its retry time. An entry without a text id is None. */
  datatype Printer = Printer(
    id: Option<string>, vendor: Vendor, complete: bool, fingerprint: string, starts: bool, wedged: bool)

  function IndexOf(adapters: seq<Adapter>, id: string): (i: nat)
    ensures i <= |adapters|
    ensures i < |adapters| ==> adapters[i].id == id
    ensures forall j :: 0 <= j < i ==> adapters[j].id != id
  {
    if adapters == [] || adapters[0].id == id then 0 else 1 + IndexOf(adapters[1..], id)
  }

  function Buffered(adapters: seq<Adapter>): seq<JobRecord> {
    if adapters == [] then [] else adapters[0].buffer + Buffered(adapters[1..])
  }

  /** Every job held: rescued jobs first, then each adapter's buffer. */
  function Pending(f: Fleet): seq<JobRecord> {
    f.orphans + Buffered(f.adapters)
  }

  function Readable(adapters: seq<Adapter>, failing: set<string>): seq<JobRecord> {
    if adapters == [] then []
    else (if adapters[0].id in failing then [] else adapters[0].buffer) + Readable(adapters[1..], failing)
  }

  /** What one heartbeat sends: `failing` are the adapters whose buffer cannot be read just now. */
  function Sendable(f: Fleet, failing: set<string>): seq<JobRecord> {
    f.orphans + Readable(f.adapters, failing)
  }

  function Left(jobs: seq<JobRecord>, exit: Exit): seq<(JobRecord, Exit)> {
    seq(|jobs|, i requires 0 <= i < |jobs| => (jobs[i], exit))
  }

  // ----- a job is emitted ------------------------------------------------------------------------

  function Squeezed(buffer: seq<JobRecord>, job: JobRecord): seq<JobRecord> {
    var all := buffer + [job];
    if |all| > MAX_PENDING then all[..|all| - MAX_PENDING] else []
  }

  function Emit(f: Fleet, id: string, job: JobRecord): Fleet {
    var i := IndexOf(f.adapters, id);
    if i == |f.adapters| then f
    else
      var a := f.adapters[i];
      f.(adapters := f.adapters[i := a.(buffer := Keep(a.buffer, job))],
         gone := f.gone + Left(Squeezed(a.buffer, job), Overflowed))
  }

  // ----- a confirmed send ------------------------------------------------------------------------

  function With(jobs: seq<JobRecord>, keys: set<JobKey>): seq<JobRecord> {
    if jobs == [] then []
    else (if jobs[0].key in keys then [jobs[0]] else []) + With(jobs[1..], keys)
  }

  /** `failing` are the adapters whose acknowledgement raises; they keep their buffers. */
  function AckAdapter(a: Adapter, keys: set<JobKey>, failing: set<string>): Adapter {
    if a.id in failing then a else a.(buffer := Without(a.buffer, keys))
  }

  function AckAdapters(adapters: seq<Adapter>, keys: set<JobKey>, failing: set<string>): seq<Adapter> {
    if adapters == [] then []
    else [AckAdapter(adapters[0], keys, failing)] + AckAdapters(adapters[1..], keys, failing)
  }

  function AckJobs(f: Fleet, keys: set<JobKey>, failing: set<string>): Fleet {
    Fleet(AckAdapters(f.adapters, keys, failing), Without(f.orphans, keys),
          f.gone + Left(With(Sendable(f, failing), keys), Acked(keys)))
  }

  // ----- reconciling -----------------------------------------------------------------------------

  /** Tear one adapter down, rescuing its buffer. `failing` are the adapters whose rescue raises. */
  function Stop(f: Fleet, id: string, failing: set<string>): Fleet {
    var i := IndexOf(f.adapters, id);
    if i == |f.adapters| then f
    else
      var jobs := f.adapters[i].buffer;
      var rest := f.adapters[..i] + f.adapters[i + 1..];
      if id in failing then f.(adapters := rest, gone := f.gone + Left(jobs, RescueFailed))
      else f.(adapters := rest, orphans := f.orphans + jobs)
  }

  function StopUnlisted(f: Fleet, ids: seq<string>, desired: set<string>, failing: set<string>): Fleet
    decreases |ids|
  {
    if ids == [] then f
    else StopUnlisted(if ids[0] in desired then f else Stop(f, ids[0], failing), ids[1..], desired, failing)
  }

  predicate Unchanged(f: Fleet, id: string, p: Printer) {
    var i := IndexOf(f.adapters, id);
    i < |f.adapters| && f.adapters[i].fingerprint == p.fingerprint && !(p.vendor == Bambu && p.wedged)
  }

  function ReconcileOne(f: Fleet, p: Printer, failing: set<string>): Fleet {
    if p.id.None? || p.vendor == OtherVendor then f
    else
      var id := p.id.value;
      if !p.complete then Stop(f, id, failing)
      else if Unchanged(f, id, p) then f
      else
        var stopped := Stop(f, id, failing);
        if p.starts then stopped.(adapters := stopped.adapters + [Adapter(id, p.fingerprint, [])]) else stopped
  }

  function ReconcileEach(f: Fleet, printers: seq<Printer>, failing: set<string>): Fleet
    decreases |printers|
  {
    if printers == [] then f else ReconcileEach(ReconcileOne(f, printers[0], failing), printers[1..], failing)
  }

  function Ids(adapters: seq<Adapter>): seq<string> {
    seq(|adapters|, i requires 0 <= i < |adapters| => adapters[i].id)
  }

  function Desired(printers: seq<Printer>): set<string> {
    set i | 0 <= i < |printers| && printers[i].id.Some? :: printers[i].id.value
  }

  function Reconcile(f: Fleet, printers: seq<Printer>, failing: set<string>): Fleet {
    ReconcileEach(StopUnlisted(f, Ids(f.adapters), Desired(printers), failing), printers, failing)
  }

  lemma {:induction false} AckNothing(keys: set<JobKey>, failing: set<string>)
    ensures AckAdapters([], keys, failing) == []
  {
  }

  lemma {:induction false} AckHead(adapters: seq<Adapter>, keys: set<JobKey>, failing: set<string>)
    requires adapters != []
    ensures AckAdapters(adapters, keys, failing)
            == [AckAdapter(adapters[0], keys, failing)] + AckAdapters(adapters[1..], keys, failing)
  {
  }

  class PrinterManager {
    var adapters: seq<Adapter>
    var orphans: seq<JobRecord>
    ghost var gone: seq<(JobRecord, Exit)>

    ghost function Value(): Fleet
      reads this
    {
      Fleet(adapters, orphans, gone)
    }

    constructor ()
      ensures Value() == NONE
    {
      adapters, orphans, gone := [], [], [];
    }

    method PendingJobs(failing: set<string>) returns (out: seq<JobRecord>)
      ensures out == Sendable(Value(), failing)
    {
      out := orphans;
      for i := 0 to |adapters|
        invariant out + Readable(adapters[i..], failing) == Sendable(Value(), failing)
      {
        assert adapters[i..][0] == adapters[i] && adapters[i..][1..] == adapters[i + 1..];
        if adapters[i].id !in failing {
          out := out + adapters[i].buffer;
        }
      }
    }

    method Acknowledge(keys: set<JobKey>, failing: set<string>)
      modifies this
      ensures Value() == AckJobs(old(Value()), keys, failing)
    {
      hide With, Without, Left, Readable, AckAdapters;
      gone := gone + Left(With(Sendable(Value(), failing), keys), Acked(keys));
      orphans := Without(orphans, keys);
      ghost var half := Value();
      var kept := [];
      for i := 0 to |adapters|
        invariant Value() == half
        invariant kept + AckAdapters(adapters[i..], keys, failing) == AckAdapters(adapters, keys, failing)
      {
        assert adapters[i..][0] == adapters[i] && adapters[i..][1..] == adapters[i + 1..];
        AckHead(adapters[i..], keys, failing);
        Regroup(kept, [AckAdapter(adapters[i], keys, failing)], AckAdapters(adapters[i + 1..], keys, failing));
        if adapters[i].id in failing {
          kept := kept + [adapters[i]];
        } else {
          kept := kept + [adapters[i].(buffer := Without(adapters[i].buffer, keys))];
        }
      }
      AckNothing(keys, failing);
      assert adapters[|adapters|..] == [] && kept + [] == kept;
      adapters := kept;
    }

    method StopAdapter(id: string, failing: set<string>)
      modifies this
      ensures Value() == Stop(old(Value()), id, failing)
    {
      var i := IndexOf(adapters, id);
      if i < |adapters| {
        var jobs := adapters[i].buffer;
        adapters := adapters[..i] + adapters[i + 1..];
        if id in failing {
          gone := gone + Left(jobs, RescueFailed);
        } else {
          orphans := orphans + jobs;
        }
      }
    }

    method ReconcilePrinter(p: Printer, failing: set<string>)
      modifies this
      ensures Value() == ReconcileOne(old(Value()), p, failing)
    {
      if p.id.None? || p.vendor == OtherVendor {
        return;
      }
      var id := p.id.value;
      if !p.complete {
        StopAdapter(id, failing);
        return;
      }
      if Unchanged(Fleet(adapters, orphans, []), id, p) {
        return;
      }
      StopAdapter(id, failing);
      if p.starts {
        adapters := adapters + [Adapter(id, p.fingerprint, [])];
      }
    }

    method ReconcileFleet(printers: seq<Printer>, failing: set<string>)
      modifies this
      ensures Value() == Reconcile(old(Value()), printers, failing)
    {
      hide Stop, ReconcileOne;
      var desired := Desired(printers);
      var ids := Ids(adapters);
      for i := 0 to |ids|
        invariant StopUnlisted(Value(), ids[i..], desired, failing)
                  == StopUnlisted(old(Value()), ids, desired, failing)
      {
        assert ids[i..][0] == ids[i] && ids[i..][1..] == ids[i + 1..];
        if ids[i] !in desired {
          StopAdapter(ids[i], failing);
        }
      }
      for i := 0 to |printers|
        invariant ReconcileEach(Value(), printers[i..], failing) == Reconcile(old(Value()), printers, failing)
      {
        assert printers[i..][0] == printers[i] && printers[i..][1..] == printers[i + 1..];
        ReconcilePrinter(printers[i], failing);
      }
    }
  }
}
