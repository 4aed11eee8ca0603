/** Job tracking (printers/jobs.py): a printer's telemetry is watched one observation at a time and
    cut into terminal job records. */
module JobTracking {
  import opened Prelude

  const MAX_PENDING: nat := 500

  /** The printer states the tracker tells apart. Silent is an observation without a state. */
  datatype PrinterState = Silent | Running | StillActive | Finish | Failed | Elsewhere

  /** Upper-cased `gcode_state` text, sorted into the tracker's classes. */
  function Classify(text: string): PrinterState {
    if text == "" then Silent
    else if text == "RUNNING" then Running
    else if text in {"PAUSE", "PREPARE", "SLICING", "INIT"} then StillActive
    else if text == "FINISH" then Finish
    else if text == "FAILED" then Failed
    else Elsewhere
  }

  /** One observation: the state, and the name, printer task id and material when present. */
  datatype Obs = Obs(
    state: PrinterState, name: Option<string>, taskId: Option<string>, material: Option<string>, now: real)

  /** Keys derived from the printer's own id never equal fingerprints: the texts start differently. */
  datatype JobKey = TaskKey(serial: string, taskId: string) | Fingerprint(serial: string, title: string, millis: int)

  datatype Status = Done | JobFailed | Cancelled

  datatype JobRecord = JobRecord(
    key: JobKey, status: Status, startedAt: Option<real>, endedAt: real, seconds: Option<int>,
    filename: Option<string>, material: Option<string>)

  datatype Active = Active(key: JobKey, name: Option<string>, startedAt: real, material: Option<string>)

  /** The tracker, plus every record it has ever put in its buffer. */
  datatype Tracker = Tracker(active: Option<Active>, pending: seq<JobRecord>, last: PrinterState, emitted: seq<JobRecord>)

  const FRESH := Tracker(None, [], Silent, [])

  function Millis(now: real): int {
    (now * 1000.0 + 0.5).Floor
  }

  function FingerprintOf(serial: string, name: Option<string>, now: real): JobKey {
    Fingerprint(serial, if name.Some? then name.value else "?", Millis(now))
  }

  function Open(serial: string, t: Tracker, o: Obs): Tracker {
    t.(active := Some(Active(
      if o.taskId.Some? then TaskKey(serial, o.taskId.value) else FingerprintOf(serial, o.name, o.now),
      o.name, o.now, o.material)))
  }

  /** Append to the buffer, dropping the oldest records beyond the cap. */
  function Keep(pending: seq<JobRecord>, job: JobRecord): seq<JobRecord> {
    var all := pending + [job];
    if |all| > MAX_PENDING then all[|all| - MAX_PENDING..] else all
  }

  function Buffer(t: Tracker, job: JobRecord): Tracker {
    t.(pending := Keep(t.pending, job), emitted := t.emitted + [job])
  }

  function Seconds(from: real, to: real): int {
    if to <= from then 0 else (to - from).Floor
  }

  function Close(t: Tracker, status: Status, now: real): Tracker {
    match t.active
    case None => t
    case Some(a) =>
      Buffer(t, JobRecord(a.key, status, Some(a.startedAt), now, Some(Seconds(a.startedAt, now)), a.name, a.material))
      .(active := None)
  }

  /** A printer found already finished: emit only when it supplies its own task id. */
  function EmitRecovered(serial: string, t: Tracker, o: Obs): Tracker {
    match o.taskId
    case None => t
    case Some(id) =>
      Buffer(t, JobRecord(TaskKey(serial, id), if o.state == Finish then Done else JobFailed,
                          None, o.now, None, o.name, o.material))
  }

  function OrElse<T>(first: Option<T>, second: Option<T>): Option<T> {
    if first.Some? then first else second
  }

  /** The same job still runs: fill in identity bits that arrived late. */
  function Refresh(serial: string, a: Active, o: Obs): Active {
    Active(
      if o.taskId.Some? && !a.key.TaskKey? then TaskKey(serial, o.taskId.value) else a.key,
      OrElse(a.name, o.name), a.startedAt, OrElse(a.material, o.material))
  }

  predicate NameChanged(a: Active, o: Obs) {
    o.name.Some? && a.name.Some? && o.name != a.name
  }

  function Observe(serial: string, t: Tracker, o: Obs): Tracker {
    if o.state == Silent then t
    else
      var next :=
        if t.active.None? then
          if o.state == Running then Open(serial, t, o)
          else if t.last == Silent && o.state in {Finish, Failed} then EmitRecovered(serial, t, o)
          else t
        else
          match o.state
          case Finish => Close(t, Done, o.now)
          case Failed => Close(t, JobFailed, o.now)
          case Running =>
            if NameChanged(t.active.value, o) then Open(serial, Close(t, Cancelled, o.now), o)
            else t.(active := Some(Refresh(serial, t.active.value, o)))
          case StillActive => t
          case _ => Close(t, Cancelled, o.now);
      next.(last := o.state)
  }

  function Without(pending: seq<JobRecord>, keys: set<JobKey>): seq<JobRecord> {
    if pending == [] then []
    else (if pending[0].key in keys then [] else [pending[0]]) + Without(pending[1..], keys)
  }

  function Ack(t: Tracker, keys: set<JobKey>): Tracker {
    t.(pending := Without(t.pending, keys))
  }

  function ObserveAll(serial: string, t: Tracker, os: seq<Obs>): Tracker
    decreases |os|
  {
    if os == [] then t else ObserveAll(serial, Observe(serial, t, os[0]), os[1..])
  }

  /** The tracker as the adapter owns it. */
  class JobTracker {
    const serial: string
    var active: Option<Active>
    var pending: seq<JobRecord>
    var lastState: PrinterState
    ghost var emitted: seq<JobRecord>

    ghost function Value(): Tracker
      reads this
    {
      Tracker(active, pending, lastState, emitted)
    }

    constructor (serial: string)
      ensures Value() == FRESH && this.serial == serial
    {
      this.serial := serial;
      active, pending, lastState, emitted := None, [], Silent, [];
    }

    method BufferJob(job: JobRecord)
      modifies this`pending, this`emitted
      ensures Value() == Buffer(old(Value()), job)
    {
      pending := pending + [job];
      emitted := emitted + [job];
      if |pending| > MAX_PENDING {
        pending := pending[|pending| - MAX_PENDING..];
      }
    }

    method CloseJob(status: Status, now: real)
      modifies this`pending, this`emitted, this`active
      ensures Value() == Close(old(Value()), status, now)
    {
      match active
      case None => return;
      case Some(a) =>
        BufferJob(JobRecord(a.key, status, Some(a.startedAt), now, Some(Seconds(a.startedAt, now)), a.name, a.material));
        active := None;
    }

    method OpenJob(o: Obs)
      modifies this`active
      ensures Value() == Open(serial, old(Value()), o)
    {
      var key := if o.taskId.Some? then TaskKey(serial, o.taskId.value) else FingerprintOf(serial, o.name, o.now);
      active := Some(Active(key, o.name, o.now, o.material));
    }

    method Recover(o: Obs)
      modifies this`pending, this`emitted
      ensures Value() == EmitRecovered(serial, old(Value()), o)
    {
      if o.taskId.Some? {
        BufferJob(JobRecord(TaskKey(serial, o.taskId.value), if o.state == Finish then Done else JobFailed,
                            None, o.now, None, o.name, o.material));
      }
    }

    /** `observe`: the state as upper-cased text, and what else the report holds. */
    method ObserveReport(text: string, name: Option<string>, taskId: Option<string>, material: Option<string>, now: real)
      modifies this
      ensures Value() == Observe(serial, old(Value()), Obs(Classify(text), name, taskId, material, now))
    {
      var o := Obs(Classify(text), name, taskId, material, now);
      if o.state == Silent {
        return;
      }
      if active == None {
        if o.state == Running {
          OpenJob(o);
        } else if lastState == Silent && o.state in {Finish, Failed} {
          Recover(o);
        }
      } else if o.state == Finish {
        CloseJob(Done, o.now);
      } else if o.state == Failed {
        CloseJob(JobFailed, o.now);
      } else if o.state == Running {
        var a := active.value;
        if NameChanged(a, o) {
          CloseJob(Cancelled, o.now);
          OpenJob(o);
        } else {
          if o.name.Some? && a.name.None? {
            a := a.(name := o.name);
          }
          if o.taskId.Some? && !a.key.TaskKey? {
            a := a.(key := TaskKey(serial, o.taskId.value));
          }
          if a.material.None? {
            a := a.(material := o.material);
          }
          active := Some(a);
        }
      } else if o.state != StillActive {
        CloseJob(Cancelled, o.now);
      }
      lastState := o.state;
    }

    method Acknowledge(keys: set<JobKey>)
      modifies this`pending
      ensures Value() == Ack(old(Value()), keys)
    {
      var kept := [];
      for i := 0 to |pending|
        invariant pending == old(pending)
        invariant kept + Without(pending[i..], keys) == Without(pending, keys)
      {
        if pending[i].key !in keys {
          kept := kept + [pending[i]];
        }
      }
      pending := kept;
    }
  }
}
