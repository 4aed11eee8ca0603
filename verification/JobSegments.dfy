/** The tracker's records are a segmentation of the raw telemetry: every maximal stretch of frames that belong to one
    print becomes one record, read off the state texts of the stretch and the frame that ended it. */
module JobSegments {
  import opened Prelude
  import opened JobTracking

  /** One report of the printer: its upper-cased state text, and the name, task id and material when present. */
  datatype Frame = Frame(
    text: string, name: Option<string>, taskId: Option<string>, material: Option<string>, now: real)

  /** What the tracker is told of a report. */
  function Sight(f: Frame): Obs {
    Obs(Classify(f.text), f.name, f.taskId, f.material, f.now)
  }

  function Watch(serial: string, t: Tracker, fs: seq<Frame>): Tracker
    decreases |fs|
  {
    if fs == [] then t else Watch(serial, Observe(serial, t, Sight(fs[0])), fs[1..])
  }

  lemma {:induction false} Reading(f: Frame)
    ensures Sight(f) == Obs(Sight(f).state, f.name, f.taskId, f.material, f.now)
    ensures Sight(f).state == Silent <==> f.text == ""
    ensures Sight(f).state == Running <==> f.text == "RUNNING"
    ensures Sight(f).state == StillActive <==> f.text in {"PAUSE", "PREPARE", "SLICING", "INIT"}
    ensures Sight(f).state == Finish <==> f.text == "FINISH"
    ensures Sight(f).state == Failed <==> f.text == "FAILED"
  {
  }

  // ----- the declarative segmentation -----------------------------------------------------------

  function Signals(fs: seq<Frame>): seq<Frame> {
    if fs == [] then []
    else (if fs[0].text == "" then [] else [fs[0]]) + Signals(fs[1..])
  }

  function FirstName(seg: seq<Frame>): Option<string> {
    if seg == [] then None
    else OrElse(if seg[0].text == "RUNNING" then seg[0].name else None, FirstName(seg[1..]))
  }

  function FirstTask(seg: seq<Frame>): Option<string> {
    if seg == [] then None
    else OrElse(if seg[0].text == "RUNNING" then seg[0].taskId else None, FirstTask(seg[1..]))
  }

  function FirstMaterial(seg: seq<Frame>): Option<string> {
    if seg == [] then None
    else OrElse(if seg[0].text == "RUNNING" then seg[0].material else None, FirstMaterial(seg[1..]))
  }

  /** Frame `f` still belongs to the print observed in `seg`. */
  predicate Continues(seg: seq<Frame>, f: Frame) {
    f.text in {"PAUSE", "PREPARE", "SLICING", "INIT"}
    || (f.text == "RUNNING" && !(f.name.Some? && FirstName(seg).Some? && f.name != FirstName(seg)))
  }

  /** The length of the longest stretch of one print, given that its first `n` frames belong. */
  function Extent(fs: seq<Frame>, n: nat): (m: nat)
    requires 1 <= n <= |fs|
    ensures n <= m <= |fs|
    ensures forall k :: n <= k < m ==> Continues(fs[..k], fs[k])
    ensures m < |fs| ==> !Continues(fs[..m], fs[m])
    decreases |fs| - n
  {
    if n == |fs| || !Continues(fs[..n], fs[n]) then n else Extent(fs, n + 1)
  }

  function KeyOf(serial: string, seg: seq<Frame>): JobKey
    requires seg != []
  {
    if FirstTask(seg).Some? then TaskKey(serial, FirstTask(seg).value)
    else FingerprintOf(serial, seg[0].name, seg[0].now)
  }

  function StatusOf(end: Frame): Status {
    if end.text == "FINISH" then Done else if end.text == "FAILED" then JobFailed else Cancelled
  }

  function RecordOf(serial: string, seg: seq<Frame>, end: Frame): JobRecord
    requires seg != []
  {
    JobRecord(KeyOf(serial, seg), StatusOf(end), Some(seg[0].now), end.now,
              Some(Seconds(seg[0].now, end.now)), FirstName(seg), FirstMaterial(seg))
  }

  /** One record per maximal stretch; a stretch still open at the end of the telemetry has none.
      A frame that ends a stretch by running under another name starts the next one. */
  function Records(serial: string, fs: seq<Frame>): seq<JobRecord>
    decreases |fs|, 0
  {
    if fs == [] then []
    else if fs[0].text != "RUNNING" then Records(serial, fs[1..])
    else AfterStretch(serial, fs, Extent(fs, 1))
  }

  /** The records of `fs` when its first `n` frames are one maximal stretch. */
  function AfterStretch(serial: string, fs: seq<Frame>, n: nat): seq<JobRecord>
    requires 1 <= n <= |fs|
    decreases |fs| - n, 1
  {
    if n == |fs| then []
    else [RecordOf(serial, fs[..n], fs[n])] + Records(serial, if fs[n].text == "RUNNING" then fs[n..] else fs[n + 1..])
  }

  function Recovered(serial: string, fs: seq<Frame>): seq<JobRecord> {
    if fs != [] && fs[0].text in {"FINISH", "FAILED"} && fs[0].taskId.Some?
    then [JobRecord(TaskKey(serial, fs[0].taskId.value), StatusOf(fs[0]), None, fs[0].now, None, fs[0].name, fs[0].material)]
    else []
  }

  // ----- the tracker follows a stretch ------------------------------------------------------------

  function ActiveOf(serial: string, seg: seq<Frame>): Active
    requires seg != []
  {
    Active(KeyOf(serial, seg), FirstName(seg), seg[0].now, FirstMaterial(seg))
  }

  lemma {:induction false} FirstsSnoc(seg: seq<Frame>, f: Frame)
    ensures FirstName(seg + [f]) == OrElse(FirstName(seg), if f.text == "RUNNING" then f.name else None)
    ensures FirstTask(seg + [f]) == OrElse(FirstTask(seg), if f.text == "RUNNING" then f.taskId else None)
    ensures FirstMaterial(seg + [f]) == OrElse(FirstMaterial(seg), if f.text == "RUNNING" then f.material else None)
  {
    if seg == [] {
      assert seg + [f] == [f];
    } else {
      FirstsSnoc(seg[1..], f);
      assert (seg + [f])[1..] == seg[1..] + [f];
    }
  }

  lemma {:induction false} FirstsOne(f: Frame)
    ensures f.text == "RUNNING" ==>
              FirstName([f]) == f.name && FirstTask([f]) == f.taskId && FirstMaterial([f]) == f.material
  {
    FirstsSnoc([], f);
    assert [] + [f] == [f];
  }

  lemma {:induction false} OpenStep(serial: string, t: Tracker, f: Frame)
    requires f.text == "RUNNING"
    ensures Open(serial, t, Sight(f)) == t.(active := Some(ActiveOf(serial, [f])))
  {
    FirstsOne(f);
  }

  lemma {:induction false} ContinueStep(serial: string, t: Tracker, seg: seq<Frame>, f: Frame)
    requires seg != [] && t.active == Some(ActiveOf(serial, seg)) && Continues(seg, f)
    ensures Observe(serial, t, Sight(f)).active == Some(ActiveOf(serial, seg + [f]))
    ensures Observe(serial, t, Sight(f)).emitted == t.emitted
    ensures Observe(serial, t, Sight(f)).last != Silent
  {
    FirstsSnoc(seg, f);
  }

  lemma {:induction false} EndStep(serial: string, t: Tracker, seg: seq<Frame>, f: Frame)
    requires seg != [] && t.active == Some(ActiveOf(serial, seg)) && !Continues(seg, f) && f.text != ""
    ensures Observe(serial, t, Sight(f)).emitted == t.emitted + [RecordOf(serial, seg, f)]
    ensures Observe(serial, t, Sight(f)).active == if f.text == "RUNNING" then Some(ActiveOf(serial, [f])) else None
    ensures Observe(serial, t, Sight(f)).last != Silent
  {
    if f.text == "RUNNING" {
      OpenStep(serial, Close(t, Cancelled, f.now), f);
    }
  }

  /** From inside a stretch whose first `n` frames were seen, to its end. */
  lemma {:induction false} FollowStretch(serial: string, t: Tracker, fs: seq<Frame>, n: nat)
    requires 1 <= n <= |fs| && t.active == Some(ActiveOf(serial, fs[..n])) && t.last != Silent
    requires forall i :: 0 <= i < |fs| ==> fs[i].text != ""
    ensures Watch(serial, t, fs[n..]).emitted == t.emitted + AfterStretch(serial, fs, Extent(fs, n))
    decreases |fs| - n, 1
  {
    hide Observe, ActiveOf, RecordOf, Continues, Records;
    if n < |fs| {
      var f := fs[n];
      var t' := Observe(serial, t, Sight(f));
      assert fs[n..][0] == f && fs[n..][1..] == fs[n + 1..];
      if Continues(fs[..n], f) {
        ContinueStep(serial, t, fs[..n], f);
        assert fs[..n + 1] == fs[..n] + [f];
        FollowStretch(serial, t', fs, n + 1);
      } else {
        EndStep(serial, t, fs[..n], f);
        if f.text == "RUNNING" {
          StretchFollows(serial, t', fs[n..]);
        } else {
          IdleFollows(serial, t', fs[n + 1..]);
        }
      }
    } else {
      assert fs[n..] == [];
    }
  }

  lemma {:induction false} StretchFollows(serial: string, t: Tracker, fs: seq<Frame>)
    requires fs != [] && fs[0].text == "RUNNING" && t.active == Some(ActiveOf(serial, [fs[0]])) && t.last != Silent
    requires forall i :: 0 <= i < |fs| ==> fs[i].text != ""
    ensures Watch(serial, t, fs[1..]).emitted == t.emitted + Records(serial, fs)
    decreases |fs| - 1, 2
  {
    hide ActiveOf, AfterStretch;
    assert fs[..1] == [fs[0]];
    FollowStretch(serial, t, fs, 1);
  }

  /** From an idle tracker that has seen a signal before. */
  lemma {:induction false} IdleFollows(serial: string, t: Tracker, fs: seq<Frame>)
    requires t.active == None && t.last != Silent
    requires forall i :: 0 <= i < |fs| ==> fs[i].text != ""
    ensures Watch(serial, t, fs).emitted == t.emitted + Records(serial, fs)
    decreases |fs|, 0
  {
    if fs != [] {
      hide ActiveOf, AfterStretch;
      var t' := Observe(serial, t, Sight(fs[0]));
      if fs[0].text == "RUNNING" {
        OpenStep(serial, t, fs[0]);
        StretchFollows(serial, t', fs);
      } else {
        IdleFollows(serial, t', fs[1..]);
      }
    }
  }

  lemma {:induction false} SilentFramesIgnored(serial: string, t: Tracker, fs: seq<Frame>)
    ensures Watch(serial, t, fs) == Watch(serial, t, Signals(fs))
    decreases |fs|
  {
    if fs != [] {
      SilentFramesIgnored(serial, Observe(serial, t, Sight(fs[0])), fs[1..]);
      if fs[0].text != "" {
        assert Signals(fs)[0] == fs[0] && Signals(fs)[1..] == Signals(fs[1..]);
      } else {
        assert Signals(fs) == Signals(fs[1..]);
      }
    }
  }

  lemma {:induction false} SignalsSpeak(fs: seq<Frame>)
    ensures forall i :: 0 <= i < |Signals(fs)| ==> Signals(fs)[i].text != ""
  {
    if fs != [] {
      SignalsSpeak(fs[1..]);
    }
  }

  lemma {:induction false} FirstSignal(serial: string, fs: seq<Frame>)
    requires fs != [] && fs[0].text != "" && fs[0].text != "RUNNING"
    ensures var t := Observe(serial, FRESH, Sight(fs[0]));
            t.active == None && t.last != Silent && t.emitted == Recovered(serial, fs)
  {
    hide Classify;
    Reading(fs[0]);
  }

  /** For every telemetry, the records ever emitted are the segmentation of its reports with a state text, preceded by
      at most one recovered record, from the very first of them only. */
  lemma {:induction false} EmitsTheSegmentation(serial: string, fs: seq<Frame>)
    ensures Watch(serial, FRESH, fs).emitted == Recovered(serial, Signals(fs)) + Records(serial, Signals(fs))
  {
    var heard := Signals(fs);
    SilentFramesIgnored(serial, FRESH, fs);
    SignalsSpeak(fs);
    if heard != [] {
      hide ActiveOf, AfterStretch, Signals, Sight, Observe;
      var t := Observe(serial, FRESH, Sight(heard[0]));
      if heard[0].text == "RUNNING" {
        FirstPrint(serial, heard[0]);
        StretchFollows(serial, t, heard);
      } else {
        FirstSignal(serial, heard);
        IdleFollows(serial, t, heard[1..]);
      }
    }
  }

  lemma {:induction false} FirstPrint(serial: string, f: Frame)
    requires f.text == "RUNNING"
    ensures Observe(serial, FRESH, Sight(f)) == FRESH.(active := Some(ActiveOf(serial, [f])), last := Running)
  {
    OpenStep(serial, FRESH, f);
  }

  // ----- what the segmentation means --------------------------------------------------------------

  predicate Clocked(fs: seq<Frame>) {
    forall i, j :: 0 <= i < j < |fs| ==> fs[i].now <= fs[j].now
  }

  /** Jobs are ordered and do not overlap in time. */
  ghost predicate InOrder(rs: seq<JobRecord>, from: real) {
    && (forall k :: 0 <= k < |rs| ==> rs[k].startedAt.Some? && from <= rs[k].startedAt.value <= rs[k].endedAt)
    && (forall k :: 0 <= k < |rs| - 1 ==> rs[k].endedAt <= rs[k + 1].startedAt.value)
  }

  predicate NotBefore(fs: seq<Frame>, from: real) {
    forall i :: 0 <= i < |fs| ==> from <= fs[i].now
  }

  /** What follows a frame is clocked and not before it. */
  lemma {:induction false} LaterTail(fs: seq<Frame>, n: nat, d: nat)
    requires Clocked(fs) && n < |fs| && n <= d <= |fs|
    ensures Clocked(fs[d..]) && NotBefore(fs[d..], fs[n].now) && fs[0].now <= fs[n].now
  {
  }

  /** On a clock that does not go back, the records are in order and their jobs do not overlap. */
  lemma {:induction false} RecordsOrdered(serial: string, fs: seq<Frame>, from: real)
    requires Clocked(fs) && NotBefore(fs, from)
    ensures InOrder(Records(serial, fs), from)
    decreases |fs|
  {
    hide RecordOf, InOrder, Clocked, Continues, NotBefore;
    if fs == [] {
      NoRecords(from);
    } else if fs[0].text != "RUNNING" {
      RestNotBefore(fs, from);
      LaterTail(fs, 0, 1);
      RecordsOrdered(serial, fs[1..], from);
    } else {
      var n := Extent(fs, 1);
      if n < |fs| {
        var d := if fs[n].text == "RUNNING" then n else n + 1;
        LaterTail(fs, n, d);
        RecordsOrdered(serial, fs[d..], fs[n].now);
      }
      StretchOrdered(serial, fs, from, n);
    }
  }

  lemma {:induction false} NoRecords(from: real)
    ensures InOrder([], from)
  {
  }

  lemma {:induction false} RestNotBefore(fs: seq<Frame>, from: real)
    requires fs != [] && NotBefore(fs, from)
    ensures NotBefore(fs[1..], from) && from <= fs[0].now
  {
  }

  /** One stretch's record comes before the records of what follows it. */
  lemma {:induction false} StretchOrdered(serial: string, fs: seq<Frame>, from: real, n: nat)
    requires Clocked(fs) && NotBefore(fs, from) && 1 <= n <= |fs|
    requires n < |fs| ==> InOrder(Records(serial, fs[if fs[n].text == "RUNNING" then n else n + 1..]), fs[n].now)
    ensures InOrder(AfterStretch(serial, fs, n), from)
  {
    hide RecordOf, InOrder, Clocked, Records;
    if n < |fs| {
      LaterTail(fs, n, n);
      RecordTimes(serial, fs[..n], fs[n]);
      OrderedCons(RecordOf(serial, fs[..n], fs[n]), Records(serial, fs[if fs[n].text == "RUNNING" then n else n + 1..]), from);
    } else {
      NoRecords(from);
    }
  }

  lemma {:induction false} RecordTimes(serial: string, seg: seq<Frame>, end: Frame)
    requires seg != []
    ensures RecordOf(serial, seg, end).startedAt == Some(seg[0].now) && RecordOf(serial, seg, end).endedAt == end.now
  {
  }

  lemma {:induction false} OrderedCons(r: JobRecord, rs: seq<JobRecord>, from: real)
    requires r.startedAt.Some? && from <= r.startedAt.value <= r.endedAt && InOrder(rs, r.endedAt)
    ensures InOrder([r] + rs, from)
  {
    var all := [r] + rs;
    assert forall k :: 1 <= k < |all| ==> all[k] == rs[k - 1];
  }

  /** A duration in whole seconds, rounded down; none when the clock went back. */
  predicate WholeSeconds(seconds: int, from: real, to: real) {
    if to < from then seconds == 0 else seconds as real <= to - from < seconds as real + 1.0
  }

  /** A time in milliseconds, rounded to the nearest, halves up. */
  predicate NearestMilli(millis: int, time: real) {
    millis as real - 0.5 <= time * 1000.0 < millis as real + 0.5
  }

  /** The key is made of the first task id the print showed, or of its first report. */
  predicate Identifies(key: JobKey, serial: string, job: seq<Frame>)
    requires job != []
  {
    if FirstTask(job).Some? then key == TaskKey(serial, FirstTask(job).value)
    else
      && key.Fingerprint? && key.serial == serial && NearestMilli(key.millis, job[0].now)
      && key.title == if job[0].name.Some? then job[0].name.value else "?"
  }

  /** `job` runs from a "RUNNING" report as long as the texts and the name let it, and `r` says how it ended: done at a
      "FINISH", failed at a "FAILED", cancelled at any other text and at another print's name. */
  ghost predicate Tells(serial: string, job: seq<Frame>, end: Frame, r: JobRecord) {
    && job != [] && job[0].text == "RUNNING"
    && (forall k :: 1 <= k < |job| ==> Continues(job[..k], job[k])) && !Continues(job, end)
    && (r.status == Done <==> end.text == "FINISH") && (r.status == JobFailed <==> end.text == "FAILED")
    && r.startedAt == Some(job[0].now) && r.endedAt == end.now
    && r.seconds.Some? && WholeSeconds(r.seconds.value, job[0].now, end.now)
    && r.filename == FirstName(job) && r.material == FirstMaterial(job)
    && Identifies(r.key, serial, job)
  }

  ghost predicate Witnessed(serial: string, fs: seq<Frame>, r: JobRecord) {
    exists i, j :: 0 <= i < j < |fs| && Tells(serial, fs[i..j], fs[j], r)
  }

  lemma {:induction false} WitnessedLater(serial: string, fs: seq<Frame>, d: nat, r: JobRecord)
    requires d <= |fs| && Witnessed(serial, fs[d..], r)
    ensures Witnessed(serial, fs, r)
  {
    hide Tells;
    var tail := fs[d..];
    var i, j :| 0 <= i < j < |tail| && Tells(serial, tail[i..j], tail[j], r);
    assert fs[d + j] == tail[j] && fs[d + i..d + j] == tail[i..j];
  }

  lemma {:induction false} StretchTells(serial: string, fs: seq<Frame>, n: nat)
    requires fs != [] && fs[0].text == "RUNNING" && n == Extent(fs, 1) && n < |fs|
    ensures Tells(serial, fs[..n], fs[n], RecordOf(serial, fs[..n], fs[n]))
  {
    hide Continues, FirstName, FirstTask, FirstMaterial;
    var job := fs[..n];
    forall k | 1 <= k < |job| ensures Continues(job[..k], job[k]) {
      assert job[..k] == fs[..k];
    }
  }

  lemma {:induction false} RecordIsWitnessed(serial: string, fs: seq<Frame>, r: JobRecord)
    requires r in Records(serial, fs)
    ensures Witnessed(serial, fs, r)
    decreases |fs|
  {
    hide Tells, RecordOf, Witnessed;
    if fs[0].text != "RUNNING" {
      RecordIsWitnessed(serial, fs[1..], r);
      WitnessedLater(serial, fs, 1, r);
    } else {
      var n := Extent(fs, 1);
      var d := if fs[n].text == "RUNNING" then n else n + 1;
      if r == RecordOf(serial, fs[..n], fs[n]) {
        StretchTells(serial, fs, n);
        WitnessAt(serial, fs, n, r);
      } else {
        RecordIsWitnessed(serial, fs[d..], r);
        WitnessedLater(serial, fs, d, r);
      }
    }
  }

  lemma {:induction false} WitnessAt(serial: string, fs: seq<Frame>, n: nat, r: JobRecord)
    requires 0 < n < |fs| && Tells(serial, fs[..n], fs[n], r)
    ensures Witnessed(serial, fs, r)
  {
    hide Tells;
    assert fs[0..n] == fs[..n];
  }

  /** Every record ever emitted tells a print that the telemetry shows, from its "RUNNING" to the report that ended it;
      or it is the one recovered from a first signal "FINISH" or "FAILED" that carries the printer's own id. */
  lemma {:induction false} StatusNeedsItsSignal(serial: string, fs: seq<Frame>, r: JobRecord)
    requires r in Watch(serial, FRESH, fs).emitted
    ensures var heard := Signals(fs);
            || Witnessed(serial, heard, r)
            || (&& heard != [] && heard[0].text in {"FINISH", "FAILED"} && heard[0].taskId.Some?
                && r == JobRecord(TaskKey(serial, heard[0].taskId.value), if heard[0].text == "FINISH" then Done else JobFailed,
                                  None, heard[0].now, None, heard[0].name, heard[0].material))
  {
    hide Watch, Signals, Records, Witnessed;
    EmitsTheSegmentation(serial, fs);
    var heard := Signals(fs);
    if r !in Recovered(serial, heard) {
      RecordIsWitnessed(serial, heard, r);
    }
  }

  lemma {:induction false} EmittedGrows(serial: string, t: Tracker, fs: seq<Frame>)
    ensures t.emitted <= Watch(serial, t, fs).emitted
    decreases |fs|
  {
    if fs != [] {
      var t' := Observe(serial, t, Sight(fs[0]));
      OneEmittedGrows(serial, t, fs[0]);
      hide Observe;
      EmittedGrows(serial, t', fs[1..]);
      assert t.emitted <= t'.emitted <= Watch(serial, t', fs[1..]).emitted;
    }
  }

  lemma {:induction false} OneEmittedGrows(serial: string, t: Tracker, f: Frame)
    ensures t.emitted <= Observe(serial, t, Sight(f)).emitted
  {
  }

  /** What is known of a job stays known: its start, a key taken from the printer, a name, a material. */
  predicate Settled(a: Active, b: Active) {
    && b.startedAt == a.startedAt
    && (a.key.TaskKey? ==> b.key == a.key)
    && (a.name.Some? ==> b.name == a.name)
    && (a.material.Some? ==> b.material == a.material)
  }

  lemma {:induction false} StepSettles(serial: string, t: Tracker, f: Frame)
    requires t.active.Some? && Observe(serial, t, Sight(f)).emitted == t.emitted
    ensures Observe(serial, t, Sight(f)).active.Some? && Settled(t.active.value, Observe(serial, t, Sight(f)).active.value)
  {
    if f.text == "RUNNING" && NameChanged(t.active.value, Sight(f)) {
      assert |Close(t, Cancelled, f.now).emitted| == |t.emitted| + 1;
    }
  }

  /** Over any stretch of telemetry in which no record is emitted, a running job goes on running, keeps its start, and
      never changes a key taken from the printer, a name or a material. */
  lemma {:induction false} JobIsStable(serial: string, t: Tracker, fs: seq<Frame>)
    requires t.active.Some? && Watch(serial, t, fs).emitted == t.emitted
    ensures Watch(serial, t, fs).active.Some?
    ensures Settled(t.active.value, Watch(serial, t, fs).active.value)
    decreases |fs|
  {
    if fs != [] {
      hide Observe;
      var t' := Observe(serial, t, Sight(fs[0]));
      OneEmittedGrows(serial, t, fs[0]);
      EmittedGrows(serial, t', fs[1..]);
      StepSettles(serial, t, fs[0]);
      JobIsStable(serial, t', fs[1..]);
    }
  }
}
