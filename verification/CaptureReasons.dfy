/** The reason of a drop is a fact about the moment it was recorded: expired means expired by then, a cap means that
    cap was exceeded, ambiguous means that a side held more than one item. */
module CaptureReasons {
  import opened Prelude
  import opened Capture
  import opened CaptureJobs
  import opened CaptureLaws
  import opened CaptureRuns

  // ---------------------------------------------------------------- what each reason claims

  ghost predicate WasExpired<R>(b: Bucket<R>, item: Pending<R>, now: real) {
    item in Flat(b) && item.expiresAt <= now
  }

  /** The queue of the arriving item's key once what had expired is gone and the item has joined. */
  function Joined<R>(b: Bucket<R>, arriving: Pending<R>, now: real): seq<Pending<R>> {
    QueueOf(AppendItem(Prune(b, now), arriving), arriving.key)
  }

  /** At least `maxPerKey` newer items of the key stood behind this one. */
  ghost predicate WasCrowdedOut<R>(cfg: Config, b: Bucket<R>, arriving: Pending<R>, now: real, item: Pending<R>) {
    var q := Joined(b, arriving, now);
    exists j :: 0 <= j < |q| && q[j] == item && |q| - j > cfg.maxPerKey
  }

  /** The side once the arriving item has joined and its key is down to the cap. */
  function Crowded<R>(cfg: Config, b: Bucket<R>, arriving: Pending<R>, now: real): Bucket<R> {
    TrimKey(AppendItem(Prune(b, now), arriving), arriving.key, cfg.maxPerKey)
  }

  /** More than `maxPending` items waited on the side, this one among them. */
  ghost predicate WasOverTotal<R>(cfg: Config, b: Bucket<R>, arriving: Pending<R>, now: real, item: Pending<R>) {
    Count(Crowded(cfg, b, arriving, now)) > cfg.maxPending && item in Flat(Crowded(cfg, b, arriving, now))
  }

  /** The state in which pairing is tried. */
  function BeforePairing(cfg: Config, s: State, e: Event): State {
    match e
    case UploadEvent(u, now, _) => AdmitUpload(cfg, PruneAll(s, now), Pending(u, (u.memberId, u.filename), now + cfg.wait))
    case IntentEvent(i, now, _) => AdmitIntent(cfg, PruneAll(s, now), Pending(i, (i.memberId, i.filename), now + cfg.wait))
    case _ => s
  }

  function KeyOf(e: Event): Key
    requires e.UploadEvent? || e.IntentEvent?
  {
    if e.UploadEvent? then (e.upload.memberId, e.upload.filename) else (e.intent.memberId, e.intent.filename)
  }

  function WaitingUploads(cfg: Config, s: State, e: Event): seq<Pending<Upload>>
    requires e.UploadEvent? || e.IntentEvent?
  {
    QueueOf(BeforePairing(cfg, s, e).uploads, KeyOf(e))
  }

  function WaitingIntents(cfg: Config, s: State, e: Event): seq<Pending<Intent>>
    requires e.UploadEvent? || e.IntentEvent?
  {
    QueueOf(BeforePairing(cfg, s, e).intents, KeyOf(e))
  }

  /** Both sides wait for the event's key and one of them holds several items. */
  ghost predicate WasAmbiguous(cfg: Config, s: State, e: Event) {
    && (e.UploadEvent? || e.IntentEvent?)
    && WaitingUploads(cfg, s, e) != [] && WaitingIntents(cfg, s, e) != []
    && (|WaitingUploads(cfg, s, e)| > 1 || |WaitingIntents(cfg, s, e)| > 1)
  }

  /** One upload and one intent wait for the event's key and make no job, for this error. */
  ghost predicate FailedToAssemble(cfg: Config, s: State, e: Event, error: AssembleError) {
    && (e.UploadEvent? || e.IntentEvent?)
    && |WaitingUploads(cfg, s, e)| == 1 && |WaitingIntents(cfg, s, e)| == 1
    && Fault(WaitingUploads(cfg, s, e)[0].record, WaitingIntents(cfg, s, e)[0].record, e.facts, error)
  }

  ghost predicate UploadReasonHolds(cfg: Config, s: State, e: Event, d: Drop<Upload>) {
    match d.reason
    case TimedOut => !e.ClearEvent? && WasExpired(s.uploads, d.item, e.at)
    case PerKeyLimit => e.UploadEvent? && WasCrowdedOut(cfg, s.uploads, NewUploads(cfg, e)[0], e.at, d.item)
    case TotalLimit => e.UploadEvent? && WasOverTotal(cfg, s.uploads, NewUploads(cfg, e)[0], e.at, d.item)
    case Ambiguous => WasAmbiguous(cfg, s, e) && d.item in WaitingUploads(cfg, s, e)
    case AssembleFailed(error) => FailedToAssemble(cfg, s, e, error) && d.item == WaitingUploads(cfg, s, e)[0]
    case Cleared => e.ClearEvent? && d.item in Flat(s.uploads)
  }

  ghost predicate IntentReasonHolds(cfg: Config, s: State, e: Event, d: Drop<Intent>) {
    match d.reason
    case TimedOut => !e.ClearEvent? && WasExpired(s.intents, d.item, e.at)
    case PerKeyLimit => e.IntentEvent? && WasCrowdedOut(cfg, s.intents, NewIntents(cfg, e)[0], e.at, d.item)
    case TotalLimit => e.IntentEvent? && WasOverTotal(cfg, s.intents, NewIntents(cfg, e)[0], e.at, d.item)
    case Ambiguous => WasAmbiguous(cfg, s, e) && d.item in WaitingIntents(cfg, s, e)
    case AssembleFailed(error) => FailedToAssemble(cfg, s, e, error) && d.item == WaitingIntents(cfg, s, e)[0]
    case Cleared => e.ClearEvent? && d.item in Flat(s.intents)
  }

  // ---------------------------------------------------------------- the parts of one step

  lemma {:induction false} ExpiredHeadsExpired<R>(q: seq<Pending<R>>, now: real)
    ensures forall p :: p in ExpiredHeads(q, now) ==> p in q && p.expiresAt <= now
  {
    if q != [] && q[0].expiresAt <= now {
      ExpiredHeadsExpired(q[1..], now);
    }
  }

  lemma {:induction false} ExpiredWereExpired<R>(b: Bucket<R>, now: real)
    ensures forall p :: p in Expired(b, now) ==> WasExpired(b, p, now)
  {
    if b != [] {
      ExpiredHeadsExpired(b[0].queue, now);
      ExpiredWereExpired(b[1..], now);
    }
  }

  /** Every drop of a list gives a reason that holds. */
  ghost predicate UploadsHold(cfg: Config, s: State, e: Event, drops: seq<Drop<Upload>>) {
    forall i :: 0 <= i < |drops| ==> UploadReasonHolds(cfg, s, e, drops[i])
  }

  ghost predicate IntentsHold(cfg: Config, s: State, e: Event, drops: seq<Drop<Intent>>) {
    forall i :: 0 <= i < |drops| ==> IntentReasonHolds(cfg, s, e, drops[i])
  }

  /** What admission may drop: the key's overflow and the side's. */
  ghost predicate AdmissionHolds<R>(cfg: Config, b: Bucket<R>, arriving: Pending<R>, now: real, d: Drop<R>) {
    || (d.reason == PerKeyLimit && WasCrowdedOut(cfg, b, arriving, now, d.item))
    || (d.reason == TotalLimit && WasOverTotal(cfg, b, arriving, now, d.item))
  }

  lemma {:induction false} AdmissionDrops<R>(cfg: Config, b: Bucket<R>, arriving: Pending<R>, now: real)
    ensures forall d :: d in Admit(cfg, Prune(b, now), arriving).1 ==> AdmissionHolds(cfg, b, arriving, now, d)
  {
    hide QueueOf, AppendItem, TrimKey, Prune, EvictTotal, EvictedTotal, Count, Flat, WasCrowdedOut;
    var perKey := TrimmedFromKey(AppendItem(Prune(b, now), arriving), arriving.key, cfg.maxPerKey);
    var total := EvictedTotal(Crowded(cfg, b, arriving, now), cfg.maxPending);
    forall i | 0 <= i < |perKey| ensures WasCrowdedOut(cfg, b, arriving, now, perKey[i]) {
      OverflowIsCrowdedOut(cfg, b, arriving, now, i);
    }
    EvictedWerePending(Crowded(cfg, b, arriving, now), cfg.maxPending);
    var drops := Admit(cfg, Prune(b, now), arriving).1;
    assert drops == Dropped(perKey, PerKeyLimit) + Dropped(total, TotalLimit);
    forall i | 0 <= i < |drops| ensures AdmissionHolds(cfg, b, arriving, now, drops[i]) {
      if i >= |perKey| {
        assert drops[i].item == total[i - |perKey|];
      }
    }
  }

  lemma {:induction false} OverflowIsCrowdedOut<R>(cfg: Config, b: Bucket<R>, arriving: Pending<R>, now: real, i: nat)
    requires i < |TrimmedFromKey(AppendItem(Prune(b, now), arriving), arriving.key, cfg.maxPerKey)|
    ensures WasCrowdedOut(cfg, b, arriving, now,
                          TrimmedFromKey(AppendItem(Prune(b, now), arriving), arriving.key, cfg.maxPerKey)[i])
  {
    hide QueueOf, AppendItem, Prune;
    var q := Joined(b, arriving, now);
    assert q[i] == TrimmedFromKey(AppendItem(Prune(b, now), arriving), arriving.key, cfg.maxPerKey)[i];
  }

  lemma {:induction false} EvictedWerePending<R>(b: Bucket<R>, maximum: nat)
    ensures forall p :: p in EvictedTotal(b, maximum) ==> p in Flat(b) && Count(b) > maximum
  {
    EvictsTheExcess(b, maximum);
    EvictConserves(b, maximum);
    forall p | p in EvictedTotal(b, maximum) ensures p in Flat(b) {
      assert p in multiset(EvictedTotal(b, maximum));
      assert p in Items(b);
    }
  }

  /** Exactly as many items go as the side holds beyond the cap. */
  lemma {:induction false} EvictsTheExcess<R>(b: Bucket<R>, maximum: nat)
    ensures |EvictedTotal(b, maximum)| == Max(0, Count(b) - maximum)
    decreases Count(b)
  {
    hide PopAt, OldestIndex;
    if Count(b) > maximum {
      SomethingPends(b);
      CountPopAt(b, OldestIndex(b).value);
      EvictsTheExcess(PopAt(b, OldestIndex(b).value), maximum);
    }
  }

  lemma {:induction false} SomethingPends<R>(b: Bucket<R>)
    requires Count(b) > 0
    ensures OldestIndex(b).Some?
  {
    if b[0].queue == [] {
      SomethingPends(b[1..]);
    }
  }

  // ---------------------------------------------------------------- one step

  lemma {:induction false} PruneReasons(cfg: Config, s: State, e: Event)
    requires !e.ClearEvent?
    ensures PruneAll(s, e.at).lostUploads == s.lostUploads + Dropped(Expired(s.uploads, e.at), TimedOut)
    ensures PruneAll(s, e.at).lostIntents == s.lostIntents + Dropped(Expired(s.intents, e.at), TimedOut)
    ensures UploadsHold(cfg, s, e, Dropped(Expired(s.uploads, e.at), TimedOut))
    ensures IntentsHold(cfg, s, e, Dropped(Expired(s.intents, e.at), TimedOut))
  {
    hide Expired, WasExpired;
    ExpiredWereExpired(s.uploads, e.at);
    ExpiredWereExpired(s.intents, e.at);
  }

  /** What pairing drops from each side of the key. */
  function PairingDrops<R>(cfg: Config, s: State, key: Key, facts: FileFacts, waiting: seq<Pending<R>>): seq<Drop<R>> {
    var us, ins := QueueOf(s.uploads, key), QueueOf(s.intents, key);
    if us == [] || ins == [] then []
    else if |us| != 1 || |ins| != 1 then Dropped(waiting, Ambiguous)
    else
      match Assemble(cfg, us[0].record, ins[0].record, facts)
      case Err(error) => Dropped(waiting, AssembleFailed(error))
      case Ok(_) => []
  }

  lemma {:induction false} TryCaptureDrops(cfg: Config, s: State, key: Key, facts: FileFacts)
    ensures TryCapture(cfg, s, key, facts).lostUploads
            == s.lostUploads + PairingDrops(cfg, s, key, facts, QueueOf(s.uploads, key))
    ensures TryCapture(cfg, s, key, facts).lostIntents
            == s.lostIntents + PairingDrops(cfg, s, key, facts, QueueOf(s.intents, key))
  {
    hide QueueOf, Assemble, Without;
    assert s.lostUploads + [] == s.lostUploads && s.lostIntents + [] == s.lostIntents;
  }

  lemma {:induction false} PairingReasons(cfg: Config, s: State, e: Event)
    requires e.UploadEvent? || e.IntentEvent?
    ensures var p := BeforePairing(cfg, s, e);
            && UploadsHold(cfg, s, e, PairingDrops(cfg, p, KeyOf(e), e.facts, QueueOf(p.uploads, KeyOf(e))))
            && IntentsHold(cfg, s, e, PairingDrops(cfg, p, KeyOf(e), e.facts, QueueOf(p.intents, KeyOf(e))))
  {
    hide QueueOf, Assemble, BeforePairing, Fault, JobOf, SameNames, Fits;
    var us, ins := WaitingUploads(cfg, s, e), WaitingIntents(cfg, s, e);
    if |us| == 1 && |ins| == 1 {
      AssemblyIsExact(cfg, us[0].record, ins[0].record, e.facts);
    }
  }

  /** A step adds drops, and the reason of each added drop holds. */
  ghost predicate AddsTrueDrops(cfg: Config, s: State, e: Event, after: State) {
    && s.lostUploads <= after.lostUploads && UploadsHold(cfg, s, e, after.lostUploads[|s.lostUploads|..])
    && s.lostIntents <= after.lostIntents && IntentsHold(cfg, s, e, after.lostIntents[|s.lostIntents|..])
  }

  lemma {:induction false} HoldConcat(cfg: Config, s: State, e: Event,
                                      a: seq<Drop<Upload>>, b: seq<Drop<Upload>>, c: seq<Drop<Intent>>, d: seq<Drop<Intent>>)
    ensures UploadsHold(cfg, s, e, a) && UploadsHold(cfg, s, e, b) ==> UploadsHold(cfg, s, e, a + b)
    ensures IntentsHold(cfg, s, e, c) && IntentsHold(cfg, s, e, d) ==> IntentsHold(cfg, s, e, c + d)
  {
    hide UploadReasonHolds, IntentReasonHolds;
  }

  lemma {:induction false} AddsMore(cfg: Config, s: State, e: Event, before: State, after: State,
                                    us: seq<Drop<Upload>>, ins: seq<Drop<Intent>>)
    requires AddsTrueDrops(cfg, s, e, before)
    requires after.lostUploads == before.lostUploads + us && UploadsHold(cfg, s, e, us)
    requires after.lostIntents == before.lostIntents + ins && IntentsHold(cfg, s, e, ins)
    ensures AddsTrueDrops(cfg, s, e, after)
  {
    hide UploadsHold, IntentsHold;
    HoldConcat(cfg, s, e, before.lostUploads[|s.lostUploads|..], us, before.lostIntents[|s.lostIntents|..], ins);
    assert after.lostUploads[|s.lostUploads|..] == before.lostUploads[|s.lostUploads|..] + us;
    assert after.lostIntents[|s.lostIntents|..] == before.lostIntents[|s.lostIntents|..] + ins;
  }

  lemma {:induction false} PruneAddsTrueDrops(cfg: Config, s: State, e: Event)
    requires !e.ClearEvent?
    ensures AddsTrueDrops(cfg, s, e, PruneAll(s, e.at))
  {
    hide UploadsHold, IntentsHold, Expired;
    PruneReasons(cfg, s, e);
    assert AddsTrueDrops(cfg, s, e, s) by {
      NothingHolds(cfg, s, e);
    }
    AddsMore(cfg, s, e, s, PruneAll(s, e.at), Dropped(Expired(s.uploads, e.at), TimedOut), Dropped(Expired(s.intents, e.at), TimedOut));
  }

  lemma {:induction false} NothingHolds(cfg: Config, s: State, e: Event)
    ensures UploadsHold(cfg, s, e, []) && IntentsHold(cfg, s, e, [])
    ensures s.lostUploads[|s.lostUploads|..] == [] && s.lostIntents[|s.lostIntents|..] == []
  {
  }

  lemma {:induction false} UploadAdmissionHolds(cfg: Config, s: State, e: Event)
    requires e.UploadEvent?
    ensures UploadsHold(cfg, s, e, Admit(cfg, PruneAll(s, e.at).uploads, NewUploads(cfg, e)[0]).1)
  {
    hide Admit, WasCrowdedOut, WasOverTotal, Prune, Expired;
    AdmissionDrops(cfg, s.uploads, NewUploads(cfg, e)[0], e.at);
    var drops := Admit(cfg, Prune(s.uploads, e.at), NewUploads(cfg, e)[0]).1;
    forall i | 0 <= i < |drops| ensures UploadReasonHolds(cfg, s, e, drops[i]) {
      assert drops[i] in drops;
    }
  }

  lemma {:induction false} IntentAdmissionHolds(cfg: Config, s: State, e: Event)
    requires e.IntentEvent?
    ensures IntentsHold(cfg, s, e, Admit(cfg, PruneAll(s, e.at).intents, NewIntents(cfg, e)[0]).1)
  {
    hide Admit, WasCrowdedOut, WasOverTotal, Prune, Expired;
    AdmissionDrops(cfg, s.intents, NewIntents(cfg, e)[0], e.at);
    var drops := Admit(cfg, Prune(s.intents, e.at), NewIntents(cfg, e)[0]).1;
    forall i | 0 <= i < |drops| ensures IntentReasonHolds(cfg, s, e, drops[i]) {
      assert drops[i] in drops;
    }
  }

  lemma {:induction false} AdmissionAddsTrueDrops(cfg: Config, s: State, e: Event)
    requires e.UploadEvent? || e.IntentEvent?
    ensures AddsTrueDrops(cfg, s, e, BeforePairing(cfg, s, e))
  {
    hide AddsTrueDrops, Admit, UploadsHold, IntentsHold, PruneAll;
    PruneAddsTrueDrops(cfg, s, e);
    NothingHolds(cfg, s, e);
    var pruned := PruneAll(s, e.at);
    if e.UploadEvent? {
      UploadAdmissionHolds(cfg, s, e);
      AddsMore(cfg, s, e, pruned, BeforePairing(cfg, s, e), Admit(cfg, pruned.uploads, NewUploads(cfg, e)[0]).1, []);
    } else {
      IntentAdmissionHolds(cfg, s, e);
      AddsMore(cfg, s, e, pruned, BeforePairing(cfg, s, e), [], Admit(cfg, pruned.intents, NewIntents(cfg, e)[0]).1);
    }
  }

  lemma {:induction false} ClearAddsTrueDrops(cfg: Config, s: State, e: Event)
    requires e.ClearEvent?
    ensures AddsTrueDrops(cfg, s, e, Clear(s))
  {
    hide Flat;
    NothingHolds(cfg, s, e);
    AddsMore(cfg, s, e, s, Clear(s), Dropped(Flat(s.uploads), Cleared), Dropped(Flat(s.intents), Cleared));
  }

  lemma {:induction false} StepAddsTrueDrops(cfg: Config, s: State, e: Event)
    ensures AddsTrueDrops(cfg, s, e, Step(cfg, s, e))
  {
    hide AddsTrueDrops, UploadsHold, IntentsHold, PruneAll, Clear, TryCapture, PairingDrops, QueueOf;
    if e.ClearEvent? {
      ClearAddsTrueDrops(cfg, s, e);
    } else if e.TimerEvent? {
      PruneAddsTrueDrops(cfg, s, e);
    } else {
      var p := BeforePairing(cfg, s, e);
      AdmissionAddsTrueDrops(cfg, s, e);
      PairingReasons(cfg, s, e);
      TryCaptureDrops(cfg, p, KeyOf(e), e.facts);
      assert Step(cfg, s, e) == TryCapture(cfg, p, KeyOf(e), e.facts);
      AddsMore(cfg, s, e, p, Step(cfg, s, e),
               PairingDrops(cfg, p, KeyOf(e), e.facts, QueueOf(p.uploads, KeyOf(e))),
               PairingDrops(cfg, p, KeyOf(e), e.facts, QueueOf(p.intents, KeyOf(e))));
    }
  }

  // ---------------------------------------------------------------- runs

  /** Drop `m` was recorded by event `k`, and its reason held then. */
  ghost predicate UploadDropExplained(cfg: Config, es: seq<Event>, k: nat, m: nat, d: Drop<Upload>) {
    && k < |es|
    && |Run(cfg, es[..k]).lostUploads| <= m < |Run(cfg, es[..k + 1]).lostUploads|
    && UploadReasonHolds(cfg, Run(cfg, es[..k]), es[k], d)
  }

  ghost predicate IntentDropExplained(cfg: Config, es: seq<Event>, k: nat, m: nat, d: Drop<Intent>) {
    && k < |es|
    && |Run(cfg, es[..k]).lostIntents| <= m < |Run(cfg, es[..k + 1]).lostIntents|
    && IntentReasonHolds(cfg, Run(cfg, es[..k]), es[k], d)
  }

  /** Over every run and clock: each upload ever dropped was dropped by one event, and the reason it was given held at
      that event. */
  lemma {:induction false} UploadReasonsAreTrue(cfg: Config, es: seq<Event>, m: nat) returns (k: nat)
    requires m < |Run(cfg, es).lostUploads|
    ensures UploadDropExplained(cfg, es, k, m, Run(cfg, es).lostUploads[m])
  {
    hide Step, UploadReasonHolds, IntentsHold;
    var n := |es| - 1;
    var s := Run(cfg, es[..n]);
    StepAddsTrueDrops(cfg, s, es[n]);
    assert es[..n + 1] == es;
    if m < |s.lostUploads| {
      k := UploadReasonsAreTrue(cfg, es[..n], m);
      assert es[..n][..k] == es[..k] && es[..n][..k + 1] == es[..k + 1];
    } else {
      k := n;
      assert UploadReasonHolds(cfg, s, es[n], Run(cfg, es).lostUploads[|s.lostUploads|..][m - |s.lostUploads|]);
    }
  }

  /** The same for the intents. */
  lemma {:induction false} IntentReasonsAreTrue(cfg: Config, es: seq<Event>, m: nat) returns (k: nat)
    requires m < |Run(cfg, es).lostIntents|
    ensures IntentDropExplained(cfg, es, k, m, Run(cfg, es).lostIntents[m])
  {
    hide Step, IntentReasonHolds, UploadsHold;
    var n := |es| - 1;
    var s := Run(cfg, es[..n]);
    StepAddsTrueDrops(cfg, s, es[n]);
    assert es[..n + 1] == es;
    if m < |s.lostIntents| {
      k := IntentReasonsAreTrue(cfg, es[..n], m);
      assert es[..n][..k] == es[..k] && es[..n][..k + 1] == es[..k + 1];
    } else {
      k := n;
      assert IntentReasonHolds(cfg, s, es[n], Run(cfg, es).lostIntents[|s.lostIntents|..][m - |s.lostIntents|]);
    }
  }
}
