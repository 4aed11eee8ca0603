/** The coordinator over whole runs: its invariant holds forever, every recorded upload and intent
    has exactly one fate, and a pair is captured exactly when one timely counterpart waits. */
module CaptureRuns {
  import opened Prelude
  import opened Capture
  import opened CaptureLaws
  import opened CaptureExact
  import opened CaptureJobs

  // ----- one step keeps the invariant -------------------------------------------------------

  lemma {:induction false} LaterHorizon<R>(b: Bucket<R>, horizon: real, horizon': real)
    requires BucketOk(b, horizon) && horizon <= horizon'
    ensures BucketOk(b, horizon')
  {
    forall i | 0 <= i < |b| ensures QueueOk(b[i].queue, b[i].key, horizon') {
      assert QueueOk(b[i].queue, b[i].key, horizon);
    }
  }

  lemma {:induction false} PresentIsNonempty<R>(b: Bucket<R>, key: Key, horizon: real)
    requires BucketOk(b, horizon)
    ensures key in Keys(b) <==> QueueOf(b, key) != []
  {
    QueueOfAbsent(b, key);
  }

  lemma {:induction false} SmallerFlat<R>(b: Bucket<R>, c: Bucket<R>, extra: multiset<Pending<R>>, lost: multiset<Pending<R>>)
    requires Items(b) + extra == Items(c) + lost
    ensures forall p :: p in Flat(c) ==> p in Flat(b) || p in extra
  {
    forall p | p in Flat(c) ensures p in Flat(b) || p in extra {
      assert p in Items(c);
      assert p in Items(b) + extra;
    }
  }

  lemma {:induction false} PrunedSideOk<R>(b: Bucket<R>, now: real, horizon: real, horizon': real, n: nat)
    requires BucketOk(b, horizon) && PerKeyOk(b, n) && horizon <= horizon'
    ensures BucketOk(Prune(b, now), horizon') && PerKeyOk(Prune(b, now), n)
    ensures Keys(Prune(b, now)) <= Keys(b) && Count(Prune(b, now)) <= Count(b)
    ensures forall p :: p in Flat(Prune(b, now)) ==> p in Flat(b)
  {
    hide BucketOk, PerKeyOk, Keys;
    PruneOk(b, now, horizon, n);
    PruneConserves(b, now);
    PruneAlive(b, now, horizon);
    LaterHorizon(Prune(b, now), horizon, horizon');
  }

  lemma {:induction false} PruneAllKeepsInv(cfg: Config, s: State, last: real, now: real)
    requires Inv(cfg, s, last) && last <= now
    ensures Inv(cfg, PruneAll(s, now), now)
  {
    hide BucketOk, PerKeyOk, Keys, Count, Prune, Expired;
    PrunedSideOk(s.uploads, now, last + cfg.wait, now + cfg.wait, cfg.maxPerKey);
    PrunedSideOk(s.intents, now, last + cfg.wait, now + cfg.wait, cfg.maxPerKey);
  }

  /** The invariant while `key` may still wait on both sides. */
  ghost predicate Unpaired(cfg: Config, s: State, now: real, key: Key) {
    && BucketOk(s.uploads, now + cfg.wait) && BucketOk(s.intents, now + cfg.wait)
    && PerKeyOk(s.uploads, cfg.maxPerKey) && PerKeyOk(s.intents, cfg.maxPerKey)
    && Count(s.uploads) <= cfg.maxPending && Count(s.intents) <= cfg.maxPending
    && Keys(s.uploads) * Keys(s.intents) <= {key}
    && (forall p :: p in Flat(s.uploads) ==> p.key == (p.record.memberId, p.record.filename))
    && (forall p :: p in Flat(s.intents) ==> p.key == (p.record.memberId, p.record.filename))
  }

  lemma {:induction false} AdmitUploadOk(cfg: Config, s: State, item: Pending<Upload>, now: real)
    requires cfg.Valid() && Inv(cfg, s, now)
    requires item.key == (item.record.memberId, item.record.filename) && item.expiresAt == now + cfg.wait
    ensures Unpaired(cfg, AdmitUpload(cfg, s, item), now, item.key)
  {
    hide Admit, BucketOk, PerKeyOk, Keys, Count, QueueOf;
    AdmitOk(cfg, s.uploads, item, now + cfg.wait);
    AdmitConserves(cfg, s.uploads, item);
    var (r, lost) := Admit(cfg, s.uploads, item);
    SmallerFlat(s.uploads, r, multiset{item}, multiset(Lost(lost)));
  }

  lemma {:induction false} AdmitIntentOk(cfg: Config, s: State, item: Pending<Intent>, now: real)
    requires cfg.Valid() && Inv(cfg, s, now)
    requires item.key == (item.record.memberId, item.record.filename) && item.expiresAt == now + cfg.wait
    ensures Unpaired(cfg, AdmitIntent(cfg, s, item), now, item.key)
  {
    hide Admit, BucketOk, PerKeyOk, Keys, Count, QueueOf;
    AdmitOk(cfg, s.intents, item, now + cfg.wait);
    AdmitConserves(cfg, s.intents, item);
    var (r, lost) := Admit(cfg, s.intents, item);
    SmallerFlat(s.intents, r, multiset{item}, multiset(Lost(lost)));
  }

  lemma {:induction false} WithoutSmaller<R>(b: Bucket<R>, key: Key)
    ensures forall p :: p in Flat(Without(b, key)) ==> p in Flat(b)
    ensures Count(Without(b, key)) <= Count(b)
  {
    WithoutConserves(b, key);
    SmallerFlat(b, Without(b, key), multiset{}, multiset(QueueOf(b, key)));
  }

  /** Trying to pair ends with no key waiting on both sides. */
  lemma {:induction false} TryCaptureOk(cfg: Config, s: State, key: Key, facts: FileFacts, now: real)
    requires Unpaired(cfg, s, now, key)
    ensures Inv(cfg, TryCapture(cfg, s, key, facts), now)
  {
    hide BucketOk, PerKeyOk, Keys, Count, QueueOf, Without, Assemble;
    var h := now + cfg.wait;
    PresentIsNonempty(s.uploads, key, h);
    PresentIsNonempty(s.intents, key, h);
    if QueueOf(s.uploads, key) != [] && QueueOf(s.intents, key) != [] {
      WithoutOk(s.uploads, key, h, cfg.maxPerKey);
      WithoutOk(s.intents, key, h, cfg.maxPerKey);
      WithoutSmaller(s.uploads, key);
      WithoutSmaller(s.intents, key);
      var t := TryCapture(cfg, s, key, facts);
      assert t.uploads == Without(s.uploads, key) && t.intents == Without(s.intents, key);
    }
    assert forall k :: k in Keys(s.uploads) && k in Keys(s.intents) ==> k in Keys(s.uploads) * Keys(s.intents);
  }

  lemma {:induction false} RecordUploadKeepsInv(cfg: Config, s: State, last: real, u: Upload, now: real, facts: FileFacts)
    requires cfg.Valid() && Inv(cfg, s, last) && last <= now
    ensures Inv(cfg, RecordUpload(cfg, s, u, now, facts), now)
  {
    hide Inv, Unpaired, PruneAll, AdmitUpload, TryCapture;
    var item := Pending(u, (u.memberId, u.filename), now + cfg.wait);
    PruneAllKeepsInv(cfg, s, last, now);
    AdmitUploadOk(cfg, PruneAll(s, now), item, now);
    TryCaptureOk(cfg, AdmitUpload(cfg, PruneAll(s, now), item), (u.memberId, u.filename), facts, now);
  }

  lemma {:induction false} RecordProjectFileKeepsInv(cfg: Config, s: State, last: real, i: Intent, now: real, facts: FileFacts)
    requires cfg.Valid() && Inv(cfg, s, last) && last <= now
    ensures Inv(cfg, RecordProjectFile(cfg, s, i, now, facts), now)
  {
    hide Inv, Unpaired, PruneAll, AdmitIntent, TryCapture;
    var item := Pending(i, (i.memberId, i.filename), now + cfg.wait);
    PruneAllKeepsInv(cfg, s, last, now);
    AdmitIntentOk(cfg, PruneAll(s, now), item, now);
    TryCaptureOk(cfg, AdmitIntent(cfg, PruneAll(s, now), item), (i.memberId, i.filename), facts, now);
  }

  // ----- exactly when a pair is captured ------------------------------------------------------

  function Capture1(cfg: Config, u: Pending<Upload>, i: Pending<Intent>, facts: FileFacts): seq<Pair> {
    match Assemble(cfg, u.record, i.record, facts)
    case Ok(job) => [Pair(u, i, job)]
    case Err(_) => []
  }

  lemma {:induction false} UploadCaptures(cfg: Config, s: State, last: real, u: Upload, now: real, facts: FileFacts)
    requires cfg.Valid() && Inv(cfg, s, last) && last <= now
    ensures var item := Pending(u, (u.memberId, u.filename), now + cfg.wait);
            var alive := Unexpired(QueueOf(s.intents, (u.memberId, u.filename)), now);
            RecordUpload(cfg, s, u, now, facts).captures
            == s.captures + (if |alive| == 1 then Capture1(cfg, item, alive[0], facts) else [])
  {
    hide Admit, PruneAll, QueueOf, Unexpired, Assemble, BucketOk, PerKeyOk, Keys, Count, Without, EndsWith;
    var key, h := (u.memberId, u.filename), now + cfg.wait;
    var item := Pending(u, key, h);
    var p := PruneAll(s, now);
    PruneAllKeepsInv(cfg, s, last, now);
    PruneAllExact(cfg, s, last, now, key);
    AdmitOk(cfg, p.uploads, item, h);
    PresentIsNonempty(p.uploads, key, h);
    PresentIsNonempty(p.intents, key, h);
    assert QueueOf(p.intents, key) != [] ==> QueueOf(AdmitUpload(cfg, p, item).uploads, key) == [item];
  }

  lemma {:induction false} IntentCaptures(cfg: Config, s: State, last: real, i: Intent, now: real, facts: FileFacts)
    requires cfg.Valid() && Inv(cfg, s, last) && last <= now
    ensures var item := Pending(i, (i.memberId, i.filename), now + cfg.wait);
            var alive := Unexpired(QueueOf(s.uploads, (i.memberId, i.filename)), now);
            RecordProjectFile(cfg, s, i, now, facts).captures
            == s.captures + (if |alive| == 1 then Capture1(cfg, alive[0], item, facts) else [])
  {
    hide Admit, PruneAll, QueueOf, Unexpired, Assemble, BucketOk, PerKeyOk, Keys, Count, Without, EndsWith;
    var key, h := (i.memberId, i.filename), now + cfg.wait;
    var item := Pending(i, key, h);
    var p := PruneAll(s, now);
    PruneAllKeepsInv(cfg, s, last, now);
    PruneAllExact(cfg, s, last, now, key);
    AdmitOk(cfg, p.intents, item, h);
    PresentIsNonempty(p.uploads, key, h);
    PresentIsNonempty(p.intents, key, h);
    assert QueueOf(p.uploads, key) != [] ==> QueueOf(AdmitIntent(cfg, p, item).intents, key) == [item];
  }

  lemma {:induction false} Capture1IsExact(cfg: Config, u: Pending<Upload>, i: Pending<Intent>, facts: FileFacts)
    requires (u.record.memberId, u.record.filename) == (i.record.memberId, i.record.filename)
    ensures var made := Capture1(cfg, u, i, facts);
            if Fits(i.record, facts)
            then |made| == 1 && made[0].upload == u && made[0].intent == i && JobOf(cfg, u.record, i.record, facts, made[0].job)
            else made == []
  {
    hide Fits, JobOf, Fault, Assemble;
    AssemblyIsExact(cfg, u.record, i.record, facts);
  }

  /** The captures grew by the one pair of `u` and `i` and the job of the two. */
  ghost predicate AddsPair(cfg: Config, before: seq<Pair>, after: seq<Pair>, u: Pending<Upload>, i: Pending<Intent>, facts: FileFacts) {
    && |after| == |before| + 1 && before <= after
    && after[|before|].upload == u && after[|before|].intent == i
    && JobOf(cfg, u.record, i.record, facts, after[|before|].job)
  }

  /** Recording an upload captures something if and only if exactly one intent for its key is still alive, it names no
      MD5 or the file's up to case, and the filaments can be read; then it captures this upload with that intent, as
      the job of the two. */
  lemma {:induction false} UploadCapturesExactly(cfg: Config, s: State, last: real, u: Upload, now: real, facts: FileFacts)
    requires cfg.Valid() && Inv(cfg, s, last) && last <= now
    ensures var item := Pending(u, (u.memberId, u.filename), now + cfg.wait);
            var alive := Unexpired(QueueOf(s.intents, (u.memberId, u.filename)), now);
            var after := RecordUpload(cfg, s, u, now, facts).captures;
            if |alive| == 1 && Fits(alive[0].record, facts) then AddsPair(cfg, s.captures, after, item, alive[0], facts)
            else after == s.captures
  {
    hide QueueOf, Unexpired, RecordUpload, Fits, JobOf, BucketOk, Capture1, PerKeyOk, Keys, Count;
    var item := Pending(u, (u.memberId, u.filename), now + cfg.wait);
    var alive := Unexpired(QueueOf(s.intents, (u.memberId, u.filename)), now);
    UploadCaptures(cfg, s, last, u, now, facts);
    if |alive| == 1 {
      AliveIsTimely(s.intents, (u.memberId, u.filename), last + cfg.wait, now, alive[0]);
      Capture1IsExact(cfg, item, alive[0], facts);
    }
    assert s.captures + [] == s.captures;
  }

  /** The mirror image: an intent captures exactly the one upload still alive for its key. */
  lemma {:induction false} IntentCapturesExactly(cfg: Config, s: State, last: real, i: Intent, now: real, facts: FileFacts)
    requires cfg.Valid() && Inv(cfg, s, last) && last <= now
    ensures var item := Pending(i, (i.memberId, i.filename), now + cfg.wait);
            var alive := Unexpired(QueueOf(s.uploads, (i.memberId, i.filename)), now);
            var after := RecordProjectFile(cfg, s, i, now, facts).captures;
            if |alive| == 1 && Fits(i, facts) then AddsPair(cfg, s.captures, after, alive[0], item, facts)
            else after == s.captures
  {
    hide QueueOf, Unexpired, RecordProjectFile, Fits, JobOf, BucketOk, Capture1, PerKeyOk, Keys, Count;
    var item := Pending(i, (i.memberId, i.filename), now + cfg.wait);
    var alive := Unexpired(QueueOf(s.uploads, (i.memberId, i.filename)), now);
    IntentCaptures(cfg, s, last, i, now, facts);
    if |alive| == 1 {
      AliveIsTimely(s.uploads, (i.memberId, i.filename), last + cfg.wait, now, alive[0]);
      Capture1IsExact(cfg, alive[0], item, facts);
    }
    assert s.captures + [] == s.captures;
  }

  lemma {:induction false} PruneAllExact(cfg: Config, s: State, last: real, now: real, key: Key)
    requires Inv(cfg, s, last)
    ensures QueueOf(PruneAll(s, now).uploads, key) == Unexpired(QueueOf(s.uploads, key), now)
    ensures QueueOf(PruneAll(s, now).intents, key) == Unexpired(QueueOf(s.intents, key), now)
    ensures PruneAll(s, now).captures == s.captures
  {
    PruneIsExact(s.uploads, now, last + cfg.wait, key);
    PruneIsExact(s.intents, now, last + cfg.wait, key);
  }

  // ----- runs -----------------------------------------------------------------------------------

  datatype Event =
    | UploadEvent(upload: Upload, at: real, facts: FileFacts)
    | IntentEvent(intent: Intent, at: real, facts: FileFacts)
    | TimerEvent(at: real)
    | ClearEvent(at: real)

  function Step(cfg: Config, s: State, e: Event): State {
    match e
    case UploadEvent(u, now, facts) => RecordUpload(cfg, s, u, now, facts)
    case IntentEvent(i, now, facts) => RecordProjectFile(cfg, s, i, now, facts)
    case TimerEvent(now) => PruneAll(s, now)
    case ClearEvent(_) => Clear(s)
  }

  function Run(cfg: Config, es: seq<Event>): State {
    if es == [] then INITIAL else Step(cfg, Run(cfg, es[..|es| - 1]), es[|es| - 1])
  }

  predicate Ordered(es: seq<Event>) {
    forall i, j :: 0 <= i < j < |es| ==> es[i].at <= es[j].at
  }

  function NewUploads(cfg: Config, e: Event): seq<Pending<Upload>> {
    if e.UploadEvent? then [Pending(e.upload, (e.upload.memberId, e.upload.filename), e.at + cfg.wait)] else []
  }

  function NewIntents(cfg: Config, e: Event): seq<Pending<Intent>> {
    if e.IntentEvent? then [Pending(e.intent, (e.intent.memberId, e.intent.filename), e.at + cfg.wait)] else []
  }

  function RecordedUploads(cfg: Config, es: seq<Event>): seq<Pending<Upload>> {
    if es == [] then [] else RecordedUploads(cfg, es[..|es| - 1]) + NewUploads(cfg, es[|es| - 1])
  }

  function RecordedIntents(cfg: Config, es: seq<Event>): seq<Pending<Intent>> {
    if es == [] then [] else RecordedIntents(cfg, es[..|es| - 1]) + NewIntents(cfg, es[|es| - 1])
  }

  lemma {:induction false} UploadStepConserves(cfg: Config, s: State, e: Event)
    requires e.UploadEvent?
    ensures UploadLedger(Step(cfg, s, e)) == UploadLedger(s) + multiset(NewUploads(cfg, e))
    ensures IntentLedger(Step(cfg, s, e)) == IntentLedger(s)
  {
    hide UploadLedger, IntentLedger, RecordUpload;
    RecordUploadConserves(cfg, s, e.upload, e.at, e.facts);
  }

  lemma {:induction false} IntentStepConserves(cfg: Config, s: State, e: Event)
    requires e.IntentEvent?
    ensures UploadLedger(Step(cfg, s, e)) == UploadLedger(s)
    ensures IntentLedger(Step(cfg, s, e)) == IntentLedger(s) + multiset(NewIntents(cfg, e))
  {
    hide UploadLedger, IntentLedger, RecordProjectFile;
    RecordProjectFileConserves(cfg, s, e.intent, e.at, e.facts);
  }

  lemma {:induction false} OtherStepConserves(cfg: Config, s: State, e: Event)
    requires e.TimerEvent? || e.ClearEvent?
    ensures UploadLedger(Step(cfg, s, e)) == UploadLedger(s) && IntentLedger(Step(cfg, s, e)) == IntentLedger(s)
  {
    hide UploadLedger, IntentLedger, PruneAll, Clear;
    if e.TimerEvent? {
      PruneAllConserves(s, e.at);
    } else {
      ClearConserves(s);
    }
  }

  lemma {:induction false} StepConserves(cfg: Config, s: State, e: Event)
    ensures UploadLedger(Step(cfg, s, e)) == UploadLedger(s) + multiset(NewUploads(cfg, e))
    ensures IntentLedger(Step(cfg, s, e)) == IntentLedger(s) + multiset(NewIntents(cfg, e))
  {
    hide UploadLedger, IntentLedger, Step;
    if e.UploadEvent? {
      UploadStepConserves(cfg, s, e);
    } else if e.IntentEvent? {
      IntentStepConserves(cfg, s, e);
    } else {
      OtherStepConserves(cfg, s, e);
    }
  }

  /** Conservation: after any run, with any clock, the uploads ever recorded are exactly those
      pending, those dropped (each with its reason) and those captured; and so for intents. */
  lemma {:induction false} RunConserves(cfg: Config, es: seq<Event>)
    ensures UploadLedger(Run(cfg, es)) == multiset(RecordedUploads(cfg, es))
    ensures IntentLedger(Run(cfg, es)) == multiset(RecordedIntents(cfg, es))
  {
    if es == [] {
      assert CapturedUploads([]) == [] && CapturedIntents([]) == [];
    } else {
      hide UploadLedger, IntentLedger, Step, NewUploads, NewIntents;
      RunConserves(cfg, es[..|es| - 1]);
      StepConserves(cfg, Run(cfg, es[..|es| - 1]), es[|es| - 1]);
    }
  }

  /** A captured pair: equal member and filename, less than the waiting time apart, a file that fits the intent, and
      the job of the two. */
  ghost predicate GoodPair(cfg: Config, p: Pair) {
    && (p.upload.record.memberId, p.upload.record.filename) == (p.intent.record.memberId, p.intent.record.filename)
    && -cfg.wait < p.upload.expiresAt - p.intent.expiresAt < cfg.wait
    && exists facts :: Fits(p.intent.record, facts) && JobOf(cfg, p.upload.record, p.intent.record, facts, p.job)
  }

  lemma {:induction false} UnexpiredMember<R>(q: seq<Pending<R>>, now: real, p: Pending<R>)
    requires p in Unexpired(q, now)
    ensures p in q && p.expiresAt > now
  {
    if p !in (if q[0].expiresAt > now then [q[0]] else []) {
      UnexpiredMember(q[1..], now, p);
    }
  }

  lemma {:induction false} AliveIsTimely<R>(b: Bucket<R>, key: Key, horizon: real, now: real, p: Pending<R>)
    requires BucketOk(b, horizon) && p in Unexpired(QueueOf(b, key), now)
    ensures p.key == key && now < p.expiresAt <= horizon && p in Flat(b)
  {
    UnexpiredMember(QueueOf(b, key), now, p);
    var i := IndexOf(b, key);
    var j :| 0 <= j < |b[i].queue| && b[i].queue[j] == p;
    FlatMember(b, i, j);
    assert QueueOk(b[i].queue, b[i].key, horizon);
  }

  lemma {:induction false} StepPairs(cfg: Config, s: State, last: real, e: Event)
    requires cfg.Valid() && Inv(cfg, s, last) && last <= e.at
    requires forall p :: p in s.captures ==> GoodPair(cfg, p)
    ensures forall p :: p in Step(cfg, s, e).captures ==> GoodPair(cfg, p)
  {
    hide QueueOf, Unexpired, BucketOk, PerKeyOk, Keys, Count, RecordUpload, RecordProjectFile;
    var h := last + cfg.wait;
    match e
    case UploadEvent(u, now, facts) =>
      UploadCapturesExactly(cfg, s, last, u, now, facts);
      var alive := Unexpired(QueueOf(s.intents, (u.memberId, u.filename)), now);
      if |alive| == 1 {
        AliveIsTimely(s.intents, (u.memberId, u.filename), h, now, alive[0]);
      }
    case IntentEvent(i, now, facts) =>
      IntentCapturesExactly(cfg, s, last, i, now, facts);
      var alive := Unexpired(QueueOf(s.uploads, (i.memberId, i.filename)), now);
      if |alive| == 1 {
        AliveIsTimely(s.uploads, (i.memberId, i.filename), h, now, alive[0]);
      }
    case TimerEvent(_) =>
    case ClearEvent(_) =>
  }

  lemma {:induction false} ClearKeepsInv(cfg: Config, s: State, last: real, now: real)
    requires Inv(cfg, s, last) && last <= now
    ensures Inv(cfg, Clear(s), now)
  {
    assert Keys(Clear(s).uploads) == {};
  }

  /** Under a clock that never goes back, the invariant and the pairing guarantee hold after
      every event of every run. */
  lemma {:induction false} RunIsSafe(cfg: Config, es: seq<Event>, now: real)
    requires cfg.Valid() && Ordered(es) && (es != [] ==> now == es[|es| - 1].at)
    ensures Inv(cfg, Run(cfg, es), now)
    ensures forall p :: p in Run(cfg, es).captures ==> GoodPair(cfg, p)
  {
    if es == [] {
      assert Keys(INITIAL.uploads) == {};
    } else {
      var front, e := es[..|es| - 1], es[|es| - 1];
      var last := if front == [] then now else front[|front| - 1].at;
      var s := Run(cfg, front);
      RunIsSafe(cfg, front, last);
      hide Inv, GoodPair;
      StepPairs(cfg, s, last, e);
      match e
      case UploadEvent(u, _, facts) => RecordUploadKeepsInv(cfg, s, last, u, now, facts);
      case IntentEvent(i, _, facts) => RecordProjectFileKeepsInv(cfg, s, last, i, now, facts);
      case TimerEvent(_) => PruneAllKeepsInv(cfg, s, last, now);
      case ClearEvent(_) => ClearKeepsInv(cfg, s, last, now);
    }
  }
}
