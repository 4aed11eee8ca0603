/** The capture coordinator (vprinter/capture.py): pairs a file upload with the print intent that
    names it, or drops either of them for a stated reason. */
module Capture {
  import opened Json
  import opened Prelude

  type Key = (string, string)

  datatype Upload = Upload(memberId: string, filename: string, filePath: string, sha256: string, size: int)

  // An absent `ams_mapping2` is JNull.
  datatype Intent = Intent(
    memberId: string, filename: string, amsMapping: Json, amsMapping2: Json,
    useAms: bool, md5: Option<string>, plate: Option<int>)

  datatype CapturedJob = CapturedJob(
    memberId: string, filename: string, filePath: string, sha256: string, size: int,
    amsMapping: Json, useAms: bool, requiredFilaments: seq<Json>, submittedAt: string,
    uid: string, plate: Option<int>, attempts: int)

  /** A queued upload or intent: the record, its pairing key and the instant it expires. */
  datatype Pending<R> = Pending(record: R, key: Key, expiresAt: real)

  // An ordered dictionary of queues, in dictionary order.
  datatype Slot<R> = Slot(key: Key, queue: seq<Pending<R>>)
  type Bucket<R> = seq<Slot<R>>

  datatype Reason = TimedOut | PerKeyLimit | TotalLimit | Ambiguous | AssembleFailed(error: AssembleError) | Cleared
  datatype Drop<R> = Drop(item: Pending<R>, reason: Reason)
  datatype Pair = Pair(upload: Pending<Upload>, intent: Pending<Intent>, job: CapturedJob)

  datatype Config = Config(
    wait: real, maxPending: nat, maxPerKey: nat,
    digest: (string, string, Option<int>, seq<Json>) -> string)
  {
    predicate Valid() {
      maxPending >= 1 && maxPerKey >= 1
    }
  }

  /** Both sides of the coordinator, everything it dropped so far, and the pairs it captured. */
  datatype State = State(
    uploads: Bucket<Upload>, intents: Bucket<Intent>,
    lostUploads: seq<Drop<Upload>>, lostIntents: seq<Drop<Intent>>, captures: seq<Pair>)

  const INITIAL := State([], [], [], [], [])

  // ----- assembling a job -------------------------------------------------------------------

  datatype AssembleError = FilenameMismatch | MemberMismatch | Md5Mismatch | UnreadableFile

  /** What the file system answers about the uploaded file: its MD5, its filament list, and the
      time of submission. None stands for a read that raises. */
  datatype FileFacts = FileFacts(md5: Option<string>, filaments: Option<seq<Json>>, submittedAt: string)

  /** The primary slot list of a mapping that may also be the pair of both mapping forms. */
  function AmsMappingList(m: Json): seq<Json> {
    match m
    case JList(items) => items
    case JObj(fields) =>
      if "ams_mapping" in fields && fields["ams_mapping"].JList? then fields["ams_mapping"].items else []
    case _ => []
  }

  function Assemble(cfg: Config, u: Upload, i: Intent, facts: FileFacts): Result<CapturedJob, AssembleError> {
    if u.filename != i.filename then Err(FilenameMismatch)
    else if u.memberId != i.memberId then Err(MemberMismatch)
    else if i.md5.Some? && facts.md5.None? then Err(UnreadableFile)
    else if i.md5.Some? && LowerCase(facts.md5.value) != LowerCase(i.md5.value) then Err(Md5Mismatch)
    else if facts.filaments.None? then Err(UnreadableFile)
    else
      var mapping :=
        if i.amsMapping2 == JNull then i.amsMapping
        else JObj(map["ams_mapping" := i.amsMapping, "ams_mapping2" := i.amsMapping2]);
      Ok(CapturedJob(u.memberId, u.filename, u.filePath, u.sha256, u.size, mapping, i.useAms,
                     facts.filaments.value, facts.submittedAt,
                     cfg.digest(u.memberId, u.sha256, i.plate, AmsMappingList(mapping)), i.plate, 0))
  }

  // ----- the ordered dictionary of queues ---------------------------------------------------

  ghost function Keys<R>(b: Bucket<R>): set<Key> {
    set s | s in b :: s.key
  }

  /** Everything waiting in the bucket, in dictionary order. */
  function Flat<R>(b: Bucket<R>): seq<Pending<R>> {
    if b == [] then [] else b[0].queue + Flat(b[1..])
  }

  ghost function Items<R>(b: Bucket<R>): multiset<Pending<R>> {
    multiset(Flat(b))
  }

  function Count<R>(b: Bucket<R>): nat {
    if b == [] then 0 else |b[0].queue| + Count(b[1..])
  }

  function IndexOf<R>(b: Bucket<R>, key: Key): (i: nat)
    ensures i <= |b|
    ensures i < |b| ==> b[i].key == key
    ensures forall j :: 0 <= j < i ==> b[j].key != key
  {
    if b == [] || b[0].key == key then 0 else 1 + IndexOf(b[1..], key)
  }

  function QueueOf<R>(b: Bucket<R>, key: Key): seq<Pending<R>> {
    var i := IndexOf(b, key);
    if i < |b| then b[i].queue else []
  }

  function Without<R>(b: Bucket<R>, key: Key): Bucket<R> {
    var i := IndexOf(b, key);
    if i < |b| then b[..i] + b[i + 1..] else b
  }

  /** `setdefault`, `append` and `move_to_end` in one step. */
  function AppendItem<R>(b: Bucket<R>, item: Pending<R>): Bucket<R> {
    Without(b, item.key) + [Slot(item.key, QueueOf(b, item.key) + [item])]
  }

  // ----- expiry -----------------------------------------------------------------------------

  function PopExpired<R>(q: seq<Pending<R>>, now: real): seq<Pending<R>> {
    if q != [] && q[0].expiresAt <= now then PopExpired(q[1..], now) else q
  }

  function ExpiredHeads<R>(q: seq<Pending<R>>, now: real): seq<Pending<R>> {
    if q != [] && q[0].expiresAt <= now then [q[0]] + ExpiredHeads(q[1..], now) else []
  }

  function KeepSlot<R>(s: Slot<R>, now: real): Bucket<R> {
    var q := PopExpired(s.queue, now);
    if q == [] then [] else [Slot(s.key, q)]
  }

  function Prune<R>(b: Bucket<R>, now: real): Bucket<R> {
    if b == [] then [] else KeepSlot(b[0], now) + Prune(b[1..], now)
  }

  function Expired<R>(b: Bucket<R>, now: real): seq<Pending<R>> {
    if b == [] then [] else ExpiredHeads(b[0].queue, now) + Expired(b[1..], now)
  }

  // ----- caps -------------------------------------------------------------------------------

  function LastN<T>(q: seq<T>, n: nat): seq<T> {
    if |q| <= n then q else q[|q| - n..]
  }

  function Overflow<T>(q: seq<T>, n: nat): seq<T> {
    if |q| <= n then [] else q[..|q| - n]
  }

  function TrimKey<R>(b: Bucket<R>, key: Key, n: nat): Bucket<R> {
    var i := IndexOf(b, key);
    if i < |b| then b[i := Slot(key, LastN(b[i].queue, n))] else b
  }

  function TrimmedFromKey<R>(b: Bucket<R>, key: Key, n: nat): seq<Pending<R>> {
    Overflow(QueueOf(b, key), n)
  }

  /** Index of the first slot whose head expires earliest, ignoring empty queues. */
  function OldestIndex<R>(b: Bucket<R>): (r: Option<nat>)
    ensures r.Some? ==> r.value < |b| && b[r.value].queue != []
    ensures r.None? <==> forall i :: 0 <= i < |b| ==> b[i].queue == []
  {
    if b == [] then None
    else
      var rest := OldestIndex(b[1..]);
      if b[0].queue == [] then
        (match rest case None => None case Some(i) => Some(i + 1))
      else
        match rest
        case None => Some(0)
        case Some(i) => if b[i + 1].queue[0].expiresAt < b[0].queue[0].expiresAt then Some(i + 1) else Some(0)
  }

  function PopAt<R>(b: Bucket<R>, i: nat): Bucket<R>
    requires i < |b| && b[i].queue != []
  {
    var q := b[i].queue[1..];
    if q == [] then b[..i] + b[i + 1..] else b[i := Slot(b[i].key, q)]
  }

  lemma {:induction false} CountPopAt<R>(b: Bucket<R>, i: nat)
    requires i < |b| && b[i].queue != []
    ensures Count(PopAt(b, i)) == Count(b) - 1
  {
    if i == 0 {
      assert b[..0] + b[1..] == b[1..];
    } else {
      assert PopAt(b, i)[1..] == PopAt(b[1..], i - 1);
      CountPopAt(b[1..], i - 1);
    }
  }

  function EvictTotal<R>(b: Bucket<R>, maximum: nat): Bucket<R>
    decreases Count(b)
  {
    if Count(b) > maximum && OldestIndex(b).Some? then
      CountPopAt(b, OldestIndex(b).value);
      EvictTotal(PopAt(b, OldestIndex(b).value), maximum)
    else b
  }

  function EvictedTotal<R>(b: Bucket<R>, maximum: nat): seq<Pending<R>>
    decreases Count(b)
  {
    if Count(b) > maximum && OldestIndex(b).Some? then
      CountPopAt(b, OldestIndex(b).value);
      [b[OldestIndex(b).value].queue[0]] + EvictedTotal(PopAt(b, OldestIndex(b).value), maximum)
    else []
  }

  // ----- the coordinator as a state machine --------------------------------------------------

  function Dropped<R>(items: seq<Pending<R>>, reason: Reason): seq<Drop<R>> {
    seq(|items|, i requires 0 <= i < |items| => Drop(items[i], reason))
  }

  function PruneAll(s: State, now: real): State {
    s.(uploads := Prune(s.uploads, now), intents := Prune(s.intents, now),
       lostUploads := s.lostUploads + Dropped(Expired(s.uploads, now), TimedOut),
       lostIntents := s.lostIntents + Dropped(Expired(s.intents, now), TimedOut))
  }

  /** Appending one item to its side and enforcing both caps: the new bucket and what was dropped. */
  function Admit<R>(cfg: Config, b: Bucket<R>, item: Pending<R>): (Bucket<R>, seq<Drop<R>>) {
    var appended := AppendItem(b, item);
    var trimmed := TrimKey(appended, item.key, cfg.maxPerKey);
    (EvictTotal(trimmed, cfg.maxPending),
     Dropped(TrimmedFromKey(appended, item.key, cfg.maxPerKey), PerKeyLimit)
     + Dropped(EvictedTotal(trimmed, cfg.maxPending), TotalLimit))
  }

  /** Both sides of `key` leave the coordinator without being captured. */
  function Discard(s: State, key: Key, reason: Reason): State {
    s.(uploads := Without(s.uploads, key), intents := Without(s.intents, key),
       lostUploads := s.lostUploads + Dropped(QueueOf(s.uploads, key), reason),
       lostIntents := s.lostIntents + Dropped(QueueOf(s.intents, key), reason))
  }

  function TryCapture(cfg: Config, s: State, key: Key, facts: FileFacts): State {
    var us := QueueOf(s.uploads, key);
    var ins := QueueOf(s.intents, key);
    if us == [] || ins == [] then s
    else if |us| != 1 || |ins| != 1 then Discard(s, key, Ambiguous)
    else
      match Assemble(cfg, us[0].record, ins[0].record, facts)
      case Err(e) => Discard(s, key, AssembleFailed(e))
      case Ok(job) =>
        s.(uploads := Without(s.uploads, key), intents := Without(s.intents, key),
           captures := s.captures + [Pair(us[0], ins[0], job)])
  }

  /** The state after one upload was admitted to its side, before pairing. */
  function AdmitUpload(cfg: Config, s: State, item: Pending<Upload>): State {
    var (bucket, lost) := Admit(cfg, s.uploads, item);
    s.(uploads := bucket, lostUploads := s.lostUploads + lost)
  }

  /** The state after one intent was admitted to its side, before pairing. */
  function AdmitIntent(cfg: Config, s: State, item: Pending<Intent>): State {
    var (bucket, lost) := Admit(cfg, s.intents, item);
    s.(intents := bucket, lostIntents := s.lostIntents + lost)
  }

  function UploadKey(u: Upload): Key {
    (u.memberId, u.filename)
  }

  function IntentKey(i: Intent): Key {
    (i.memberId, i.filename)
  }

  function RecordUpload(cfg: Config, s: State, u: Upload, now: real, facts: FileFacts): State {
    TryCapture(cfg, AdmitUpload(cfg, PruneAll(s, now), Pending(u, UploadKey(u), now + cfg.wait)), UploadKey(u), facts)
  }

  function RecordProjectFile(cfg: Config, s: State, i: Intent, now: real, facts: FileFacts): State {
    TryCapture(cfg, AdmitIntent(cfg, PruneAll(s, now), Pending(i, IntentKey(i), now + cfg.wait)), IntentKey(i), facts)
  }

  /** `clear` writes no log line; the model records what it discards as Cleared. */
  function Clear(s: State): State {
    s.(uploads := [], intents := [],
       lostUploads := s.lostUploads + Dropped(Flat(s.uploads), Cleared),
       lostIntents := s.lostIntents + Dropped(Flat(s.intents), Cleared))
  }

  /** The moment the expiry timer is armed for. */
  function HeadExpiry<R>(b: Bucket<R>): Option<real> {
    match OldestIndex(b)
    case None => None
    case Some(i) => Some(b[i].queue[0].expiresAt)
  }

  function NextExpiry(s: State): Option<real> {
    match (HeadExpiry(s.uploads), HeadExpiry(s.intents))
    case (None, r) => r
    case (r, None) => r
    case (Some(a), Some(b)) => Some(if b < a then b else a)
  }
}
