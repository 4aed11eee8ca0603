/** Conservation: every operation of the capture coordinator moves uploads and intents between
    "pending", "dropped for a reason" and "captured", and creates or destroys none. */
module CaptureLaws {
  import opened Prelude
  import opened Capture

  // ----- concatenation laws -----------------------------------------------------------------

  lemma {:induction false} FlatConcat<R>(a: Bucket<R>, b: Bucket<R>)
    ensures Flat(a + b) == Flat(a) + Flat(b)
  {
    if a == [] {
      assert a + b == b;
    } else {
      var c := a + b;
      assert c[0] == a[0] && c[1..] == a[1..] + b;
      FlatConcat(a[1..], b);
      assert Flat(c) == a[0].queue + (Flat(a[1..]) + Flat(b));
    }
  }

  lemma {:induction false} CountIsLength<R>(b: Bucket<R>)
    ensures Count(b) == |Flat(b)|
  {
    if b != [] {
      CountIsLength(b[1..]);
    }
  }

  lemma {:induction false} FlatOne<R>(s: Slot<R>)
    ensures Flat([s]) == s.queue && Count([s]) == |s.queue|
  {
    assert [s][1..] == [];
  }

  lemma {:induction false} ItemsConcat<R>(a: Bucket<R>, b: Bucket<R>)
    ensures Items(a + b) == Items(a) + Items(b)
    ensures Count(a + b) == Count(a) + Count(b)
  {
    FlatConcat(a, b);
    CountIsLength(a);
    CountIsLength(b);
    CountIsLength(a + b);
  }

  lemma {:induction false} ItemsAt<R>(b: Bucket<R>, i: nat)
    requires i < |b|
    ensures Items(b) == Items(b[..i] + b[i + 1..]) + multiset(b[i].queue)
    ensures Count(b) == Count(b[..i] + b[i + 1..]) + |b[i].queue|
  {
    CountIsLength(b);
    CountIsLength(b[..i] + b[i + 1..]);
    assert b == b[..i] + [b[i]] + b[i + 1..];
    FlatConcat(b[..i] + [b[i]], b[i + 1..]);
    FlatConcat(b[..i], [b[i]]);
    FlatConcat(b[..i], b[i + 1..]);
    FlatOne(b[i]);
  }

  lemma {:induction false} ItemsUpdate<R>(b: Bucket<R>, i: nat, s: Slot<R>)
    requires i < |b|
    ensures Items(b[i := s]) + multiset(b[i].queue) == Items(b) + multiset(s.queue)
    ensures Count(b[i := s]) + |b[i].queue| == Count(b) + |s.queue|
  {
    ItemsAt(b, i);
    ItemsAt(b[i := s], i);
    assert b[i := s][..i] + b[i := s][i + 1..] == b[..i] + b[i + 1..];
  }

  lemma {:induction false} DroppedItems<R>(items: seq<Pending<R>>, reason: Reason)
    ensures Lost(Dropped(items, reason)) == items
  {
  }

  /** The items a list of drops names. */
  function Lost<R>(drops: seq<Drop<R>>): seq<Pending<R>> {
    seq(|drops|, i requires 0 <= i < |drops| => drops[i].item)
  }

  lemma {:induction false} LostConcat<R>(a: seq<Drop<R>>, b: seq<Drop<R>>)
    ensures Lost(a + b) == Lost(a) + Lost(b)
  {
  }

  // ----- conservation, operation by operation -------------------------------------------------

  lemma {:induction false} WithoutConserves<R>(b: Bucket<R>, key: Key)
    ensures Items(b) == Items(Without(b, key)) + multiset(QueueOf(b, key))
    ensures Count(b) == Count(Without(b, key)) + |QueueOf(b, key)|
  {
    var i := IndexOf(b, key);
    if i < |b| {
      ItemsAt(b, i);
    }
  }

  lemma {:induction false} AppendConserves<R>(b: Bucket<R>, item: Pending<R>)
    ensures Items(AppendItem(b, item)) == Items(b) + multiset{item}
    ensures Count(AppendItem(b, item)) == Count(b) + 1
  {
    var s := Slot(item.key, QueueOf(b, item.key) + [item]);
    WithoutConserves(b, item.key);
    ItemsConcat(Without(b, item.key), [s]);
    FlatOne(s);
  }

  lemma {:induction false} PopExpiredSplits<R>(q: seq<Pending<R>>, now: real)
    ensures q == ExpiredHeads(q, now) + PopExpired(q, now)
  {
    if q != [] && q[0].expiresAt <= now {
      PopExpiredSplits(q[1..], now);
    }
  }

  lemma {:induction false} PruneConserves<R>(b: Bucket<R>, now: real)
    ensures Items(b) == Items(Prune(b, now)) + multiset(Expired(b, now))
    ensures Count(Prune(b, now)) <= Count(b)
  {
    if b != [] {
      PruneConserves(b[1..], now);
      var q := b[0].queue;
      var rest := PopExpired(q, now);
      PopExpiredSplits(q, now);
      assert multiset(q) == multiset(ExpiredHeads(q, now)) + multiset(rest);
      ItemsConcat(KeepSlot(b[0], now), Prune(b[1..], now));
      FlatOne(Slot(b[0].key, rest));
    }
  }

  lemma {:induction false} KeepLastSplits<T>(q: seq<T>, n: nat)
    ensures q == Overflow(q, n) + LastN(q, n)
  {
  }

  lemma {:induction false} TrimConserves<R>(b: Bucket<R>, key: Key, n: nat)
    ensures Items(b) == Items(TrimKey(b, key, n)) + multiset(TrimmedFromKey(b, key, n))
  {
    var i := IndexOf(b, key);
    if i < |b| {
      var q := b[i].queue;
      var s := Slot(key, LastN(q, n));
      KeepLastSplits(q, n);
      assert multiset(q) == multiset(Overflow(q, n)) + multiset(LastN(q, n));
      ItemsUpdate(b, i, s);
      Replaced(Items(b), Items(b[i := s]), multiset(q), multiset(s.queue), multiset(Overflow(q, n)));
    } else {
      assert QueueOf(b, key) == [];
    }
  }

  lemma {:induction false} PopAtConserves<R>(b: Bucket<R>, i: nat)
    requires i < |b| && b[i].queue != []
    ensures Items(b) == Items(PopAt(b, i)) + multiset{b[i].queue[0]}
  {
    HeadTail(b[i].queue);
    if b[i].queue[1..] == [] {
      ItemsAt(b, i);
    } else {
      ItemsUpdate(b, i, Slot(b[i].key, b[i].queue[1..]));
      Replaced(Items(b), Items(PopAt(b, i)), multiset(b[i].queue), multiset(b[i].queue[1..]), multiset{b[i].queue[0]});
    }
  }

  lemma {:induction false} EvictConserves<R>(b: Bucket<R>, maximum: nat)
    ensures Items(b) == Items(EvictTotal(b, maximum)) + multiset(EvictedTotal(b, maximum))
    decreases Count(b)
  {
    if Count(b) > maximum && OldestIndex(b).Some? {
      var i := OldestIndex(b).value;
      CountPopAt(b, i);
      PopAtConserves(b, i);
      EvictConserves(PopAt(b, i), maximum);
    }
  }

  lemma {:induction false} AdmitConserves<R>(cfg: Config, b: Bucket<R>, item: Pending<R>)
    ensures var (r, lost) := Admit(cfg, b, item);
            Items(b) + multiset{item} == Items(r) + multiset(Lost(lost))
  {
    var appended := AppendItem(b, item);
    var trimmed := TrimKey(appended, item.key, cfg.maxPerKey);
    AppendConserves(b, item);
    TrimConserves(appended, item.key, cfg.maxPerKey);
    EvictConserves(trimmed, cfg.maxPending);
    var l1 := TrimmedFromKey(appended, item.key, cfg.maxPerKey);
    var l2 := EvictedTotal(trimmed, cfg.maxPending);
    DroppedItems(l1, PerKeyLimit);
    DroppedItems(l2, TotalLimit);
    LostConcat(Dropped(l1, PerKeyLimit), Dropped(l2, TotalLimit));
    assert multiset(l1 + l2) == multiset(l1) + multiset(l2);
  }

  // ----- the ledger ---------------------------------------------------------------------------

  function CapturedUploads(cs: seq<Pair>): seq<Pending<Upload>> {
    seq(|cs|, i requires 0 <= i < |cs| => cs[i].upload)
  }

  function CapturedIntents(cs: seq<Pair>): seq<Pending<Intent>> {
    seq(|cs|, i requires 0 <= i < |cs| => cs[i].intent)
  }

  /** Every upload the coordinator has seen, counted over its three possible fates. */
  ghost function UploadLedger(s: State): multiset<Pending<Upload>> {
    Items(s.uploads) + multiset(Lost(s.lostUploads)) + multiset(CapturedUploads(s.captures))
  }

  ghost function IntentLedger(s: State): multiset<Pending<Intent>> {
    Items(s.intents) + multiset(Lost(s.lostIntents)) + multiset(CapturedIntents(s.captures))
  }

  lemma {:induction false} LoseSome<R>(drops: seq<Drop<R>>, items: seq<Pending<R>>, reason: Reason)
    ensures multiset(Lost(drops + Dropped(items, reason))) == multiset(Lost(drops)) + multiset(items)
  {
    LostConcat(drops, Dropped(items, reason));
    DroppedItems(items, reason);
  }

  lemma {:induction false} PruneAllConserves(s: State, now: real)
    ensures UploadLedger(PruneAll(s, now)) == UploadLedger(s)
    ensures IntentLedger(PruneAll(s, now)) == IntentLedger(s)
  {
    PruneConserves(s.uploads, now);
    PruneConserves(s.intents, now);
    LoseSome(s.lostUploads, Expired(s.uploads, now), TimedOut);
    LoseSome(s.lostIntents, Expired(s.intents, now), TimedOut);
  }

  lemma {:induction false} DiscardConserves(s: State, key: Key, reason: Reason)
    ensures UploadLedger(Discard(s, key, reason)) == UploadLedger(s)
    ensures IntentLedger(Discard(s, key, reason)) == IntentLedger(s)
  {
    var us := QueueOf(s.uploads, key);
    var ins := QueueOf(s.intents, key);
    var d := Discard(s, key, reason);
    WithoutConserves(s.uploads, key);
    WithoutConserves(s.intents, key);
    LoseSome(s.lostUploads, us, reason);
    LoseSome(s.lostIntents, ins, reason);
    Moved(Items(s.uploads), Items(d.uploads), multiset(us), multiset(Lost(s.lostUploads)),
          multiset(Lost(d.lostUploads)), multiset(CapturedUploads(s.captures)));
    Moved(Items(s.intents), Items(d.intents), multiset(ins), multiset(Lost(s.lostIntents)),
          multiset(Lost(d.lostIntents)), multiset(CapturedIntents(s.captures)));
  }

  /** The state after `us` and `ins` were captured as one pair. */
  function Captured(s: State, key: Key, pair: Pair): State {
    s.(uploads := Without(s.uploads, key), intents := Without(s.intents, key), captures := s.captures + [pair])
  }

  lemma {:induction false} CapturedConserves(s: State, key: Key, pair: Pair)
    requires QueueOf(s.uploads, key) == [pair.upload] && QueueOf(s.intents, key) == [pair.intent]
    ensures UploadLedger(Captured(s, key, pair)) == UploadLedger(s)
    ensures IntentLedger(Captured(s, key, pair)) == IntentLedger(s)
  {
    hide QueueOf, Without, Items, Lost, CapturedUploads, CapturedIntents;
    WithoutConserves(s.uploads, key);
    WithoutConserves(s.intents, key);
    CapturedSnoc(s.captures, pair);
    var left := Captured(s, key, pair);
    Shifted(Items(s.uploads), Items(left.uploads), pair.upload, multiset(Lost(s.lostUploads)), CapturedUploads(s.captures));
    Shifted(Items(s.intents), Items(left.intents), pair.intent, multiset(Lost(s.lostIntents)), CapturedIntents(s.captures));
  }

  lemma {:induction false} CapturedSnoc(captures: seq<Pair>, pair: Pair)
    ensures CapturedUploads(captures + [pair]) == CapturedUploads(captures) + [pair.upload]
    ensures CapturedIntents(captures + [pair]) == CapturedIntents(captures) + [pair.intent]
  {
  }

  /** One item moved from the store to the captured list. */
  lemma {:induction false} Shifted<T>(store: multiset<T>, rest: multiset<T>, item: T, lost: multiset<T>, taken: seq<T>)
    requires store == rest + multiset([item])
    ensures rest + lost + multiset(taken + [item]) == store + lost + multiset(taken)
  {
  }

  lemma {:induction false} TryCaptureConserves(cfg: Config, s: State, key: Key, facts: FileFacts)
    ensures UploadLedger(TryCapture(cfg, s, key, facts)) == UploadLedger(s)
    ensures IntentLedger(TryCapture(cfg, s, key, facts)) == IntentLedger(s)
  {
    hide UploadLedger, IntentLedger, Discard, Assemble, QueueOf, Without;
    var us := QueueOf(s.uploads, key);
    var ins := QueueOf(s.intents, key);
    if us != [] && ins != [] {
      if |us| != 1 || |ins| != 1 {
        DiscardConserves(s, key, Ambiguous);
      } else {
        match Assemble(cfg, us[0].record, ins[0].record, facts)
        case Err(e) =>
          DiscardConserves(s, key, AssembleFailed(e));
        case Ok(job) =>
          assert us == [us[0]] && ins == [ins[0]];
          CapturedConserves(s, key, Pair(us[0], ins[0], job));
      }
    }
  }

  lemma {:induction false} AdmitUploadConserves(cfg: Config, s: State, item: Pending<Upload>)
    ensures UploadLedger(AdmitUpload(cfg, s, item)) == UploadLedger(s) + multiset{item}
    ensures IntentLedger(AdmitUpload(cfg, s, item)) == IntentLedger(s)
  {
    var (bucket, lost) := Admit(cfg, s.uploads, item);
    AdmitConserves(cfg, s.uploads, item);
    LostConcat(s.lostUploads, lost);
    Admitted(Items(s.uploads), Items(bucket), multiset(Lost(lost)), multiset{item},
             multiset(Lost(s.lostUploads)), multiset(Lost(s.lostUploads + lost)), multiset(CapturedUploads(s.captures)));
  }

  lemma {:induction false} RecordUploadConserves(cfg: Config, s: State, u: Upload, now: real, facts: FileFacts)
    ensures UploadLedger(RecordUpload(cfg, s, u, now, facts))
            == UploadLedger(s) + multiset{Pending(u, (u.memberId, u.filename), now + cfg.wait)}
    ensures IntentLedger(RecordUpload(cfg, s, u, now, facts)) == IntentLedger(s)
  {
    hide TryCapture, UploadLedger, IntentLedger, PruneAll, AdmitUpload;
    var item := Pending(u, (u.memberId, u.filename), now + cfg.wait);
    var p := PruneAll(s, now);
    var q := AdmitUpload(cfg, p, item);
    var r := TryCapture(cfg, q, (u.memberId, u.filename), facts);
    PruneAllConserves(s, now);
    AdmitUploadConserves(cfg, p, item);
    TryCaptureConserves(cfg, q, (u.memberId, u.filename), facts);
    assert RecordUpload(cfg, s, u, now, facts) == r;
  }

  lemma {:induction false} AdmitIntentConserves(cfg: Config, s: State, item: Pending<Intent>)
    ensures IntentLedger(AdmitIntent(cfg, s, item)) == IntentLedger(s) + multiset{item}
    ensures UploadLedger(AdmitIntent(cfg, s, item)) == UploadLedger(s)
  {
    var (bucket, lost) := Admit(cfg, s.intents, item);
    AdmitConserves(cfg, s.intents, item);
    LostConcat(s.lostIntents, lost);
    Admitted(Items(s.intents), Items(bucket), multiset(Lost(lost)), multiset{item},
             multiset(Lost(s.lostIntents)), multiset(Lost(s.lostIntents + lost)), multiset(CapturedIntents(s.captures)));
  }

  lemma {:induction false} RecordProjectFileConserves(cfg: Config, s: State, i: Intent, now: real, facts: FileFacts)
    ensures IntentLedger(RecordProjectFile(cfg, s, i, now, facts))
            == IntentLedger(s) + multiset{Pending(i, (i.memberId, i.filename), now + cfg.wait)}
    ensures UploadLedger(RecordProjectFile(cfg, s, i, now, facts)) == UploadLedger(s)
  {
    hide TryCapture, UploadLedger, IntentLedger, PruneAll, AdmitIntent;
    var item := Pending(i, (i.memberId, i.filename), now + cfg.wait);
    var p := PruneAll(s, now);
    var q := AdmitIntent(cfg, p, item);
    var r := TryCapture(cfg, q, (i.memberId, i.filename), facts);
    PruneAllConserves(s, now);
    AdmitIntentConserves(cfg, p, item);
    TryCaptureConserves(cfg, q, (i.memberId, i.filename), facts);
    assert RecordProjectFile(cfg, s, i, now, facts) == r;
  }

  lemma {:induction false} ClearConserves(s: State)
    ensures UploadLedger(Clear(s)) == UploadLedger(s)
    ensures IntentLedger(Clear(s)) == IntentLedger(s)
  {
    LoseSome(s.lostUploads, Flat(s.uploads), Cleared);
    LoseSome(s.lostIntents, Flat(s.intents), Cleared);
  }
}
