/** The imperative coordinator: its loops and field updates, proved equal to the state machine of
    module Capture. */
module CaptureCoordinators {
  import opened Json
  import opened Prelude
  import opened Capture

  method PopExpiredHeads<R>(waiting: seq<Pending<R>>, now: real) returns (queue: seq<Pending<R>>, popped: seq<Pending<R>>)
    ensures queue == PopExpired(waiting, now) && popped == ExpiredHeads(waiting, now)
  {
    queue, popped := waiting, [];
    while queue != [] && queue[0].expiresAt <= now
      invariant PopExpired(queue, now) == PopExpired(waiting, now)
      invariant popped + ExpiredHeads(queue, now) == ExpiredHeads(waiting, now)
    {
      popped := popped + [queue[0]];
      queue := queue[1..];
    }
  }

  /** Pops expired heads queue by queue and removes the queues that run empty. */
  method PruneBucket<R>(bucket: Bucket<R>, now: real) returns (kept: Bucket<R>, expired: seq<Pending<R>>)
    ensures kept == Prune(bucket, now)
    ensures expired == Expired(bucket, now)
  {
    hide PopExpired, ExpiredHeads, Prune, Expired;
    kept, expired := [], [];
    PruneNothing<R>(now);
    var i := 0;
    while i < |bucket|
      invariant i <= |bucket|
      invariant kept + Prune(bucket[i..], now) == Prune(bucket, now)
      invariant expired + Expired(bucket[i..], now) == Expired(bucket, now)
    {
      var queue, popped := PopExpiredHeads(bucket[i].queue, now);
      assert bucket[i..][0] == bucket[i] && bucket[i..][1..] == bucket[i + 1..];
      PruneHead(bucket[i..], now);
      Regroup(kept, KeepSlot(bucket[i], now), Prune(bucket[i + 1..], now));
      Regroup(expired, popped, Expired(bucket[i + 1..], now));
      expired := expired + popped;
      if queue != [] {
        kept := kept + [Slot(bucket[i].key, queue)];
      }
      i := i + 1;
    }
    assert bucket[i..] == [];
  }

  lemma {:induction false} PruneNothing<R>(now: real)
    ensures Prune<R>([], now) == [] && Expired<R>([], now) == []
  {
  }

  lemma {:induction false} PruneHead<R>(b: Bucket<R>, now: real)
    requires b != []
    ensures Prune(b, now) == KeepSlot(b[0], now) + Prune(b[1..], now)
    ensures Expired(b, now) == ExpiredHeads(b[0].queue, now) + Expired(b[1..], now)
  {
    hide KeepSlot, ExpiredHeads;
  }

  /** Pops the head of `key`'s queue while it is over the per-key cap. */
  method EnforcePerKeyLimit<R>(bucket: Bucket<R>, key: Key, limit: nat)
    returns (kept: Bucket<R>, evicted: seq<Pending<R>>)
    ensures kept == TrimKey(bucket, key, limit)
    ensures evicted == TrimmedFromKey(bucket, key, limit)
  {
    kept, evicted := bucket, [];
    var i := IndexOf(bucket, key);
    if i == |bucket| {
      return;
    }
    var queue := bucket[i].queue;
    while |queue| > limit
      invariant evicted + queue == bucket[i].queue
      invariant evicted != [] ==> |queue| >= limit
    {
      evicted := evicted + [queue[0]];
      queue := queue[1..];
    }
    assert queue == LastN(bucket[i].queue, limit);
    assert evicted == Overflow(bucket[i].queue, limit);
    kept := bucket[i := Slot(key, queue)];
  }

  /** Pops the globally oldest head while the bucket is over the total cap. */
  method EnforceTotalLimit<R>(bucket: Bucket<R>, maximum: nat) returns (kept: Bucket<R>, evicted: seq<Pending<R>>)
    ensures kept == EvictTotal(bucket, maximum)
    ensures evicted == EvictedTotal(bucket, maximum)
  {
    kept, evicted := bucket, [];
    while Count(kept) > maximum
      invariant EvictTotal(kept, maximum) == EvictTotal(bucket, maximum)
      invariant evicted + EvictedTotal(kept, maximum) == EvictedTotal(bucket, maximum)
      decreases Count(kept)
    {
      var oldest := OldestIndex(kept);
      if oldest.None? {
        return;
      }
      CountPopAt(kept, oldest.value);
      evicted := evicted + [kept[oldest.value].queue[0]];
      kept := PopAt(kept, oldest.value);
    }
  }

  class CaptureCoordinator {
    const cfg: Config
    var uploads: Bucket<Upload>
    var intents: Bucket<Intent>
    var lostUploads: seq<Drop<Upload>>
    var lostIntents: seq<Drop<Intent>>
    var captures: seq<Pair>
    // The instant the expiry timer is armed for.
    var timer: Option<real>

    function Value(): State
      reads this
    {
      State(uploads, intents, lostUploads, lostIntents, captures)
    }

    constructor (wait: real, maxPending: int, maxPerKey: int, digest: (string, string, Option<int>, seq<Json>) -> string)
      ensures Value() == INITIAL && timer == None
      ensures cfg == Config(wait, Max(1, maxPending), Max(1, maxPerKey), digest) && cfg.Valid()
    {
      cfg := Config(wait, Max(1, maxPending), Max(1, maxPerKey), digest);
      uploads, intents, lostUploads, lostIntents, captures := [], [], [], [], [];
      timer := None;
    }

    method PruneExpired(now: real)
      modifies this
      ensures Value() == PruneAll(old(Value()), now)
    {
      var expiredUploads, expiredIntents;
      uploads, expiredUploads := PruneBucket(uploads, now);
      lostUploads := lostUploads + Dropped(expiredUploads, TimedOut);
      intents, expiredIntents := PruneBucket(intents, now);
      lostIntents := lostIntents + Dropped(expiredIntents, TimedOut);
    }

    method ScheduleExpiry()
      modifies this`timer
      ensures timer == NextExpiry(Value())
    {
      timer := NextExpiry(Value());
    }

    method TryPair(key: Key, facts: FileFacts) returns (captured: bool)
      modifies this
      ensures Value() == TryCapture(cfg, old(Value()), key, facts)
      ensures captured <==> |captures| == |old(captures)| + 1
    {
      var us, ins := QueueOf(uploads, key), QueueOf(intents, key);
      if us == [] || ins == [] {
        return false;
      }
      uploads, intents := Without(uploads, key), Without(intents, key);
      if |us| != 1 || |ins| != 1 {
        lostUploads := lostUploads + Dropped(us, Ambiguous);
        lostIntents := lostIntents + Dropped(ins, Ambiguous);
        return false;
      }
      match Assemble(cfg, us[0].record, ins[0].record, facts) {
        case Err(e) =>
          lostUploads := lostUploads + Dropped(us, AssembleFailed(e));
          lostIntents := lostIntents + Dropped(ins, AssembleFailed(e));
          return false;
        case Ok(job) =>
          captures := captures + [Pair(us[0], ins[0], job)];
          return true;
      }
    }

    method Upload(upload: Upload, now: real, facts: FileFacts)
      modifies this
      ensures Value() == RecordUpload(cfg, old(Value()), upload, now, facts)
      ensures timer == NextExpiry(Value())
    {
      hide Prune, Expired, AppendItem, TrimKey, TrimmedFromKey, EvictTotal, EvictedTotal, Dropped, TryCapture, NextExpiry;
      PruneExpired(now);
      var key := UploadKey(upload);
      var overKey, overTotal;
      uploads := AppendItem(uploads, Pending(upload, key, now + cfg.wait));
      uploads, overKey := EnforcePerKeyLimit(uploads, key, cfg.maxPerKey);
      uploads, overTotal := EnforceTotalLimit(uploads, cfg.maxPending);
      lostUploads := lostUploads + (Dropped(overKey, PerKeyLimit) + Dropped(overTotal, TotalLimit));
      var _ := TryPair(key, facts);
      ScheduleExpiry();
    }

    method ProjectFile(intent: Intent, now: real, facts: FileFacts)
      modifies this
      ensures Value() == RecordProjectFile(cfg, old(Value()), intent, now, facts)
      ensures timer == NextExpiry(Value())
    {
      hide Prune, Expired, AppendItem, TrimKey, TrimmedFromKey, EvictTotal, EvictedTotal, Dropped, TryCapture, NextExpiry;
      PruneExpired(now);
      var key := IntentKey(intent);
      var overKey, overTotal;
      intents := AppendItem(intents, Pending(intent, key, now + cfg.wait));
      intents, overKey := EnforcePerKeyLimit(intents, key, cfg.maxPerKey);
      intents, overTotal := EnforceTotalLimit(intents, cfg.maxPending);
      lostIntents := lostIntents + (Dropped(overKey, PerKeyLimit) + Dropped(overTotal, TotalLimit));
      var _ := TryPair(key, facts);
      ScheduleExpiry();
    }

    /** The timer's callback. */
    method ExpirePending(now: real)
      modifies this
      ensures Value() == PruneAll(old(Value()), now)
      ensures timer == NextExpiry(Value())
    {
      PruneExpired(now);
      ScheduleExpiry();
    }

    method ClearAll()
      modifies this
      ensures Value() == Clear(old(Value())) && timer == None
    {
      timer := None;
      lostUploads := lostUploads + Dropped(Flat(uploads), Cleared);
      lostIntents := lostIntents + Dropped(Flat(intents), Cleared);
      uploads, intents := [], [];
    }
  }
}
