/** The coordinator's bookkeeping is exact: under its invariant, pruning only the queue heads
    removes precisely the expired items, evicting the oldest head removes a globally oldest item
    and never the newest one, and the expiry timer fires at the first instant that matters. */
module CaptureExact {
  import opened Prelude
  import opened Capture
  import opened CaptureLaws

  // ----- the invariant ----------------------------------------------------------------------

  ghost predicate QueueOk<R>(q: seq<Pending<R>>, key: Key, horizon: real) {
    && (forall i :: 0 <= i < |q| ==> q[i].key == key && q[i].expiresAt <= horizon)
    && (forall i, j :: 0 <= i < j < |q| ==> q[i].expiresAt <= q[j].expiresAt)
  }

  ghost predicate Distinct<R>(b: Bucket<R>) {
    forall i, j :: 0 <= i < j < |b| ==> b[i].key != b[j].key
  }

  /** No empty queue is stored, keys are distinct, and every queue is sorted by expiry. */
  ghost predicate BucketOk<R>(b: Bucket<R>, horizon: real) {
    && Distinct(b)
    && forall i :: 0 <= i < |b| ==> b[i].queue != [] && QueueOk(b[i].queue, b[i].key, horizon)
  }

  ghost predicate PerKeyOk<R>(b: Bucket<R>, n: nat) {
    forall i :: 0 <= i < |b| ==> |b[i].queue| <= n
  }

  /** Everything the coordinator keeps true at time `now`: both sides well formed, both caps
      respected, and no key waiting on both sides. */
  ghost predicate Inv(cfg: Config, s: State, now: real) {
    && BucketOk(s.uploads, now + cfg.wait) && BucketOk(s.intents, now + cfg.wait)
    && PerKeyOk(s.uploads, cfg.maxPerKey) && PerKeyOk(s.intents, cfg.maxPerKey)
    && Count(s.uploads) <= cfg.maxPending && Count(s.intents) <= cfg.maxPending
    && Keys(s.uploads) !! Keys(s.intents)
    && (forall p :: p in Flat(s.uploads) ==> p.key == (p.record.memberId, p.record.filename))
    && (forall p :: p in Flat(s.intents) ==> p.key == (p.record.memberId, p.record.filename))
  }

  // ----- looking things up --------------------------------------------------------------------

  lemma {:induction false} QueueOfAbsent<R>(b: Bucket<R>, key: Key)
    ensures key !in Keys(b) <==> IndexOf(b, key) == |b|
    ensures key !in Keys(b) ==> QueueOf(b, key) == []
  {
    var i := IndexOf(b, key);
    if i < |b| {
      assert b[i] in b;
    }
  }

  lemma {:induction false} IndexOfSlot<R>(b: Bucket<R>, i: nat)
    requires Distinct(b) && i < |b|
    ensures IndexOf(b, b[i].key) == i
  {
  }

  lemma {:induction false} FlatMember<R>(b: Bucket<R>, i: nat, j: nat)
    requires i < |b| && j < |b[i].queue|
    ensures b[i].queue[j] in Flat(b)
  {
    assert b == b[..i] + [b[i]] + b[i + 1..];
    FlatConcat(b[..i] + [b[i]], b[i + 1..]);
    FlatConcat(b[..i], [b[i]]);
    FlatOne(b[i]);
  }

  lemma {:induction false} FlatLocate<R>(b: Bucket<R>, p: Pending<R>) returns (i: nat, j: nat)
    requires p in Flat(b)
    ensures i < |b| && j < |b[i].queue| && b[i].queue[j] == p
  {
    if p in b[0].queue {
      i := 0;
      j :| 0 <= j < |b[0].queue| && b[0].queue[j] == p;
    } else {
      i, j := FlatLocate(b[1..], p);
      i := i + 1;
    }
  }

  // ----- expiry -------------------------------------------------------------------------------

  /** The items still alive at `now`, by looking at every one of them. */
  function Unexpired<R>(q: seq<Pending<R>>, now: real): seq<Pending<R>> {
    if q == [] then []
    else (if q[0].expiresAt > now then [q[0]] else []) + Unexpired(q[1..], now)
  }

  lemma {:induction false} AllAlive<R>(q: seq<Pending<R>>, now: real)
    requires forall i :: 0 <= i < |q| ==> q[i].expiresAt > now
    ensures Unexpired(q, now) == q
  {
    if q != [] {
      AllAlive(q[1..], now);
    }
  }

  /** Popping expired heads of a sorted queue is the same as filtering the whole queue. */
  lemma {:induction false} PopExpiredIsFilter<R>(q: seq<Pending<R>>, key: Key, horizon: real, now: real)
    requires QueueOk(q, key, horizon)
    ensures PopExpired(q, now) == Unexpired(q, now)
  {
    if q != [] {
      if q[0].expiresAt <= now {
        PopExpiredIsFilter(q[1..], key, horizon, now);
      } else {
        forall i | 0 <= i < |q| ensures q[i].expiresAt > now {
          assert i > 0 ==> q[0].expiresAt <= q[i].expiresAt;
        }
        AllAlive(q, now);
      }
    }
  }

  lemma {:induction false} PopExpiredOk<R>(q: seq<Pending<R>>, key: Key, horizon: real, now: real)
    requires QueueOk(q, key, horizon)
    ensures QueueOk(PopExpired(q, now), key, horizon)
    ensures forall p :: p in PopExpired(q, now) ==> p.expiresAt > now && p in q
    ensures |PopExpired(q, now)| <= |q|
  {
    if q != [] && q[0].expiresAt <= now {
      PopExpiredOk(q[1..], key, horizon, now);
    } else {
      assert PopExpired(q, now) == q;
    }
  }

  lemma {:induction false} ConsOk<R>(s: Slot<R>, b: Bucket<R>, horizon: real, n: nat)
    requires BucketOk(b, horizon) && PerKeyOk(b, n)
    requires s.key !in Keys(b) && s.queue != [] && |s.queue| <= n && QueueOk(s.queue, s.key, horizon)
    ensures BucketOk([s] + b, horizon) && PerKeyOk([s] + b, n)
    ensures Keys([s] + b) == Keys(b) + {s.key}
  {
    hide QueueOk;
    var c := [s] + b;
    assert forall t :: t in c <==> t in b || t == s;
    forall i | 0 < i < |c| ensures c[i].key != s.key {
      assert c[i] in b;
    }
  }

  lemma {:induction false} TailOk<R>(b: Bucket<R>, horizon: real, n: nat)
    requires BucketOk(b, horizon) && PerKeyOk(b, n) && b != []
    ensures BucketOk(b[1..], horizon) && PerKeyOk(b[1..], n)
    ensures b[0].key !in Keys(b[1..]) && Keys(b) == Keys(b[1..]) + {b[0].key}
    ensures b[0].queue != [] && |b[0].queue| <= n && QueueOk(b[0].queue, b[0].key, horizon)
  {
    hide QueueOk;
    assert forall t :: t in b <==> t in b[1..] || t == b[0];
  }

  lemma {:induction false} PruneOk<R>(b: Bucket<R>, now: real, horizon: real, n: nat)
    requires BucketOk(b, horizon) && PerKeyOk(b, n)
    ensures BucketOk(Prune(b, now), horizon) && PerKeyOk(Prune(b, now), n)
    ensures Keys(Prune(b, now)) <= Keys(b)
  {
    if b != [] {
      hide BucketOk, PerKeyOk, Keys, QueueOk;
      var q := PopExpired(b[0].queue, now);
      TailOk(b, horizon, n);
      PruneOk(b[1..], now, horizon, n);
      PopExpiredOk(b[0].queue, b[0].key, horizon, now);
      if q != [] {
        ConsOk(Slot(b[0].key, q), Prune(b[1..], now), horizon, n);
      } else {
        assert Prune(b, now) == Prune(b[1..], now);
      }
    }
  }

  /** Looking up a key in a bucket with one more slot in front. */
  lemma {:induction false} QueueOfCons<R>(s: Slot<R>, b: Bucket<R>, key: Key)
    ensures QueueOf([s] + b, key) == if s.key == key then s.queue else QueueOf(b, key)
  {
    assert ([s] + b)[1..] == b;
  }

  /** Head-only pruning removes exactly the expired items of every key, and keeps the order. */
  lemma {:induction false} PruneIsExact<R>(b: Bucket<R>, now: real, horizon: real, key: Key)
    requires BucketOk(b, horizon)
    ensures QueueOf(Prune(b, now), key) == Unexpired(QueueOf(b, key), now)
  {
    if b != [] {
      var rest := Prune(b[1..], now);
      var q := PopExpired(b[0].queue, now);
      PruneIsExact(b[1..], now, horizon, key);
      PopExpiredIsFilter(b[0].queue, b[0].key, horizon, now);
      assert b == [b[0]] + b[1..];
      QueueOfCons(b[0], b[1..], key);
      if q == [] {
        assert Prune(b, now) == rest;
      } else {
        assert Prune(b, now) == [Slot(b[0].key, q)] + rest;
        QueueOfCons(Slot(b[0].key, q), rest, key);
      }
      if b[0].key == key {
        QueueOfAbsent(b[1..], key);
      }
    }
  }

  lemma {:induction false} PruneAlive<R>(b: Bucket<R>, now: real, horizon: real)
    requires BucketOk(b, horizon)
    ensures forall p :: p in Flat(Prune(b, now)) ==> p.expiresAt > now && p in Flat(b)
  {
    if b != [] {
      PruneAlive(b[1..], now, horizon);
      PopExpiredOk(b[0].queue, b[0].key, horizon, now);
      FlatConcat(KeepSlot(b[0], now), Prune(b[1..], now));
      FlatOne(Slot(b[0].key, PopExpired(b[0].queue, now)));
    }
  }

  // ----- the oldest head ------------------------------------------------------------------------

  lemma {:induction false} OldestHead<R>(b: Bucket<R>, j: nat)
    requires j < |b| && b[j].queue != []
    ensures OldestIndex(b).Some?
    ensures b[OldestIndex(b).value].queue[0].expiresAt <= b[j].queue[0].expiresAt
    ensures j < OldestIndex(b).value ==>
              b[OldestIndex(b).value].queue[0].expiresAt < b[j].queue[0].expiresAt
  {
    if j > 0 {
      OldestHead(b[1..], j - 1);
    } else {
      match OldestIndex(b[1..])
      case None =>
      case Some(i) => OldestHead(b[1..], i);
    }
  }

  /** The head chosen for eviction (and for the timer) expires no later than anything pending. */
  lemma {:induction false} OldestIsGlobalMinimum<R>(b: Bucket<R>, horizon: real, p: Pending<R>)
    requires BucketOk(b, horizon) && p in Flat(b)
    ensures OldestIndex(b).Some?
    ensures b[OldestIndex(b).value].queue[0].expiresAt <= p.expiresAt
  {
    var i, j := FlatLocate(b, p);
    OldestHead(b, i);
    assert j > 0 ==> b[i].queue[0].expiresAt <= b[i].queue[j].expiresAt;
  }

  // ----- the timer ------------------------------------------------------------------------------

  lemma {:induction false} PruneKeepsAlive<R>(b: Bucket<R>, now: real)
    requires forall i :: 0 <= i < |b| ==> b[i].queue != [] && b[i].queue[0].expiresAt > now
    ensures Prune(b, now) == b
    ensures Expired(b, now) == []
  {
    if b != [] {
      var c := b[1..];
      forall i | 0 <= i < |c| ensures c[i].queue != [] && c[i].queue[0].expiresAt > now {
        assert c[i] == b[i + 1];
      }
      PruneKeepsAlive(c, now);
      assert PopExpired(b[0].queue, now) == b[0].queue;
      assert KeepSlot(b[0], now) == [b[0]];
    }
  }

  lemma {:induction false} PruneDropsExpired<R>(b: Bucket<R>, now: real, i: nat)
    requires i < |b| && b[i].queue != [] && b[i].queue[0].expiresAt <= now
    ensures Expired(b, now) != []
  {
    if i > 0 {
      PruneDropsExpired(b[1..], now, i - 1);
    } else {
      assert ExpiredHeads(b[0].queue, now) != [];
    }
  }

  lemma {:induction false} HeadExpiryExact<R>(b: Bucket<R>, horizon: real, now: real)
    requires BucketOk(b, horizon)
    ensures (HeadExpiry(b).None? || now < HeadExpiry(b).value) <==> Expired(b, now) == []
    ensures Expired(b, now) == [] ==> Prune(b, now) == b
  {
    forall i | 0 <= i < |b|
      ensures HeadExpiry(b).Some? && HeadExpiry(b).value <= b[i].queue[0].expiresAt
    {
      OldestHead(b, i);
    }
    if HeadExpiry(b).None? || now < HeadExpiry(b).value {
      PruneKeepsAlive(b, now);
    } else {
      PruneDropsExpired(b, now, OldestIndex(b).value);
    }
  }

  predicate Later(expiry: Option<real>, now: real) {
    expiry.None? || now < expiry.value
  }

  lemma {:induction false} NextExpiryIsLater(s: State, now: real)
    ensures Later(NextExpiry(s), now) <==> Later(HeadExpiry(s.uploads), now) && Later(HeadExpiry(s.intents), now)
  {
    hide HeadExpiry;
  }

  /** The timer's instant is exact: a pruning pass at time `now` changes nothing if and only if
      the timer is not armed or armed for a later instant. */
  lemma {:induction false} TimerIsExact(cfg: Config, s: State, last: real, now: real)
    requires Inv(cfg, s, last)
    ensures PruneAll(s, now) == s <==> (NextExpiry(s).None? || now < NextExpiry(s).value)
  {
    hide NextExpiry, HeadExpiry, Prune, Expired;
    var eu, ei := Expired(s.uploads, now), Expired(s.intents, now);
    HeadExpiryExact(s.uploads, last + cfg.wait, now);
    HeadExpiryExact(s.intents, last + cfg.wait, now);
    NextExpiryIsLater(s, now);
    assert |PruneAll(s, now).lostUploads| == |s.lostUploads| + |eu|;
    assert |PruneAll(s, now).lostIntents| == |s.lostIntents| + |ei|;
    if eu == [] && ei == [] {
      assert s.lostUploads + Dropped(eu, TimedOut) == s.lostUploads;
      assert s.lostIntents + Dropped(ei, TimedOut) == s.lostIntents;
    }
  }

  // ----- admission ------------------------------------------------------------------------------

  function Deleted<T>(b: seq<T>, i: nat): seq<T>
    requires i < |b|
  {
    b[..i] + b[i + 1..]
  }

  lemma {:induction false} DeletedAt<T>(b: seq<T>, i: nat)
    requires i < |b|
    ensures |Deleted(b, i)| == |b| - 1
    ensures forall j :: 0 <= j < |b| - 1 ==> Deleted(b, i)[j] == if j < i then b[j] else b[j + 1]
  {
  }

  lemma {:induction false} DeletedKeys<R>(b: Bucket<R>, i: nat)
    requires Distinct(b) && i < |b|
    ensures Keys(Deleted(b, i)) == Keys(b) - {b[i].key}
  {
    var w := Deleted(b, i);
    DeletedAt(b, i);
    forall j | 0 <= j < |w| ensures w[j] in b && w[j].key != b[i].key {
      var k := if j < i then j else j + 1;
      assert w[j] == b[k] && k != i;
    }
    forall j | 0 <= j < |b| && j != i ensures b[j] in w {
      assert w[if j < i then j else j - 1] == b[j];
    }
    forall s | s in b && s.key != b[i].key ensures s in w {
      var j :| 0 <= j < |b| && b[j] == s;
      assert j != i;
    }
  }

  /** Deleting one slot keeps a bucket well formed. */
  lemma {:induction false} DeleteSlotOk<R>(b: Bucket<R>, i: nat, horizon: real, n: nat)
    requires BucketOk(b, horizon) && PerKeyOk(b, n) && i < |b|
    ensures BucketOk(b[..i] + b[i + 1..], horizon) && PerKeyOk(b[..i] + b[i + 1..], n)
    ensures Keys(b[..i] + b[i + 1..]) == Keys(b) - {b[i].key}
  {
    hide QueueOk, Keys;
    DeletedAt(b, i);
    DeletedKeys(b, i);
  }

  lemma {:induction false} WithoutOk<R>(b: Bucket<R>, key: Key, horizon: real, n: nat)
    requires BucketOk(b, horizon) && PerKeyOk(b, n)
    ensures BucketOk(Without(b, key), horizon) && PerKeyOk(Without(b, key), n)
    ensures Keys(Without(b, key)) == Keys(b) - {key}
  {
    hide BucketOk, PerKeyOk, Keys;
    QueueOfAbsent(b, key);
    if IndexOf(b, key) < |b| {
      DeleteSlotOk(b, IndexOf(b, key), horizon, n);
    }
  }

  lemma {:induction false} QueueOfOk<R>(b: Bucket<R>, key: Key, horizon: real, n: nat)
    requires BucketOk(b, horizon) && PerKeyOk(b, n)
    ensures QueueOk(QueueOf(b, key), key, horizon) && |QueueOf(b, key)| <= n
  {
  }

  lemma {:induction false} SnocOk<R>(b: Bucket<R>, s: Slot<R>, horizon: real, n: nat)
    requires BucketOk(b, horizon) && PerKeyOk(b, n)
    requires s.key !in Keys(b) && s.queue != [] && |s.queue| <= n && QueueOk(s.queue, s.key, horizon)
    ensures BucketOk(b + [s], horizon) && PerKeyOk(b + [s], n)
    ensures Keys(b + [s]) == Keys(b) + {s.key}
  {
    hide QueueOk;
    var c := b + [s];
    assert forall t :: t in c <==> t in b || t == s;
    forall i | 0 <= i < |b| ensures c[i].key != s.key {
      assert b[i] in b;
    }
  }

  /** Replacing the queue of one slot by a well-formed queue keeps a bucket well formed. */
  lemma {:induction false} UpdateSlotOk<R>(b: Bucket<R>, i: nat, q: seq<Pending<R>>, horizon: real, n: nat)
    requires BucketOk(b, horizon) && PerKeyOk(b, n) && i < |b|
    requires q != [] && |q| <= n && QueueOk(q, b[i].key, horizon)
    ensures BucketOk(b[i := Slot(b[i].key, q)], horizon) && PerKeyOk(b[i := Slot(b[i].key, q)], n)
    ensures Keys(b[i := Slot(b[i].key, q)]) <= Keys(b)
  {
    hide QueueOk;
    var w := b[i := Slot(b[i].key, q)];
    forall s | s in w ensures s.key in Keys(b) {
      var j :| 0 <= j < |w| && w[j] == s;
      assert b[j] in b;
    }
  }

  lemma {:induction false} PopAtOk<R>(b: Bucket<R>, i: nat, horizon: real, n: nat)
    requires BucketOk(b, horizon) && PerKeyOk(b, n) && i < |b|
    ensures BucketOk(PopAt(b, i), horizon) && PerKeyOk(PopAt(b, i), n)
    ensures Keys(PopAt(b, i)) <= Keys(b)
  {
    var q := b[i].queue[1..];
    if q == [] {
      DeleteSlotOk(b, i, horizon, n);
    } else {
      UpdateSlotOk(b, i, q, horizon, n);
    }
  }

  /** The bucket an item is admitted to, before the total cap: its queue moved to the end. */
  function Trimmed<R>(cfg: Config, b: Bucket<R>, item: Pending<R>): Bucket<R> {
    Without(b, item.key) + [Slot(item.key, LastN(QueueOf(b, item.key) + [item], cfg.maxPerKey))]
  }

  lemma {:induction false} TrimmedIsTrimKey<R>(cfg: Config, b: Bucket<R>, item: Pending<R>, horizon: real)
    requires BucketOk(b, horizon)
    ensures TrimKey(AppendItem(b, item), item.key, cfg.maxPerKey) == Trimmed(cfg, b, item)
  {
    hide LastN;
    var w := Without(b, item.key);
    WithoutOk(b, item.key, horizon, Count(b)) by {
      forall i | 0 <= i < |b| ensures |b[i].queue| <= Count(b) {
        ItemsAt(b, i);
      }
    }
    QueueOfAbsent(w, item.key);
    IndexOfEnd(w, Slot(item.key, QueueOf(b, item.key) + [item]));
  }

  lemma {:induction false} IndexOfEnd<R>(b: Bucket<R>, s: Slot<R>)
    requires s.key !in Keys(b)
    ensures IndexOf(b + [s], s.key) == |b|
  {
    forall j | 0 <= j < |b| ensures (b + [s])[j].key != s.key {
      assert b[j] in b;
    }
    assert (b + [s])[|b|] == s;
  }

  lemma {:induction false} TrimmedOk<R>(cfg: Config, b: Bucket<R>, item: Pending<R>, horizon: real)
    requires cfg.Valid() && BucketOk(b, horizon) && PerKeyOk(b, cfg.maxPerKey)
    requires item.expiresAt == horizon
    ensures BucketOk(Trimmed(cfg, b, item), horizon) && PerKeyOk(Trimmed(cfg, b, item), cfg.maxPerKey)
    ensures Keys(Trimmed(cfg, b, item)) == Keys(b) + {item.key}
    ensures Count(Trimmed(cfg, b, item)) <= Count(b) + 1
  {
    hide BucketOk, PerKeyOk, Keys, Without, QueueOf;
    var w := Without(b, item.key);
    var full := QueueOf(b, item.key) + [item];
    var q := LastN(full, cfg.maxPerKey);
    WithoutOk(b, item.key, horizon, cfg.maxPerKey);
    QueueOfOk(b, item.key, horizon, cfg.maxPerKey);
    assert QueueOk(full, item.key, horizon);
    assert QueueOk(q, item.key, horizon);
    SnocOk(w, Slot(item.key, q), horizon, cfg.maxPerKey);
    WithoutConserves(b, item.key);
    ItemsConcat(w, [Slot(item.key, q)]);
    FlatOne(Slot(item.key, q));
  }

  /** The item is the newest of the last queue. */
  ghost predicate EndsWith<R>(r: Bucket<R>, item: Pending<R>) {
    && r != [] && r[|r| - 1].key == item.key
    && r[|r| - 1].queue != [] && r[|r| - 1].queue[|r[|r| - 1].queue| - 1] == item
  }

  lemma {:induction false} EvictAtMostOne<R>(b: Bucket<R>, maximum: nat)
    requires Count(b) <= maximum + 1
    ensures Count(b) <= maximum ==> EvictTotal(b, maximum) == b
    ensures Count(b) == maximum + 1 && OldestIndex(b).Some? ==>
              EvictTotal(b, maximum) == PopAt(b, OldestIndex(b).value)
  {
    hide PopAt, OldestIndex;
    if Count(b) == maximum + 1 && OldestIndex(b).Some? {
      CountPopAt(b, OldestIndex(b).value);
    }
  }

  /** The oldest head is never a newest item that stands alone at the end of the bucket. */
  lemma {:induction false} OldestSparesNewest<R>(b: Bucket<R>, item: Pending<R>, horizon: real)
    requires BucketOk(b, horizon) && Count(b) >= 2 && item.expiresAt == horizon
    requires b != [] && b[|b| - 1].queue[|b[|b| - 1].queue| - 1] == item
    requires OldestIndex(b) == Some(|b| - 1)
    ensures |b[|b| - 1].queue| >= 2
  {
    if |b| > 1 {
      OldestHead(b, 0);
      assert b[0].queue[0].expiresAt <= horizon;
    } else {
      assert b == [b[0]];
      FlatOne(b[0]);
    }
  }

  lemma {:induction false} PopAtKeepsEnd<R>(t: Bucket<R>, i: nat, item: Pending<R>)
    requires i < |t| && t[i].queue != [] && EndsWith(t, item)
    requires i == |t| - 1 ==> |t[i].queue| >= 2
    ensures EndsWith(PopAt(t, i), item)
    ensures t[|t| - 1].queue == [item] ==> PopAt(t, i)[|PopAt(t, i)| - 1].queue == [item]
  {
    var r := PopAt(t, i);
    if i < |t| - 1 {
      assert r[|r| - 1] == t[|t| - 1];
    } else {
      assert r[|r| - 1] == Slot(t[i].key, t[i].queue[1..]);
    }
  }

  lemma {:induction false} EvictOk<R>(cfg: Config, t: Bucket<R>, item: Pending<R>, horizon: real)
    requires cfg.Valid() && BucketOk(t, horizon) && PerKeyOk(t, cfg.maxPerKey) && Count(t) <= cfg.maxPending + 1
    requires EndsWith(t, item) && item.expiresAt == horizon
    ensures var r := EvictTotal(t, cfg.maxPending);
            && BucketOk(r, horizon) && PerKeyOk(r, cfg.maxPerKey) && Count(r) <= cfg.maxPending
            && Keys(r) <= Keys(t) && EndsWith(r, item)
            && (t[|t| - 1].queue == [item] ==> r[|r| - 1].queue == [item])
  {
    hide Keys, EvictTotal, PopAt, PerKeyOk, QueueOk;
    EvictAtMostOne(t, cfg.maxPending);
    if Count(t) > cfg.maxPending {
      OldestHead(t, |t| - 1);
      var i := OldestIndex(t).value;
      CountPopAt(t, i);
      PopAtOk(t, i, horizon, cfg.maxPerKey);
      if i == |t| - 1 {
        OldestSparesNewest(t, item, horizon);
      }
      PopAtKeepsEnd(t, i, item);
    }
  }

  /** Admission keeps the bucket well formed and within both caps, and the item just recorded is
      never the one evicted: it ends its queue, and stands alone if nothing waited for its key. */
  lemma {:induction false} AdmitOk<R>(cfg: Config, b: Bucket<R>, item: Pending<R>, horizon: real)
    requires cfg.Valid() && BucketOk(b, horizon) && PerKeyOk(b, cfg.maxPerKey) && Count(b) <= cfg.maxPending
    requires item.expiresAt == horizon
    ensures var r := Admit(cfg, b, item).0;
            && BucketOk(r, horizon) && PerKeyOk(r, cfg.maxPerKey) && Count(r) <= cfg.maxPending
            && Keys(r) <= Keys(b) + {item.key}
            && EndsWith(r, item) && item in QueueOf(r, item.key)
            && (QueueOf(b, item.key) == [] ==> QueueOf(r, item.key) == [item])
  {
    hide Keys, LastN, Without, BucketOk, PerKeyOk, AppendItem, TrimKey, EvictTotal, EvictedTotal, TrimmedFromKey;
    var t := Trimmed(cfg, b, item);
    var r := EvictTotal(t, cfg.maxPending);
    TrimmedIsTrimKey(cfg, b, item, horizon);
    TrimmedOk(cfg, b, item, horizon);
    LastNKeepsLast(QueueOf(b, item.key), item, cfg.maxPerKey);
    EvictOk(cfg, t, item, horizon);
    LastSlotIsItsQueue(r, horizon);
  }

  lemma {:induction false} LastSlotIsItsQueue<R>(r: Bucket<R>, horizon: real)
    requires BucketOk(r, horizon) && r != []
    ensures QueueOf(r, r[|r| - 1].key) == r[|r| - 1].queue
  {
    IndexOfSlot(r, |r| - 1);
  }

  lemma {:induction false} LastNKeepsLast<R>(q: seq<Pending<R>>, item: Pending<R>, n: nat)
    requires n >= 1
    ensures var r := LastN(q + [item], n); r != [] && r[|r| - 1] == item && (q == [] ==> r == [item])
  {
  }
}
