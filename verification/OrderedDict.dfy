/** Ordered dictionaries with string keys, as sequences of entries from least to most recently touched,
    and the facts about evicting the least recent ones that the bounded tables of this project share. */
module OrderedDicts {
  import opened Prelude

  datatype Entry<V> = Entry(key: string, value: V)

  type Dict<V> = seq<Entry<V>>

  function Get<V>(d: Dict<V>, key: string): Option<V> {
    if d == [] then None else if d[0].key == key then Some(d[0].value) else Get(d[1..], key)
  }

  function Without<V>(d: Dict<V>, key: string): Dict<V> {
    if d == [] then [] else (if d[0].key == key then [] else [d[0]]) + Without(d[1..], key)
  }

  /** Set a key and move it to the most recent end. */
  function Put<V>(d: Dict<V>, key: string, value: V): Dict<V> {
    Without(d, key) + [Entry(key, value)]
  }

  /** Beyond the cap, the least recently touched keys go. */
  function Trim<V>(d: Dict<V>, cap: nat): Dict<V> {
    if |d| > cap then d[|d| - cap..] else d
  }

  /** The eviction loop: drop the least recent key while there are too many. */
  method EvictBeyond<V>(d: Dict<V>, cap: nat) returns (kept: Dict<V>)
    ensures kept == Trim(d, cap)
  {
    kept := d;
    ghost var n := 0;
    while |kept| > cap
      invariant 0 <= n <= |d| && kept == d[n..]
      invariant n > 0 ==> |kept| >= cap
      decreases |kept|
    {
      assert d[n..][1..] == d[n + 1..];
      kept := kept[1..];
      n := n + 1;
    }
  }

  function Keys<V>(d: Dict<V>): set<string> {
    set i | 0 <= i < |d| :: d[i].key
  }

  ghost predicate Distinct<V>(d: Dict<V>) {
    forall i, j :: 0 <= i < j < |d| ==> d[i].key != d[j].key
  }

  /** The keys touched more recently than a key; none when it is absent. */
  function Behind<V>(d: Dict<V>, k: string): set<string> {
    if d == [] then {} else if d[0].key == k then Keys(d[1..]) else Behind(d[1..], k)
  }

  // ---------------------------------------------------------------- keys

  lemma {:induction false} KeysSplit<V>(b: Dict<V>, d: Dict<V>)
    ensures Keys(b + d) == Keys(b) + Keys(d)
  {
    forall k | k in Keys(b) + Keys(d) ensures k in Keys(b + d) {
      if k in Keys(b) {
        var i :| 0 <= i < |b| && b[i].key == k;
        assert (b + d)[i].key == k;
      } else {
        var i :| 0 <= i < |d| && d[i].key == k;
        assert (b + d)[|b| + i].key == k;
      }
    }
    forall k | k in Keys(b + d) ensures k in Keys(b) + Keys(d) {
      var i :| 0 <= i < |b + d| && (b + d)[i].key == k;
      if i < |b| {
        assert b[i].key in Keys(b);
      } else {
        assert d[i - |b|].key in Keys(d);
      }
    }
  }

  lemma {:induction false} OneKey<V>(e: Entry<V>)
    ensures Keys([e]) == {e.key}
  {
    var one := [e];
    assert one[0].key in Keys(one);
  }

  lemma {:induction false} ConsKeys<V>(d: Dict<V>)
    requires d != []
    ensures Keys(d) == {d[0].key} + Keys(d[1..])
    ensures Distinct(d) ==> Distinct(d[1..]) && d[0].key !in Keys(d[1..])
  {
    KeysSplit([d[0]], d[1..]);
    assert d == [d[0]] + d[1..];
    OneKey(d[0]);
  }

  lemma {:induction false} DistinctJoin<V>(b: Dict<V>, d: Dict<V>)
    requires Distinct(b) && Distinct(d) && Keys(b) !! Keys(d)
    ensures Distinct(b + d)
  {
    forall i, j | 0 <= i < j < |b + d| ensures (b + d)[i].key != (b + d)[j].key {
      if i < |b| <= j {
        assert b[i].key in Keys(b) && d[j - |b|].key in Keys(d);
      }
    }
  }

  lemma {:induction false} DistinctSplit<V>(b: Dict<V>, d: Dict<V>)
    requires Distinct(b + d)
    ensures Distinct(b) && Distinct(d) && Keys(b) !! Keys(d)
  {
    var all := b + d;
    forall i, j | 0 <= i < j < |b| ensures b[i].key != b[j].key {
      assert all[i].key != all[j].key;
    }
    forall i, j | 0 <= i < j < |d| ensures d[i].key != d[j].key {
      assert all[|b| + i].key != all[|b| + j].key;
    }
    forall i, j | 0 <= i < |b| && 0 <= j < |d| ensures b[i].key != d[j].key {
      assert all[i].key != all[|b| + j].key;
    }
  }

  lemma {:induction false} KeyCount<V>(d: Dict<V>)
    requires Distinct(d)
    ensures |Keys(d)| == |d|
  {
    if d != [] {
      ConsKeys(d);
      KeyCount(d[1..]);
    }
  }

  lemma {:induction false} SubsetSize<T>(a: set<T>, b: set<T>)
    requires a <= b
    ensures |a| <= |b|
  {
    if a != {} {
      var x :| x in a;
      SubsetSize(a - {x}, b - {x});
    }
  }

  // ---------------------------------------------------------------- lookups

  lemma {:induction false} Absent<V>(d: Dict<V>, key: string)
    ensures Get(d, key).Some? <==> key in Keys(d)
    ensures key !in Keys(d) ==> Without(d, key) == d
  {
    if d != [] {
      ConsKeys(d);
      Absent(d[1..], key);
      assert d == [d[0]] + d[1..];
    }
  }

  lemma {:induction false} WithoutKey<V>(d: Dict<V>, key: string)
    requires Distinct(d)
    ensures Distinct(Without(d, key)) && Keys(Without(d, key)) == Keys(d) - {key}
    ensures forall k :: k != key ==> Get(Without(d, key), k) == Get(d, k)
  {
    if d != [] {
      ConsKeys(d);
      WithoutKey(d[1..], key);
      var rest := Without(d[1..], key);
      if d[0].key == key {
        assert Without(d, key) == rest;
      } else {
        assert Without(d, key) == [d[0]] + rest;
        assert ([d[0]] + rest)[1..] == rest;
        ConsKeys([d[0]] + rest);
        DistinctJoin([d[0]], rest);
      }
    }
  }

  lemma {:induction false} GetLast<V>(d: Dict<V>, e: Entry<V>, k: string)
    requires e.key !in Keys(d)
    ensures Get(d + [e], k) == if k == e.key then Some(e.value) else Get(d, k)
  {
    if d == [] {
      assert d + [e] == [e];
    } else {
      ConsKeys(d);
      assert (d + [e])[1..] == d[1..] + [e];
      GetLast(d[1..], e, k);
    }
  }

  lemma {:induction false} AddLast<V>(d: Dict<V>, e: Entry<V>)
    requires Distinct(d) && e.key !in Keys(d)
    ensures Distinct(d + [e]) && Keys(d + [e]) == Keys(d) + {e.key}
    ensures forall k :: Get(d + [e], k) == if k == e.key then Some(e.value) else Get(d, k)
  {
    OneKey(e);
    KeysSplit(d, [e]);
    DistinctJoin(d, [e]);
    forall k ensures Get(d + [e], k) == if k == e.key then Some(e.value) else Get(d, k) {
      GetLast(d, e, k);
    }
  }

  /** Setting a key changes that key alone. */
  lemma {:induction false} PutChangesOne<V>(d: Dict<V>, key: string, value: V)
    requires Distinct(d)
    ensures Distinct(Put(d, key, value)) && Keys(Put(d, key, value)) == Keys(d) + {key}
    ensures forall k :: Get(Put(d, key, value), k) == if k == key then Some(value) else Get(d, k)
  {
    hide Get, Distinct, Keys, Without;
    WithoutKey(d, key);
    AddLast(Without(d, key), Entry(key, value));
  }

  lemma {:induction false} SkipPrefix<V>(a: Dict<V>, d: Dict<V>, k: string)
    requires k !in Keys(a)
    ensures Get(a + d, k) == Get(d, k)
  {
    if a == [] {
      assert a + d == d;
    } else {
      ConsKeys(a);
      assert (a + d)[1..] == a[1..] + d;
      SkipPrefix(a[1..], d, k);
    }
  }

  /** What is left after trimming keeps its values. */
  lemma {:induction false} TrimKeeps<V>(d: Dict<V>, cap: nat)
    requires Distinct(d)
    ensures var kept := Trim(d, cap);
            && Distinct(kept) && Keys(kept) <= Keys(d)
            && forall k :: Get(kept, k) == if k in Keys(kept) then Get(d, k) else None
  {
    hide Get, Keys, Distinct;
    var kept := Trim(d, cap);
    var front := d[..|d| - |kept|];
    assert d == front + kept;
    KeysSplit(front, kept);
    DistinctSplit(front, kept);
    forall k ensures Get(kept, k) == if k in Keys(kept) then Get(d, k) else None {
      Absent(kept, k);
      if k in Keys(kept) {
        SkipPrefix(front, kept, k);
      }
    }
  }

  // ---------------------------------------------------------------- places

  lemma {:induction false} BehindWithin<V>(d: Dict<V>, k: string)
    ensures Behind(d, k) <= Keys(d)
    ensures k !in Keys(d) ==> Behind(d, k) == {}
  {
    if d != [] {
      ConsKeys(d);
      BehindWithin(d[1..], k);
    }
  }

  lemma {:induction false} WithoutBehind<V>(d: Dict<V>, j: string, k: string)
    requires Distinct(d)
    ensures Behind(Without(d, j), k) <= Behind(d, k)
  {
    if d != [] {
      ConsKeys(d);
      WithoutBehind(d[1..], j, k);
      WithoutKey(d[1..], j);
      var rest := Without(d[1..], j);
      if d[0].key == j {
        assert Without(d, j) == rest;
        BehindWithin(rest, k);
      } else {
        assert Without(d, j) == [d[0]] + rest;
        assert Without(d, j)[1..] == rest;
      }
    }
  }

  lemma {:induction false} LastBehind<V>(d: Dict<V>, e: Entry<V>, k: string)
    requires e.key !in Keys(d)
    ensures Behind(d + [e], k) == if k == e.key then {} else if k in Keys(d) then Behind(d, k) + {e.key} else {}
  {
    if d == [] {
      assert d + [e] == [e];
    } else {
      ConsKeys(d);
      assert (d + [e])[1..] == d[1..] + [e];
      assert (d + [e])[0] == d[0];
      if d[0].key == k {
        KeysSplit(d[1..], [e]);
        OneKey(e);
      } else {
        LastBehind(d[1..], e, k);
      }
    }
  }

  lemma {:induction false} SuffixBehind<V>(a: Dict<V>, d: Dict<V>, k: string)
    requires Distinct(a + d)
    ensures Behind(d, k) <= Behind(a + d, k)
    ensures k in Keys(a) ==> Keys(d) <= Behind(a + d, k)
  {
    if a == [] {
      assert a + d == d;
    } else {
      var all := a + d;
      ConsKeys(all);
      ConsKeys(a);
      assert all[1..] == a[1..] + d;
      SuffixBehind(a[1..], d, k);
      KeysSplit(a[1..], d);
      BehindWithin(d, k);
    }
  }

  /** A key pushed out by trimming has at least `cap` keys behind it. */
  lemma {:induction false} TrimBehind<V>(d: Dict<V>, cap: nat, k: string)
    requires Distinct(d)
    ensures Behind(Trim(d, cap), k) <= Behind(d, k)
    ensures k in Keys(d) - Keys(Trim(d, cap)) ==> |Behind(d, k)| >= cap
  {
    hide Keys, Behind, Distinct;
    var kept := Trim(d, cap);
    var front := d[..|d| - |kept|];
    assert d == front + kept;
    KeysSplit(front, kept);
    SuffixBehind(front, kept, k);
    DistinctSplit(front, kept);
    KeyCount(kept);
    if k in Keys(front) {
      SubsetSize(Keys(kept), Behind(d, k));
    }
  }

  /** Only the others can be behind `k`. */
  ghost predicate Roomy<V>(d: Dict<V>, k: string, others: set<string>) {
    Distinct(d) && Behind(d, k) <= others
  }

  lemma {:induction false} PutKeepsPlace<V>(d: Dict<V>, key: string, value: V, k: string, others: set<string>)
    requires Roomy(d, k, others) && (key == k || key in others)
    ensures Roomy(Without(d, key), k, others)
    ensures Roomy(Put(d, key, value), k, others)
    ensures key == k ==> Behind(Put(d, key, value), k) == {}
  {
    hide Behind, Keys, Distinct, Without;
    WithoutKey(d, key);
    WithoutBehind(d, key, k);
    LastBehind(Without(d, key), Entry(key, value), k);
    AddLast(Without(d, key), Entry(key, value));
  }

  /** Setting a key and trimming cannot push out `k` while fewer than `cap` others are around. */
  lemma {:induction false} PutTrimKeepsPlace<V>(d: Dict<V>, key: string, value: V, cap: nat, k: string, others: set<string>)
    requires Roomy(d, k, others) && (key == k || key in others) && |others| < cap
    ensures Roomy(Trim(Put(d, key, value), cap), k, others)
    ensures k !in Keys(d) + {key} - Keys(Trim(Put(d, key, value), cap))
  {
    hide Behind, Keys, Distinct, Put, Trim, Without;
    PutKeepsPlace(d, key, value, k, others);
    PutChangesOne(d, key, value);
    TrimKeeps(Put(d, key, value), cap);
    TrimBehind(Put(d, key, value), cap, k);
    SubsetSize(Behind(Put(d, key, value), k), others);
  }
}
