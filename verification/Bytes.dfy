/** Byte strings and searching them for a marker. */
module Bytes {
  import opened Prelude

  type Byte = b: int | 0 <= b < 256

  predicate At(s: seq<Byte>, marker: seq<Byte>, i: int) {
    0 <= i && i + |marker| <= |s| && s[i..i + |marker|] == marker
  }

  /** `find`: the first position at or after `from` where the marker stands, or none. */
  function Find(s: seq<Byte>, marker: seq<Byte>, from: nat): (r: Option<nat>)
    ensures r.Some? ==> from <= r.value && At(s, marker, r.value) && forall i :: from <= i < r.value ==> !At(s, marker, i)
    ensures r.None? ==> forall i :: from <= i ==> !At(s, marker, i)
    decreases |s| - from
  {
    if from + |marker| > |s| then None
    else if s[from..from + |marker|] == marker then Some(from)
    else Find(s, marker, from + 1)
  }

  lemma {:induction false} AtExtends(s: seq<Byte>, more: seq<Byte>, marker: seq<Byte>, i: int)
    ensures At(s, marker, i) ==> At(s + more, marker, i)
    ensures i + |marker| <= |s| ==> (At(s + more, marker, i) <==> At(s, marker, i))
  {
    if 0 <= i && i + |marker| <= |s| {
      assert (s + more)[i..i + |marker|] == s[i..i + |marker|];
    }
  }

  lemma {:induction false} FindExtends(s: seq<Byte>, more: seq<Byte>, marker: seq<Byte>, from: nat)
    ensures Find(s, marker, from).Some? ==> Find(s + more, marker, from) == Find(s, marker, from)
  {
    if Find(s, marker, from).Some? {
      var r := Find(s, marker, from).value;
      AtExtends(s, more, marker, r);
      var q := Find(s + more, marker, from);
      assert q.Some?;
      AtExtends(s, more, marker, q.value);
      assert q.value <= r;
      assert q.value + |marker| <= |s|;
    }
  }

  lemma {:induction false} AtShifts(s: seq<Byte>, d: nat, marker: seq<Byte>, i: int)
    requires d <= |s| && i >= 0
    ensures At(s[d..], marker, i) <==> At(s, marker, d + i)
  {
    if i + |marker| <= |s[d..]| {
      assert s[d..][i..i + |marker|] == s[d + i..d + i + |marker|];
    }
  }

  lemma {:induction false} FindShifts(s: seq<Byte>, d: nat, marker: seq<Byte>, from: nat)
    requires d <= |s|
    requires forall i :: from <= i < d ==> !At(s, marker, i)
    ensures var inner := Find(s[d..], marker, if from <= d then 0 else from - d);
            Find(s, marker, from) == if inner.Some? then Some(inner.value + d) else None
  {
    var low := if from <= d then 0 else from - d;
    var inner := Find(s[d..], marker, low);
    var outer := Find(s, marker, from);
    if inner.Some? {
      AtShifts(s, d, marker, inner.value);
      assert outer.Some? && outer.value <= inner.value + d;
      if outer.value >= d {
        AtShifts(s, d, marker, outer.value - d);
      }
    } else if outer.Some? && outer.value >= d {
      AtShifts(s, d, marker, outer.value - d);
    }
  }
}
