/** Small shared vocabulary: optional values, fallible results, and the few sequence facts
    that several components need. */
module Prelude {

  datatype Option<+T> = None | Some(value: T)

  datatype Result<+T, +E> = Ok(value: T) | Err(error: E)

  function Max(a: int, b: int): int {
    if a > b then a else b
  }

  function Min(a: int, b: int): int {
    if a < b then a else b
  }

  function RealMin(a: real, b: real): real {
    if b < a then b else a
  }

  function RealMax(a: real, b: real): real {
    if b > a then b else a
  }

  function LowerChar(c: char): char {
    if 'A' <= c <= 'Z' then c - 'A' + 'a' else c
  }

  function LowerCase(s: string): string {
    seq(|s|, i requires 0 <= i < |s| => LowerChar(s[i]))
  }

  /** The same letter up to ASCII case. */
  predicate SameLetter(c: char, d: char) {
    || c == d
    || ('A' <= c <= 'Z' && d as int == c as int + 32)
    || ('A' <= d <= 'Z' && c as int == d as int + 32)
  }

  predicate SameText(a: string, b: string) {
    |a| == |b| && forall k :: 0 <= k < |a| ==> SameLetter(a[k], b[k])
  }

  lemma {:induction false} LetterCase(c: char, d: char)
    ensures LowerChar(c) == LowerChar(d) <==> SameLetter(c, d)
  {
  }

  lemma {:induction false} TextCase(a: string, b: string)
    ensures LowerCase(a) == LowerCase(b) <==> SameText(a, b)
  {
    hide LowerChar, SameLetter;
    if |a| == |b| {
      forall k | 0 <= k < |a| ensures LowerCase(a)[k] == LowerCase(b)[k] <==> SameLetter(a[k], b[k]) {
        LetterCase(a[k], b[k]);
      }
    } else {
      assert |LowerCase(a)| != |LowerCase(b)|;
    }
  }

  lemma {:induction false} Regroup<T>(a: seq<T>, b: seq<T>, c: seq<T>)
    ensures a + (b + c) == a + b + c
  {
  }

  /** Splitting a sequence at its head, as a multiset equation. */
  lemma {:induction false} HeadTail<T>(s: seq<T>)
    requires s != []
    ensures multiset(s) == multiset{s[0]} + multiset(s[1..])
  {
    assert s == [s[0]] + s[1..];
  }

  /** Moving `q` out of a store and into a log leaves store plus log unchanged. */
  lemma {:induction false} Moved<T>(store: multiset<T>, rest: multiset<T>, q: multiset<T>, log: multiset<T>, log': multiset<T>, other: multiset<T>)
    requires store == rest + q
    requires log' == log + q
    ensures rest + log' + other == store + log + other
  {
  }

  /** Adding one element to a store from which `q` is then moved into a log. */
  lemma {:induction false} Admitted<T>(store: multiset<T>, rest: multiset<T>, q: multiset<T>, one: multiset<T>, log: multiset<T>, log': multiset<T>, other: multiset<T>)
    requires store + one == rest + q
    requires log' == log + q
    ensures rest + log' + other == store + log + other + one
  {
    assert rest + log' + other == (rest + q) + log + other;
    assert (store + one) + log + other == store + log + other + one;
  }

  /** Replacing one part of a sum. */
  lemma {:induction false} Replaced<T>(whole: multiset<T>, whole': multiset<T>, part: multiset<T>, part': multiset<T>, q: multiset<T>)
    requires whole' + part == whole + part'
    requires part == part' + q
    ensures whole == whole' + q
  {
    assert whole + part' == (whole' + q) + part';
    assert whole == (whole + part') - part';
    assert whole' + q == ((whole' + q) + part') - part';
  }
}
