/** Sorting strings by a descending score and then alphabetically; with no scores, plain alphabetical order.
    Sorting is insertion into a list without duplicates; any two lists sorted alike with the same members are equal. */
module Sorting {

  type Scores = map<string, real>

  function Score(m: Scores, k: string): real {
    if k in m then m[k] else 0.0
  }

  /** Alphabetical order by character codes. */
  predicate Less(a: string, b: string) {
    if b == [] then false
    else if a == [] then true
    else a[0] < b[0] || (a[0] == b[0] && Less(a[1..], b[1..]))
  }

  lemma {:induction false} LessIsStrict(a: string)
    ensures !Less(a, a)
  {
    if a != [] {
      LessIsStrict(a[1..]);
    }
  }

  lemma {:induction false} LessIsTransitive(a: string, b: string, c: string)
    requires Less(a, b) && Less(b, c)
    ensures Less(a, c)
  {
    if a != [] && a[0] == b[0] == c[0] {
      LessIsTransitive(a[1..], b[1..], c[1..]);
    }
  }

  lemma {:induction false} LessIsTotal(a: string, b: string)
    ensures a == b || Less(a, b) || Less(b, a)
  {
    if a != [] && b != [] && a[0] == b[0] {
      LessIsTotal(a[1..], b[1..]);
      assert a == [a[0]] + a[1..] && b == [b[0]] + b[1..];
    }
  }

  predicate Before(m: Scores, a: string, b: string) {
    Score(m, a) > Score(m, b) || (Score(m, a) == Score(m, b) && Less(a, b))
  }

  lemma {:induction false} BeforeIsStrict(m: Scores, a: string, b: string)
    requires Before(m, a, b)
    ensures a != b && !Before(m, b, a)
  {
    LessIsStrict(a);
    if Less(a, b) && Less(b, a) {
      LessIsTransitive(a, b, a);
    }
  }

  lemma {:induction false} BeforeIsTransitive(m: Scores, a: string, b: string, c: string)
    requires Before(m, a, b) && Before(m, b, c)
    ensures Before(m, a, c)
  {
    if Less(a, b) && Less(b, c) {
      LessIsTransitive(a, b, c);
    }
  }

  ghost predicate Sorted(m: Scores, s: seq<string>) {
    forall i, j :: 0 <= i < j < |s| ==> Before(m, s[i], s[j])
  }

  function Members(s: seq<string>): set<string> {
    set k | k in s
  }

  function Insert(m: Scores, s: seq<string>, k: string): seq<string> {
    if s == [] then [k]
    else if k == s[0] then s
    else if Before(m, k, s[0]) then [k] + s
    else [s[0]] + Insert(m, s[1..], k)
  }

  /** The distinct members of a list, in order. */
  function Sort(m: Scores, s: seq<string>): seq<string> {
    if s == [] then [] else Insert(m, Sort(m, s[1..]), s[0])
  }

  lemma {:induction false} InsertIsSorted(m: Scores, s: seq<string>, k: string)
    requires Sorted(m, s)
    ensures Sorted(m, Insert(m, s, k)) && Members(Insert(m, s, k)) == Members(s) + {k}
  {
    if s != [] {
      assert s == [s[0]] + s[1..];
      if k == s[0] {
      } else if Before(m, k, s[0]) {
        SortedCons(m, k, s);
      } else {
        var rest := Insert(m, s[1..], k);
        InsertIsSorted(m, s[1..], k);
        LessIsTotal(k, s[0]);
        assert Before(m, s[0], k);
        forall x | x in rest ensures Before(m, s[0], x) {
          assert x in Members(s[1..]) + {k};
        }
        var out := [s[0]] + rest;
        forall i, j | 0 <= i < j < |out| ensures Before(m, out[i], out[j]) {
          if i == 0 {
            assert out[j] in rest;
          } else {
            assert Before(m, rest[i - 1], rest[j - 1]);
          }
        }
        assert Members(out) == {s[0]} + Members(rest);
        assert Members(s) == {s[0]} + Members(s[1..]);
      }
    }
  }

  lemma {:induction false} SortedCons(m: Scores, k: string, s: seq<string>)
    requires Sorted(m, s) && s != [] && Before(m, k, s[0])
    ensures Sorted(m, [k] + s) && Members([k] + s) == Members(s) + {k}
  {
    var out := [k] + s;
    forall i, j | 0 <= i < j < |out| ensures Before(m, out[i], out[j]) {
      if i == 0 {
        if j > 1 {
          BeforeIsTransitive(m, k, s[0], s[j - 1]);
        }
      } else {
        assert Before(m, s[i - 1], s[j - 1]);
      }
    }
  }

  lemma {:induction false} SortIsSorted(m: Scores, s: seq<string>)
    ensures Sorted(m, Sort(m, s)) && Members(Sort(m, s)) == Members(s)
  {
    if s != [] {
      SortIsSorted(m, s[1..]);
      InsertIsSorted(m, Sort(m, s[1..]), s[0]);
      assert Members(s) == Members(s[1..]) + {s[0]} by {
        assert s == [s[0]] + s[1..];
      }
    }
  }

  lemma {:induction false} SortedTail(m: Scores, s: seq<string>)
    requires Sorted(m, s) && s != []
    ensures Sorted(m, s[1..]) && s[0] !in Members(s[1..]) && Members(s[1..]) == Members(s) - {s[0]}
    ensures forall x :: x in Members(s[1..]) ==> Before(m, s[0], x)
  {
    forall x | x in s[1..] ensures Before(m, s[0], x) && x != s[0] {
      var i :| 0 <= i < |s[1..]| && s[1..][i] == x;
      assert Before(m, s[0], s[i + 1]);
      BeforeIsStrict(m, s[0], x);
    }
    assert s == [s[0]] + s[1..];
  }

  lemma {:induction false} NoMembers(s: seq<string>)
    ensures s == [] <==> Members(s) == {}
  {
    if s != [] {
      assert s[0] in Members(s);
    }
  }

  /** A sorted list is determined by its members. */
  lemma {:induction false} SortedIsUnique(m: Scores, s: seq<string>, t: seq<string>)
    requires Sorted(m, s) && Sorted(m, t) && Members(s) == Members(t)
    ensures s == t
  {
    hide Before;
    NoMembers(s);
    NoMembers(t);
    if s != [] {
      assert s[0] in Members(s);
      assert t[0] in Members(t);
      SortedTail(m, s);
      SortedTail(m, t);
      if s[0] != t[0] {
        assert t[0] in Members(s[1..]) && s[0] in Members(t[1..]);
        BeforeIsStrict(m, s[0], t[0]);
      }
      SortedIsUnique(m, s[1..], t[1..]);
      assert s == [s[0]] + s[1..] && t == [t[0]] + t[1..];
    }
  }

  /** Sorting depends on the members alone. */
  lemma {:induction false} SortIgnoresOrder(m: Scores, s: seq<string>, t: seq<string>)
    requires Members(s) == Members(t)
    ensures Sort(m, s) == Sort(m, t)
  {
    SortIsSorted(m, s);
    SortIsSorted(m, t);
    SortedIsUnique(m, Sort(m, s), Sort(m, t));
  }

  /** A sorted list has no duplicates. */
  lemma {:induction false} SortedCount(m: Scores, s: seq<string>)
    requires Sorted(m, s)
    ensures |Members(s)| == |s|
  {
    hide Before;
    if s != [] {
      SortedTail(m, s);
      SortedCount(m, s[1..]);
      assert s[0] in Members(s);
    }
  }

  lemma {:induction false} SortedPart(m: Scores, s: seq<string>, n: nat)
    requires Sorted(m, s) && n <= |s|
    ensures Sorted(m, s[..n]) && Sorted(m, s[n..]) && Members(s[..n]) !! Members(s[n..])
    ensures Members(s) == Members(s[..n]) + Members(s[n..])
    ensures forall x, y :: x in Members(s[..n]) && y in Members(s[n..]) ==> Before(m, x, y)
  {
    hide Before;
    forall x, y | x in Members(s[..n]) && y in Members(s[n..]) ensures Before(m, x, y) && x != y {
      var i :| 0 <= i < n && s[i] == x;
      var j :| 0 <= j < |s[n..]| && s[n..][j] == y;
      assert Before(m, s[i], s[n + j]);
      BeforeIsStrict(m, x, y);
    }
    assert s == s[..n] + s[n..];
    forall i, j | 0 <= i < j < |s[n..]| ensures Before(m, s[n..][i], s[n..][j]) {
      assert Before(m, s[n + i], s[n + j]);
    }
  }
}
