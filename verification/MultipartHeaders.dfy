/** The reading of a header in any letter case. */
module MultipartHeaders {
  import opened Prelude
  import opened Bytes
  import opened Multipart
  import opened MultipartLaws

  /** Two byte strings are one text up to the case of ASCII letters. */
  predicate SameBytes(a: seq<Byte>, b: seq<Byte>) {
    |a| == |b| && forall i :: 0 <= i < |a| ==>
      a[i] == b[i] || (65 <= a[i] <= 90 && b[i] == a[i] + 32) || (65 <= b[i] <= 90 && a[i] == b[i] + 32)
  }

  lemma {:induction false} SameFolds(a: seq<Byte>, b: seq<Byte>)
    requires SameBytes(a, b) && forall i :: 0 <= i < |b| ==> !(65 <= b[i] <= 90)
    ensures Fold(a) == b
  {
  }

  /** The first `name="` of a header, and the first `filename="`, is read in any letter case: the text up to the next
      quote. */
  lemma {:induction false} AnyCaseIsRead(before: seq<Byte>, written: seq<Byte>, value: seq<Byte>, rest: seq<Byte>)
    requires 34 !in before && 34 !in value
    ensures SameBytes(written, [110, 97, 109, 101, 61, 34]) ==>
              Quoted(before + written + value + [34] + rest, NAME, 0) == Some(value)
    ensures SameBytes(written, [102, 105, 108, 101, 110, 97, 109, 101, 61, 34]) ==>
              Quoted(before + written + value + [34] + rest, FILENAME, 0) == Some(value)
  {
    hide Quoted, Fold;
    if SameBytes(written, NAME) {
      FoundInAnyCase(before, written, NAME, value, rest);
    }
    if SameBytes(written, FILENAME) {
      FoundInAnyCase(before, written, FILENAME, value, rest);
    }
  }

  lemma {:induction false} FoundInAnyCase(before: seq<Byte>, written: seq<Byte>, prefix: seq<Byte>, value: seq<Byte>, rest: seq<Byte>)
    requires 34 !in before && 34 !in value && SameBytes(written, prefix)
    requires prefix != [] && prefix[|prefix| - 1] == QUOTE && forall i :: 0 <= i < |prefix| - 1 ==> prefix[i] != QUOTE
    requires forall i :: 0 <= i < |prefix| ==> !(65 <= prefix[i] <= 90)
    ensures Quoted(before + written + value + [34] + rest, prefix, 0) == Some(value)
  {
    hide Quoted, Fold;
    SameFolds(written, prefix);
    var s := before + written + value + [QUOTE] + rest;
    forall i | 0 <= i < |before| ensures !At(Fold(s), prefix, i) {
      var end := i + |prefix| - 1;
      assert s[end] != QUOTE by {
        if end < |before| {
          assert s[end] == before[end];
        } else {
          assert s[end] == written[end - |before|];
        }
      }
      if At(Fold(s), prefix, i) {
        MatchEnds(s, prefix, i);
      }
    }
    QuotedIsFound(before, written, prefix, value, rest);
  }
}
