/** What a frame is, byte by byte. */
module JpegFrames {
  import opened Bytes
  import opened Prelude
  import opened JpegReader

  /** A start marker stands at `i`, an end marker at `j`. */
  predicate StartsAt(stream: seq<Byte>, i: nat) {
    i + 3 <= |stream| && stream[i] == 0xFF && stream[i + 1] == 0xD8 && stream[i + 2] == 0xFF
  }

  predicate EndsAt(stream: seq<Byte>, j: nat) {
    j + 2 <= |stream| && stream[j] == 0xFF && stream[j + 1] == 0xD9
  }

  /** The frame runs from the first start marker to the first end marker that begins at least three bytes after it. */
  ghost predicate IsFrame(stream: seq<Byte>, i: nat, j: nat) {
    && StartsAt(stream, i) && (forall k: nat :: k < i ==> !StartsAt(stream, k))
    && EndsAt(stream, j) && i + 3 <= j && forall k: nat :: i + 3 <= k < j ==> !EndsAt(stream, k)
  }

  lemma {:induction false} MarkersAreBytes(stream: seq<Byte>, i: nat)
    ensures At(stream, SOI, i) <==> StartsAt(stream, i)
    ensures At(stream, EOI, i) <==> EndsAt(stream, i)
  {
    if StartsAt(stream, i) {
      assert stream[i..i + 3] == SOI;
    }
    if At(stream, SOI, i) {
      assert stream[i..i + 3][0] == stream[i] && stream[i..i + 3][1] == stream[i + 1] && stream[i..i + 3][2] == stream[i + 2];
    }
    if EndsAt(stream, i) {
      assert stream[i..i + 2] == EOI;
    }
    if At(stream, EOI, i) {
      assert stream[i..i + 2][0] == stream[i] && stream[i..i + 2][1] == stream[i + 1];
    }
  }

  /** A stream has a frame exactly when it has such a start and such an end, and then it is the bytes between them, the
      markers included. */
  lemma {:induction false} FrameIsExact(stream: seq<Byte>)
    ensures Frame(stream).Some? <==> exists i: nat, j: nat :: IsFrame(stream, i, j)
    ensures forall i: nat, j: nat :: IsFrame(stream, i, j) ==> Frame(stream) == Some(stream[i..j + 2])
  {
    hide At, Find, StartsAt, EndsAt;
    forall i: nat
      ensures At(stream, SOI, i) <==> StartsAt(stream, i)
      ensures At(stream, EOI, i) <==> EndsAt(stream, i)
    {
      MarkersAreBytes(stream, i);
    }
    if Frame(stream).Some? {
      var i := Find(stream, SOI, 0).value;
      var j := Find(stream, EOI, i + 3).value;
      assert IsFrame(stream, i, j);
    }
    forall i: nat, j: nat | IsFrame(stream, i, j) ensures Frame(stream) == Some(stream[i..j + 2]) {
      var i' := Find(stream, SOI, 0);
      assert i' == Some(i);
      assert Find(stream, EOI, i + 3) == Some(j);
    }
  }
}
