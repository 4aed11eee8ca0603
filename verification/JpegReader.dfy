/** The chunked camera reader (printers/bambu_camera.py): one JPEG frame out of a byte stream that
    arrives in arbitrary pieces, with a trimmed buffer and a byte cap. */
module JpegReader {
  import opened Bytes
  import opened Prelude

  const SOI: seq<Byte> := [0xFF, 0xD8, 0xFF]
  const EOI: seq<Byte> := [0xFF, 0xD9]

  /** The frame of a whole stream: from the first start marker to the first end marker at least
      three bytes later. */
  datatype Span = Span(start: nat, end: nat)

  function FrameSpan(stream: seq<Byte>): (r: Option<Span>)
    ensures r.Some? ==> r.value.start + 5 <= r.value.end <= |stream|
  {
    match Find(stream, SOI, 0)
    case None => None
    case Some(start) =>
      match Find(stream, EOI, start + 3)
      case None => None
      case Some(end) => Some(Span(start, end + 2))
  }

  function Frame(stream: seq<Byte>): Option<seq<Byte>> {
    match FrameSpan(stream)
    case None => None
    case Some(span) => Some(stream[span.start..span.end])
  }

  // ----- markers and extensions -----------------------------------------------------------------

  /** A frame once complete is the frame of every longer stream. */
  lemma {:induction false} FrameIsStable(s: seq<Byte>, more: seq<Byte>)
    ensures FrameSpan(s).Some? ==> FrameSpan(s + more) == FrameSpan(s) && Frame(s + more) == Frame(s)
  {
    if FrameSpan(s).Some? {
      var start := Find(s, SOI, 0).value;
      FindExtends(s, more, SOI, 0);
      FindExtends(s, more, EOI, start + 3);
      var span := FrameSpan(s).value;
      assert (s + more)[span.start..span.end] == s[span.start..span.end];
    }
  }

  /** Dropping a prefix that holds no start marker moves the frame and nothing else. */
  lemma {:induction false} FrameShifts(s: seq<Byte>, d: nat)
    requires d <= |s|
    requires forall i :: 0 <= i < d ==> !At(s, SOI, i)
    ensures Frame(s) == Frame(s[d..])
  {
    hide Find;
    FindShifts(s, d, SOI, 0);
    var inner := Find(s[d..], SOI, 0);
    if inner.Some? {
      var start := inner.value + d;
      FindShifts(s, d, EOI, start + 3);
      assert start + 3 - d == inner.value + 3;
      var end := Find(s[d..], EOI, inner.value + 3);
      if end.Some? {
        ShiftedSlice(s, d, inner.value, end.value + 2);
      }
    }
  }

  lemma {:induction false} ShiftedSlice(s: seq<Byte>, d: nat, i: nat, j: nat)
    requires d <= |s| && i <= j <= |s| - d
    ensures s[d..][i..j] == s[d + i..d + j]
  {
  }

  // ----- the reader -------------------------------------------------------------------------------

  /** What one receive call answers: bytes (possibly none, when the peer closed), or an error. A
      timeout is raised to the caller. */
  datatype Recv = Data(bytes: seq<Byte>) | Broken | TimedOut

  datatype Outcome = Got(frame: seq<Byte>) | NoFrame | Timeout

  function Received(rs: seq<Recv>): seq<Byte> {
    if rs == [] then []
    else Received(rs[..|rs| - 1]) + if rs[|rs| - 1].Data? then rs[|rs| - 1].bytes else []
  }

  predicate Nonempty(rs: seq<Recv>) {
    forall i :: 0 <= i < |rs| ==> rs[i].Data? && rs[i].bytes != []
  }

  /** The reader told on whole streams: look for a frame in everything received so far, after each
      piece, until a frame, an error, the end of the pieces or the byte cap. Gives the outcome and
      how many receive calls were made. */
  function ReadWhole(rs: seq<Recv>, maxBytes: int, n: nat): (Outcome, nat)
    requires n <= |rs|
    decreases |rs| - n
  {
    if |Received(rs[..n])| >= maxBytes || n == |rs| then (NoFrame, n)
    else
      match rs[n]
      case TimedOut => (Timeout, n + 1)
      case Broken => (NoFrame, n + 1)
      case Data(bytes) =>
        if bytes == [] then (NoFrame, n + 1)
        else
          match Frame(Received(rs[..n + 1]))
          case Some(frame) => (Got(frame), n + 1)
          case None => ReadWhole(rs, maxBytes, n + 1)
  }

  method ReadOneJpeg(rs: seq<Recv>, maxBytes: int) returns (outcome: Outcome, used: nat)
    ensures (outcome, used) == ReadWhole(rs, maxBytes, 0)
  {
    hide At, Frame, Find;
    var buf: seq<Byte>, total := [], 0;
    used := 0;
    ghost var trimmed: nat := 0;
    while total < maxBytes && used < |rs|
      invariant used <= |rs| && ReadWhole(rs, maxBytes, used) == ReadWhole(rs, maxBytes, 0)
      invariant total == |Received(rs[..used])|
      invariant trimmed <= total && buf == Received(rs[..used])[trimmed..]
      invariant trimmed == 0 || trimmed + 2 <= total
      invariant forall i :: 0 <= i < trimmed ==> !At(Received(rs[..used]), SOI, i)
      decreases |rs| - used
    {
      ghost var before := Received(rs[..used]);
      assert rs[..used + 1][..used] == rs[..used];
      var r := rs[used];
      used := used + 1;
      if r == TimedOut {
        return Timeout, used;
      }
      if r == Broken || r.bytes == [] {
        return NoFrame, used;
      }
      total := total + |r.bytes|;
      buf := buf + r.bytes;
      ghost var stream := Received(rs[..used]);
      assert stream == before + r.bytes && buf == stream[trimmed..];
      NoEarlierMarker(before, r.bytes, trimmed);
      FrameShifts(stream, trimmed);
      var start := Find(buf, SOI, 0);
      if start.None? {
        NoStart(stream, trimmed);
        var keep := Min(2, |buf|);
        trimmed := trimmed + (|buf| - keep);
        buf := buf[|buf| - keep..];
        continue;
      }
      var end := Find(buf, EOI, start.value + 3);
      FrameOfBuffer(buf);
      if end.Some? {
        return Got(buf[start.value..end.value + 2]), used;
      }
    }
    return NoFrame, used;
  }

  /** The two searches of the loop body are the frame search on the buffer. */
  lemma {:induction false} FrameOfBuffer(buf: seq<Byte>)
    requires Find(buf, SOI, 0).Some?
    ensures var end := Find(buf, EOI, Find(buf, SOI, 0).value + 3);
            && (end.None? ==> Frame(buf) == None)
            && (end.Some? ==> end.value + 2 <= |buf| && Find(buf, SOI, 0).value <= end.value + 2
                              && Frame(buf) == Some(buf[Find(buf, SOI, 0).value..end.value + 2]))
  {
  }

  lemma {:induction false} NoStart(stream: seq<Byte>, trimmed: nat)
    requires trimmed <= |stream| && Find(stream[trimmed..], SOI, 0).None?
    requires forall i :: 0 <= i < trimmed ==> !At(stream, SOI, i)
    ensures forall i :: 0 <= i ==> !At(stream, SOI, i)
    ensures Frame(stream) == None && Frame(stream[trimmed..]) == None
  {
    FindShifts(stream, trimmed, SOI, 0);
  }

  /** New bytes cannot complete a start marker inside the part already trimmed away, because the
      reader keeps the last two bytes. */
  lemma {:induction false} NoEarlierMarker(before: seq<Byte>, more: seq<Byte>, trimmed: nat)
    requires trimmed <= |before|
    requires forall i :: 0 <= i < trimmed ==> !At(before, SOI, i)
    requires trimmed == 0 || trimmed + 2 <= |before|
    ensures forall i :: 0 <= i < trimmed ==> !At(before + more, SOI, i)
  {
    forall i | 0 <= i < trimmed ensures !At(before + more, SOI, i) {
      AtExtends(before, more, SOI, i);
    }
  }

  // ----- independence of the cut --------------------------------------------------------------------

  lemma {:induction false} ReceivedGrows(rs: seq<Recv>, n: nat, m: nat)
    requires n <= m <= |rs|
    ensures Received(rs[..n]) <= Received(rs[..m])
    decreases m - n
  {
    if n < m {
      ReceivedGrows(rs, n, m - 1);
      assert rs[..m][..m - 1] == rs[..m - 1];
    }
  }

  lemma {:induction false} EarlierHasNoFrame(rs: seq<Recv>, n: nat, m: nat)
    requires n <= m <= |rs| && Frame(Received(rs[..m])) == None
    ensures Frame(Received(rs[..n])) == None
  {
    ReceivedGrows(rs, n, m);
    var s := Received(rs[..n]);
    var more := Received(rs[..m])[|s|..];
    assert Received(rs[..m]) == s + more;
    FrameIsStable(s, more);
  }

  /** A frame that ends within the byte cap is found, whatever the pieces. */
  lemma {:induction false} FindsTheFrame(rs: seq<Recv>, maxBytes: int, n: nat)
    requires n <= |rs| && Nonempty(rs) && Frame(Received(rs[..n])) == None
    requires FrameSpan(Received(rs)).Some? && FrameSpan(Received(rs)).value.end <= maxBytes
    ensures Frame(Received(rs)).Some? && ReadWhole(rs, maxBytes, n).0 == Got(Frame(Received(rs)).value)
    decreases |rs| - n
  {
    hide FrameSpan;
    assert rs[..|rs|] == rs;
    assert FrameSpan(Received(rs)).Some? ==> Frame(Received(rs)).Some?;
    ReceivedGrows(rs, n, |rs|);
    CapNotReached(Received(rs[..n]), Received(rs), maxBytes);
    if n < |rs| {
      ReceivedGrows(rs, n + 1, |rs|);
      var s := Received(rs[..n + 1]);
      if Frame(s).Some? {
        FrameIsStable(s, Received(rs)[|s|..]);
        assert Received(rs) == s + Received(rs)[|s|..];
        assert FrameSpan(s).Some?;
      } else {
        FindsTheFrame(rs, maxBytes, n + 1);
      }
    }
  }

  lemma {:induction false} CapNotReached(s: seq<Byte>, stream: seq<Byte>, maxBytes: int)
    requires s <= stream && FrameSpan(stream).Some? && FrameSpan(stream).value.end <= maxBytes && Frame(s) == None
    ensures |s| < maxBytes
  {
    assert stream[..|s|] == s;
    if |s| >= FrameSpan(stream).value.end {
      FrameWithin(stream, |s|);
    }
  }

  /** A stream cut anywhere after its frame's end still holds the frame. */
  lemma {:induction false} FrameWithin(stream: seq<Byte>, n: nat)
    requires FrameSpan(stream).Some? && FrameSpan(stream).value.end <= n <= |stream|
    ensures FrameSpan(stream[..n]) == FrameSpan(stream)
  {
    var s := stream[..n];
    var span := FrameSpan(stream).value;
    assert stream == s + stream[n..];
    FindWithin(s, stream[n..], SOI, 0);
    FindWithin(s, stream[n..], EOI, span.start + 3);
  }

  lemma {:induction false} FindWithin(s: seq<Byte>, more: seq<Byte>, marker: seq<Byte>, from: nat)
    requires Find(s + more, marker, from).Some? && Find(s + more, marker, from).value + |marker| <= |s|
    ensures Find(s, marker, from) == Find(s + more, marker, from)
  {
    AtExtends(s, more, marker, Find(s + more, marker, from).value);
    FindExtends(s, more, marker, from);
  }

  /** A stream without a frame yields none, whatever the pieces. */
  lemma {:induction false} FindsNoFrame(rs: seq<Recv>, maxBytes: int, n: nat)
    requires n <= |rs| && Frame(Received(rs)) == None
    ensures !ReadWhole(rs, maxBytes, n).0.Got?
    decreases |rs| - n
  {
    if n < |rs| {
      assert rs[..|rs|] == rs;
      EarlierHasNoFrame(rs, n + 1, |rs|);
      FindsNoFrame(rs, maxBytes, n + 1);
    }
  }

  /** The result does not depend on how the stream was cut: two deliveries of the same bytes give
      the same outcome whenever the frame, if there is one, ends within the byte cap. */
  lemma {:induction false} CutDoesNotMatter(rs: seq<Recv>, rs': seq<Recv>, maxBytes: int)
    requires Nonempty(rs) && Nonempty(rs') && Received(rs) == Received(rs')
    requires FrameSpan(Received(rs)).Some? ==> FrameSpan(Received(rs)).value.end <= maxBytes
    ensures ReadWhole(rs, maxBytes, 0).0 == ReadWhole(rs', maxBytes, 0).0
    ensures FrameSpan(Received(rs)).Some? ==> ReadWhole(rs, maxBytes, 0).0 == Got(Frame(Received(rs)).value)
  {
    assert rs[..0] == [] && rs'[..0] == [];
    if FrameSpan(Received(rs)).Some? {
      FindsTheFrame(rs, maxBytes, 0);
      FindsTheFrame(rs', maxBytes, 0);
    } else {
      FindsNoFrame(rs, maxBytes, 0);
      FindsNoFrame(rs', maxBytes, 0);
      NeverTimesOut(rs, maxBytes, 0);
      NeverTimesOut(rs', maxBytes, 0);
    }
  }

  lemma {:induction false} NeverTimesOut(rs: seq<Recv>, maxBytes: int, n: nat)
    requires n <= |rs| && Nonempty(rs)
    ensures ReadWhole(rs, maxBytes, n).0 != Timeout
    decreases |rs| - n
  {
    if n < |rs| {
      NeverTimesOut(rs, maxBytes, n + 1);
    }
  }

  /** The loop ends within the byte cap plus one piece. */
  lemma {:induction false} ReadIsBounded(rs: seq<Recv>, maxBytes: int, n: nat, piece: nat)
    requires n <= |rs| && |Received(rs[..n])| <= maxBytes + piece
    requires forall i :: 0 <= i < |rs| && rs[i].Data? ==> |rs[i].bytes| <= piece
    ensures n <= ReadWhole(rs, maxBytes, n).1 <= |rs|
    ensures |Received(rs[..ReadWhole(rs, maxBytes, n).1])| <= maxBytes + piece
    decreases |rs| - n
  {
    if |Received(rs[..n])| < maxBytes && n < |rs| {
      assert rs[..n + 1][..n] == rs[..n];
      ReadIsBounded(rs, maxBytes, n + 1, piece);
    }
  }
}
