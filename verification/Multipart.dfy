/** The multipart/form-data parser of the slicer upload: split the body at the delimiter, read each
    chunk's header, keep text fields and the one file. */
module Multipart {
  import opened Prelude
  import opened Bytes

  const CR: Byte := 13
  const LF: Byte := 10
  const QUOTE: Byte := 34
  const CRLF: seq<Byte> := [13, 10]
  const BLANK: seq<Byte> := [13, 10, 13, 10]
  const DASHES: seq<Byte> := [45, 45]
  /** `name="` */
  const NAME: seq<Byte> := [110, 97, 109, 101, 61, 34]
  /** `filename="` */
  const FILENAME: seq<Byte> := [102, 105, 108, 101, 110, 97, 109, 101, 61, 34]

  datatype FilePart = FilePart(filename: seq<Byte>, data: seq<Byte>)
  datatype Form = Form(fields: map<seq<Byte>, seq<Byte>>, file: Option<FilePart>)
  datatype MultipartError = EmptyBoundary

  /** What one chunk contributes. */
  datatype Part = Skipped | Field(name: seq<Byte>, value: seq<Byte>) | File(part: FilePart)

  // ---------------------------------------------------------------- the byte-string primitives

  ghost predicate Contains(s: seq<Byte>, marker: seq<Byte>) {
    exists i :: At(s, marker, i)
  }

  /** `bytes.split`: cut at the leftmost delimiter, and again in what follows it. */
  function Split(s: seq<Byte>, delim: seq<Byte>): (chunks: seq<seq<Byte>>)
    requires delim != []
    ensures chunks != []
    ensures forall c :: c in chunks ==> |c| <= |s|
    decreases |s|
  {
    match Find(s, delim, 0)
    case None => [s]
    case Some(i) => [s[..i]] + Split(s[i + |delim|..], delim)
  }

  predicate StartsWith(s: seq<Byte>, prefix: seq<Byte>) {
    prefix <= s
  }

  predicate EndsWith(s: seq<Byte>, suffix: seq<Byte>) {
    |suffix| <= |s| && s[|s| - |suffix|..] == suffix
  }

  function Lower(b: Byte): Byte {
    if 65 <= b <= 90 then b + 32 else b
  }

  function Fold(s: seq<Byte>): (r: seq<Byte>) {
    seq(|s|, i requires 0 <= i < |s| => Lower(s[i]))
  }

  /** The search for `prefix([^"]*)"` ignoring case: the text up to the next quote. */
  function Quoted(s: seq<Byte>, prefix: seq<Byte>, from: nat): Option<seq<Byte>>
    decreases |s| - from
  {
    match Find(Fold(s), prefix, from)
    case None => None
    case Some(i) =>
      match Find(s, [QUOTE], i + |prefix|) {
        case Some(j) => Some(s[i + |prefix|..j])
        case None => if i < |s| then Quoted(s, prefix, i + 1) else None
      }
  }

  // ---------------------------------------------------------------- the parser

  function ParseChunk(chunk: seq<Byte>): Part {
    if chunk == [] || chunk == DASHES + CRLF || chunk == DASHES || chunk == CRLF then Skipped
    else if StartsWith(chunk, DASHES) then Skipped
    else ReadPart(if StartsWith(chunk, CRLF) then chunk[2..] else chunk)
  }

  function ReadPart(part: seq<Byte>): Part {
    match Find(part, BLANK, 0)
    case None => Skipped
    case Some(i) =>
      var rest := part[i + 4..];
      Interpret(part[..i], if EndsWith(rest, CRLF) then rest[..|rest| - 2] else rest)
  }

  function Interpret(header: seq<Byte>, data: seq<Byte>): Part {
    match Quoted(header, NAME, 0)
    case None => Skipped
    case Some(name) =>
      match Quoted(header, FILENAME, 0) {
        case None => Field(name, data)
        case Some(filename) => if filename != [] then File(FilePart(filename, data)) else Field(name, data)
      }
  }

  function Absorb(form: Form, part: Part): Form {
    match part
    case Skipped => form
    case Field(name, value) => form.(fields := form.fields[name := value])
    case File(file) => form.(file := Some(file))
  }

  function AbsorbAll(form: Form, chunks: seq<seq<Byte>>): Form
    decreases |chunks|
  {
    if chunks == [] then form else AbsorbAll(Absorb(form, ParseChunk(chunks[0])), chunks[1..])
  }

  function Parse(body: seq<Byte>, boundary: seq<Byte>): Result<Form, MultipartError> {
    if boundary == [] then Err(EmptyBoundary)
    else Ok(AbsorbAll(Form(map[], None), Split(body, DASHES + boundary)))
  }

  /** `parse_multipart`, as the loop it is. */
  method ParseMultipart(body: seq<Byte>, boundary: seq<Byte>) returns (r: Result<Form, MultipartError>)
    ensures r == Parse(body, boundary)
  {
    if boundary == [] {
      return Err(EmptyBoundary);
    }
    var chunks := Split(body, DASHES + boundary);
    var fields: map<seq<Byte>, seq<Byte>> := map[];
    var file: Option<FilePart> := None;
    for k := 0 to |chunks|
      invariant AbsorbAll(Form(fields, file), chunks[k..]) == AbsorbAll(Form(map[], None), chunks)
    {
      assert chunks[k..][1..] == chunks[k + 1..];
      match ParseChunk(chunks[k]) {
        case Skipped =>
        case Field(name, value) => fields := fields[name := value];
        case File(part) => file := Some(part);
      }
    }
    assert chunks[|chunks|..] == [];
    r := Ok(Form(fields, file));
  }

  // ---------------------------------------------------------------- splitting

  function Join(chunks: seq<seq<Byte>>, delim: seq<Byte>): seq<Byte>
    requires chunks != []
  {
    if |chunks| == 1 then chunks[0] else chunks[0] + delim + Join(chunks[1..], delim)
  }

  /** Every byte under an occurrence of a marker is a byte of the marker. */
  lemma {:induction false} Covers(s: seq<Byte>, marker: seq<Byte>, i: int, k: int)
    requires At(s, marker, i) && i <= k < i + |marker|
    ensures s[k] in marker
  {
    assert s[i..i + |marker|][k - i] == s[k];
  }

  lemma {:induction false} SplitCut(s: seq<Byte>, delim: seq<Byte>, i: nat)
    requires delim != [] && Find(s, delim, 0) == Some(i)
    ensures i + |delim| <= |s|
    ensures s == s[..i] + delim + s[i + |delim|..]
    ensures !Contains(s[..i], delim)
  {
    assert s[i..i + |delim|] == delim;
    forall j ensures !At(s[..i], delim, j) {
      AtExtends(s[..i], s[i..], delim, j);
      assert s[..i] + s[i..] == s;
    }
  }

  /** Splitting loses nothing, and no chunk holds the delimiter. */
  lemma {:induction false} SplitIsExact(s: seq<Byte>, delim: seq<Byte>)
    requires delim != []
    ensures Join(Split(s, delim), delim) == s
    ensures forall k :: 0 <= k < |Split(s, delim)| ==> !Contains(Split(s, delim)[k], delim)
    decreases |s|
  {
    hide Find, Contains;
    match Find(s, delim, 0)
    case None =>
      SplitClean(s, delim);
    case Some(i) =>
      SplitCut(s, delim, i);
      var rest := s[i + |delim|..];
      SplitIsExact(rest, delim);
      assert Split(s, delim) == [s[..i]] + Split(rest, delim);
      assert Split(s, delim)[1..] == Split(rest, delim);
  }

  lemma {:induction false} SplitClean(s: seq<Byte>, delim: seq<Byte>)
    requires delim != []
    ensures Find(s, delim, 0).None? <==> !Contains(s, delim)
    ensures !Contains(s, delim) ==> Split(s, delim) == [s]
  {
    if Contains(s, delim) {
      var i :| At(s, delim, i);
      assert Find(s, delim, 0).Some?;
    }
  }

  /** A delimiter without a line feed cannot straddle the end of a line. */
  lemma {:induction false} NoStraddle(x: seq<Byte>, t: seq<Byte>, delim: seq<Byte>, i: int)
    requires x != [] && x[|x| - 1] == LF && LF !in delim
    requires At(x + t, delim, i) && i < |x|
    ensures i + |delim| <= |x| && At(x, delim, i)
  {
    if i + |delim| > |x| {
      Covers(x + t, delim, i, |x| - 1);
    }
    AtExtends(x, t, delim, i);
  }

  /** The first delimiter of a text ending in a line feed, when the delimiter follows the text. */
  lemma {:induction false} FirstCut(x: seq<Byte>, t: seq<Byte>, delim: seq<Byte>)
    requires delim != [] && LF !in delim && EndsLine(x)
    ensures Find(x + delim + t, delim, 0) == if Find(x, delim, 0).Some? then Find(x, delim, 0) else Some(|x|)
  {
    var s := x + delim + t;
    assert s == x + (delim + t);
    assert s[|x|..|x| + |delim|] == delim;
    assert At(s, delim, |x|);
    var first := Find(s, delim, 0).value;
    if Find(x, delim, 0).Some? {
      FindExtends(x, delim + t, delim, 0);
    } else if first < |x| {
      NoStraddle(x, delim + t, delim, first);
    }
  }

  lemma {:induction false} SplitStep(s: seq<Byte>, delim: seq<Byte>, i: nat)
    requires delim != [] && Find(s, delim, 0) == Some(i)
    ensures i + |delim| <= |s|
    ensures Split(s, delim) == [s[..i]] + Split(s[i + |delim|..], delim)
  {
    hide Find;
  }

  lemma {:induction false} CutInside<T>(x: seq<T>, m: seq<T>, t: seq<T>, k: nat)
    requires k <= |x|
    ensures (x + m + t)[k..] == x[k..] + m + t && (x + m + t)[..k] == x[..k]
  {
  }

  predicate EndsLine(x: seq<Byte>) {
    x == [] || x[|x| - 1] == LF
  }

  lemma {:induction false} EndsLineTail(x: seq<Byte>, k: nat)
    requires EndsLine(x) && k <= |x|
    ensures EndsLine(x[k..])
  {
  }

  /** One cut inside `x`, given that the rest distributes. */
  lemma {:induction false} SplitJoinsAt(x: seq<Byte>, t: seq<Byte>, delim: seq<Byte>, i: nat)
    requires delim != [] && LF !in delim && EndsLine(x)
    requires Find(x, delim, 0) == Some(i) && i + |delim| <= |x|
    requires Split(x[i + |delim|..] + delim + t, delim) == Split(x[i + |delim|..], delim) + Split(t, delim)
    ensures Split(x + delim + t, delim) == Split(x, delim) + Split(t, delim)
  {
    hide Find, Split, EndsLine;
    FirstCut(x, t, delim);
    SplitStep(x, delim, i);
    SplitStep(x + delim + t, delim, i);
    CutInside(x, delim, t, i + |delim|);
    CutInside(x, delim, t, i);
    Regroup([x[..i]], Split(x[i + |delim|..], delim), Split(t, delim));
  }

  lemma {:induction false} SplitJoinsWhole(x: seq<Byte>, t: seq<Byte>, delim: seq<Byte>)
    requires delim != [] && LF !in delim && EndsLine(x) && Find(x, delim, 0) == None
    ensures Split(x + delim + t, delim) == Split(x, delim) + Split(t, delim)
  {
    hide Find, Split, Contains, EndsLine;
    FirstCut(x, t, delim);
    SplitClean(x, delim);
    SplitStep(x + delim + t, delim, |x|);
    assert (x + delim + t)[..|x|] == x && (x + delim + t)[|x| + |delim|..] == t;
  }

  /** Splitting distributes over a delimiter that follows a line feed. */
  lemma {:induction false} SplitJoins(x: seq<Byte>, t: seq<Byte>, delim: seq<Byte>)
    requires delim != [] && LF !in delim && EndsLine(x)
    ensures Split(x + delim + t, delim) == Split(x, delim) + Split(t, delim)
    decreases |x|
  {
    hide Find, Split, EndsLine;
    match Find(x, delim, 0)
    case None => SplitJoinsWhole(x, t, delim);
    case Some(i) =>
      SplitStep(x, delim, i);
      EndsLineTail(x, i + |delim|);
      SplitJoins(x[i + |delim|..], t, delim);
      SplitJoinsAt(x, t, delim, i);
  }

  // ---------------------------------------------------------------- one written part

  function Chunk(header: seq<Byte>, value: seq<Byte>): seq<Byte> {
    CRLF + header + BLANK + value + CRLF
  }

  /** A header the parser reads back whole: no blank line inside, and not ending in a line break. */
  ghost predicate Header(h: seq<Byte>) {
    h != [] && h[|h| - 1] !in CRLF && !Contains(h, BLANK)
  }

  lemma {:induction false} BlankIsFound(h: seq<Byte>, rest: seq<Byte>)
    requires Header(h)
    ensures Find(h + BLANK + rest, BLANK, 0) == Some(|h|)
  {
    var s := h + BLANK + rest;
    assert At(s, BLANK, |h|);
    var i := Find(s, BLANK, 0).value;
    if i < |h| {
      assert s == h + (BLANK + rest);
      AtExtends(h, BLANK + rest, BLANK, i);
      Covers(s, BLANK, i, |h| - 1);
    }
  }

  lemma {:induction false} ChunkShape(h: seq<Byte>, v: seq<Byte>)
    ensures |Chunk(h, v)| > 4 && Chunk(h, v)[0] == CR && StartsWith(Chunk(h, v), CRLF)
    ensures Chunk(h, v)[2..] == h + BLANK + (v + CRLF)
  {
  }

  lemma {:induction false} AfterBlank(h: seq<Byte>, v: seq<Byte>)
    ensures var part := h + BLANK + (v + CRLF);
            part[|h| + 4..] == v + CRLF && part[..|h|] == h
    ensures EndsWith(v + CRLF, CRLF) && (v + CRLF)[..|v|] == v
  {
  }

  /** The parser recovers header and value of a written chunk, whatever bytes the value holds. */
  lemma {:induction false} ChunkIsRead(h: seq<Byte>, v: seq<Byte>)
    requires Header(h)
    ensures ParseChunk(Chunk(h, v)) == Interpret(h, v)
  {
    hide Interpret, Find, Chunk, StartsWith, EndsWith, Header;
    ChunkShape(h, v);
    BlankIsFound(h, v + CRLF);
    AfterBlank(h, v);
    assert Chunk(h, v)[0] != DASHES[0];
    NotDashes(Chunk(h, v));
  }

  lemma {:induction false} NotDashes(c: seq<Byte>)
    requires c != [] && c[0] == CR
    ensures !StartsWith(c, DASHES)
  {
  }

  /** An occurrence of the delimiter in two texts kept apart by bytes it does not hold lies in one of them. */
  lemma {:induction false} Apart(a: seq<Byte>, m: seq<Byte>, b: seq<Byte>, delim: seq<Byte>, i: int)
    requires delim != [] && m != [] && forall x :: x in m ==> x !in delim
    requires At(a + m + b, delim, i)
    ensures At(a, delim, i) || At(b, delim, i - |a| - |m|)
  {
    var s := a + m + b;
    if i + |delim| <= |a| {
      assert s == a + (m + b);
      AtExtends(a, m + b, delim, i);
    } else if i < |a| {
      Covers(s, delim, i, |a|);
    } else if i < |a| + |m| {
      assert s[i] == m[i - |a|];
      Covers(s, delim, i, i);
    } else {
      AtShifts(s, |a| + |m|, delim, i - |a| - |m|);
      assert s[|a| + |m|..] == b;
    }
  }

  predicate Delimits(delim: seq<Byte>) {
    |delim| > 2 && CR !in delim && LF !in delim
  }

  lemma {:induction false} ChunkIsClean(h: seq<Byte>, v: seq<Byte>, delim: seq<Byte>)
    requires Delimits(delim)
    requires !Contains(h, delim) && !Contains(v, delim)
    ensures !Contains(Chunk(h, v), delim)
  {
    forall i | At(Chunk(h, v), delim, i) ensures false {
      assert Chunk(h, v) == CRLF + h + BLANK + (v + CRLF + []);
      Apart(CRLF + h, BLANK, v + CRLF + [], delim, i);
      if At(CRLF + h, delim, i) {
        assert CRLF + h == [] + CRLF + h;
        Apart([], CRLF, h, delim, i);
      } else {
        Apart(v, CRLF, [], delim, i - |CRLF + h| - 4);
      }
    }
  }
}
