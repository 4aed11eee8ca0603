/** What the multipart parser makes of a body written the way the slicer writes it. */
module MultipartLaws {
  import opened Prelude
  import opened Bytes
  import opened Multipart

  /** `Content-Disposition: form-data; ` */
  const DISPOSITION: seq<Byte> := [67, 111, 110, 116, 101, 110, 116, 45, 68, 105, 115, 112, 111, 115, 105, 116, 105, 111, 110, 58, 32,
                                   102, 111, 114, 109, 45, 100, 97, 116, 97, 59, 32]
  /** `file` */
  const FILE: seq<Byte> := [102, 105, 108, 101]
  const SEPARATOR: seq<Byte> := [59, 32]
  /** `Content-Type: application/octet-stream` */
  const OCTETS: seq<Byte> := [67, 111, 110, 116, 101, 110, 116, 45, 84, 121, 112, 101, 58, 32, 97, 112, 112, 108, 105, 99, 97, 116, 105,
                              111, 110, 47, 111, 99, 116, 101, 116, 45, 115, 116, 114, 101, 97, 109]

  // ---------------------------------------------------------------- the writer

  function FieldHeader(name: seq<Byte>): seq<Byte> {
    DISPOSITION + NAME + name + [QUOTE]
  }

  function FileHeader(filename: seq<Byte>): seq<Byte> {
    DISPOSITION + NAME + FILE + [QUOTE] + SEPARATOR + FILENAME + filename + [QUOTE] + CRLF + OCTETS
  }

  function WriteFields(fields: seq<(seq<Byte>, seq<Byte>)>, delim: seq<Byte>, tail: seq<Byte>): seq<Byte> {
    if fields == [] then tail
    else delim + Chunk(FieldHeader(fields[0].0), fields[0].1) + WriteFields(fields[1..], delim, tail)
  }

  /** The body: every field, then the file, then the closing delimiter. */
  function Write(fields: seq<(seq<Byte>, seq<Byte>)>, filename: seq<Byte>, payload: seq<Byte>, boundary: seq<Byte>): seq<Byte> {
    var delim := DASHES + boundary;
    WriteFields(fields, delim, delim + Chunk(FileHeader(filename), payload) + delim + (DASHES + CRLF))
  }

  /** The dictionary a list of fields makes: a later field replaces an earlier one of its name. */
  function Collect(fields: seq<(seq<Byte>, seq<Byte>)>, into: map<seq<Byte>, seq<Byte>>): map<seq<Byte>, seq<Byte>>
    decreases |fields|
  {
    if fields == [] then into else Collect(fields[1..], into[fields[0].0 := fields[0].1])
  }

  // ---------------------------------------------------------------- what the writer must be given

  /** A boundary of RFC 2046, section 5.1.1, is not empty and holds no line break. */
  predicate Boundary(boundary: seq<Byte>) {
    boundary != [] && CR !in boundary && LF !in boundary
  }

  /** A name that fits between quotes in a header. */
  ghost predicate Name(name: seq<Byte>) {
    QUOTE !in name && CR !in name
  }

  ghost predicate Writable(fields: seq<(seq<Byte>, seq<Byte>)>, delim: seq<Byte>) {
    forall f :: f in fields ==> Name(f.0) && !Contains(FieldHeader(f.0), delim) && !Contains(f.1, delim)
  }

  // ---------------------------------------------------------------- headers are read back

  lemma {:induction false} PrefixIsFound(a: seq<Byte>, written: seq<Byte>, prefix: seq<Byte>, rest: seq<Byte>)
    requires |written| == |prefix| && Fold(written) == prefix
    requires forall i :: 0 <= i < |a| ==> !At(Fold(a + written + rest), prefix, i)
    ensures Find(Fold(a + written + rest), prefix, 0) == Some(|a|)
  {
    var s := a + written + rest;
    assert Fold(s)[|a|..|a| + |prefix|] == prefix by {
      forall k | 0 <= k < |prefix| ensures Fold(s)[|a| + k] == prefix[k] {
        assert s[|a| + k] == written[k];
        assert Fold(written)[k] == prefix[k];
      }
    }
    assert At(Fold(s), prefix, |a|);
  }

  lemma {:induction false} QuoteIsFound(b: seq<Byte>, value: seq<Byte>, rest: seq<Byte>)
    requires QUOTE !in value
    ensures Find(b + value + [QUOTE] + rest, [QUOTE], |b|) == Some(|b| + |value|)
  {
    var s := b + value + [QUOTE] + rest;
    var stop := |b| + |value|;
    assert s[stop..stop + 1] == [QUOTE];
    assert At(s, [QUOTE], stop);
    var j := Find(s, [QUOTE], |b|).value;
    if j < stop {
      assert s[j] == value[j - |b|];
      Covers(s, [QUOTE], j, j);
    }
  }

  /** The quoted text after a prefix ending in a quote, when the text before it has no earlier match. */
  lemma {:induction false} QuotedIsFound(a: seq<Byte>, written: seq<Byte>, prefix: seq<Byte>, value: seq<Byte>, rest: seq<Byte>)
    requires |written| == |prefix| && Fold(written) == prefix
    requires QUOTE !in value
    requires forall i :: 0 <= i < |a| ==> !At(Fold(a + written + value + [QUOTE] + rest), prefix, i)
    ensures Quoted(a + written + value + [QUOTE] + rest, prefix, 0) == Some(value)
  {
    hide Find, Fold, At;
    var s := a + written + value + [QUOTE] + rest;
    assert s == a + written + (value + [QUOTE] + rest);
    PrefixIsFound(a, written, prefix, value + [QUOTE] + rest);
    QuoteIsFound(a + written, value, rest);
    assert s[|a + written|..|a + written| + |value|] == value;
  }

  /** Where a prefix ending in a quote matches, a quote stands under its end and its other bytes before it. */
  lemma {:induction false} MatchEnds(s: seq<Byte>, prefix: seq<Byte>, i: int)
    requires prefix != [] && prefix[|prefix| - 1] == QUOTE && At(Fold(s), prefix, i)
    ensures i + |prefix| <= |s| && s[i + |prefix| - 1] == QUOTE
    ensures forall k :: i <= k < i + |prefix| ==> Lower(s[k]) == prefix[k - i]
  {
    forall k | i <= k < i + |prefix| ensures Lower(s[k]) == prefix[k - i] {
      assert Fold(s)[i..i + |prefix|][k - i] == Fold(s)[k];
    }
  }

  lemma {:induction false} DispositionFacts()
    ensures QUOTE !in DISPOSITION && |DISPOSITION| == 32 && DISPOSITION[31] == 32
    ensures CR !in DISPOSITION && LF !in DISPOSITION
  {
  }

  lemma {:induction false} OctetsFacts()
    ensures QUOTE !in OCTETS && |OCTETS| == 38 && CR !in OCTETS && LF !in OCTETS
  {
  }

  /** Where the quotes of a written header are, up to the one that opens the name. */
  lemma {:induction false} FirstQuote(rest: seq<Byte>)
    ensures var s := DISPOSITION + NAME + rest;
            s[37] == QUOTE && s[31] == 32 && forall q :: 0 <= q < 37 ==> s[q] != QUOTE
  {
    DispositionFacts();
    var s := DISPOSITION + NAME + rest;
    forall q | 0 <= q < 37 ensures s[q] != QUOTE {
      if q < 32 {
        assert s[q] == DISPOSITION[q];
      } else {
        assert s[q] == NAME[q - 32];
      }
    }
  }

  /** No quoted text can start before the name in a written header. */
  lemma {:induction false} NameIsRead(name: seq<Byte>, rest: seq<Byte>)
    requires QUOTE !in name
    ensures Quoted(DISPOSITION + NAME + name + [QUOTE] + rest, NAME, 0) == Some(name)
  {
    hide Find, Quoted, DISPOSITION;
    var s := DISPOSITION + NAME + name + [QUOTE] + rest;
    DispositionFacts();
    FirstQuote(name + [QUOTE] + rest);
    assert s == DISPOSITION + NAME + (name + [QUOTE] + rest);
    forall i | 0 <= i < 32 ensures !At(Fold(s), NAME, i) {
      if At(Fold(s), NAME, i) {
        MatchEnds(s, NAME, i);
      }
    }
    assert Fold(NAME) == NAME;
    QuotedIsFound(DISPOSITION, NAME, NAME, name, rest);
  }

  /** `filename="` cannot end at the quote that opens the name: the byte before `name` is a space. */
  lemma {:induction false} NotTheNameQuote(rest: seq<Byte>, i: int)
    ensures !At(Fold(DISPOSITION + NAME + rest), FILENAME, i) || i + 9 > 37
  {
    hide Find, DISPOSITION, Fold;
    var s := DISPOSITION + NAME + rest;
    DispositionFacts();
    FirstQuote(rest);
    if At(Fold(s), FILENAME, i) {
      MatchEnds(s, FILENAME, i);
      assert i <= 31 <= i + 9 ==> Lower(s[31]) == FILENAME[31 - i];
    }
  }

  /** A field's header has no file name: the only quote a match could end at closes the header. */
  lemma {:induction false} FieldHasNoFilename(name: seq<Byte>, from: nat)
    requires QUOTE !in name
    ensures Quoted(FieldHeader(name), FILENAME, from) == None
    decreases |name| + 39 - from
  {
    hide Fold, DISPOSITION;
    var h := FieldHeader(name);
    DispositionFacts();
    match Find(Fold(h), FILENAME, from)
    case None =>
    case Some(i) =>
      assert h == DISPOSITION + NAME + (name + [QUOTE]);
      NotTheNameQuote(name + [QUOTE], i);
      assert forall q :: 38 <= q < |h| - 1 ==> h[q] == name[q - 38];
      MatchEnds(h, FILENAME, i);
      FieldHasNoFilename(name, i + 1);
  }

  /** Where the quotes of the file's header are, up to the one that opens the file name. */
  lemma {:induction false} FileQuotes(rest: seq<Byte>)
    ensures var s := DISPOSITION + NAME + FILE + [QUOTE] + SEPARATOR + FILENAME + rest;
            s[41] == 101 && forall q :: 38 <= q < 54 && q != 42 ==> s[q] != QUOTE
  {
    hide DISPOSITION;
    DispositionFacts();
    var s := DISPOSITION + NAME + FILE + [QUOTE] + SEPARATOR + FILENAME + rest;
    forall q | 45 <= q < 54 ensures s[q] != QUOTE {
      assert s[q] == FILENAME[q - 45];
    }
    assert s[38] == FILE[0] && s[39] == FILE[1] && s[40] == FILE[2] && s[41] == FILE[3];
    assert s[43] == SEPARATOR[0] && s[44] == SEPARATOR[1];
  }

  /** The file's header gives the file name. */
  lemma {:induction false} FilenameIsRead(filename: seq<Byte>)
    requires QUOTE !in filename
    ensures Quoted(FileHeader(filename), FILENAME, 0) == Some(filename)
  {
    hide Find, Quoted, DISPOSITION, OCTETS, Fold;
    DispositionFacts();
    var a := DISPOSITION + NAME + FILE + [QUOTE] + SEPARATOR;
    var s := a + FILENAME + filename + [QUOTE] + (CRLF + OCTETS);
    assert s == FileHeader(filename);
    assert |a| == 45;
    assert s == a + FILENAME + (filename + [QUOTE] + CRLF + OCTETS);
    FileQuotes(filename + [QUOTE] + CRLF + OCTETS);
    var t := FILE + [QUOTE] + SEPARATOR + FILENAME + filename + [QUOTE] + (CRLF + OCTETS);
    assert s == DISPOSITION + NAME + t;
    forall i | 0 <= i < 45 ensures !At(Fold(s), FILENAME, i) {
      if At(Fold(s), FILENAME, i) {
        NotTheNameQuote(t, i);
        MatchEnds(s, FILENAME, i);
      }
    }
    FoldedFilename();
    QuotedIsFound(a, FILENAME, FILENAME, filename, CRLF + OCTETS);
  }

  lemma {:induction false} FoldedFilename()
    ensures Fold(FILENAME) == FILENAME
  {
  }

  /** A written field is read as that field. */
  lemma {:induction false} FieldIsRead(name: seq<Byte>, value: seq<Byte>)
    requires QUOTE !in name
    ensures Interpret(FieldHeader(name), value) == Field(name, value)
  {
    hide Find, Quoted, Fold, DISPOSITION, NAME, FILENAME, OCTETS;
    NameIsRead(name, []);
    assert DISPOSITION + NAME + name + [QUOTE] + [] == FieldHeader(name);
    FieldHasNoFilename(name, 0);
  }

  /** A written file is read as that file; a file without a name is read as a text field. */
  lemma {:induction false} FileIsRead(filename: seq<Byte>, payload: seq<Byte>)
    requires QUOTE !in filename
    ensures Interpret(FileHeader(filename), payload)
         == if filename != [] then File(FilePart(filename, payload)) else Field(FILE, payload)
  {
    hide Find, Quoted, Fold, DISPOSITION, NAME, FILENAME, OCTETS;
    var rest := SEPARATOR + FILENAME + filename + [QUOTE] + CRLF + OCTETS;
    NameIsRead(FILE, rest);
    assert DISPOSITION + NAME + FILE + [QUOTE] + rest == FileHeader(filename);
    FilenameIsRead(filename);
  }

  // ---------------------------------------------------------------- headers hold no blank line

  lemma {:induction false} BlankShows(h: seq<Byte>, i: int)
    requires At(h, BLANK, i)
    ensures i + 4 <= |h| && h[i] == CR && h[i + 2] == CR
  {
    assert h[i..i + 4][0] == 13 && h[i..i + 4][2] == 13;
  }

  lemma {:induction false} FieldHeaderIsWhole(name: seq<Byte>)
    requires Name(name)
    ensures Header(FieldHeader(name))
  {
    hide Find, DISPOSITION;
    DispositionFacts();
    var h := FieldHeader(name);
    assert CR !in NAME;
    assert CR !in h;
    forall i ensures !At(h, BLANK, i) {
      if At(h, BLANK, i) {
        BlankShows(h, i);
      }
    }
  }

  lemma {:induction false} FileHeaderIsWhole(filename: seq<Byte>)
    requires Name(filename)
    ensures Header(FileHeader(filename))
  {
    hide Find, DISPOSITION, OCTETS;
    DispositionFacts();
    OctetsFacts();
    var front := DISPOSITION + NAME + FILE + [QUOTE] + SEPARATOR + FILENAME + filename + [QUOTE];
    var h := FileHeader(filename);
    assert h == front + (CRLF + OCTETS);
    assert CR !in NAME && CR !in FILENAME && CR !in FILE;
    assert CR !in front;
    assert forall k :: 0 <= k < |front| ==> h[k] == front[k];
    assert forall k :: |front| + 2 <= k < |h| ==> h[k] == OCTETS[k - |front| - 2];
    forall i ensures !At(h, BLANK, i) {
      if At(h, BLANK, i) {
        BlankShows(h, i);
      }
    }
  }

  // ---------------------------------------------------------------- the body is cut into what was written

  function Chunks(fields: seq<(seq<Byte>, seq<Byte>)>): seq<seq<Byte>> {
    if fields == [] then [] else [Chunk(FieldHeader(fields[0].0), fields[0].1)] + Chunks(fields[1..])
  }

  lemma {:induction false} ChunkEndsLine(h: seq<Byte>, v: seq<Byte>)
    ensures EndsLine(Chunk(h, v))
  {
  }

  lemma {:induction false} Regrouped<T>(a: seq<T>, b: seq<T>, c: seq<T>, d: seq<T>)
    ensures a + (b + c + d) == a + b + (c + d)
    ensures a + b + c + d == a + (b + c + d)
  {
  }

  lemma {:induction false} EmptyIsClean(delim: seq<Byte>)
    requires delim != []
    ensures !Contains([], delim)
  {
  }

  lemma {:induction false} WritableTail(fields: seq<(seq<Byte>, seq<Byte>)>, delim: seq<Byte>)
    requires fields != [] && Writable(fields, delim)
    ensures Writable(fields[1..], delim)
    ensures Name(fields[0].0) && !Contains(FieldHeader(fields[0].0), delim) && !Contains(fields[0].1, delim)
  {
    hide Contains, FieldHeader;
    assert fields[0] in fields;
  }

  /** Splitting a written body gives the preamble, the written chunks, and the pieces of the rest. */
  lemma {:induction false} SplitFields(before: seq<Byte>, fields: seq<(seq<Byte>, seq<Byte>)>, delim: seq<Byte>, tail: seq<Byte>)
    requires Delimits(delim) && Writable(fields, delim)
    requires EndsLine(before)
    requires !Contains(before, delim)
    ensures Split(before + WriteFields(fields, delim, delim + tail), delim) == [before] + Chunks(fields) + Split(tail, delim)
    decreases |fields|
  {
    hide Contains, Find, Split, Chunk, FieldHeader, Writable;
    SplitClean(before, delim);
    if fields == [] {
      assert before + (delim + tail) == before + delim + tail;
      SplitJoins(before, tail, delim);
    } else {
      WritableTail(fields, delim);
      var c := Chunk(FieldHeader(fields[0].0), fields[0].1);
      ChunkIsClean(FieldHeader(fields[0].0), fields[0].1, delim);
      ChunkEndsLine(FieldHeader(fields[0].0), fields[0].1);
      SplitFields(c, fields[1..], delim, tail);
      var more := WriteFields(fields[1..], delim, delim + tail);
      Regrouped(before, delim, c, more);
      SplitJoins(before, c + more, delim);
      Regrouped([before], [c], Chunks(fields[1..]), Split(tail, delim));
    }
  }

  /** The closing delimiter's tail is too short to hold the delimiter. */
  lemma {:induction false} ClosingIsClean(delim: seq<Byte>)
    requires Delimits(delim)
    ensures !Contains(DASHES + CRLF, delim)
  {
    forall i ensures !At(DASHES + CRLF, delim, i) {
      if At(DASHES + CRLF, delim, i) {
        Covers(DASHES + CRLF, delim, i, 2);
      }
    }
  }

  /** The chunks of a whole written body. */
  lemma {:induction false} SplitWritten(fields: seq<(seq<Byte>, seq<Byte>)>, filename: seq<Byte>, payload: seq<Byte>, boundary: seq<Byte>)
    requires Boundary(boundary) && Writable(fields, DASHES + boundary)
    ensures Split(Write(fields, filename, payload, boundary), DASHES + boundary)
         == [[]] + Chunks(fields) + (Split(Chunk(FileHeader(filename), payload), DASHES + boundary) + [DASHES + CRLF])
  {
    hide Contains, Find, Split, Chunk, FileHeader, WriteFields, Writable, Chunks;
    var delim := DASHES + boundary;
    var c := Chunk(FileHeader(filename), payload);
    var tail := c + delim + (DASHES + CRLF);
    Regrouped(delim, c, delim, DASHES + CRLF);
    assert Write(fields, filename, payload, boundary) == [] + WriteFields(fields, delim, delim + tail);
    EmptyIsClean(delim);
    SplitFields([], fields, delim, tail);
    ChunkEndsLine(FileHeader(filename), payload);
    SplitJoins(c, DASHES + CRLF, delim);
    ClosingIsClean(delim);
    SplitClean(DASHES + CRLF, delim);
  }

  // ---------------------------------------------------------------- round trip

  lemma {:induction false} FieldChunkIsRead(name: seq<Byte>, value: seq<Byte>)
    requires Name(name)
    ensures ParseChunk(Chunk(FieldHeader(name), value)) == Field(name, value)
  {
    hide FieldHeader, Chunk, ParseChunk, Interpret;
    FieldHeaderIsWhole(name);
    ChunkIsRead(FieldHeader(name), value);
    FieldIsRead(name, value);
  }

  lemma {:induction false} AbsorbFields(fields: seq<(seq<Byte>, seq<Byte>)>, form: Form, more: seq<seq<Byte>>, delim: seq<Byte>)
    requires Writable(fields, delim)
    ensures AbsorbAll(form, Chunks(fields) + more) == AbsorbAll(Form(Collect(fields, form.fields), form.file), more)
    decreases |fields|
  {
    hide Contains, FieldHeader, Chunk, ParseChunk, Writable, Name;
    if fields == [] {
      assert Chunks(fields) + more == more;
    } else {
      WritableTail(fields, delim);
      var name, value := fields[0].0, fields[0].1;
      FieldChunkIsRead(name, value);
      var chunks := Chunks(fields) + more;
      assert chunks[0] == Chunk(FieldHeader(name), value);
      assert chunks[1..] == Chunks(fields[1..]) + more;
      AbsorbFields(fields[1..], Absorb(form, Field(name, value)), more, delim);
    }
  }

  /** Parsing a written body comes down to absorbing the pieces of the file's chunk. */
  lemma {:induction false} ParseWritten(fields: seq<(seq<Byte>, seq<Byte>)>, filename: seq<Byte>, payload: seq<Byte>, boundary: seq<Byte>)
    requires Boundary(boundary) && Writable(fields, DASHES + boundary)
    ensures Parse(Write(fields, filename, payload, boundary), boundary)
         == Ok(AbsorbAll(Form(Collect(fields, map[]), None), Split(Chunk(FileHeader(filename), payload), DASHES + boundary) + [DASHES + CRLF]))
  {
    hide Contains, Split, Chunk, FileHeader, Writable, Chunks, Write, Collect;
    var delim := DASHES + boundary;
    SplitWritten(fields, filename, payload, boundary);
    var pieces := Split(Chunk(FileHeader(filename), payload), delim) + [DASHES + CRLF];
    var all := [[]] + Chunks(fields) + pieces;
    assert all[1..] == Chunks(fields) + pieces;
    AbsorbFields(fields, Form(map[], None), pieces, delim);
  }

  lemma {:induction false} AbsorbTwo(form: Form, a: seq<Byte>, b: seq<Byte>)
    ensures AbsorbAll(form, [a] + [b]) == Absorb(Absorb(form, ParseChunk(a)), ParseChunk(b))
  {
    hide ParseChunk, Absorb;
    var both := [a] + [b];
    assert both[0] == a && both[1..] == [b];
    var last := [b];
    assert last[0] == b && last[1..] == [];
    var once := Absorb(form, ParseChunk(a));
    assert AbsorbAll(form, both) == AbsorbAll(once, last);
    assert AbsorbAll(once, last) == AbsorbAll(Absorb(once, ParseChunk(b)), last[1..]);
  }

  /** Parsing what was written returns the fields and the file, byte for byte, for every payload that does
      not hold the delimiter. A file written without a name comes back as a text field. */
  lemma {:induction false} ParseInvertsWrite(fields: seq<(seq<Byte>, seq<Byte>)>, filename: seq<Byte>, payload: seq<Byte>, boundary: seq<Byte>)
    requires Boundary(boundary) && Writable(fields, DASHES + boundary)
    requires Name(filename) && !Contains(FileHeader(filename), DASHES + boundary)
    requires !Contains(payload, DASHES + boundary)
    ensures Parse(Write(fields, filename, payload, boundary), boundary)
         == Ok(if filename != [] then Form(Collect(fields, map[]), Some(FilePart(filename, payload)))
               else Form(Collect(fields, map[])[FILE := payload], None))
  {
    hide Contains, Split, Chunk, FileHeader, Writable, Chunks, Write, Collect, Parse, Interpret;
    var delim := DASHES + boundary;
    var header := FileHeader(filename);
    ParseWritten(fields, filename, payload, boundary);
    ChunkIsClean(header, payload, delim);
    SplitClean(Chunk(header, payload), delim);
    FileHeaderIsWhole(filename);
    ChunkIsRead(header, payload);
    FileIsRead(filename, payload);
    AbsorbTwo(Form(Collect(fields, map[]), None), Chunk(header, payload), DASHES + CRLF);
  }

  // ---------------------------------------------------------------- a payload that holds the delimiter

  ghost predicate ShortFile(part: Part, n: int) {
    part.File? ==> |part.part.data| < n
  }

  /** A chunk's file is at least a blank line shorter than the chunk. */
  lemma {:induction false} FileIsShorter(chunk: seq<Byte>)
    ensures ShortFile(ParseChunk(chunk), |chunk| - 3)
  {
  }

  /** What follows a whole header bounds the file. */
  lemma {:induction false} PieceIsShorter(h: seq<Byte>, rest: seq<Byte>)
    requires Header(h)
    ensures ShortFile(ParseChunk(CRLF + h + BLANK + rest), |rest| + 1)
  {
    hide Find;
    var c := CRLF + h + BLANK + rest;
    var part := h + BLANK + rest;
    assert c[0] == 13 && |c| > 4;
    assert c[2..] == part;
    BlankIsFound(h, rest);
    assert part[|h| + 4..] == rest;
  }

  lemma {:induction false} OnlyShortFiles(form: Form, chunks: seq<seq<Byte>>, n: nat)
    requires form.file.Some? ==> |form.file.value.data| < n
    requires forall c :: c in chunks ==> ShortFile(ParseChunk(c), n)
    ensures AbsorbAll(form, chunks).file.Some? ==> |AbsorbAll(form, chunks).file.value.data| < n
    decreases |chunks|
  {
    hide ParseChunk;
    if chunks != [] {
      assert chunks[0] in chunks;
      OnlyShortFiles(Absorb(form, ParseChunk(chunks[0])), chunks[1..], n);
    }
  }

  /** The first delimiter in the file's chunk is the first one in the payload. */
  lemma {:induction false} CutInPayload(h: seq<Byte>, payload: seq<Byte>, delim: seq<Byte>, i: nat)
    requires Delimits(delim) && !Contains(h, delim)
    requires Find(payload, delim, 0) == Some(i)
    ensures Find(Chunk(h, payload), delim, 0) == Some(|h| + 6 + i)
  {
    hide Find, Contains;
    var front := CRLF + h + BLANK;
    var c := front + (payload + CRLF);
    assert c == Chunk(h, payload);
    forall j | 0 <= j < |front| ensures !At(c, delim, j) {
      if At(c, delim, j) {
        NotInFront(h, payload + CRLF, delim, j);
      }
    }
    FindShifts(c, |front|, delim, 0);
    assert c[|front|..] == payload + CRLF;
    FindExtends(payload, CRLF, delim, 0);
  }

  lemma {:induction false} NotInFront(h: seq<Byte>, rest: seq<Byte>, delim: seq<Byte>, j: int)
    requires Delimits(delim) && !Contains(h, delim)
    requires At(CRLF + h + BLANK + rest, delim, j)
    ensures j >= |h| + 6
  {
    Apart(CRLF + h, BLANK, rest, delim, j);
    if At(CRLF + h, delim, j) {
      assert CRLF + h == [] + CRLF + h;
      Apart([], CRLF, h, delim, j);
    }
  }

  /** The file comes back byte for byte exactly when the payload does not hold the delimiter. */
  lemma {:induction false} FileIsExact(fields: seq<(seq<Byte>, seq<Byte>)>, filename: seq<Byte>, payload: seq<Byte>, boundary: seq<Byte>)
    requires Boundary(boundary) && Writable(fields, DASHES + boundary)
    requires Name(filename) && filename != [] && !Contains(FileHeader(filename), DASHES + boundary)
    ensures Parse(Write(fields, filename, payload, boundary), boundary).value.file == Some(FilePart(filename, payload))
       <==> !Contains(payload, DASHES + boundary)
  {
    hide Contains, Split, Chunk, FileHeader, Writable, Chunks, Write, Collect, Parse, Interpret, Find;
    var delim := DASHES + boundary;
    if !Contains(payload, delim) {
      ParseInvertsWrite(fields, filename, payload, boundary);
    } else {
      SplitClean(payload, delim);
      TornFileIsShorter(filename, payload, boundary);
      ParseWritten(fields, filename, payload, boundary);
      OnlyShortFiles(Form(Collect(fields, map[]), None), Split(Chunk(FileHeader(filename), payload), delim) + [DASHES + CRLF], |payload|);
    }
  }

  /** When the payload holds the delimiter, every file any piece of its chunk can give is too short. */
  lemma {:induction false} TornFileIsShorter(filename: seq<Byte>, payload: seq<Byte>, boundary: seq<Byte>)
    requires Boundary(boundary) && Name(filename)
    requires !Contains(FileHeader(filename), DASHES + boundary)
    requires Find(payload, DASHES + boundary, 0).Some?
    ensures forall c :: c in Split(Chunk(FileHeader(filename), payload), DASHES + boundary) + [DASHES + CRLF]
                   ==> ShortFile(ParseChunk(c), |payload|)
  {
    hide Contains, FileHeader, Find, ParseChunk, Split;
    var delim := DASHES + boundary;
    var h := FileHeader(filename);
    var i := Find(payload, delim, 0).value;
    SplitCut(payload, delim, i);
    CutInPayload(h, payload, delim, i);
    var chunk := Chunk(h, payload);
    var cut := |h| + 6 + i;
    SplitStep(chunk, delim, cut);
    assert chunk[..cut] == CRLF + h + BLANK + payload[..i];
    FileHeaderIsWhole(filename);
    PieceIsShorter(h, payload[..i]);
    FileIsShorter(DASHES + CRLF);
    var rest := chunk[cut + |delim|..];
    forall c | c in Split(rest, delim) ensures ShortFile(ParseChunk(c), |payload|) {
      FileIsShorter(c);
    }
  }
}
