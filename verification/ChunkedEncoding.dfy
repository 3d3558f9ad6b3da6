/** Chunked encodings and the hexadecimal size lines of `src/mihomo.rs`: what the reader of
    ChunkedBody.dfy is promised to decode (section 7.1 of RFC 9112). */
module ChunkedEncoding {
  import opened Common
  import opened Utf8
  import opened ChunkedBody

  // ---------------------------------------------------------------------------
  // Encodings
  // ---------------------------------------------------------------------------

  datatype Part = Part(line: Bytes, data: Bytes)

  function EncodePart(p: Part): Bytes {
    p.line + CRLF + p.data + CRLF
  }

  function Encode(parts: seq<Part>, last: Bytes): Bytes {
    if parts == [] then last + CRLF + CRLF else EncodePart(parts[0]) + Encode(parts[1..], last)
  }

  function Body(parts: seq<Part>): Bytes {
    if parts == [] then [] else parts[0].data + Body(parts[1..])
  }

  ghost predicate LineFor(line: Bytes, n: nat, size: SizeReader) {
    10 !in line && size(line) == Some(n)
  }

  ghost predicate WellFormed(parts: seq<Part>, last: Bytes, size: SizeReader) {
    (forall i :: 0 <= i < |parts| ==> parts[i].data != [] && LineFor(parts[i].line, |parts[i].data|, size)) &&
    LineFor(last, 0, size)
  }

  ghost predicate Short(parts: seq<Part>, last: Bytes) {
    (forall i :: 0 <= i < |parts| ==> |parts[i].line| <= MAX_LINE_BYTES - 2) && |last| <= MAX_LINE_BYTES - 2
  }

  lemma FirstCrlf(w: Bytes, from: nat, end: nat)
    requires from <= end && CrlfAt(w, end) && forall j :: from <= j < end ==> !CrlfAt(w, j)
    ensures FindCrlf(w, from) == Some(end)
  {
  }

  lemma LineEndsAtItsCrlf(w: Bytes, from: nat, line: Bytes)
    requires 10 !in line && from + |line| <= |w| && w[from..from + |line|] == line && CrlfAt(w, from + |line|)
    ensures FindCrlf(w, from) == Some(from + |line|)
  {
    forall j | from <= j < from + |line| ensures !CrlfAt(w, j) {
      if j + 1 < from + |line| {
        assert w[j + 1] == line[j + 1 - from];
      }
    }
    FirstCrlf(w, from, from + |line|);
  }

  lemma FramedPart(w: Bytes, before: Bytes, cursor: nat, p: Part, rest: Bytes, size: SizeReader)
    requires LineFor(p.line, |p.data|, size) && w == before + EncodePart(p) + rest && cursor == |before|
    ensures var start := cursor + |p.line| + 2;
            NextChunk(w, cursor, size) == Some(Chunk(start, |p.data|)) && w[start..start + |p.data|] == p.data
  {
    assert w[cursor..cursor + |p.line|] == p.line;
    assert CrlfAt(w, cursor + |p.line|);
    LineEndsAtItsCrlf(w, cursor, p.line);
    assert CrlfAt(w, cursor + |p.line| + 2 + |p.data|);
  }

  ghost predicate Shown(k: nat) {
    k == k
  }

  /** Decoding from the cursor gives `d`, with short lines if `short`. Under a quantifier so that
      the definition of `Decode` is used only where `Shown` is mentioned. */
  ghost predicate Decodes(w: Bytes, cursor: nat, size: SizeReader, d: Decoded, short: bool) {
    forall k: nat :: Shown(k) ==> Decode(w, cursor, size) == Some(d) && (short ==> ShortLines(w, cursor, size))
  }

  /** Main result. Decoding an encoding gives the body and consumes exactly the encoding. */
  lemma EncodingDecodes(before: Bytes, parts: seq<Part>, last: Bytes, size: SizeReader)
    requires WellFormed(parts, last, size)
    ensures var w := before + Encode(parts, last);
            Decode(w, |before|, size) == Some(Decoded(Body(parts), |w|)) &&
            (Short(parts, last) ==> ShortLines(w, |before|, size))
  {
    EncodingDecodesIn(before + Encode(parts, last), before, |before|, parts, last, size);
    assert Shown(0);
  }

  lemma {:induction false} EncodingDecodesIn(w: Bytes, before: Bytes, cursor: nat, parts: seq<Part>, last: Bytes,
                                             size: SizeReader)
    requires WellFormed(parts, last, size) && w == before + Encode(parts, last) && cursor == |before|
    ensures Decodes(w, cursor, size, Decoded(Body(parts), |w|), Short(parts, last))
    decreases |parts|
  {
    if parts == [] {
      LastChunkDecodes(w, before, cursor, last, size);
    } else {
      var p := parts[0];
      var rest := Encode(parts[1..], last);
      assert w == before + EncodePart(p) + rest;
      EncodingDecodesIn(w, before + EncodePart(p), |before + EncodePart(p)|, parts[1..], last, size);
      assert Short(parts, last) ==> Short(parts[1..], last) && |p.line| <= MAX_LINE_BYTES - 2;
      PartDecodes(w, before, cursor, p, rest, Body(parts[1..]), size, Short(parts[1..], last), Short(parts, last));
    }
  }

  lemma LastChunkDecodes(w: Bytes, before: Bytes, cursor: nat, last: Bytes, size: SizeReader)
    requires LineFor(last, 0, size) && w == before + (last + CRLF + CRLF) && cursor == |before|
    ensures Decodes(w, cursor, size, Decoded([], |w|), |last| <= MAX_LINE_BYTES - 2)
  {
    var p := Part(last, []);
    assert EncodePart(p) == last + CRLF + CRLF;
    assert w == before + EncodePart(p) + [];
    FramedPart(w, before, cursor, p, [], size);
  }

  lemma PartDecodes(w: Bytes, before: Bytes, cursor: nat, p: Part, rest: Bytes, body: Bytes, size: SizeReader,
                    restShort: bool, short: bool)
    requires p.data != [] && LineFor(p.line, |p.data|, size) && w == before + EncodePart(p) + rest && cursor == |before|
    requires Decodes(w, |before + EncodePart(p)|, size, Decoded(body, |w|), restShort)
    requires short ==> restShort && |p.line| <= MAX_LINE_BYTES - 2
    ensures Decodes(w, cursor, size, Decoded(p.data + body, |w|), short)
  {
    FramedPart(w, before, cursor, p, rest, size);
    var c := Chunk(cursor + |p.line| + 2, |p.data|);
    var next := c.start + c.size + 2;
    assert |before + EncodePart(p)| == next;
    DecodesFrom(w, cursor, c, next, Decoded(body, |w|), size, restShort, short);
  }

  lemma DecodesFrom(w: Bytes, cursor: nat, c: Chunk, next: nat, d: Decoded, size: SizeReader, nextShort: bool,
                    short: bool)
    requires NextChunk(w, cursor, size) == Some(c) && c.size > 0 && next == c.start + c.size + 2
    requires Decodes(w, next, size, d, nextShort) && (short ==> nextShort && c.start - cursor <= MAX_LINE_BYTES)
    ensures Decodes(w, cursor, size, Decoded(w[c.start..c.start + c.size] + d.body, d.end), short)
  {
    assert Shown(0);
    DecodeChunk(w, cursor, size);
  }

  /** Main result. No proper prefix of a complete encoding decodes, so by the contract of
      `ReadChunkedBody` a stream cut short anywhere is an error. */
  lemma ProperPrefixDoesNotDecode(w: Bytes, n: nat, size: SizeReader)
    requires Decode(w, 0, size).Some? && Decode(w, 0, size).value.end == |w| && n < |w|
    ensures Decode(w[..n], 0, size).None?
  {
    assert w[..n] + w[n..] == w;
    if Decode(w[..n], 0, size).Some? {
      DecodeIgnoresWhatFollows(w[..n], w[n..], 0, size);
    }
  }

  // ---------------------------------------------------------------------------
  // Hexadecimal size lines
  // ---------------------------------------------------------------------------

  function HexDigit(b: byte): Option<nat> {
    if 48 <= b <= 57 then Some(b as nat - 48)
    else if 97 <= b <= 102 then Some(b as nat - 87)
    else if 65 <= b <= 70 then Some(b as nat - 55)
    else None
  }

  function HexValue(text: Bytes): Option<nat> {
    if text == [] then Some(0)
    else match (HexValue(text[..|text| - 1]), HexDigit(text[|text| - 1]))
         case (Some(high), Some(low)) => Some(16 * high + low)
         case _ => None
  }

  function BeforeSemicolon(line: Bytes): Bytes {
    if line == [] || line[0] == 59 then [] else [line[0]] + BeforeSemicolon(line[1..])
  }

  predicate Blank(b: byte) {
    b == 9 || b == 32
  }

  function TrimStart(text: Bytes): Bytes {
    if text != [] && Blank(text[0]) then TrimStart(text[1..]) else text
  }

  function TrimEnd(text: Bytes): Bytes {
    if text != [] && Blank(text[|text| - 1]) then TrimEnd(text[..|text| - 1]) else text
  }

  predicate Clean(line: Bytes) {
    forall i :: 0 <= i < |line| ==> line[i] < 128 && (line[i] >= 32 || line[i] == 9)
  }

  /** The size on an ASCII line: no control bytes, the text before `;` without blanks around it,
      an optional plus sign, hexadecimal digits, and a value that fits a machine word. */
  function ReadSize(line: Bytes): Option<nat> {
    if !Clean(line) then None
    else
      var text := TrimEnd(TrimStart(BeforeSemicolon(line)));
      var digits := if text != [] && text[0] == 43 then text[1..] else text;
      if digits == [] then None
      else match HexValue(digits)
           case Some(n) => if n <= U64_MAX then Some(n) else None
           case None => None
  }

  function Digit(d: nat): byte
    requires d < 16
  {
    if d < 10 then (48 + d) as byte else (87 + d) as byte
  }

  function Hex(n: nat): (text: Bytes)
    ensures text != [] && forall i :: 0 <= i < |text| ==> 48 <= text[i] <= 57 || 97 <= text[i] <= 102
  {
    if n < 16 then [Digit(n)] else Hex(n / 16) + [Digit(n % 16)]
  }

  lemma {:induction false} HexRoundTrip(n: nat)
    ensures HexValue(Hex(n)) == Some(n)
    decreases n
  {
    var text := Hex(n);
    if n < 16 {
      assert text[..0] == [];
      assert HexValue([]) == Some(0);
    } else {
      HexRoundTrip(n / 16);
      assert text[..|text| - 1] == Hex(n / 16);
    }
  }

  function Power16(k: nat): nat {
    if k == 0 then 1 else 16 * Power16(k - 1)
  }

  lemma {:induction false} HexLength(n: nat, k: nat)
    requires k >= 1 && n < Power16(k)
    ensures |Hex(n)| <= k
    decreases k
  {
    if n >= 16 {
      assert k > 1;
      HexLength(n / 16, k - 1);
    }
  }

  lemma {:induction false} NoSemicolon(text: Bytes, extension: Bytes)
    requires 59 !in text && (extension == [] || extension[0] == 59)
    ensures BeforeSemicolon(text + extension) == text
    decreases |text|
  {
    if text == [] {
      assert text + extension == extension;
    } else {
      assert (text + extension)[1..] == text[1..] + extension;
      NoSemicolon(text[1..], extension);
    }
  }

  ghost predicate Plain(extension: Bytes) {
    (extension == [] || extension[0] == 59) && Clean(extension)
  }

  /** A size written in hexadecimal, with any printable extension, is read back. */
  lemma SizeRoundTrip(n: nat, extension: Bytes)
    requires n <= U64_MAX && Plain(extension)
    ensures ReadSize(Hex(n) + extension) == Some(n)
  {
    HexRoundTrip(n);
    NoSemicolon(Hex(n), extension);
    NothingToTrim(Hex(n));
    HexLineIsClean(Hex(n), extension);
  }

  lemma HexLineIsClean(text: Bytes, extension: Bytes)
    requires Plain(extension) && forall i :: 0 <= i < |text| ==> 48 <= text[i] <= 57 || 97 <= text[i] <= 102
    ensures Clean(text + extension)
  {
  }

  lemma NothingToTrim(text: Bytes)
    requires text != [] && !Blank(text[0]) && !Blank(text[|text| - 1])
    ensures TrimEnd(TrimStart(text)) == text
  {
  }

  /** The usual encoding of a body cut into pieces. */
  function Pieces(pieces: seq<Bytes>): seq<Part> {
    seq(|pieces|, i requires 0 <= i < |pieces| => Part(Hex(|pieces[i]|), pieces[i]))
  }

  lemma {:induction false} PiecesBody(pieces: seq<Bytes>)
    ensures Body(Pieces(pieces)) == Flatten(pieces)
    decreases |pieces|
  {
    if pieces != [] {
      assert Pieces(pieces)[1..] == Pieces(pieces[1..]);
      PiecesBody(pieces[1..]);
    }
  }

  lemma HexLineIsGood(n: nat)
    requires n <= U64_MAX
    ensures LineFor(Hex(n), n, ReadSize) && |Hex(n)| <= 16
  {
    assert Hex(n) + [] == Hex(n);
    SizeRoundTrip(n, []);
    assert Power16(16) == 16 * Power16(15) == 256 * Power16(14) == 4096 * Power16(13) == 65536 * Power16(12);
    assert Power16(12) == 65536 * Power16(8) && Power16(8) == 65536 * Power16(4) && Power16(4) == 65536;
    HexLength(n, 16);
  }

  /** No line the reader takes for a size has a line feed in it. */
  ghost predicate RefusesLf(size: SizeReader) {
    forall line :: size(line).Some? ==> 10 !in line
  }

  lemma ReadSizeRefusesLf()
    ensures RefusesLf(ReadSize)
  {
    forall line | ReadSize(line).Some? ensures 10 !in line {
      assert Clean(line);
    }
  }

  lemma ChunkIsPart(w: Bytes, cursor: nat, c: Chunk, size: SizeReader) returns (part: Part)
    requires RefusesLf(size) && NextChunk(w, cursor, size) == Some(c)
    ensures part.data == w[c.start..c.start + c.size] && LineFor(part.line, c.size, size)
    ensures w[cursor..c.start + c.size + 2] == EncodePart(part)
  {
    var line, data := w[cursor..c.start - 2], w[c.start..c.start + c.size];
    part := Part(line, data);
    assert w[c.start - 2..c.start] == CRLF && w[c.start + c.size..c.start + c.size + 2] == CRLF;
    assert w[cursor..c.start + c.size + 2] == line + CRLF + data + CRLF;
  }

  /** Main result. Nothing but encodings decode: what was consumed is the encoding of the body in
      some chunks, each with a line that states its size. */
  lemma DecodedIsAnEncoding(w: Bytes, cursor: nat, size: SizeReader) returns (parts: seq<Part>, last: Bytes)
    requires RefusesLf(size) && Decode(w, cursor, size).Some?
    ensures var d := Decode(w, cursor, size).value;
            WellFormed(parts, last, size) && Body(parts) == d.body && w[cursor..d.end] == Encode(parts, last)
  {
    parts, last := PartsOf(w, cursor, Decode(w, cursor, size).value, size);
  }

  lemma {:induction false} PartsOf(w: Bytes, cursor: nat, d: Decoded, size: SizeReader)
    returns (parts: seq<Part>, last: Bytes)
    requires RefusesLf(size) && Decodes(w, cursor, size, d, false) && cursor <= d.end <= |w|
    ensures WellFormed(parts, last, size) && Body(parts) == d.body && w[cursor..d.end] == Encode(parts, last)
    decreases |w| - cursor
  {
    var c, rest := FirstOf(w, cursor, d, size);
    var part := ChunkIsPart(w, cursor, c, size);
    if c.size == 0 {
      parts, last := [], part.line;
      NoMoreParts(part);
    } else {
      var next := c.start + c.size + 2;
      parts, last := PartsOf(w, next, rest, size);
      OneMorePart(w, cursor, next, d.end, part, parts, last, size);
      parts := [part] + parts;
    }
  }

  lemma FirstOf(w: Bytes, cursor: nat, d: Decoded, size: SizeReader) returns (c: Chunk, rest: Decoded)
    requires Decodes(w, cursor, size, d, false)
    ensures NextChunk(w, cursor, size) == Some(c) && cursor < c.start + c.size + 2 <= |w|
    ensures c.size == 0 ==> d == Decoded([], c.start + 2)
    ensures c.size > 0 ==> Decodes(w, c.start + c.size + 2, size, rest, false) &&
                           c.start + c.size + 2 <= rest.end == d.end <= |w| &&
                           d.body == w[c.start..c.start + c.size] + rest.body
  {
    assert Shown(0);
    c := NextChunk(w, cursor, size).value;
    rest := d;
    if c.size > 0 {
      DecodeChunk(w, cursor, size);
      rest := Decode(w, c.start + c.size + 2, size).value;
    }
  }

  lemma NoMoreParts(part: Part)
    requires part.data == []
    ensures EncodePart(part) == Encode([], part.line)
  {
  }

  lemma OneMorePart(w: Bytes, cursor: nat, next: nat, end: nat, part: Part, rest: seq<Part>, last: Bytes,
                    size: SizeReader)
    requires cursor <= next <= end <= |w| && part.data != [] && LineFor(part.line, |part.data|, size)
    requires w[cursor..next] == EncodePart(part) && w[next..end] == Encode(rest, last)
    requires WellFormed(rest, last, size)
    ensures WellFormed([part] + rest, last, size) && w[cursor..end] == Encode([part] + rest, last)
    ensures Body([part] + rest) == part.data + Body(rest)
  {
    assert ([part] + rest)[1..] == rest;
    assert w[cursor..end] == w[cursor..next] + w[next..end];
  }

  /** A body within the limit, sent as one chunk, is within the limit on the wire. */
  lemma OneChunkFitsTheWire(body: Bytes, limit: nat, headerLimit: nat)
    requires 0 < |body| <= limit && limit + MAX_LINE_BYTES <= U64_MAX
    ensures |Encode(Pieces([body]), Hex(0))| <= WireLimit(limit, headerLimit)
    ensures Flatten([body]) == body
  {
    HexLineIsGood(|body|);
    var parts := Pieces([body]);
    assert parts[1..] == [];
    assert Encode(parts[1..], Hex(0)) == Hex(0) + CRLF + CRLF;
    assert |EncodePart(parts[0])| == |Hex(|body|)| + |body| + 4;
    assert [body][1..] == [];
  }

  /** Main result. Every body, cut into non-empty pieces in any way, fits the reader whenever its
      encoding and the body are within the limits; with `ReadChunkedBody`, it is returned
      exactly, for every fragmentation of the reads. */
  lemma EveryBodyIsReadBack(pieces: seq<Bytes>, limit: nat, headerLimit: nat)
    requires forall i :: 0 <= i < |pieces| ==> 0 < |pieces[i]| <= U64_MAX
    requires |Encode(Pieces(pieces), Hex(0))| <= WireLimit(limit, headerLimit) && |Flatten(pieces)| <= limit
    ensures var w := Encode(Pieces(pieces), Hex(0));
            Decode(w, 0, ReadSize) == Some(Decoded(Flatten(pieces), |w|)) && Fits(w, 0, 0, ReadSize, limit, headerLimit)
  {
    var parts := Pieces(pieces);
    forall i | 0 <= i < |parts| ensures LineFor(parts[i].line, |parts[i].data|, ReadSize) && |parts[i].line| <= 16 {
      HexLineIsGood(|pieces[i]|);
    }
    HexLineIsGood(0);
    EncodingDecodes([], parts, Hex(0), ReadSize);
    PiecesBody(pieces);
    assert [] + Encode(parts, Hex(0)) == Encode(parts, Hex(0));
  }
}
