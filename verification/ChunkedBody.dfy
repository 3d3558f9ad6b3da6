/** The incremental chunked-body reader of `src/mihomo.rs` (`read_chunked_body`,
    `ensure_chunk_bytes`, `read_more_chunk_bytes`), against a decoder that sees the whole input
    (section 7.1 of RFC 9112). How a size line is read is a parameter of the reader; the
    hexadecimal reading of plain ASCII lines is given at the end. */
module ChunkedBody {
  import opened Common
  import opened Utf8

  const MAX_LINE_BYTES: nat := 128
  const IO_BUFFER_BYTES: nat := 8 * 1024
  const CRLF: Bytes := [13, 10]

  type SizeReader = Bytes -> Option<nat>

  // ---------------------------------------------------------------------------
  // Whole-input decoding
  // ---------------------------------------------------------------------------

  predicate CrlfAt(w: Bytes, i: nat) {
    i + 2 <= |w| && w[i] == 13 && w[i + 1] == 10
  }

  /** `find_bytes` for a line end, from `from` on. */
  function FindCrlf(w: Bytes, from: nat): (r: Option<nat>)
    ensures r.Some? ==> from <= r.value && CrlfAt(w, r.value) && forall j :: from <= j < r.value ==> !CrlfAt(w, j)
    ensures r.None? ==> forall j :: from <= j ==> !CrlfAt(w, j)
    decreases |w| - from
  {
    if from + 2 > |w| then None else if CrlfAt(w, from) then Some(from) else FindCrlf(w, from + 1)
  }

  datatype Chunk = Chunk(start: nat, size: nat)

  /** A size line, that many bytes, and a line end; the last chunk has size zero. */
  function NextChunk(w: Bytes, cursor: nat, size: SizeReader): (r: Option<Chunk>)
    ensures r.Some? ==> cursor + 2 <= r.value.start && r.value.start + r.value.size + 2 <= |w|
  {
    match FindCrlf(w, cursor)
    case None => None
    case Some(e) =>
      match size(w[cursor..e])
      case None => None
      case Some(n) => if CrlfAt(w, e + 2 + n) then Some(Chunk(e + 2, n)) else None
  }

  datatype Decoded = Decoded(body: Bytes, end: nat)

  /** Decodes from a cursor to the end of the last chunk. */
  function Decode(w: Bytes, cursor: nat, size: SizeReader): (r: Option<Decoded>)
    ensures r.Some? ==> cursor < r.value.end <= |w|
    decreases |w| - cursor
  {
    match NextChunk(w, cursor, size)
    case None => None
    case Some(c) =>
      if c.size == 0 then Some(Decoded([], c.start + 2))
      else match Decode(w, c.start + c.size + 2, size)
           case None => None
           case Some(rest) => Some(Decoded(w[c.start..c.start + c.size] + rest.body, rest.end))
  }

  /** Every size line on the way fits the reader's line limit with its line end. */
  predicate ShortLines(w: Bytes, cursor: nat, size: SizeReader)
    decreases |w| - cursor
  {
    match NextChunk(w, cursor, size)
    case None => true
    case Some(c) =>
      c.start - cursor <= MAX_LINE_BYTES && (c.size > 0 ==> ShortLines(w, c.start + c.size + 2, size))
  }

  lemma FindCrlfInMore(w: Bytes, more: Bytes, from: nat)
    requires FindCrlf(w, from).Some?
    ensures FindCrlf(w + more, from) == FindCrlf(w, from)
  {
    var e := FindCrlf(w, from).value;
    assert CrlfAt(w + more, e);
    var e' := FindCrlf(w + more, from).value;
    assert e' <= e;
    assert CrlfAt(w, e');
  }

  lemma NextChunkInMore(w: Bytes, more: Bytes, cursor: nat, size: SizeReader)
    requires NextChunk(w, cursor, size).Some?
    ensures NextChunk(w + more, cursor, size) == NextChunk(w, cursor, size)
  {
    FindCrlfInMore(w, more, cursor);
    var e := FindCrlf(w, cursor).value;
    SliceInMore(w, more, cursor, e);
    CrlfInMore(w, more, e + 2 + size(w[cursor..e]).value);
  }

  /** A complete encoding decodes the same whatever follows it. */
  lemma {:induction false} DecodeIgnoresWhatFollows(w: Bytes, more: Bytes, cursor: nat, size: SizeReader)
    requires Decode(w, cursor, size).Some?
    ensures Decode(w + more, cursor, size) == Decode(w, cursor, size)
    decreases |w| - cursor
  {
    NextChunkInMore(w, more, cursor, size);
    var c := NextChunk(w, cursor, size).value;
    if c.size > 0 {
      SliceInMore(w, more, c.start, c.start + c.size);
      DecodeIgnoresWhatFollows(w, more, c.start + c.size + 2, size);
    }
  }

  lemma SliceInMore(w: Bytes, more: Bytes, i: nat, j: nat)
    requires i <= j <= |w|
    ensures (w + more)[i..j] == w[i..j]
  {
  }

  lemma CrlfInMore(w: Bytes, more: Bytes, i: nat)
    requires CrlfAt(w, i)
    ensures CrlfAt(w + more, i)
  {
  }

  // ---------------------------------------------------------------------------
  // The reader
  // ---------------------------------------------------------------------------

  /** One read of at least one byte, as many as the peer happened to have sent; `reliable` says
      that the only failure is the peer closing the stream. */
  method ReadMore(encoded: Bytes, pending: Bytes, wireLimit: nat, reliable: bool)
    returns (ok: bool, encoded': Bytes, pending': Bytes)
    requires |encoded| <= wireLimit
    ensures encoded' + pending' == encoded + pending && encoded <= encoded' && |encoded'| <= wireLimit
    ensures ok ==> |encoded'| > |encoded|
    ensures !ok && reliable ==> pending == [] || |encoded| == wireLimit
  {
    ok, encoded', pending' := false, encoded, pending;
    var fails: bool := *;
    if |encoded| == wireLimit || pending == [] || (!reliable && fails) {
      return;
    }
    var capacity := Min(wireLimit - |encoded|, IO_BUFFER_BYTES);
    var n: nat :| 1 <= n <= capacity && n <= |pending|;
    ok, encoded', pending' := true, encoded + pending[..n], pending[n..];
  }

  method EnsureBytes(encoded: Bytes, pending: Bytes, required: nat, wireLimit: nat, reliable: bool)
    returns (ok: bool, encoded': Bytes, pending': Bytes)
    requires |encoded| <= wireLimit
    ensures encoded' + pending' == encoded + pending && encoded <= encoded' && |encoded'| <= wireLimit
    ensures ok ==> |encoded'| >= required
    ensures !ok && reliable ==> required > wireLimit || required > |encoded + pending|
    ensures ok && |encoded| <= required && |encoded + pending| == required ==> pending' == []
  {
    ok, encoded', pending' := required <= wireLimit, encoded, pending;
    while ok && |encoded'| < required
      invariant encoded' + pending' == encoded + pending && encoded <= encoded' && |encoded'| <= wireLimit
      invariant !ok && reliable ==> required > wireLimit || required > |encoded + pending|
      decreases |pending'|, ok
    {
      ok, encoded', pending' := ReadMore(encoded', pending', wireLimit, reliable);
    }
    assert |encoded' + pending'| == |encoded + pending|;
  }

  /** Reads until the line starting at `cursor` is complete; false if it is too long or the stream ends. */
  method ReadLine(encoded: Bytes, pending: Bytes, cursor: nat, wireLimit: nat, reliable: bool)
    returns (lineEnd: Option<nat>, encoded': Bytes, pending': Bytes)
    requires cursor <= |encoded| <= wireLimit
    ensures encoded' + pending' == encoded + pending && encoded <= encoded' && |encoded'| <= wireLimit
    ensures lineEnd.Some? ==> lineEnd == FindCrlf(encoded + pending, cursor) && lineEnd.value + 2 <= |encoded'|
    ensures lineEnd.None? && reliable && |encoded + pending| <= wireLimit ==>
              match FindCrlf(encoded + pending, cursor)
              case None => true
              case Some(e) => e - cursor > MAX_LINE_BYTES - 2
  {
    encoded', pending' := encoded, pending;
    ghost var w := encoded + pending;
    while true
      invariant encoded' + pending' == w && encoded <= encoded' && |encoded'| <= wireLimit
      decreases |pending'|
    {
      lineEnd := FindCrlf(encoded', cursor);
      if lineEnd.Some? {
        FindCrlfInMore(encoded', pending', cursor);
        return;
      }
      NotInPrefix(encoded', pending', cursor);
      if |encoded'| - cursor >= MAX_LINE_BYTES {
        return;
      }
      var ok;
      var before := |encoded'|;
      ok, encoded', pending' := ReadMore(encoded', pending', wireLimit, reliable);
      if !ok {
        if reliable && |w| <= wireLimit {
          assert |encoded'| + |pending'| == |w|;
          assert pending' == [] ==> encoded' == w;
        }
        return;
      }
    }
  }

  lemma NotInPrefix(w: Bytes, more: Bytes, from: nat)
    requires FindCrlf(w, from).None?
    ensures FindCrlf(w + more, from).Some? ==> FindCrlf(w + more, from).value + 2 > |w|
  {
    if FindCrlf(w + more, from).Some? {
      var e := FindCrlf(w + more, from).value;
      assert e + 2 <= |w| ==> CrlfAt(w, e);
    }
  }

  function Prepend(data: Bytes, rest: Option<Decoded>): Option<Decoded> {
    match rest case None => None case Some(d) => Some(Decoded(data + d.body, d.end))
  }

  lemma PrependTwice(a: Bytes, b: Bytes, rest: Option<Decoded>)
    ensures Prepend(a, Prepend(b, rest)) == Prepend(a + b, rest)
  {
    if rest.Some? {
      assert a + (b + rest.value.body) == a + b + rest.value.body;
    }
  }

  lemma DecodeChunk(w: Bytes, cursor: nat, size: SizeReader)
    requires NextChunk(w, cursor, size).Some? && NextChunk(w, cursor, size).value.size > 0
    ensures var c := NextChunk(w, cursor, size).value;
            Decode(w, cursor, size) == Prepend(w[c.start..c.start + c.size], Decode(w, c.start + c.size + 2, size))
  {
  }

  /** Where the reader stands: the whole decoding is the body so far followed by what decoding
      from the cursor gives. */
  ghost predicate Stands(w: Bytes, cursor: nat, body: Bytes, size: SizeReader, whole: Option<Decoded>) {
    whole == Prepend(body, Decode(w, cursor, size))
  }

  lemma StandsAtEnd(w: Bytes, cursor: nat, body: Bytes, size: SizeReader, whole: Option<Decoded>, c: Chunk)
    requires Stands(w, cursor, body, size, whole) && NextChunk(w, cursor, size) == Some(c) && c.size == 0
    ensures whole == Some(Decoded(body, c.start + 2))
  {
    assert body + [] == body;
  }

  lemma StandsAfterChunk(w: Bytes, cursor: nat, body: Bytes, size: SizeReader, whole: Option<Decoded>,
                         c: Chunk, next: nat, body': Bytes)
    requires Stands(w, cursor, body, size, whole) && NextChunk(w, cursor, size) == Some(c) && c.size > 0
    requires next == c.start + c.size + 2 && body' == body + w[c.start..c.start + c.size]
    ensures Stands(w, next, body', size, whole)
  {
    DecodeChunk(w, cursor, size);
    PrependTwice(body, w[c.start..c.start + c.size], Decode(w, next, size));
  }

  function WireLimit(limit: nat, headerLimit: nat): nat {
    SaturatingAdd(limit, Max(headerLimit, MAX_LINE_BYTES))
  }

  /** The input decodes completely, within every limit. */
  ghost predicate Fits(w: Bytes, cursor: nat, held: nat, size: SizeReader, limit: nat, headerLimit: nat) {
    Decode(w, cursor, size).Some? && Decode(w, cursor, size).value.end == |w| && ShortLines(w, cursor, size) &&
    |w| <= WireLimit(limit, headerLimit) && held + |Decode(w, cursor, size).value.body| <= limit
  }

  /** The next chunk of a fitting input is within reach. */
  lemma FitsReaches(w: Bytes, cursor: nat, held: nat, size: SizeReader, limit: nat, headerLimit: nat)
    requires Fits(w, cursor, held, size, limit, headerLimit)
    ensures |w| <= WireLimit(limit, headerLimit) && NextChunk(w, cursor, size).Some?
    ensures var c := NextChunk(w, cursor, size).value;
            c.start - cursor <= MAX_LINE_BYTES && held + c.size <= limit && (c.size == 0 ==> c.start + 2 == |w|)
  {
    if NextChunk(w, cursor, size).value.size > 0 {
      DecodeChunk(w, cursor, size);
    }
  }

  lemma FitsAfterChunk(w: Bytes, cursor: nat, held: nat, size: SizeReader, limit: nat, headerLimit: nat,
                       c: Chunk, next: nat, held': nat)
    requires Fits(w, cursor, held, size, limit, headerLimit) && NextChunk(w, cursor, size) == Some(c) && c.size > 0
    requires next == c.start + c.size + 2 && held' == held + c.size
    ensures Fits(w, next, held', size, limit, headerLimit)
  {
    DecodeChunk(w, cursor, size);
  }

  datatype Progress = More(cursor: nat) | Finished | Failed

  /** The next chunk of the input `w`, read to its end. */
  method ReadFrame(encoded: Bytes, pending: Bytes, cursor: nat, room: nat, wireLimit: nat, size: SizeReader,
                   reliable: bool, ghost w: Bytes)
    returns (c: Option<Chunk>, encoded': Bytes, pending': Bytes)
    requires cursor <= |encoded| <= wireLimit && w == encoded + pending
    ensures encoded' + pending' == w && |encoded'| <= wireLimit && |encoded'| <= |w|
    ensures c.Some? ==> c == NextChunk(w, cursor, size) && c.value.start + c.value.size + 2 <= |encoded'| &&
                        c.value.size <= room &&
                        encoded'[c.value.start..c.value.start + c.value.size] ==
                        w[c.value.start..c.value.start + c.value.size]
    ensures c.None? && reliable && |w| <= wireLimit ==>
              match NextChunk(w, cursor, size)
              case None => true
              case Some(c) => c.size > room || c.start - cursor > MAX_LINE_BYTES
  {
    c := None;
    var lineEnd;
    lineEnd, encoded', pending' := ReadLine(encoded, pending, cursor, wireLimit, reliable);
    if lineEnd.None? {
      return;
    }
    var e := lineEnd.value;
    SliceInMore(encoded', pending', cursor, e);
    var n := size(encoded'[cursor..e]);
    if n.None? || n.value > room {
      return;
    }
    var ok;
    ok, encoded', pending' := EnsureBytes(encoded', pending', e + 2 + n.value + 2, wireLimit, reliable);
    if !ok {
      return;
    }
    assert CrlfAt(encoded', e + 2 + n.value) == CrlfAt(w, e + 2 + n.value);
    if CrlfAt(encoded', e + 2 + n.value) {
      SliceInMore(encoded', pending', e + 2, e + 2 + n.value);
      c := Some(Chunk(e + 2, n.value));
    }
  }

  /** One turn of the outer loop; `whole` is the decoding of the whole input `w`. */
  method ReadChunk(encoded: Bytes, pending: Bytes, cursor: nat, body: Bytes, limit: nat, headerLimit: nat,
                   size: SizeReader, reliable: bool, ghost w: Bytes, ghost whole: Option<Decoded>, ghost fits: bool)
    returns (p: Progress, encoded': Bytes, pending': Bytes, body': Bytes)
    requires cursor <= |encoded| <= WireLimit(limit, headerLimit) && |body| <= limit && w == encoded + pending
    requires Stands(w, cursor, body, size, whole)
    requires fits ==> reliable && Fits(w, cursor, |body|, size, limit, headerLimit)
    ensures encoded' + pending' == w && |encoded'| <= WireLimit(limit, headerLimit) && |encoded'| <= |w|
    ensures |body'| <= limit
    ensures p.More? ==> cursor < p.cursor <= |encoded'| && Stands(w, p.cursor, body', size, whole)
    ensures p.Finished? ==> whole == Some(Decoded(body', |encoded'|))
    ensures fits ==> !p.Failed?
    ensures fits && p.More? ==> Fits(w, p.cursor, |body'|, size, limit, headerLimit)
  {
    body' := body;
    p := Failed;
    var chunk;
    chunk, encoded', pending' :=
      ReadFrame(encoded, pending, cursor, limit - |body|, WireLimit(limit, headerLimit), size, reliable, w);
    if fits {
      FitsReaches(w, cursor, |body|, size, limit, headerLimit);
    }
    if chunk.None? {
      return;
    }
    var c := chunk.value;
    if c.size == 0 {
      if |encoded'| == c.start + 2 {
        StandsAtEnd(w, cursor, body, size, whole, c);
        p := Finished;
      }
      return;
    }
    body' := body + encoded'[c.start..c.start + c.size];
    var next := c.start + c.size + 2;
    StandsAfterChunk(w, cursor, body, size, whole, c, next, body');
    if fits {
      FitsAfterChunk(w, cursor, |body|, size, limit, headerLimit, c, next, |body'|);
    }
    p := More(next);
  }

  /** Main result. Whatever the fragmentation: a returned body is the decoding of the bytes
      read and is within its limit, and an input that decodes completely within the limits
      (size lines up to 126 bytes) is returned unless reading itself fails. */
  method ReadChunkedBody(initial: Bytes, pending: Bytes, limit: nat, headerLimit: nat, size: SizeReader, reliable: bool)
    returns (r: Result<Bytes, ()>)
    ensures r.Ok? ==>
              Decode(initial + pending, 0, size).Some? && r.value == Decode(initial + pending, 0, size).value.body
    ensures r.Ok? ==> |r.value| <= limit
    ensures reliable && Fits(initial + pending, 0, 0, size, limit, headerLimit) ==> r.Ok?
  {
    r := Err(());
    if |initial| > WireLimit(limit, headerLimit) {
      assert |initial| <= |initial + pending|;
      return;
    }
    ghost var w := initial + pending;
    ghost var whole := Decode(w, 0, size);
    ghost var fits := reliable && Fits(w, 0, 0, size, limit, headerLimit);
    var encoded, rest := initial, pending;
    var body: Bytes := [];
    var p := More(0);
    assert whole == Prepend([], whole) by { assert whole.Some? ==> [] + whole.value.body == whole.value.body; }
    while p.More?
      invariant encoded + rest == w && |encoded| <= WireLimit(limit, headerLimit) && |encoded| <= |w| && |body| <= limit
      invariant p.More? ==> p.cursor <= |encoded| && Stands(w, p.cursor, body, size, whole)
      invariant p.Finished? ==> whole == Some(Decoded(body, |encoded|))
      invariant fits ==> !p.Failed? && (p.More? ==> Fits(w, p.cursor, |body|, size, limit, headerLimit))
      decreases if p.More? then |w| - p.cursor + 1 else 0
    {
      p, encoded, rest, body := ReadChunk(encoded, rest, p.cursor, body, limit, headerLimit, size, reliable,
                                             w, whole, fits);
    }
    if p.Finished? {
      r := Ok(body);
    }
  }
}
