/** Which chunk size lines are accepted however the reads are fragmented: the inner loop of
    `read_chunked_body` in `src/mihomo.rs`, as a function of the sizes of its reads. */
module ChunkedLines {
  import opened Common
  import opened Utf8
  import opened ChunkedBody

  /** The sizes of the reads that bring in the rest of a stream of `total` bytes. */
  predicate Fragments(sizes: seq<nat>, have: nat, total: nat)
    decreases |sizes|
  {
    if sizes == [] then have == total
    else 1 <= sizes[0] <= IO_BUFFER_BYTES && have + sizes[0] <= total && Fragments(sizes[1..], have + sizes[0], total)
  }

  /** The end of the line that starts at `cursor`, with `have` bytes buffered and reads of these sizes to
      come; none if the buffered part is too long for a line, or the stream ends. */
  function LineWith(w: Bytes, cursor: nat, have: nat, sizes: seq<nat>): Option<nat>
    requires cursor <= have && Fragments(sizes, have, |w|)
    decreases |sizes|
  {
    FragmentsReachTotal(sizes, have, |w|);
    var found := FindCrlf(w[..have], cursor);
    if found.Some? then found
    else if have - cursor >= MAX_LINE_BYTES || sizes == [] then None
    else LineWith(w, cursor, have + sizes[0], sizes[1..])
  }

  lemma {:induction false} FragmentsReachTotal(sizes: seq<nat>, have: nat, total: nat)
    requires Fragments(sizes, have, total)
    ensures have <= total
    decreases |sizes|
  {
    if sizes != [] {
      FragmentsReachTotal(sizes[1..], have + sizes[0], total);
    }
  }

  function ByteByByte(n: nat): (sizes: seq<nat>)
    ensures |sizes| == n
  {
    if n == 0 then [] else [1] + ByteByByte(n - 1)
  }

  lemma {:induction false} ByteByByteFragments(have: nat, total: nat)
    requires have <= total
    ensures Fragments(ByteByByte(total - have), have, total)
    decreases total - have
  {
    if have < total {
      assert ByteByByte(total - have)[1..] == ByteByByte(total - (have + 1));
      ByteByByteFragments(have + 1, total);
    }
  }

  /** A line end is found exactly when both its bytes are buffered. */
  lemma FoundWhenBuffered(w: Bytes, cursor: nat, have: nat, e: nat)
    requires cursor <= have <= |w| && FindCrlf(w, cursor) == Some(e)
    ensures FindCrlf(w[..have], cursor) == if e + 2 <= have then Some(e) else None
  {
    assert forall j :: CrlfAt(w[..have], j) ==> CrlfAt(w, j);
    if e + 2 <= have {
      assert CrlfAt(w[..have], e);
    }
  }

  lemma {:induction false} ShortLineIsAccepted(w: Bytes, cursor: nat, have: nat, sizes: seq<nat>, e: nat)
    requires cursor <= have && Fragments(sizes, have, |w|)
    requires FindCrlf(w, cursor) == Some(e) && e - cursor <= MAX_LINE_BYTES - 2
    ensures LineWith(w, cursor, have, sizes) == Some(e)
    decreases |sizes|
  {
    FragmentsReachTotal(sizes, have, |w|);
    FoundWhenBuffered(w, cursor, have, e);
    if e + 2 > have {
      ShortLineIsAccepted(w, cursor, have + sizes[0], sizes[1..], e);
    }
  }

  /** A longer line is refused if a read ends 128 bytes into it, and accepted if it is buffered
      whole. */
  lemma LongLineDependsOnReads(w: Bytes, cursor: nat, e: nat) returns (sizes: seq<nat>)
    requires FindCrlf(w, cursor) == Some(e) && e - cursor > MAX_LINE_BYTES - 2
    ensures Fragments(sizes, cursor, |w|) && LineWith(w, cursor, cursor, sizes) == None
    ensures LineWith(w, cursor, |w|, []) == Some(e)
  {
    var rest := ByteByByte(|w| - (cursor + MAX_LINE_BYTES));
    ByteByByteFragments(cursor + MAX_LINE_BYTES, |w|);
    sizes := [MAX_LINE_BYTES] + rest;
    assert sizes[1..] == rest;
    FoundWhenBuffered(w, cursor, cursor, e);
    FoundWhenBuffered(w, cursor, cursor + MAX_LINE_BYTES, e);
    FoundWhenBuffered(w, cursor, |w|, e);
  }

  /** The line is found however the stream is fragmented. */
  ghost predicate AlwaysAccepted(w: Bytes, cursor: nat, e: nat) {
    forall have, sizes | cursor <= have && Fragments(sizes, have, |w|) :: LineWith(w, cursor, have, sizes) == Some(e)
  }

  /** Main result. A size line is accepted under every fragmentation if and only if it has at most
      126 bytes. */
  lemma AcceptedLinesAreExact(w: Bytes, cursor: nat, e: nat)
    requires FindCrlf(w, cursor) == Some(e)
    ensures AlwaysAccepted(w, cursor, e) <==> e - cursor <= 126
  {
    if e - cursor <= 126 {
      forall have, sizes | cursor <= have && Fragments(sizes, have, |w|)
        ensures LineWith(w, cursor, have, sizes) == Some(e)
      {
        ShortLineIsAccepted(w, cursor, have, sizes, e);
      }
    } else {
      var sizes := LongLineDependsOnReads(w, cursor, e);
      assert LineWith(w, cursor, cursor, sizes) != Some(e);
    }
  }
}
