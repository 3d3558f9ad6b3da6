/** The streaming line splitter of `src/process_controller.rs` (`collect_log_stream`,
    `publish_log_line`, `bound_log_message`), proved equal to a definition over the whole
    input for every fragmentation of the reads. Lossy UTF-8 decoding is a parameter. */
module LineSplitter {
  import opened Common
  import opened Utf8

  const LF: byte := 10
  const CR: byte := 13

  /** " [truncated]" */
  const MARKER: Bytes := [32, 91, 116, 114, 117, 110, 99, 97, 116, 101, 100, 93]

  // ---------------------------------------------------------------------------
  // Bounding one message
  // ---------------------------------------------------------------------------

  function Bound(message: Bytes, truncated: bool, max: nat): (r: Bytes)
    ensures |r| <= max
    ensures !truncated && |message| <= max ==> r == message
    ensures (truncated || |message| > max) && max >= |MARKER| ==>
              exists end :: 0 <= end <= |message| && IsBoundary(message, end) && r == message[..end] + MARKER &&
                            forall i :: end < i <= |message| && i + |MARKER| <= max ==> !IsBoundary(message, i)
    ensures (truncated || |message| > max) && max < |MARKER| ==> r == MARKER[..max]
  {
    if !truncated && |message| <= max then message
    else if max < |MARKER| then MARKER[..max]
    else
      var end := FloorBoundary(message, Min(max - |MARKER|, |message|));
      message[..end] + MARKER
  }

  // ---------------------------------------------------------------------------
  // The whole input
  // ---------------------------------------------------------------------------

  /** The physical lines: the pieces ended by a line feed, and a last non-empty piece. */
  function Lines(stream: Bytes): seq<Bytes> {
    LinesAfter([], stream)
  }

  function LinesAfter(current: Bytes, rest: Bytes): seq<Bytes>
    decreases |rest|
  {
    if rest == [] then (if current == [] then [] else [current])
    else if rest[0] == LF then [current] + LinesAfter([], rest[1..])
    else LinesAfter(current + [rest[0]], rest[1..])
  }

  function Content(line: Bytes): Bytes {
    if line != [] && line[|line| - 1] == CR then line[..|line| - 1] else line
  }

  /** One record per line: its content without a final carriage return, decoded, and marked
      as truncated exactly when the content exceeds the bound. */
  function Record(line: Bytes, max: nat, decode: Bytes -> Bytes): Bytes {
    var content := Content(line);
    Bound(decode(content[..Min(|content|, max)]), |content| > max, max)
  }

  function Records(lines: seq<Bytes>, max: nat, decode: Bytes -> Bytes): seq<Bytes> {
    seq(|lines|, i requires 0 <= i < |lines| => Record(lines[i], max, decode))
  }

  // ---------------------------------------------------------------------------
  // The loop
  // ---------------------------------------------------------------------------

  /** The loop's bookkeeping for the line read so far. */
  ghost predicate Holds(current: Bytes, line: Bytes, discarded: nat, last: Option<byte>, max: nat) {
    line == current[..Min(|current|, max)] &&
    discarded == Min(|current| - |line|, U64_MAX) &&
    (discarded > 0 ==> last == Some(current[|current| - 1]))
  }

  function Published(line: Bytes, discarded: nat, last: Option<byte>, max: nat, decode: Bytes -> Bytes): Bytes {
    var trailingCrDiscarded := discarded > 0 && last == Some(CR);
    var strip := discarded == 0 && line != [] && line[|line| - 1] == CR;
    Bound(decode(if strip then line[..|line| - 1] else line),
          SaturatingSub(discarded, if trailingCrDiscarded then 1 else 0) > 0, max)
  }

  lemma PublishedIsRecord(current: Bytes, line: Bytes, discarded: nat, last: Option<byte>, max: nat,
                          decode: Bytes -> Bytes)
    requires Holds(current, line, discarded, last, max)
    ensures Published(line, discarded, last, max, decode) == Record(current, max, decode)
  {
    var content := Content(current);
    var strip := discarded == 0 && line != [] && line[|line| - 1] == CR;
    assert (if strip then line[..|line| - 1] else line) == content[..Min(|content|, max)];
  }

  lemma RecordsAppend(done: seq<Bytes>, line: Bytes, max: nat, decode: Bytes -> Bytes)
    ensures Records(done, max, decode) + [Record(line, max, decode)] == Records(done + [line], max, decode)
  {
  }

  lemma ExtendHolds(before: Bytes, b: byte, line: Bytes, discarded: nat, last: Option<byte>, max: nat)
    requires |before| < max ==> line == before + [b] && discarded == 0
    requires |before| >= max ==>
              line == before[..max] && discarded == Min(|before| + 1 - max, U64_MAX) && last == Some(b)
    ensures Holds(before + [b], line, discarded, last, max)
  {
  }

  /** The lines of the input are those done, then those of the current line and the rest. */
  ghost predicate Remaining(all: seq<Bytes>, done: seq<Bytes>, current: Bytes, rest: Bytes) {
    all == done + LinesAfter(current, rest)
  }

  lemma RemainingAfterByte(all: seq<Bytes>, done: seq<Bytes>, current: Bytes, chunk: Bytes, j: nat, later: Bytes)
    requires j < |chunk| && Remaining(all, done, current, chunk[j..] + later)
    ensures if chunk[j] == LF then Remaining(all, done + [current], [], chunk[j + 1..] + later)
            else Remaining(all, done, current + [chunk[j]], chunk[j + 1..] + later)
  {
    assert (chunk[j..] + later)[0] == chunk[j];
    assert (chunk[j..] + later)[1..] == chunk[j + 1..] + later;
  }

  /** The loop's variables, with the line they stand for. */
  datatype Progress = Progress(line: Bytes, discarded: nat, last: Option<byte>, records: seq<Bytes>)

  ghost predicate InStep(p: Progress, done: seq<Bytes>, current: Bytes, max: nat, decode: Bytes -> Bytes) {
    Holds(current, p.line, p.discarded, p.last, max) && p.records == Records(done, max, decode)
  }

  function Publish(p: Progress, max: nat, decode: Bytes -> Bytes): Progress {
    Progress([], 0, None, p.records + [Published(p.line, p.discarded, p.last, max, decode)])
  }

  lemma PublishInStep(p: Progress, done: seq<Bytes>, current: Bytes, max: nat, decode: Bytes -> Bytes)
    requires InStep(p, done, current, max, decode)
    ensures InStep(Publish(p, max, decode), done + [current], [], max, decode)
  {
    PublishedIsRecord(current, p.line, p.discarded, p.last, max, decode);
    RecordsAppend(done, current, max, decode);
  }

  /** One read's worth of bytes. */
  method FeedChunk(p0: Progress, chunk: Bytes, max: nat, decode: Bytes -> Bytes,
                   ghost all: seq<Bytes>, ghost done0: seq<Bytes>, ghost current0: Bytes, ghost later: Bytes)
    returns (p: Progress, ghost done: seq<Bytes>, ghost current: Bytes)
    requires InStep(p0, done0, current0, max, decode) && Remaining(all, done0, current0, chunk + later)
    ensures InStep(p, done, current, max, decode) && Remaining(all, done, current, later)
  {
    p, done, current := p0, done0, current0;
    assert chunk[0..] == chunk;
    for j := 0 to |chunk|
      invariant InStep(p, done, current, max, decode)
      invariant Remaining(all, done, current, chunk[j..] + later)
    {
      RemainingAfterByte(all, done, current, chunk, j, later);
      if chunk[j] == LF {
        PublishInStep(p, done, current, max, decode);
        p := Publish(p, max, decode);
        done, current := done + [current], [];
      } else {
        ghost var before := current;
        current := current + [chunk[j]];
        if |p.line| < max {
          p := p.(line := p.line + [chunk[j]]);
        } else {
          p := p.(discarded := SaturatingAdd(p.discarded, 1), last := Some(chunk[j]));
        }
        ExtendHolds(before, chunk[j], p.line, p.discarded, p.last, max);
      }
    }
    assert chunk[|chunk|..] + later == later;
  }

  /** Main result. For every byte stream and every fragmentation of the reads, the splitter
      publishes exactly one record per physical line, equal to that line's record. */
  method CollectLogStream(fragments: seq<Bytes>, max: nat, decode: Bytes -> Bytes) returns (records: seq<Bytes>)
    ensures records == Records(Lines(Flatten(fragments)), max, decode)
  {
    var p := Progress([], 0, None, []);
    ghost var all, done, current := Lines(Flatten(fragments)), [], [];
    assert fragments[0..] == fragments;
    for i := 0 to |fragments|
      invariant InStep(p, done, current, max, decode)
      invariant Remaining(all, done, current, Flatten(fragments[i..]))
    {
      assert fragments[i..][1..] == fragments[i + 1..];
      p, done, current := FeedChunk(p, fragments[i], max, decode, all, done, current, Flatten(fragments[i + 1..]));
    }
    assert current != [] <==> p.line != [] || p.discarded > 0;
    if p.line != [] || p.discarded > 0 {
      PublishInStep(p, done, current, max, decode);
      p := Publish(p, max, decode);
    } else {
      assert done + [] == done;
    }
    records := p.records;
  }

  // ---------------------------------------------------------------------------
  // What the lines are
  // ---------------------------------------------------------------------------

  /** Putting the line feeds back gives the input, up to the last line's missing one. */
  function Unlines(lines: seq<Bytes>): Bytes {
    if lines == [] then [] else lines[0] + [LF] + Unlines(lines[1..])
  }

  /** The input, with a line feed at its end unless it is empty. */
  function Ended(whole: Bytes): Bytes {
    if whole == [] || whole[|whole| - 1] == LF then whole else whole + [LF]
  }

  lemma UnlinesCons(line: Bytes, tail: seq<Bytes>)
    ensures Unlines([line] + tail) == line + [LF] + Unlines(tail)
  {
    assert ([line] + tail)[1..] == tail;
  }

  lemma EndedAfterLine(line: Bytes, tail: Bytes)
    ensures Ended(line + [LF] + tail) == line + [LF] + Ended(tail)
  {
    var whole := line + [LF] + tail;
    if tail == [] {
      assert whole[|whole| - 1] == LF;
    } else {
      assert whole[|whole| - 1] == tail[|tail| - 1];
      assert line + [LF] + (tail + [LF]) == whole + [LF];
    }
  }

  lemma EndedLine(line: Bytes)
    requires LF !in line && line != []
    ensures Unlines([line]) == Ended(line)
  {
    UnlinesCons(line, []);
    assert [line] + [] == [line];
    assert line[|line| - 1] in line;
    assert line + [LF] + [] == line + [LF];
  }

  lemma {:induction false} LinesRebuildTheStream(current: Bytes, rest: Bytes)
    requires LF !in current
    ensures var lines := LinesAfter(current, rest);
            && (forall i :: 0 <= i < |lines| ==> LF !in lines[i])
            && Unlines(lines) == Ended(current + rest)
    decreases |rest|
  {
    if rest == [] {
      assert current + rest == current;
      if current != [] {
        EndedLine(current);
      }
    } else if rest[0] == LF {
      var tail := rest[1..];
      LinesRebuildTheStream([], tail);
      assert [] + tail == tail;
      assert current + rest == current + [LF] + tail;
      UnlinesCons(current, LinesAfter([], tail));
      EndedAfterLine(current, tail);
    } else {
      LinesRebuildTheStream(current + [rest[0]], rest[1..]);
      assert current + [rest[0]] + rest[1..] == current + rest;
    }
  }
}
