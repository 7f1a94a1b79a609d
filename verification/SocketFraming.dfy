/** The broker's per-socket frame loop: chunks in, newline-terminated frames out, bounded by a cap. */
module SocketFraming {
  import opened Wrappers
  import opened Framing
  import opened ProtocolLines

  const MAX_JSONL_LINE_BYTES: nat := 16 * 1024 * 1024

  const NEWLINE := '\n'

  /** What one chunk yields: the complete lines, the new buffer, and whether the frame cap was exceeded. */
  datatype Fed = Fed(lines: seq<string>, buffer: string, oversized: bool)

  predicate TooLong(buffer: string) {
    |buffer| > MAX_JSONL_LINE_BYTES && NEWLINE !in buffer
  }

  function Feed(buffer: string, chunk: string): Fed {
    var all := buffer + chunk;
    if TooLong(all) then Fed([], [], true) else Fed(Frames(all, NEWLINE), Remainder(all, NEWLINE), false)
  }

  function FeedAll(buffer: string, chunks: seq<string>): Fed
    decreases |chunks|
  {
    if chunks == [] then Fed([], buffer, false)
    else
      var now := Feed(buffer, chunks[0]);
      var later := FeedAll(now.buffer, chunks[1..]);
      Fed(now.lines + later.lines, later.buffer, now.oversized || later.oversized)
  }

  class LineFramer {
    var buffer: string

    constructor ()
      ensures buffer == []
    {
      buffer := [];
    }

    method ProcessSocketChunk(chunk: string) returns (lines: seq<string>, oversized: bool)
      modifies this
      ensures Fed(lines, buffer, oversized) == old(Feed(buffer, chunk))
    {
      hide Frames, Remainder;
      buffer := buffer + chunk;
      lines, oversized := [], false;
      var newlineIndex := IndexOf(buffer, NEWLINE);
      FramesStep(buffer, NEWLINE);
      if |buffer| > MAX_JSONL_LINE_BYTES && newlineIndex == |buffer| {
        buffer := [];
        return [], true;
      }
      ghost var all := buffer;
      assert [] + Frames(all, NEWLINE) == Frames(all, NEWLINE);
      while newlineIndex != |buffer|
        invariant newlineIndex == IndexOf(buffer, NEWLINE)
        invariant lines + Frames(buffer, NEWLINE) == Frames(all, NEWLINE)
        invariant Remainder(buffer, NEWLINE) == Remainder(all, NEWLINE)
        decreases |buffer|
      {
        FramesStep(buffer, NEWLINE);
        var line := buffer[..newlineIndex];
        ConcatAssoc(lines, [line], Frames(buffer[newlineIndex + 1..], NEWLINE));
        buffer := buffer[newlineIndex + 1..];
        newlineIndex := IndexOf(buffer, NEWLINE);
        lines := lines + [line];
      }
      FramesStep(buffer, NEWLINE);
      assert lines + [] == lines;
    }
  }

  // ---------------------------------------------------------------- any chunking

  /** Every frame, and the unfinished one at the end, is within the cap. */
  predicate FitsCap(stream: string) {
    && (forall m :: m in Frames(stream, NEWLINE) ==> |m| <= MAX_JSONL_LINE_BYTES)
    && |Remainder(stream, NEWLINE)| <= MAX_JSONL_LINE_BYTES
  }

  /** A piece without a newline at the start of a stream that fits is short enough. */
  lemma HeadFits(head: string, tail: string)
    requires FitsCap(head + tail) && NEWLINE !in head
    ensures |head| <= MAX_JSONL_LINE_BYTES
  {
    hide Frames, Remainder;
    var stream := head + tail;
    if NEWLINE in tail {
      var a, b := FirstFrame(tail, NEWLINE);
      ConcatAssoc(head, a + [NEWLINE], b);
      assert stream == (head + a) + [NEWLINE] + b;
      FramesCons(head + a, NEWLINE, b);
      assert head + a in Frames(stream, NEWLINE);
    } else {
      FramesCons(stream, NEWLINE, []);
    }
  }

  /** A stream that fits the cap yields its frames, whatever the chunks and however they are cut. */
  lemma {:induction false} ChunkingDoesNotMatter(buffer: string, chunks: seq<string>)
    requires NEWLINE !in buffer && FitsCap(buffer + Concat(chunks))
    ensures var stream := buffer + Concat(chunks);
      FeedAll(buffer, chunks) == Fed(Frames(stream, NEWLINE), Remainder(stream, NEWLINE), false)
    decreases |chunks|
  {
    if chunks == [] {
      assert buffer + Concat(chunks) == buffer;
      FramesCons(buffer, NEWLINE, []);
    } else {
      var all := buffer + chunks[0];
      var later := Concat(chunks[1..]);
      ConcatAssoc(buffer, chunks[0], later);
      if NEWLINE !in all {
        HeadFits(all, later);
      }
      FramesConcat(all, later, NEWLINE);
      RemainderHasNoSep(all, NEWLINE);
      var rest := Remainder(all, NEWLINE) + later;
      forall m | m in Frames(rest, NEWLINE)
        ensures |m| <= MAX_JSONL_LINE_BYTES
      {
        assert m in Frames(all, NEWLINE) + Frames(rest, NEWLINE);
      }
      ChunkingDoesNotMatter(Remainder(all, NEWLINE), chunks[1..]);
    }
  }

  /** The round trip: newline-free messages, terminated and cut anywhere, arrive one by one with nothing left over. */
  lemma MessagesArrive(messages: seq<string>, chunks: seq<string>)
    requires forall m :: m in messages ==> NEWLINE !in m && |m| <= MAX_JSONL_LINE_BYTES
    requires Concat(chunks) == Terminated(messages, NEWLINE)
    ensures FeedAll([], chunks) == Fed(messages, [], false)
  {
    FramesOfTerminated(messages, NEWLINE);
    assert [] + Concat(chunks) == Concat(chunks);
    ChunkingDoesNotMatter([], chunks);
  }

  lemma {:induction false} TerminatedConcat(a: seq<string>, b: seq<string>)
    ensures Terminated(a + b, NEWLINE) == Terminated(a, NEWLINE) + Terminated(b, NEWLINE)
  {
    if a == [] {
      assert a + b == b;
    } else {
      assert (a + b)[1..] == a[1..] + b && (a + b)[0] == a[0];
      TerminatedConcat(a[1..], b);
    }
  }

  /** The cap is exact: messages get through under every chunking if and only if none has more than 2^24 characters. */
  lemma EveryChunkingWorksIffWithinCap(messages: seq<string>)
    requires forall m :: m in messages ==> NEWLINE !in m
    ensures (forall chunks :: Concat(chunks) == Terminated(messages, NEWLINE) ==> !FeedAll([], chunks).oversized)
      <==> (forall m :: m in messages ==> |m| <= 0x100_0000)
  {
    if forall m :: m in messages ==> |m| <= MAX_JSONL_LINE_BYTES {
      forall chunks | Concat(chunks) == Terminated(messages, NEWLINE)
        ensures !FeedAll([], chunks).oversized
      {
        MessagesArrive(messages, chunks);
      }
    } else {
      var k :| 0 <= k < |messages| && |messages[k]| > MAX_JSONL_LINE_BYTES;
      var chunks := CutInside(messages, k);
      assert FeedAll([], chunks).oversized;
    }
  }

  /** A chunking that pauses right before the newline of message `k`. */
  lemma CutInside(messages: seq<string>, k: nat) returns (chunks: seq<string>)
    requires forall m :: m in messages ==> NEWLINE !in m
    requires k < |messages| && |messages[k]| > MAX_JSONL_LINE_BYTES
    ensures Concat(chunks) == Terminated(messages, NEWLINE) && FeedAll([], chunks).oversized
  {
    var before := Terminated(messages[..k], NEWLINE);
    var m := messages[k];
    var after := [NEWLINE] + Terminated(messages[k + 1..], NEWLINE);
    chunks := [before, m, after];
    assert messages == messages[..k] + ([m] + messages[k + 1..]);
    TerminatedConcat(messages[..k], [m] + messages[k + 1..]);
    assert ([m] + messages[k + 1..])[1..] == messages[k + 1..];
    ConcatThree(before, m, after);
    ConcatAssoc(m, [NEWLINE], Terminated(messages[k + 1..], NEWLINE));
    FramesOfTerminated(messages[..k], NEWLINE);
    assert [] + before == before && [] + m == m;
    assert !TooLong(before) by {
      if k > 0 {
        EndsWithNewline(messages[..k]);
      }
    }
    var first := Feed([], before);
    assert first.buffer == [];
    assert Feed([], m).oversized;
    assert chunks[1..][0] == m;
    assert FeedAll([], chunks[1..]).oversized;
  }

  lemma ConcatThree(a: string, b: string, c: string)
    ensures Concat([a, b, c]) == a + (b + c)
  {
    assert [a, b, c][1..] == [b, c] && [b, c][1..] == [c] && [c][1..] == [];
    assert Concat([c]) == c + Concat([]) == c;
    assert Concat([b, c]) == b + c;
  }

  lemma EndsWithNewline(messages: seq<string>)
    requires messages != []
    ensures NEWLINE in Terminated(messages, NEWLINE)
  {
    assert (messages[0] + [NEWLINE])[|messages[0]|] == NEWLINE;
    assert Terminated(messages, NEWLINE)[|messages[0]|] == NEWLINE;
  }

  // ---------------------------------------------------------------- frames and noise together

  /** A record with terminal noise around it, as it travels on one line. */
  datatype NoisyRecord = NoisyRecord(before: seq<Token>, record: string, after: seq<Token>)

  predicate Sendable(r: NoisyRecord) {
    && IsNoise(r.before) && IsNoise(r.after) && ESC !in r.record && StartsLikeJson(Trim(r.record))
    && NEWLINE !in OnWire(r) && |OnWire(r)| <= MAX_JSONL_LINE_BYTES
  }

  function OnWire(r: NoisyRecord): string {
    RenderAll(r.before) + r.record + RenderAll(r.after)
  }

  function MapWire(rs: seq<NoisyRecord>): seq<string> {
    seq(|rs|, i requires 0 <= i < |rs| => OnWire(rs[i]))
  }

  /**
    * End to end: records sent with noise around each, cut into any chunks, are the records the loop hands to the
    * parser.
    */
  lemma NoisyRecordsArrive(rs: seq<NoisyRecord>, chunks: seq<string>)
    requires forall r :: r in rs ==> Sendable(r)
    requires Concat(chunks) == Terminated(MapWire(rs), NEWLINE)
    ensures var fed := FeedAll([], chunks);
      && fed.buffer == [] && !fed.oversized && |fed.lines| == |rs|
      && forall i :: 0 <= i < |rs| ==> CleanProtocolLine(Some(fed.lines[i])) == Some(Trim(rs[i].record))
  {
    forall m | m in MapWire(rs)
      ensures NEWLINE !in m && |m| <= MAX_JSONL_LINE_BYTES
    {
      var i :| 0 <= i < |rs| && m == MapWire(rs)[i];
      assert Sendable(rs[i]);
    }
    MessagesArrive(MapWire(rs), chunks);
    forall i | 0 <= i < |rs|
      ensures CleanProtocolLine(Some(MapWire(rs)[i])) == Some(Trim(rs[i].record))
    {
      assert Sendable(rs[i]);
      NoisyRecordIsRecovered(rs[i].before, rs[i].record, rs[i].after);
    }
  }
}
