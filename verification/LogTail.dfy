/**
  * The incremental tail reader behind `status --watch`: a byte watermark, a held-back
  * partial line and a streaming decoder, against the whole file decoded and split at once.
  */
module LogTail {
  import opened Wrappers
  import opened Utf8
  import opened TextDecoding
  import opened Framing

  const FULL_READ_CAP_BYTES: nat := 8 * 1024 * 1024

  // ---------------------------------------------------------------- lines, as the code computes them

  /** `raw.replace(/\r\n/g, "\n")`. */
  function Normalize(s: Text): Text {
    if s == [] then []
    else if |s| >= 2 && s[0] == CR && s[1] == LF then [LF] + Normalize(s[2..])
    else [s[0]] + Normalize(s[1..])
  }

  /** `raw.split("\n")`. */
  function Split(s: Text): (segments: seq<Text>)
    ensures segments != []
  {
    if s == [] then [[]]
    else
      var rest := Split(s[1..]);
      if s[0] == LF then [[]] + rest else [[s[0]] + rest[0]] + rest[1..]
  }

  /** The torn-line guard: drop everything up to the first newline, if there is one. */
  function DropTorn(s: Text): Text {
    if IndexOf(s, LF) < |s| then s[IndexOf(s, LF) + 1..] else s
  }

  // ---------------------------------------------------------------- lines, as a reader of the file sees them

  /** A line's own text: one carriage return before the newline belongs to the line end. */
  function Chop(line: Text): Text {
    if line != [] && line[|line| - 1] == CR then line[..|line| - 1] else line
  }

  function ChopAll(lines: seq<Text>): seq<Text> {
    if lines == [] then [] else [Chop(lines[0])] + ChopAll(lines[1..])
  }

  /** The newline-terminated lines of a text, and what follows the last newline. */
  function Lines(s: Text): seq<Text> {
    ChopAll(Frames(s, LF))
  }

  function Rest(s: Text): Text {
    Remainder(s, LF)
  }

  lemma LinesCons(a: Text, b: Text)
    requires LF !in a
    ensures Lines(a + [LF] + b) == [Chop(a)] + Lines(b)
    ensures Rest(a + [LF] + b) == Rest(b)
    ensures Lines(a) == [] && Rest(a) == a
  {
    FramesCons(a, LF, b);
    assert ([a] + Frames(b, LF))[1..] == Frames(b, LF);
  }

  lemma {:induction false} ChopAllConcat(a: seq<Text>, b: seq<Text>)
    ensures ChopAll(a + b) == ChopAll(a) + ChopAll(b)
  {
    if a == [] {
      assert a + b == b;
    } else {
      assert (a + b)[1..] == a[1..] + b;
      ChopAllConcat(a[1..], b);
    }
  }

  /** Reading a text in two pieces, with the fragment held back in between, finds the same lines. */
  lemma LinesConcat(s: Text, t: Text)
    ensures Lines(s + t) == Lines(s) + Lines(Rest(s) + t)
    ensures Rest(s + t) == Rest(Rest(s) + t)
  {
    FramesConcat(s, t, LF);
    ChopAllConcat(Frames(s, LF), Frames(Rest(s) + t, LF));
  }

  lemma NormalizeStep(x: int, s: Text)
    ensures s == [] || s[0] != LF || x != CR ==> Normalize([x] + s) == [x] + Normalize(s)
    ensures s != [] && s[0] == LF && x == CR ==> Normalize([x] + s) == [LF] + Normalize(s[1..])
  {
    assert ([x] + s)[1..] == s;
    assert s != [] ==> ([x] + s)[2..] == s[1..];
  }

  lemma {:induction false} NormalizeLine(a: Text, b: Text)
    requires LF !in a
    ensures Normalize(a + [LF] + b) == Chop(a) + [LF] + Normalize(b)
    ensures Normalize(a) == a
    decreases |a|
  {
    hide Normalize;
    if a == [] {
      NormalizeStep(LF, b);
      assert a + [LF] + b == [LF] + b;
      NormalizeEmpty();
    } else {
      var tail := a[1..] + [LF] + b;
      assert a == [a[0]] + a[1..] && a + [LF] + b == [a[0]] + tail;
      NormalizeStep(a[0], tail);
      NormalizeStep(a[0], a[1..]);
      NormalizeLine(a[1..], b);
      if a == [CR] {
        assert tail[1..] == b;
      } else {
        assert tail[0] == LF ==> a[1..] == [];
        assert Chop(a) == [a[0]] + Chop(a[1..]);
      }
    }
  }

  lemma NormalizeEmpty()
    ensures Normalize([]) == []
  {
  }

  lemma {:induction false} SplitLine(a: Text, b: Text)
    requires LF !in a
    ensures Split(a + [LF] + b) == [a] + Split(b)
    ensures Split(a) == [a]
    decreases |a|
  {
    var s := a + [LF] + b;
    if a == [] {
      assert s == [LF] + b && s[1..] == b;
    } else {
      SplitLine(a[1..], b);
      assert s[1..] == a[1..] + [LF] + b && s[0] == a[0];
      assert [a[0]] + a[1..] == a;
    }
  }

  /** Normalizing and splitting computes exactly the lines and the fragment after the last newline. */
  lemma {:induction false} SplitComputesLines(s: Text)
    ensures Split(Normalize(s)) == Lines(s) + [Rest(s)]
    decreases |s|
  {
    if LF in s {
      var a, b := FirstFrame(s, LF);
      NormalizeLine(a, b);
      SplitComputesLines(b);
      SplitLine(Chop(a), Normalize(b));
      LinesCons(a, b);
    } else {
      NormalizeLine(s, []);
      SplitLine(s, []);
      LinesCons(s, []);
    }
  }

  // ---------------------------------------------------------------- one read

  /** What `statSync` and `openSync` find under the log's name. */
  datatype LogFile = Missing | Unreadable(size: nat) | Log(bytes: seq<Byte>)

  /** What the caller threads from tick to tick; `decoder` is optional. */
  datatype Tail = Tail(offset: nat, pending: Text, decoder: Option<Decoder>) {
    predicate Valid() {
      decoder.Some? ==> decoder.value.Valid()
    }
  }

  datatype TailRead = TailRead(lines: seq<Text>, tail: Tail, decoderReset: bool)

  function SizeOf(file: LogFile): nat
    requires !file.Missing?
  {
    if file.Unreadable? then file.size else |file.bytes|
  }

  /** The decoder and the text of `buf`, after a reset if the bytes do not continue the last read. */
  function DecodeBuffer(decoder: Option<Decoder>, discontinuity: bool, buf: seq<Byte>): (Option<Decoder>, Text)
    requires decoder.Some? ==> decoder.value.Valid()
  {
    if decoder.None? then (None, BufferToString(buf))
    else
      var r := DecodeText(if discontinuity then FRESH else decoder.value, buf);
      (Some(r.0), r.1)
  }

  /** The read itself: at most the cap, from the watermark or, past a burst, from the end. */
  function ReadFrom(bytes: seq<Byte>, from: Tail, truncated: bool): TailRead
    requires from.Valid() && from.offset < |bytes|
  {
    var overrun := |bytes| - from.offset > FULL_READ_CAP_BYTES;
    var start := if overrun then |bytes| - FULL_READ_CAP_BYTES else from.offset;
    var (decoder, decoded) := DecodeBuffer(from.decoder, truncated || overrun, bytes[start..]);
    var raw := if overrun then DropTorn(decoded) else from.pending + decoded;
    TailRead(Lines(raw), Tail(|bytes|, Rest(raw), decoder), truncated || overrun)
  }

  function ReadTail(file: LogFile, t: Tail): TailRead
    requires t.Valid()
  {
    if file.Missing? then TailRead([], t, false)
    else
      var truncated := SizeOf(file) < t.offset;
      var from := if truncated then t.(offset := 0, pending := []) else t;
      if SizeOf(file) == from.offset || file.Unreadable? then TailRead([], from, false)
      else ReadFrom(file.bytes, from, truncated)
  }

  function View(decoder: TextDecoder?): Option<Decoder>
    reads decoder
  {
    if decoder == null then None else Some(decoder.Value())
  }

  /** Reset on a discontinuity, then decode: with the caller's decoder if there is one. */
  method DecodeInto(decoder: TextDecoder?, discontinuity: bool, buf: seq<Byte>) returns (decoded: Text)
    requires decoder != null ==> decoder.Value().Valid()
    modifies decoder
    ensures decoder != null ==> decoder.Value().Valid()
    ensures (View(decoder), decoded) == DecodeBuffer(old(View(decoder)), discontinuity, buf)
  {
    if decoder == null {
      return BufferToString(buf);
    }
    if discontinuity {
      decoder.Finish();
    }
    decoded := decoder.DecodeStream(buf);
  }

  /** `segments = raw.replace(...).split("\n")`, the last one popped off as the new partial line. */
  method SplitOff(raw: Text) returns (lines: seq<Text>, pending: Text)
    ensures lines == Lines(raw) && pending == Rest(raw)
  {
    SplitComputesLines(raw);
    var segments := Split(Normalize(raw));
    lines, pending := segments[..|segments| - 1], segments[|segments| - 1];
  }

  /** The part of the reader after the size checks. */
  method ReadBytes(bytes: seq<Byte>, lastOffset: nat, pendingPartial: Text, decoder: TextDecoder?, truncated: bool)
    returns (lines: seq<Text>, newPending: Text, decoderReset: bool)
    requires decoder != null ==> decoder.Value().Valid()
    requires lastOffset < |bytes|
    modifies decoder
    ensures decoder != null ==> decoder.Value().Valid()
    ensures TailRead(lines, Tail(|bytes|, newPending, View(decoder)), decoderReset)
      == old(ReadFrom(bytes, Tail(lastOffset, pendingPartial, View(decoder)), truncated))
  {
    var readLen := |bytes| - lastOffset;
    var cappedLen := if readLen <= FULL_READ_CAP_BYTES then readLen else FULL_READ_CAP_BYTES;
    decoderReset := truncated || cappedLen < readLen;
    var start := |bytes| - cappedLen;
    var decoded := DecodeInto(decoder, decoderReset, bytes[start..]);
    var raw;
    if cappedLen < readLen {
      raw := DropTorn(decoded);
    } else {
      raw := pendingPartial + decoded;
    }
    lines, newPending := SplitOff(raw);
  }

  method ReadLogTailFromOffset(file: LogFile, lastOffset: nat, pendingPartial: Text, decoder: TextDecoder?)
    returns (lines: seq<Text>, nextOffset: nat, newPending: Text, decoderReset: bool)
    requires decoder != null ==> decoder.Value().Valid()
    modifies decoder
    ensures decoder != null ==> decoder.Value().Valid()
    ensures TailRead(lines, Tail(nextOffset, newPending, View(decoder)), decoderReset)
      == old(ReadTail(file, Tail(lastOffset, pendingPartial, View(decoder))))
  {
    lines, nextOffset, newPending, decoderReset := [], lastOffset, pendingPartial, false;
    if file.Missing? {
      return;
    }
    var truncated := SizeOf(file) < nextOffset;
    if truncated {
      nextOffset, newPending := 0, [];
    }
    if SizeOf(file) == nextOffset || file.Unreadable? {
      return;
    }
    lines, newPending, decoderReset := ReadBytes(file.bytes, nextOffset, newPending, decoder, truncated);
    nextOffset := SizeOf(file);
  }
}
