/**
  * The tail reader over many ticks: while the log only grows the emitted lines are the
  * lines of the whole file, and what each discontinuity does to that agreement.
  */
module LogTailRuns {
  import opened Wrappers
  import opened Utf8
  import opened TextDecoding
  import opened Framing
  import opened LogTail

  const START := Tail(0, [], Some(FRESH))

  /** The whole file decoded at once. */
  function TextOf(bytes: seq<Byte>): Text {
    DecodeText(FRESH, bytes).1
  }

  /** The reader is where a single read of all of `bytes` would have left it. */
  predicate Mirrors(t: Tail, bytes: seq<Byte>) {
    && t.offset == |bytes|
    && t.pending == Rest(TextOf(bytes))
    && t.decoder == Some(DecodeText(FRESH, bytes).0)
  }

  lemma TextOfConcat(a: seq<Byte>, b: seq<Byte>)
    ensures TextOf(a + b) == TextOf(a) + DecodeText(DecodeText(FRESH, a).0, b).1
    ensures Lines(TextOf(a + b)) == Lines(TextOf(a)) + Lines(Rest(TextOf(a)) + DecodeText(DecodeText(FRESH, a).0, b).1)
    ensures Rest(TextOf(a + b)) == Rest(Rest(TextOf(a)) + DecodeText(DecodeText(FRESH, a).0, b).1)
  {
    DecodeTextConcat(FRESH, a, b);
    LinesConcat(TextOf(a), DecodeText(DecodeText(FRESH, a).0, b).1);
  }

  /** One tick of growth within the cap: the new bytes' lines, no reset, and still in step with the file. */
  lemma TickWithinCap(t: Tail, bytes: seq<Byte>, added: seq<Byte>)
    requires Mirrors(t, bytes) && |added| <= FULL_READ_CAP_BYTES
    ensures var r := ReadTail(Log(bytes + added), t);
      && Mirrors(r.tail, bytes + added) && !r.decoderReset
      && Lines(TextOf(bytes + added)) == Lines(TextOf(bytes)) + r.lines
  {
    TextOfConcat(bytes, added);
    DecodeTextConcat(FRESH, bytes, added);
    if added == [] {
      assert bytes + added == bytes;
      assert Lines(TextOf(bytes)) + [] == Lines(TextOf(bytes));
    } else {
      assert (bytes + added)[|bytes|..] == added;
    }
  }

  // ---------------------------------------------------------------- runs

  /** What one tick may find when the log only grows: nothing new readable, or an extension within the cap. */
  predicate Grows(bytes: seq<Byte>, file: LogFile) {
    match file
    case Missing => true
    case Unreadable(size) => |bytes| <= size
    case Log(next) => bytes <= next && |next| - |bytes| <= FULL_READ_CAP_BYTES
  }

  predicate GrowsThroughout(bytes: seq<Byte>, files: seq<LogFile>)
    decreases |files|
  {
    files == [] || (Grows(bytes, files[0]) && GrowsThroughout(After(bytes, files[0]), files[1..]))
  }

  function After(bytes: seq<Byte>, file: LogFile): seq<Byte> {
    if file.Log? then file.bytes else bytes
  }

  function AfterAll(bytes: seq<Byte>, files: seq<LogFile>): seq<Byte>
    decreases |files|
  {
    if files == [] then bytes else AfterAll(After(bytes, files[0]), files[1..])
  }

  /** The reader called once per tick, its result threaded into the next call. */
  function Ticks(t: Tail, files: seq<LogFile>): (Tail, seq<Text>)
    requires t.Valid()
    decreases |files|
  {
    if files == [] then (t, [])
    else
      var r := ReadTail(files[0], t);
      var rest := Ticks(r.tail, files[1..]);
      (rest.0, r.lines + rest.1)
  }

  /**
    * Streaming equals batch: however the growth of the log is cut into ticks, inside a
    * character, between a carriage return and its newline, or with reads that fail, the
    * lines emitted over all ticks are the lines of the file decoded and split at once.
    */
  lemma {:induction false} StreamingEqualsBatch(t: Tail, bytes: seq<Byte>, files: seq<LogFile>)
    requires Mirrors(t, bytes) && GrowsThroughout(bytes, files)
    ensures var (t', lines) := Ticks(t, files); var whole := AfterAll(bytes, files);
      Mirrors(t', whole) && Lines(TextOf(whole)) == Lines(TextOf(bytes)) + lines
    decreases |files|
  {
    hide Lines, TextOf, ReadTail;
    if files == [] {
      assert Lines(TextOf(bytes)) + [] == Lines(TextOf(bytes));
    } else {
      var r := ReadTail(files[0], t);
      var next := After(bytes, files[0]);
      if files[0].Log? {
        var added := next[|bytes|..];
        assert next == bytes + added;
        TickWithinCap(t, bytes, added);
      } else {
        NothingRead(t, bytes, files[0]);
        assert Lines(TextOf(bytes)) + [] == Lines(TextOf(bytes));
      }
      StreamingEqualsBatch(r.tail, next, files[1..]);
      ConcatAssoc(Lines(TextOf(bytes)), r.lines, Ticks(r.tail, files[1..]).1);
    }
  }

  /** A tick that cannot read the log leaves the reader where it was. */
  lemma NothingRead(t: Tail, bytes: seq<Byte>, file: LogFile)
    requires Mirrors(t, bytes) && Grows(bytes, file) && !file.Log?
    ensures ReadTail(file, t).lines == [] && Mirrors(ReadTail(file, t).tail, bytes)
  {
  }

  /** From the first tick on an empty watermark, for a log that is the encoding of some text: its very lines. */
  lemma WatchedTextArrivesIntact(vs: Text, files: seq<LogFile>)
    requires forall v :: v in vs ==> IsScalar(v)
    requires vs == [] || vs[0] != BOM
    requires GrowsThroughout([], files) && AfterAll([], files) == EncodeAll(vs)
    ensures Ticks(START, files).1 == Lines(vs) && Ticks(START, files).0.pending == Rest(vs)
  {
    assert TextOf([]) == [] && Mirrors(START, []);
    StreamingEqualsBatch(START, [], files);
    DecodeEncodeAll(vs);
    EmitScalars(false, vs);
    assert Lines([]) + Ticks(START, files).1 == Ticks(START, files).1;
  }

  lemma {:induction false} EmitScalars(seen: bool, vs: Text)
    requires seen || vs == [] || vs[0] != BOM
    ensures Emit(seen, Scalars(vs)).1 == vs
    decreases |vs|
  {
    if vs != [] {
      assert Scalars(vs)[1..] == Scalars(vs[1..]);
      EmitScalars(true, vs[1..]);
    }
  }

  // ---------------------------------------------------------------- past the cap

  lemma DropTornAfter(a: Text, b: Text)
    requires a != [] && a[|a| - 1] == LF && LF !in a[..|a| - 1]
    ensures DropTorn(a + b) == b
  {
    var line := a[..|a| - 1];
    assert a + b == line + [LF] + b;
    IndexOfAt(line, LF, b);
  }

  /** Bytes that end in a newline leave the decoder at rest and nothing held back, whatever came before. */
  lemma EndsInNewline(d: Decoder, bytes: seq<Byte>)
    requires d.Valid()
    ensures var (d', text) := DecodeText(d, bytes + [LF]);
      && d' == Decoder(GROUND, true) && text != [] && text[|text| - 1] == LF && Rest(text) == []
      && (LF !in bytes ==> LF !in text[..|text| - 1])
  {
    DecodeTextConcat(d, bytes, [LF]);
    var (d1, text1) := DecodeText(d, bytes);
    NewlineForgets(d1);
    NewlineBytes(d, bytes);
    var nl := DecodeText(d1, [LF]).1;
    var front := nl[..|nl| - 1];
    assert nl == front + [LF];
    assert text1 + nl == (text1 + front) + [LF];
    LinesConcat(text1 + front, [LF]);
    var r := Rest(text1 + front);
    RemainderHasNoSep(text1 + front, LF);
    LinesCons(r, []);
    assert r + [LF] == r + [LF] + [];
  }

  /** Past the cap, with a newline in the slice: the read yields what follows that newline, decoded from rest. */
  lemma BurstReadsAfterNewline(t: Tail, skipped: seq<Byte>, torn: seq<Byte>, kept: seq<Byte>)
    requires t.Valid() && t.decoder.Some? && t.offset < |skipped|
    requires |torn + [LF] + kept| == FULL_READ_CAP_BYTES && LF !in torn
    ensures var whole := skipped + (torn + [LF] + kept);
      var (d, text) := DecodeText(Decoder(GROUND, true), kept);
      ReadTail(Log(whole), t) == TailRead(Lines(text), Tail(|whole|, Rest(text), Some(d)), true)
  {
    var slice := torn + [LF] + kept;
    var whole := skipped + slice;
    assert whole[|whole| - FULL_READ_CAP_BYTES..] == slice;
    EndsInNewline(FRESH, torn);
    DecodeTextConcat(FRESH, torn + [LF], kept);
    DropTornAfter(DecodeText(FRESH, torn + [LF]).1, DecodeText(Decoder(GROUND, true), kept).1);
  }

  /**
    * A burst past the cap whose slice holds a newline: only whole lines of the file
    * survive, they are exactly its last ones from the first newline of the slice on,
    * and the reader is back in step with the file.
    */
  lemma BurstKeepsWholeLines(t: Tail, skipped: seq<Byte>, torn: seq<Byte>, kept: seq<Byte>)
    requires t.Valid() && t.decoder.Some? && t.offset < |skipped|
    requires |torn + [LF] + kept| == FULL_READ_CAP_BYTES && LF !in torn
    ensures var whole := skipped + (torn + [LF] + kept); var r := ReadTail(Log(whole), t);
      && r.decoderReset && Mirrors(r.tail, whole)
      && Lines(TextOf(whole)) == Lines(TextOf(skipped + torn + [LF])) + r.lines
  {
    BurstReadsAfterNewline(t, skipped, torn, kept);
    hide ReadTail, Lines, Rest, DecodeText;
    var head := skipped + torn;
    ConcatAssoc(skipped, torn + [LF], kept);
    ConcatAssoc(skipped, torn, [LF]);
    EndsInNewline(FRESH, head);
    DecodeTextConcat(FRESH, head + [LF], kept);
    TextOfConcat(head + [LF], kept);
    var text := DecodeText(Decoder(GROUND, true), kept).1;
    assert [] + text == text;
  }

  /** Without a newline in the slice nothing is emitted, and all of it is kept as a line's beginning. */
  lemma BurstSliceBecomesPending(t: Tail, skipped: seq<Byte>, slice: seq<Byte>)
    requires t.Valid() && t.decoder.Some? && t.offset < |skipped|
    requires |slice| == FULL_READ_CAP_BYTES && LF !in slice
    ensures var r := ReadTail(Log(skipped + slice), t);
      r.lines == [] && r.tail == Tail(|skipped + slice|, TextOf(slice), Some(DecodeText(FRESH, slice).0))
  {
    var whole := skipped + slice;
    assert whole[|whole| - FULL_READ_CAP_BYTES..] == slice;
    NewlineBytes(FRESH, slice);
    IndexOfAt(TextOf(slice), LF, []);
    LinesCons(TextOf(slice), []);
  }

  /** What a reader in step with the file holds when the last newline is the one after `lines`. */
  lemma PendingAfterLastNewline(lines: seq<Byte>, tail: seq<Byte>)
    requires LF !in tail
    ensures var (d, text) := DecodeText(Decoder(GROUND, true), tail);
      DecodeText(FRESH, lines + [LF] + tail).0 == d && Rest(TextOf(lines + [LF] + tail)) == text
  {
    EndsInNewline(FRESH, lines);
    DecodeTextConcat(FRESH, lines + [LF], tail);
    TextOfConcat(lines + [LF], tail);
    var text := DecodeText(Decoder(GROUND, true), tail).1;
    NewlineBytes(Decoder(GROUND, true), tail);
    LinesCons(text, []);
    assert [] + text == text;
  }

  // ---------------------------------------------------------------- a burst without a newline

  /** A byte that can only continue a character. */
  predicate IsContinuation(b: Byte) {
    0x80 <= b <= 0xBF
  }

  const BOM_BYTES: seq<Byte> := [0xEF, 0xBB, 0xBF]

  /** A decoder with `rest` bytes to come shows something within that many. */
  lemma {:induction false} WaitingEnds(st: State, bytes: seq<Byte>)
    requires Reachable(st) && 0 < st.rest <= |bytes|
    ensures Decode(st, bytes).1 != []
    decreases |bytes|
  {
    var (st1, out1) := Step(st, bytes[0]);
    if out1 == [] {
      WaitingEnds(st1, bytes[1..]);
    }
  }

  lemma FourBytesShow(bytes: seq<Byte>)
    requires |bytes| >= 4
    ensures Decode(GROUND, bytes).1 != []
  {
    var (st1, out1) := StartByte(bytes[0]);
    if out1 == [] {
      WaitingEnds(st1, bytes[1..]);
    }
  }

  lemma BomIsEncoded()
    ensures Encode(BOM) == BOM_BYTES
  {
  }

  lemma BomBytesDecode(bytes: seq<Byte>)
    requires BOM_BYTES <= bytes
    ensures Decode(GROUND, bytes).1 != [] && Decode(GROUND, bytes).1[0] == Scalar(BOM)
  {
    BomIsEncoded();
    DecodeEncode(BOM);
    assert bytes == BOM_BYTES + bytes[3..];
    hide Decode, Encode;
    DecodeConcat(GROUND, BOM_BYTES, bytes[3..]);
  }

  /** The first character is a byte-order mark if and only if the first three bytes are. */
  lemma FirstIsBomIff(bytes: seq<Byte>)
    requires |bytes| >= 4
    ensures Decode(GROUND, bytes).1 != []
    ensures ValueOf(Decode(GROUND, bytes).1[0]) == BOM <==> BOM_BYTES <= bytes
  {
    FourBytesShow(bytes);
    hide Decode;
    if BOM_BYTES <= bytes {
      BomBytesDecode(bytes);
    } else if ValueOf(Decode(GROUND, bytes).1[0]) == BOM {
      BomFromBytes(bytes);
    }
  }

  /** The first item that waiting for `rest` more bytes ends in, if it is a byte-order mark. */
  lemma BomFromLast(st: State, bytes: seq<Byte>)
    requires Reachable(st) && st.rest == 1 && bytes != [] && Decode(st, bytes).1 != []
    ensures Decode(st, bytes).1[0] == Scalar(BOM) ==> st.acc * 64 + bytes[0] - 0x80 == BOM
  {
    DecodeFirst(st, bytes);
  }

  lemma BomFromTwo(st: State, bytes: seq<Byte>)
    requires Reachable(st) && st.rest == 2 && |bytes| >= 2 && Decode(st, bytes).1 != []
    ensures Decode(st, bytes).1[0] == Scalar(BOM) ==> (st.acc * 64 + bytes[0] - 0x80) * 64 + bytes[1] - 0x80 == BOM
  {
    DecodeFirst(st, bytes);
    var (st1, out1) := Step(st, bytes[0]);
    var rest := Decode(st1, bytes[1..]).1;
    hide Decode;
    if out1 == [] {
      assert out1 + rest == rest;
      BomFromLast(st1, bytes[1..]);
    }
  }

  lemma NoBomFromThree(st: State, bytes: seq<Byte>)
    requires Reachable(st) && st.rest == 3 && |bytes| >= 3 && Decode(st, bytes).1 != []
    ensures Decode(st, bytes).1[0] != Scalar(BOM)
  {
    DecodeFirst(st, bytes);
    var (st1, out1) := Step(st, bytes[0]);
    var rest := Decode(st1, bytes[1..]).1;
    hide Decode;
    if out1 == [] {
      assert out1 + rest == rest;
      BomFromTwo(st1, bytes[1..]);
    }
  }

  lemma BomFromBytes(bytes: seq<Byte>)
    requires |bytes| >= 4 && Decode(GROUND, bytes).1 != [] && Decode(GROUND, bytes).1[0] == Scalar(BOM)
    ensures BOM_BYTES <= bytes
  {
    DecodeFirst(GROUND, bytes);
    var (st1, out1) := StartByte(bytes[0]);
    var rest := Decode(st1, bytes[1..]).1;
    hide Decode;
    if out1 == [] {
      assert out1 + rest == rest;
      if st1.rest == 1 {
        BomFromLast(st1, bytes[1..]);
      } else if st1.rest == 2 {
        BomFromTwo(st1, bytes[1..]);
        assert bytes[1..][0] == bytes[1] && bytes[1..][1] == bytes[2];
      } else {
        NoBomFromThree(st1, bytes[1..]);
      }
    }
  }

  /** The text from a fresh start is the text from rest, less a byte-order mark that comes first. */
  lemma FreshDropsBom(slice: seq<Byte>)
    requires |slice| >= 4
    ensures var (f, text) := DecodeText(FRESH, slice); var (g, plain) := DecodeText(Decoder(GROUND, true), slice);
      && f == g && plain != [] && text == if BOM_BYTES <= slice then plain[1..] else plain
  {
    FirstIsBomIff(slice);
    var out := Decode(GROUND, slice).1;
    var rest := Emit(true, out[1..]).1;
    assert Emit(true, out).1 == [ValueOf(out[0])] + rest;
    assert ([ValueOf(out[0])] + rest)[1..] == rest;
    assert [] + rest == rest;
  }

  // ---- a cut inside a character

  /** How many leading bytes of `bytes` the character that `st` is waiting for takes. */
  function Taken(st: State, bytes: seq<Byte>): (n: nat)
    requires Reachable(st)
    ensures n <= st.rest && n <= |bytes|
    decreases |bytes|
  {
    if st.rest == 0 || bytes == [] || !(st.lower <= bytes[0] <= st.upper) then 0
    else 1 + Taken(Step(st, bytes[0]).0, bytes[1..])
  }

  /** What a piece of input that ends here emits. */
  function Ended(st: State, bytes: seq<Byte>): seq<Item>
    requires Reachable(st)
  {
    Decode(st, bytes).1 + Flush(Decode(st, bytes).0)
  }

  /** The unfinished character ends, whole or not, behind the bytes it takes; the rest is read from rest. */
  lemma {:induction false} TakenThenAfresh(st: State, bytes: seq<Byte>)
    requires Reachable(st) && |bytes| > st.rest
    ensures var n := Taken(st, bytes); var (g, out) := Decode(GROUND, bytes[n..]);
      Decode(st, bytes) == (g, Ended(st, bytes[..n]) + out)
    decreases |bytes|
  {
    var n, b := Taken(st, bytes), bytes[0];
    if n == 0 {
      assert bytes[..0] == [] && bytes[0..] == bytes;
      NoneTaken(st, bytes);
    } else {
      var st1 := Step(st, b).0;
      TakenThenAfresh(st1, bytes[1..]);
      assert bytes[1..][n - 1..] == bytes[n..];
      assert bytes[..n][1..] == bytes[1..][..n - 1] && bytes[..n][0] == b;
      DecodeFirst(st, bytes);
      DecodeFirst(st, bytes[..n]);
      hide Decode, Step, Taken;
      EndedStep(Step(st, b).1, Decode(st1, bytes[1..n]).1, Flush(Decode(st1, bytes[1..n]).0),
          Decode(GROUND, bytes[n..]).1);
    }
  }

  lemma EndedStep(a: seq<Item>, b: seq<Item>, c: seq<Item>, d: seq<Item>)
    ensures a + ((b + c) + d) == ((a + b) + c) + d
  {
  }

  lemma NoneTaken(st: State, bytes: seq<Byte>)
    requires Reachable(st) && bytes != [] && Taken(st, bytes) == 0
    ensures var (g, out) := Decode(GROUND, bytes); Decode(st, bytes) == (g, Ended(st, []) + out)
  {
    DecodeFirst(st, bytes);
    DecodeFirst(GROUND, bytes);
    var (st1, out1) := StartByte(bytes[0]);
    var out2 := Decode(st1, bytes[1..]).1;
    assert Ended(st, []) == Flush(st);
    hide Decode;
    if st.rest > 0 {
      assert ([Malformed] + out1) + out2 == [Malformed] + (out1 + out2);
    } else {
      assert [] + Decode(GROUND, bytes).1 == Decode(GROUND, bytes).1;
    }
  }

  lemma {:induction false} TakenContinue(st: State, bytes: seq<Byte>)
    requires Reachable(st)
    ensures forall i :: 0 <= i < Taken(st, bytes) ==> IsContinuation(bytes[i])
    decreases |bytes|
  {
    if Taken(st, bytes) > 0 {
      TakenContinue(Step(st, bytes[0]).0, bytes[1..]);
      assert forall i :: 1 <= i < |bytes| ==> bytes[i] == bytes[1..][i - 1];
    }
  }

  function Malformeds(n: nat): seq<Item> {
    seq(n, _ => Malformed)
  }

  function Replacements(n: nat): Text {
    seq(n, _ => REPLACEMENT)
  }

  /** On their own, each of those bytes is malformed. */
  lemma {:induction false} ContinuationsAreMalformed(bytes: seq<Byte>, n: nat)
    requires n <= |bytes| && forall i :: 0 <= i < n ==> IsContinuation(bytes[i])
    ensures var (g, out) := Decode(GROUND, bytes[n..]); Decode(GROUND, bytes) == (g, Malformeds(n) + out)
    decreases n
  {
    if n == 0 {
      assert bytes[0..] == bytes;
      assert Malformeds(0) + Decode(GROUND, bytes).1 == Decode(GROUND, bytes).1;
    } else {
      ContinuationsAreMalformed(bytes[1..], n - 1);
      DecodeFirst(GROUND, bytes);
      var out := Decode(GROUND, bytes[n..]).1;
      assert bytes[1..][n - 1..] == bytes[n..];
      assert [Malformed] + (Malformeds(n - 1) + out) == Malformeds(n) + out;
    }
  }

  lemma {:induction false} EmitSeen(out: seq<Item>)
    ensures Emit(true, out).0
    decreases |out|
  {
    if out != [] {
      EmitSeen(out[1..]);
    }
  }

  lemma {:induction false} EmitMalformeds(seen: bool, n: nat)
    ensures Emit(seen, Malformeds(n)) == (seen || n > 0, Replacements(n))
    decreases n
  {
    if n == 0 {
      assert Malformeds(0) == [] && Replacements(0) == [];
    } else {
      assert Malformeds(n)[1..] == Malformeds(n - 1);
      EmitMalformeds(true, n - 1);
      assert [REPLACEMENT] + Replacements(n - 1) == Replacements(n);
    }
  }

  /** The text of a piece of input that begins and ends here. */
  function TextAlone(seen: bool, bytes: seq<Byte>): Text {
    Emit(seen, Ended(GROUND, bytes)).1
  }

  /** `lost` is not silent: it emits something, now or at its end. */
  lemma LostShows(lost: seq<Byte>)
    requires lost != []
    ensures Ended(GROUND, lost) != []
  {
    if Decode(GROUND, lost).1 == [] {
      SilentStaysWaiting(GROUND, lost);
    }
  }

  lemma EndedConcat(lost: seq<Byte>, head: seq<Byte>)
    ensures Ended(GROUND, lost + head) == Decode(GROUND, lost).1 + Ended(Decode(GROUND, lost).0, head)
  {
    DecodeConcat(GROUND, lost, head);
    var (st, out) := Decode(GROUND, lost);
    var (st2, out2) := Decode(st, head);
    assert (out + out2) + Flush(st2) == out + (out2 + Flush(st2));
  }

  lemma WholeDecodesAs(lost: seq<Byte>, slice: seq<Byte>)
    requires |slice| >= 4
    ensures var n := Taken(Decode(GROUND, lost).0, slice); var (g, out) := Decode(GROUND, slice[n..]);
      Decode(GROUND, lost + slice) == (g, Ended(GROUND, lost + slice[..n]) + out)
  {
    hide Decode, Ended, Taken;
    var (st, out) := Decode(GROUND, lost);
    var n := Taken(st, slice);
    DecodeConcat(GROUND, lost, slice);
    TakenThenAfresh(st, slice);
    EndedConcat(lost, slice[..n]);
    ItemsAssoc(out, Ended(st, slice[..n]), Decode(GROUND, slice[n..]).1);
  }

  lemma ItemsAssoc(a: seq<Item>, b: seq<Item>, c: seq<Item>)
    ensures a + (b + c) == (a + b) + c
  {
  }

  /** What the whole line reads as: the torn part on its own, then the rest of the slice from rest. */
  lemma WholeReadsAs(seen: bool, lost: seq<Byte>, slice: seq<Byte>)
    requires |slice| >= 4 && (seen || lost != [])
    ensures var n := Taken(Decode(GROUND, lost).0, slice);
      var (g, rest) := DecodeText(Decoder(GROUND, true), slice[n..]);
      DecodeText(Decoder(GROUND, seen), lost + slice) == (g, TextAlone(seen, lost + slice[..n]) + rest)
  {
    hide Decode, Ended, Taken, Emit;
    var n := Taken(Decode(GROUND, lost).0, slice);
    WholeDecodesAs(lost, slice);
    if lost != [] {
      LostShows(lost + slice[..n]);
    }
    var ended := Ended(GROUND, lost + slice[..n]);
    EmitSome(seen, ended);
    EmitConcat(seen, ended, Decode(GROUND, slice[n..]).1);
  }

  lemma EmitSome(seen: bool, out: seq<Item>)
    ensures Emit(seen, out).0 == (seen || out != [])
  {
    if out != [] {
      EmitSeen(out[1..]);
    }
  }

  /** What the slice reads as on its own: every byte taken from it a replacement character. */
  lemma SliceReadsAs(st: State, slice: seq<Byte>)
    requires Reachable(st) && |slice| >= 4
    ensures var n := Taken(st, slice); var (g, rest) := DecodeText(Decoder(GROUND, true), slice[n..]);
      && (BOM_BYTES <= slice ==> n == 0 && rest != [])
      && DecodeText(FRESH, slice) == (g, if BOM_BYTES <= slice then rest[1..] else Replacements(n) + rest)
  {
    var n := Taken(st, slice);
    TakenContinue(st, slice);
    assert n > 0 ==> IsContinuation(slice[0]);
    if n == 0 {
      FreshDropsBom(slice);
      assert slice[0..] == slice;
      var plain := DecodeText(Decoder(GROUND, true), slice).1;
      assert Replacements(0) + plain == plain;
    } else {
      ContinuationsAreMalformed(slice, n);
      EmitMalformeds(false, n);
      EmitConcat(false, Malformeds(n), Decode(GROUND, slice[n..]).1);
    }
  }

  /**
    * The two readings agree if and only if the torn part reads as so many replacement characters, and no mark is
    * dropped.
    */
  lemma TornIff(seen: bool, lost: seq<Byte>, slice: seq<Byte>)
    requires |slice| >= 4 && (seen || lost != [])
    ensures var n := Taken(Decode(GROUND, lost).0, slice);
      DecodeText(Decoder(GROUND, seen), lost + slice) == DecodeText(FRESH, slice) <==>
        TextAlone(seen, lost + slice[..n]) == Replacements(n) && !(BOM_BYTES <= slice)
    ensures DecodeText(Decoder(GROUND, seen), lost + slice).0 == DecodeText(FRESH, slice).0
  {
    var st := Decode(GROUND, lost).0;
    var n := Taken(st, slice);
    WholeReadsAs(seen, lost, slice);
    SliceReadsAs(st, slice);
    hide *;
    var rest := DecodeText(Decoder(GROUND, true), slice[n..]).1;
    var torn := TextAlone(seen, lost + slice[..n]);
    if BOM_BYTES <= slice {
      assert |torn + rest| > |rest[1..]|;
    } else {
      SameFront(torn, Replacements(n), rest);
    }
  }

  lemma SameFront(a: Text, b: Text, rest: Text)
    ensures a + rest == b + rest <==> a == b
  {
    if a + rest == b + rest {
      assert |a| == |b|;
      assert a == (a + rest)[..|a|] == (b + rest)[..|b|] == b;
    }
  }

  /**
    * When the slice holds no newline the torn fragment is kept as if it were a line's beginning. Behind some earlier
    * line the reader is in step with the file exactly when the slice does not begin with a byte-order mark, which the
    * fresh decoder drops, and what was lost of the line, with the bytes of the slice that finish a character of it,
    * reads as one replacement character for each of those bytes. For a slice that begins with a character, and so
    * finishes none, that means that nothing of the line was lost.
    */
  lemma BurstWithoutNewlineTears(t: Tail, lines: seq<Byte>, lost: seq<Byte>, slice: seq<Byte>)
    requires t.Valid() && t.decoder.Some?
    requires |slice| == FULL_READ_CAP_BYTES && LF !in slice && LF !in lost
    requires t.offset < |lines + [LF] + lost|
    ensures var whole := lines + [LF] + lost + slice; var n := Taken(Decode(GROUND, lost).0, slice);
      && (Mirrors(ReadTail(Log(whole), t).tail, whole) <==>
            BufferToString(lost + slice[..n]) == Replacements(n) && !(BOM_BYTES <= slice))
      && (!IsContinuation(slice[0]) ==>
            (Mirrors(ReadTail(Log(whole), t).tail, whole) <==> lost == [] && !(BOM_BYTES <= slice)))
  {
    BurstSliceBecomesPending(t, lines + [LF] + lost, slice);
    PendingAfterLastNewline(lines, lost + slice);
    ConcatAssoc(lines + [LF], lost, slice);
    NothingTakenIff(lost, slice);
    hide Lines, Rest, TextOf, DecodeText, ReadTail, Taken, Decode, BufferToString, Replacements;
    TornIff(true, lost, slice);
  }

  /** For a slice that begins with a character, the torn part is all of what was lost. */
  lemma NothingTakenIff(lost: seq<Byte>, slice: seq<Byte>)
    requires slice != []
    ensures var n := Taken(Decode(GROUND, lost).0, slice); var torn := lost + slice[..n];
      && TextAlone(true, torn) == BufferToString(torn)
      && (!IsContinuation(slice[0]) ==>
            torn == lost && Replacements(n) == [] && (BufferToString(torn) == [] <==> lost == []))
  {
    var st := Decode(GROUND, lost).0;
    TakenContinue(st, slice);
    var n := Taken(st, slice);
    if n == 0 {
      assert lost + slice[..0] == lost && Replacements(0) == [];
      if lost != [] {
        LostShows(lost);
        EmitKeepsLength(Ended(GROUND, lost));
      }
    }
  }

  /** A piece that reads as nothing is a byte-order mark, which begins the stream. */
  lemma OnlyBomIsSilent(lost: seq<Byte>)
    requires lost != []
    ensures TextAlone(false, lost) == [] <==> lost == BOM_BYTES
  {
    LostShows(lost);
    var ended := Ended(GROUND, lost);
    EmitKeepsLength(ended[1..]);
    assert |ended| == 1 ==> ended[1..] == [];
    BomAlone(lost);
    hide Decode, Ended;
    if ended == [Scalar(BOM)] {
      assert ended[1..] == [];
    }
  }

  lemma BomAlone(lost: seq<Byte>)
    ensures Ended(GROUND, lost) == [Scalar(BOM)] <==> lost == BOM_BYTES
  {
    var (st, out) := Decode(GROUND, lost);
    if lost == BOM_BYTES {
      BomIsEncoded();
      DecodeEncode(BOM);
      assert out + [] == out;
    } else if st.rest > 0 {
      assert (out + [Malformed])[|out|] == Malformed;
    } else {
      assert out + [] == out;
      if out == [Scalar(BOM)] {
        CleanDecodeIsBom(lost);
      }
    }
  }

  lemma CleanDecodeIsBom(lost: seq<Byte>)
    requires Decode(GROUND, lost) == (GROUND, [Scalar(BOM)])
    ensures lost == BOM_BYTES
  {
    BomIsEncoded();
    CleanDecodeIsEncoding(lost);
  }

  /**
    * The same for a file without any earlier newline: what was skipped is then a part of the line. For a slice that
    * begins with a character the reader is in step with the file exactly when that part is the file's byte-order mark
    * and the slice does not begin with one.
    */
  lemma BurstInFirstLineTears(t: Tail, lost: seq<Byte>, slice: seq<Byte>)
    requires t.Valid() && t.decoder.Some?
    requires |slice| == FULL_READ_CAP_BYTES && LF !in slice && LF !in lost
    requires t.offset < |lost|
    ensures var n := Taken(Decode(GROUND, lost).0, slice);
      && (Mirrors(ReadTail(Log(lost + slice), t).tail, lost + slice) <==>
            TextAlone(false, lost + slice[..n]) == Replacements(n) && !(BOM_BYTES <= slice))
      && (!IsContinuation(slice[0]) ==>
            (Mirrors(ReadTail(Log(lost + slice), t).tail, lost + slice) <==>
                lost == BOM_BYTES && !(BOM_BYTES <= slice)))
  {
    BurstSliceBecomesPending(t, lost, slice);
    FirstLineIsPending(lost + slice);
    NothingTakenIff(lost, slice);
    OnlyBomIsSilent(lost);
    hide Lines, Rest, TextOf, DecodeText, ReadTail, Taken, Decode, BufferToString, TextAlone, Replacements;
    TornIff(false, lost, slice);
  }

  lemma FirstLineIsPending(bytes: seq<Byte>)
    requires LF !in bytes
    ensures Rest(TextOf(bytes)) == TextOf(bytes) == DecodeText(FRESH, bytes).1
  {
    NewlineBytes(FRESH, bytes);
    IndexOfAt(TextOf(bytes), LF, []);
    LinesCons(TextOf(bytes), []);
  }

  /** Such a cut can leave the reader in step: through a replacement character that the file itself holds. */
  lemma CutReplacementStaysInStep(t: Tail, lines: seq<Byte>, slice: seq<Byte>)
    requires t.Valid() && t.decoder.Some?
    requires |slice| == FULL_READ_CAP_BYTES && LF !in slice && slice[0] == 0xBD
    requires t.offset < |lines + [LF] + [0xEF, 0xBF]|
    ensures var whole := lines + [LF] + [0xEF, 0xBF] + slice; Mirrors(ReadTail(Log(whole), t).tail, whole)
  {
    var lost: seq<Byte> := [0xEF, 0xBF];
    ReplacementIsCut(slice);
    hide Mirrors, ReadTail, Taken, Decode, BufferToString;
    BurstWithoutNewlineTears(t, lines, lost, slice);
  }

  lemma ReplacementIsCut(slice: seq<Byte>)
    requires slice != [] && slice[0] == 0xBD
    ensures var lost: seq<Byte> := [0xEF, 0xBF]; var n := Taken(Decode(GROUND, lost).0, slice);
      n == 1 && BufferToString(lost + slice[..n]) == Replacements(1)
  {
    var lost: seq<Byte> := [0xEF, 0xBF];
    var st := State(2, 15, 0x80, 0xBF);
    assert lost[1..] == [0xBF] && lost[1..][1..] == [];
    assert Decode(st, [0xBF]) == (State(1, 1023, 0x80, 0xBF), []) by {
      DecodeOne(st, 0xBF);
    }
    assert Decode(GROUND, lost).0 == State(1, 1023, 0x80, 0xBF);
    assert lost + slice[..1] == Encode(REPLACEMENT);
    DecodeEncode(REPLACEMENT);
    assert [Scalar(REPLACEMENT)] + [] == [Scalar(REPLACEMENT)];
    EmitOne(true, Scalar(REPLACEMENT));
    assert Replacements(1) == [REPLACEMENT];
  }

  /** A decoder about to read an ASCII byte first reports an unfinished sequence and then starts from rest. */
  lemma AsciiStartsAfresh(d: Decoder, bytes: seq<Byte>)
    requires d.Valid() && bytes != [] && bytes[0] < 0x80
    ensures var (d', text) := DecodeText(d, bytes); var (g, plain) := DecodeText(Decoder(GROUND, true), bytes);
      d' == g && text == (if d.state.rest == 0 then [] else [REPLACEMENT]) + plain
  {
    assert bytes == [bytes[0]] + bytes[1..];
    DecodeTextConcat(d, [bytes[0]], bytes[1..]);
    DecodeTextConcat(Decoder(GROUND, true), [bytes[0]], bytes[1..]);
    OneAsciiByte(d, bytes[0]);
    OneAsciiByte(Decoder(GROUND, true), bytes[0]);
  }

  lemma OneAsciiByte(d: Decoder, b: Byte)
    requires d.Valid() && b < 0x80
    ensures DecodeText(d, [b]) == (Decoder(GROUND, true), if d.state.rest == 0 then [b] else [REPLACEMENT, b])
  {
    DecodeOne(d.state, b);
    EmitOne(d.bomSeen, Scalar(b));
    EmitOne(true, Scalar(b));
    if d.state.rest > 0 {
      var out := [Malformed] + [Scalar(b)];
      assert out[1..] == [Scalar(b)];
      assert Decode(d.state, [b]) == (GROUND, out);
      var both: Text := [REPLACEMENT, b];
      assert [REPLACEMENT] + [ValueOf(Scalar(b))] == both;
      assert Emit(d.bomSeen, out) == (true, both);
    }
  }

  lemma EmitOne(seen: bool, item: Item)
    requires ValueOf(item) != BOM
    ensures Emit(seen, [item]) == (true, [ValueOf(item)])
  {
    assert [item][1..] == [];
    assert [ValueOf(item)] + [] == [ValueOf(item)];
  }

  lemma {:induction false} SilentStaysWaiting(st: State, bytes: seq<Byte>)
    requires Reachable(st) && bytes != [] && Decode(st, bytes).1 == []
    ensures Decode(st, bytes).0.rest > 0
    decreases |bytes|
  {
    var (st1, out1) := Step(st, bytes[0]);
    assert out1 == [];
    if |bytes| > 1 {
      SilentStaysWaiting(st1, bytes[1..]);
    }
  }

  lemma {:induction false} EmitKeepsLength(out: seq<Item>)
    ensures |Emit(true, out).1| == |out|
    decreases |out|
  {
    if out != [] {
      EmitKeepsLength(out[1..]);
    }
  }

  // ---------------------------------------------------------------- truncation

  /** After a reported discontinuity the read depends on nothing but the watermark and the file. */
  lemma DiscontinuityForgets(bytes: seq<Byte>, t1: Tail, t2: Tail)
    requires t1.Valid() && t2.Valid() && t1.offset == t2.offset && t1.decoder.Some? && t2.decoder.Some?
    requires ReadTail(Log(bytes), t1).decoderReset
    ensures ReadTail(Log(bytes), t1) == ReadTail(Log(bytes), t2)
  {
  }

  /**
    * A file shorter than the watermark is read as a fresh reader would read it, exactly
    * when something of it can be read or the decoder was fresh anyway: a file cut down to
    * nothing, and one that cannot be opened, return before the decoder is reset, and do
    * not report the reset.
    */
  lemma TruncatedReadIsFreshIff(file: LogFile, t: Tail)
    requires t.Valid() && !file.Missing? && SizeOf(file) < t.offset
    ensures var r := ReadTail(file, t);
      var anew := ReadTail(file, Tail(0, [], if t.decoder.Some? then Some(FRESH) else None));
      (r.lines == anew.lines && r.tail == anew.tail) <==>
        ((file.Log? && file.bytes != []) || t.decoder.None? || t.decoder == Some(FRESH))
    ensures ReadTail(file, t).decoderReset <==> file.Log? && file.bytes != []
  {
  }

  /**
    * What one read reports and where it leaves the watermark, for every file: a reset exactly when something could be
    * read and the file had shrunk or had grown by more than eight mebibytes; the watermark at the end of a file that
    * could be read, at the beginning of one that shrank and could not, and where it was otherwise; and nothing read
    * means no lines, the same decoder, and the pending text kept unless the file shrank.
    */
  lemma ReadReports(file: LogFile, t: Tail)
    requires t.Valid()
    ensures var r := ReadTail(file, t);
      var size := if file.Missing? then t.offset else SizeOf(file);
      && (r.decoderReset <==>
            file.Log? && file.bytes != [] && (size < t.offset || size > t.offset + 8 * 1024 * 1024))
      && r.tail.offset == (if file.Log? then size else if size < t.offset then 0 else t.offset)
      && (!file.Log? || size == t.offset || size == 0 ==>
            && r.lines == [] && r.tail.decoder == t.decoder
            && r.tail.pending == if size < t.offset then [] else t.pending)
  {
    hide Lines, DecodeBuffer, DropTorn;
  }

  /**
    * What the missed reset does: the next line, read from the new file's very start, begins with a replacement
    * character that is not in it, and no reset is reported then either.
    */
  lemma MissedResetCorruptsNextLine(t: Tail, file: LogFile, line: seq<Byte>)
    requires t.Valid() && t.decoder.Some? && t.decoder.value.state.rest > 0
    requires !file.Missing? && SizeOf(file) < t.offset && (file.Unreadable? || file.bytes == [])
    requires LF !in line && line != [] && line[0] < 0x80 && |line| < FULL_READ_CAP_BYTES
    requires DecodeText(FRESH, line).0.state.rest == 0
    ensures var shrunk := ReadTail(file, t).tail; var r := ReadTail(Log(line + [LF]), shrunk);
      && r.lines == [Chop([REPLACEMENT] + TextOf(line))] && !r.decoderReset
      && Lines(TextOf(line + [LF])) == [Chop(TextOf(line))]
  {
    var d := t.decoder.value;
    AsciiStartsAfresh(d, line);
    AsciiStartsAfresh(FRESH, line);
    LineRead(d, line);
    LineRead(FRESH, line);
    assert (line + [LF])[0..] == line + [LF];
    assert [] + TextOf(line) == TextOf(line);
    var text := DecodeText(d, line + [LF]).1;
    assert [] + text == text;
  }

  /** A line and its newline, read by a decoder that is at rest after the line. */
  lemma LineRead(d: Decoder, line: seq<Byte>)
    requires d.Valid() && LF !in line
    ensures DecodeText(d, line).0.state.rest == 0 ==>
      Lines(DecodeText(d, line + [LF]).1) == [Chop(DecodeText(d, line).1)]
  {
    var (d1, text1) := DecodeText(d, line);
    DecodeTextConcat(d, line, [LF]);
    OneAsciiByte(d1, LF);
    NewlineBytes(d, line);
    if d1.state.rest == 0 {
      LinesCons(text1, []);
      assert text1 + [LF] + [] == text1 + [LF];
    }
  }
}
