/** Runs of one telemetry writer, and what the efficiency report reads back. */
module TelemetryRuns {
  import opened Wrappers
  import opened Counting
  import opened Telemetry

  /**
    * The writer's state, with every line it ever appended, everything its appends left in the files, the rotations
    * it made, and the markers it failed to write.
    */
  datatype Run = Run(state: State, history: seq<Entry>, pieces: seq<Piece>, rotations: nat, failedMarkers: nat)

  const NEW_RUN := Run(FRESH, [], [], 0, 0)

  function Bump(b: bool): nat {
    if b then 1 else 0
  }

  function Written(l: Ledger, maxBytes: nat, d: Disk, entry: Entry): seq<Entry> {
    if Write(l, maxBytes, d, entry).1 then [entry] else []
  }

  function Left(d: Disk, entry: Entry): seq<Piece> {
    if d.mkdirOk then Stored(d, entry) else []
  }

  /** The marker a call writes behind its own event, if one is due. */
  predicate MarkerDue(s: State, maxBytes: nat, c: Call) {
    !c.disabled && c.valid && Write(s.ledger, maxBytes, c.own, OwnEntry(c)).1 && s.pending > 0
  }

  function Next(r: Run, maxBytes: nat, c: Call): Run {
    var s := r.state;
    var s' := Emit(s, maxBytes, c).0;
    if c.disabled || !c.valid then r.(state := s')
    else
      var l := Write(s.ledger, maxBytes, c.own, OwnEntry(c)).0;
      var due := MarkerDue(s, maxBytes, c);
      var marker := Marker(s.pending, c.marker.size);
      Run(s',
          r.history + Written(s.ledger, maxBytes, c.own, OwnEntry(c))
              + if due then Written(l, maxBytes, c.marker, marker) else [],
          r.pieces + Left(c.own, OwnEntry(c)) + if due then Left(c.marker, marker) else [],
          r.rotations + Bump(Rotates(s.ledger, maxBytes, c.own)) + Bump(due && Rotates(l, maxBytes, c.marker)),
          r.failedMarkers + Bump(due && !Write(l, maxBytes, c.marker, marker).1))
  }

  function RunAll(maxBytes: nat, calls: seq<Call>): Run
    decreases |calls|
  {
    if calls == [] then NEW_RUN else Next(RunAll(maxBytes, calls[..|calls| - 1]), maxBytes, calls[|calls| - 1])
  }

  // ---------------------------------------------------------------- conservation

  function IsEvent(): Entry -> bool {
    (e: Entry) => e.Event?
  }

  function IsEnabled(): Call -> bool {
    (c: Call) => !c.disabled
  }

  /** What the markers report as lost. */
  function Dropped(entries: seq<Entry>): nat
    decreases |entries|
  {
    if entries == [] then 0
    else
      var last := entries[|entries| - 1];
      Dropped(entries[..|entries| - 1]) + if last.Marker? then last.dropped else 0
  }

  lemma {:induction false} DroppedConcat(a: seq<Entry>, b: seq<Entry>)
    ensures Dropped(a + b) == Dropped(a) + Dropped(b)
    decreases |b|
  {
    if b == [] {
      assert a + b == a;
    } else {
      DroppedConcat(a, b[..|b| - 1]);
      assert (a + b)[..|a + b| - 1] == a + b[..|b| - 1];
    }
  }

  function Balance(r: Run): int {
    Count(r.history, IsEvent()) + Dropped(r.history) + r.state.pending - r.failedMarkers
  }

  lemma BalanceIs(r: Run)
    ensures Balance(r) == Count(r.history, IsEvent()) + Dropped(r.history) + r.state.pending - r.failedMarkers
  {
  }

  lemma NextBalances(r: Run, maxBytes: nat, c: Call)
    ensures Balance(Next(r, maxBytes, c)) == Balance(r) + Bump(!c.disabled)
  {
    hide Write;
    var s := r.state;
    if !c.disabled && c.valid {
      var own := Written(s.ledger, maxBytes, c.own, OwnEntry(c));
      var l := Write(s.ledger, maxBytes, c.own, OwnEntry(c)).0;
      var entry := Marker(s.pending, c.marker.size);
      var marker := if MarkerDue(s, maxBytes, c) then Written(l, maxBytes, c.marker, entry) else [];
      CountConcat(r.history, own, IsEvent());
      CountConcat(r.history + own, marker, IsEvent());
      DroppedConcat(r.history, own);
      DroppedConcat(r.history + own, marker);
      CountOne(OwnEntry(c), IsEvent());
      CountOne(entry, IsEvent());
      CountNone([], IsEvent());
      assert [OwnEntry(c)][..0] == [] && [entry][..0] == [];
    }
  }

  lemma BalanceOfNothing()
    ensures Balance(NEW_RUN) == 0 && Count<Call>([], IsEnabled()) == 0
  {
  }

  lemma {:induction false} BalanceOfRun(maxBytes: nat, calls: seq<Call>)
    ensures Balance(RunAll(maxBytes, calls)) == Count(calls, IsEnabled())
    decreases |calls|
  {
    hide Next, Balance, Count;
    if calls == [] {
      BalanceOfNothing();
    } else {
      var front, c := calls[..|calls| - 1], calls[|calls| - 1];
      BalanceOfRun(maxBytes, front);
      NextBalances(RunAll(maxBytes, front), maxBytes, c);
      CountLast(front, c, IsEnabled());
      assert calls == front + [c];
    }
  }

  /**
    * Conservation, for every pattern of disk failures: the calls made with telemetry on are the events appended,
    * plus what the markers report, plus what is pending, less one for each marker that could not be written,
    * which was counted as a loss itself. So the plain balance holds if and only if no marker write failed.
    */
  lemma EveryEmitIsAccountedFor(maxBytes: nat, calls: seq<Call>)
    ensures var r := RunAll(maxBytes, calls);
      && Count(calls, IsEnabled()) ==
          Count(r.history, IsEvent()) + Dropped(r.history) + r.state.pending - r.failedMarkers
      && (Count(calls, IsEnabled()) == Count(r.history, IsEvent()) + Dropped(r.history) + r.state.pending <==>
          r.failedMarkers == 0)
  {
    hide RunAll, Balance, Count, Dropped;
    BalanceOfRun(maxBytes, calls);
    BalanceIs(RunAll(maxBytes, calls));
  }

  // ---------------------------------------------------------------- what is in the ledger

  /** The events of a list of lines, its markers left out. */
  function Events(entries: seq<Entry>): seq<Entry>
    decreases |entries|
  {
    if entries == [] then []
    else
      var last := entries[|entries| - 1];
      Events(entries[..|entries| - 1]) + if last.Event? then [last] else []
  }

  /** The events of the calls that could be written, in the order of the calls and as they were given. */
  function Emitted(calls: seq<Call>): seq<Entry>
    decreases |calls|
  {
    if calls == [] then []
    else
      var c := calls[|calls| - 1];
      Emitted(calls[..|calls| - 1])
      + if !c.disabled && c.valid && c.own.mkdirOk && c.own.appendOk
        then [Event(c.name, c.testOrigin, c.details, c.own.size)] else []
  }

  lemma {:induction false} EventsConcat(a: seq<Entry>, b: seq<Entry>)
    ensures Events(a + b) == Events(a) + Events(b)
    decreases |b|
  {
    if b == [] {
      assert a + b == a;
    } else {
      EventsConcat(a, b[..|b| - 1]);
      assert (a + b)[..|a + b| - 1] == a + b[..|b| - 1];
    }
  }

  lemma EventsOfOne(e: Entry)
    ensures Events([e]) == if e.Event? then [e] else []
  {
    assert [e][..0] == [];
  }

  lemma NextAddsItsEvent(r: Run, maxBytes: nat, c: Call)
    ensures Events(Next(r, maxBytes, c).history)
      == Events(r.history)
         + if !c.disabled && c.valid && c.own.mkdirOk && c.own.appendOk
           then [Event(c.name, c.testOrigin, c.details, c.own.size)] else []
  {
    hide Rotate, Rotates, Stored;
    var s := r.state;
    assert Events(r.history) + [] == Events(r.history);
    if !c.disabled && c.valid {
      var own := Written(s.ledger, maxBytes, c.own, OwnEntry(c));
      var l := Write(s.ledger, maxBytes, c.own, OwnEntry(c)).0;
      var entry := Marker(s.pending, c.marker.size);
      var marker := if MarkerDue(s, maxBytes, c) then Written(l, maxBytes, c.marker, entry) else [];
      EventsConcat(r.history, own);
      EventsConcat(r.history + own, marker);
      EventsOfOne(OwnEntry(c));
      EventsOfOne(entry);
      assert r.history + [] == r.history && r.history + own + [] == r.history + own;
    }
  }

  /** In every run the events appended are those of the calls that could be written, in order and as they were given. */
  lemma {:induction false} HistoryIsWhatWasEmitted(maxBytes: nat, calls: seq<Call>)
    ensures Events(RunAll(maxBytes, calls).history) == Emitted(calls)
    decreases |calls|
  {
    hide Next;
    if calls != [] {
      HistoryIsWhatWasEmitted(maxBytes, calls[..|calls| - 1]);
      NextAddsItsEvent(RunAll(maxBytes, calls[..|calls| - 1]), maxBytes, calls[|calls| - 1]);
    }
  }

  // ---------------------------------------------------------------- reading a segment

  /** The piece ends its line: no byte of it is missing. */
  predicate EndsLine(p: Piece) {
    p.bytes >= p.entry.size
  }

  /** The piece holds the whole record, the newline perhaps aside. A smaller part of a record is never JSON. */
  predicate HoldsRecord(p: Piece) {
    p.bytes + 1 >= p.entry.size
  }

  /** The lines of a file; a piece that does not end its line is glued to the next. */
  function FileLines(pieces: seq<Piece>): (lines: seq<seq<Piece>>)
    ensures forall i :: 0 <= i < |lines| ==> |lines[i]| > 0
  {
    if pieces == [] then []
    else
      var more := FileLines(pieces[1..]);
      if EndsLine(pieces[0]) || more == [] then [[pieces[0]]] + more
      else [[pieces[0]] + more[0]] + more[1..]
  }

  /** What `JSON.parse` accepts: one record; pieces that are glued together never are one. */
  predicate Parses(line: seq<Piece>) {
    |line| == 1 && HoldsRecord(line[0])
  }

  function EntriesOf(pieces: seq<Piece>): seq<Entry> {
    seq(|pieces|, i requires 0 <= i < |pieces| => pieces[i].entry)
  }

  predicate AllParse(lines: seq<seq<Piece>>) {
    forall line :: line in lines ==> Parses(line)
  }

  /** `readOneFile`: one line that does not parse, and the whole file reads as empty. */
  function ReadOneFile(pieces: seq<Piece>): seq<Entry> {
    var lines := FileLines(pieces);
    if AllParse(lines) then seq(|lines|, i requires 0 <= i < |lines| => lines[i][0].entry) else []
  }

  /** Every line but the last is whole, and the last misses its newline at most. */
  predicate Readable(pieces: seq<Piece>) {
    && (forall i :: 0 <= i < |pieces| - 1 ==> EndsLine(pieces[i]))
    && (pieces != [] ==> HoldsRecord(pieces[|pieces| - 1]))
  }

  /** The lines that were appended without an error. */
  function Appended(pieces: seq<Piece>): seq<Entry>
    decreases |pieces|
  {
    if pieces == [] then []
    else
      var last := pieces[|pieces| - 1];
      Appended(pieces[..|pieces| - 1]) + if last.appended then [last.entry] else []
  }

  lemma {:induction false} AppendedConcat(a: seq<Piece>, b: seq<Piece>)
    ensures Appended(a + b) == Appended(a) + Appended(b)
    decreases |b|
  {
    if b == [] {
      assert a + b == a;
    } else {
      AppendedConcat(a, b[..|b| - 1]);
      assert (a + b)[..|a + b| - 1] == a + b[..|b| - 1];
    }
  }

  predicate AllAppended(pieces: seq<Piece>) {
    forall p :: p in pieces ==> p.appended
  }

  /** What was appended without an error is all there. */
  predicate Sound(pieces: seq<Piece>) {
    forall p :: p in pieces && p.appended ==> EndsLine(p)
  }

  function Single(p: Piece): seq<Piece> {
    [p]
  }

  lemma {:induction false} LinesOfReadable(pieces: seq<Piece>)
    ensures AllParse(FileLines(pieces)) <==> Readable(pieces)
    ensures Readable(pieces) ==> FileLines(pieces) == seq(|pieces|, i requires 0 <= i < |pieces| => Single(pieces[i]))
    ensures pieces != [] ==> FileLines(pieces) != []
  {
    if pieces != [] {
      var p, rest := pieces[0], pieces[1..];
      LinesOfReadable(rest);
      var lines, more := FileLines(pieces), FileLines(rest);
      ReadableRest(p, rest);
      assert pieces == [p] + rest;
      if EndsLine(p) || more == [] {
        assert lines == [[p]] + more;
        FirstLineAlone(p, more);
      } else {
        assert lines[0] == [p] + more[0] && lines[0] in lines;
        assert !Parses(lines[0]);
      }
    }
  }

  lemma ReadableRest(p: Piece, rest: seq<Piece>)
    ensures EndsLine(p) || rest == [] ==> (Readable([p] + rest) <==> HoldsRecord(p) && Readable(rest))
    ensures !EndsLine(p) && rest != [] ==> !Readable([p] + rest)
  {
    var pieces := [p] + rest;
    assert forall i :: 0 <= i < |rest| ==> pieces[i + 1] == rest[i];
    assert pieces[0] == p;
    if Readable(rest) && EndsLine(p) {
      assert forall i :: 0 <= i < |pieces| - 1 ==> i == 0 || pieces[i] == rest[i - 1];
    }
    if Readable(pieces) && rest != [] {
      assert forall i :: 0 <= i < |rest| - 1 ==> rest[i] == pieces[i + 1] && EndsLine(pieces[i + 1]);
    }
  }

  lemma FirstLineAlone(p: Piece, more: seq<seq<Piece>>)
    ensures AllParse([[p]] + more) <==> HoldsRecord(p) && AllParse(more)
  {
    assert [p] in [[p]] + more;
    assert forall line :: line in more ==> line in [[p]] + more;
  }

  /** A file reads as all its records, also such as were counted as lost, or else as nothing at all. */
  lemma FileReadsAs(pieces: seq<Piece>)
    ensures ReadOneFile(pieces) == if Readable(pieces) then EntriesOf(pieces) else []
    ensures Readable(pieces) <==>
      forall i :: 0 <= i < |pieces| ==>
        pieces[i].bytes >= if i == |pieces| - 1 then pieces[i].entry.size - 1 else pieces[i].entry.size
  {
    LinesOfReadable(pieces);
  }

  lemma {:induction false} AppendedIsAllIff(pieces: seq<Piece>)
    ensures |Appended(pieces)| <= |pieces|
    ensures Appended(pieces) == EntriesOf(pieces) <==> AllAppended(pieces)
    ensures |Appended(pieces)| == |pieces| <==> AllAppended(pieces)
    decreases |pieces|
  {
    if pieces != [] {
      var front, last := pieces[..|pieces| - 1], pieces[|pieces| - 1];
      AppendedIsAllIff(front);
      assert pieces == front + [last];
      assert EntriesOf(pieces) == EntriesOf(front) + [last.entry];
    }
  }

  /** Only whole lines, or none that was appended, in a file that cannot be read. */
  predicate ReadsBack(pieces: seq<Piece>) {
    AllAppended(pieces) || (Appended(pieces) == [] && !Readable(pieces))
  }

  /**
    * A file gives back exactly what was appended to it if and only if no append to it failed on the way, or none
    * succeeded and it cannot be read. A torn line in front of another loses the whole file; one that misses its
    * newline at most is read although it was counted as lost.
    */
  lemma FileReadsBackIff(pieces: seq<Piece>)
    requires Sound(pieces)
    ensures ReadOneFile(pieces) == Appended(pieces) <==> ReadsBack(pieces)
  {
    FileReadsAs(pieces);
    AppendedIsAllIff(pieces);
    hide ReadOneFile, Appended;
    if AllAppended(pieces) {
      assert forall i :: 0 <= i < |pieces| ==> pieces[i] in pieces;
    }
  }

  // ---------------------------------------------------------------- rotation

  /** `readEvents`: the segment rotated out, then the current one. */
  function ReadEvents(l: Ledger): seq<Entry> {
    ReadOneFile(Segment(l.rotated)) + ReadOneFile(Segment(l.current))
  }

  function Held(l: Ledger): seq<Piece> {
    Segment(l.rotated) + Segment(l.current)
  }

  /**
    * The files hold the newest part of everything that was left in them; older segments went when a rotation replaced
    * them.
    */
  ghost predicate HoldsSuffix(l: Ledger, pieces: seq<Piece>, rotations: nat) {
    && (exists gone :: pieces == gone + Held(l) && (gone == [] <==> rotations <= 1))
    && (l.rotated.Some? <==> rotations > 0)
    && (l.rotated.Some? ==> l.rotated.value != [])
    && (l.current.Some? ==> l.current.value != [])
  }

  lemma RotateKeepsSuffix(l: Ledger, maxBytes: nat, d: Disk, pieces: seq<Piece>, rotations: nat)
    requires HoldsSuffix(l, pieces, rotations)
    ensures HoldsSuffix(Rotate(l, maxBytes, d), pieces, rotations + Bump(Rotates(l, maxBytes, d)))
  {
    hide Size;
    var gone :| pieces == gone + Held(l) && (gone == [] <==> rotations <= 1);
    if Rotates(l, maxBytes, d) {
      var gone1 := gone + Segment(l.rotated);
      assert pieces == gone1 + Held(Rotate(l, maxBytes, d));
    }
  }

  lemma AppendKeepsSuffix(l: Ledger, stored: seq<Piece>, pieces: seq<Piece>, rotations: nat)
    requires HoldsSuffix(l, pieces, rotations) && stored != []
    ensures HoldsSuffix(l.(current := Some(Segment(l.current) + stored)), pieces + stored, rotations)
  {
    var gone :| pieces == gone + Held(l) && (gone == [] <==> rotations <= 1);
    var l1 := l.(current := Some(Segment(l.current) + stored));
    assert Held(l1) == Held(l) + stored;
    assert pieces + stored == gone + Held(l1);
  }

  lemma WriteKeepsSuffix(l: Ledger, maxBytes: nat, d: Disk, entry: Entry, pieces: seq<Piece>, rotations: nat)
    requires HoldsSuffix(l, pieces, rotations)
    ensures HoldsSuffix(Write(l, maxBytes, d, entry).0, pieces + Left(d, entry),
                        rotations + Bump(Rotates(l, maxBytes, d)))
  {
    hide HoldsSuffix, Rotate, Stored;
    RotateKeepsSuffix(l, maxBytes, d, pieces, rotations);
    var stored := Stored(d, entry);
    assert pieces + [] == pieces;
    if !d.mkdirOk {
      RotatesNeedsDirectory(l, maxBytes, d);
    } else if stored != [] {
      AppendKeepsSuffix(Rotate(l, maxBytes, d), stored, pieces, rotations + Bump(Rotates(l, maxBytes, d)));
    }
  }

  lemma RotatesNeedsDirectory(l: Ledger, maxBytes: nat, d: Disk)
    requires !d.mkdirOk
    ensures !Rotates(l, maxBytes, d) && Rotate(l, maxBytes, d) == l
  {
  }

  lemma NextKeepsSuffix(r: Run, maxBytes: nat, c: Call)
    requires HoldsSuffix(r.state.ledger, r.pieces, r.rotations)
    ensures var next := Next(r, maxBytes, c); HoldsSuffix(next.state.ledger, next.pieces, next.rotations)
  {
    var s := r.state;
    if !c.disabled && c.valid {
      WriteKeepsSuffix(s.ledger, maxBytes, c.own, OwnEntry(c), r.pieces, r.rotations);
      hide Write, Rotates, HoldsSuffix, Left;
      var l := Write(s.ledger, maxBytes, c.own, OwnEntry(c)).0;
      var pieces := r.pieces + Left(c.own, OwnEntry(c));
      var rotations := r.rotations + Bump(Rotates(s.ledger, maxBytes, c.own));
      if MarkerDue(s, maxBytes, c) {
        WriteKeepsSuffix(l, maxBytes, c.marker, Marker(s.pending, c.marker.size), pieces, rotations);
      } else {
        assert pieces + [] == pieces;
      }
    }
  }

  /** What an append leaves is what it appended, if it did not fail. */
  lemma LeftIsWritten(l: Ledger, maxBytes: nat, d: Disk, entry: Entry)
    ensures Appended(Left(d, entry)) == Written(l, maxBytes, d, entry) && Sound(Left(d, entry))
  {
    var left := Left(d, entry);
    if left != [] {
      assert left[..0] == [];
      assert [] + [entry] == [entry];
    }
  }

  lemma SoundConcat(a: seq<Piece>, b: seq<Piece>)
    ensures Sound(a + b) <==> Sound(a) && Sound(b)
  {
    assert forall p :: p in a + b <==> p in a || p in b;
  }

  lemma NextKeepsHistory(r: Run, maxBytes: nat, c: Call)
    requires Appended(r.pieces) == r.history && Sound(r.pieces)
    ensures var next := Next(r, maxBytes, c); Appended(next.pieces) == next.history && Sound(next.pieces)
  {
    var s := r.state;
    if !c.disabled && c.valid {
      hide Appended, Sound, Left, Written, Write, Rotates;
      var l := Write(s.ledger, maxBytes, c.own, OwnEntry(c)).0;
      var marker := Marker(s.pending, c.marker.size);
      LeftIsWritten(s.ledger, maxBytes, c.own, OwnEntry(c));
      LeftIsWritten(l, maxBytes, c.marker, marker);
      var pieces := r.pieces + Left(c.own, OwnEntry(c));
      AppendedConcat(r.pieces, Left(c.own, OwnEntry(c)));
      SoundConcat(r.pieces, Left(c.own, OwnEntry(c)));
      AppendedConcat(pieces, Left(c.marker, marker));
      SoundConcat(pieces, Left(c.marker, marker));
      assert pieces + [] == pieces;
      var history := r.history + Written(s.ledger, maxBytes, c.own, OwnEntry(c));
      assert history + [] == history;
    }
  }

  lemma NewRunHolds()
    ensures HoldsSuffix(FRESH.ledger, [], 0) && Appended([]) == [] && Sound([])
  {
    assert [] == [] + Held(FRESH.ledger);
  }

  lemma {:induction false} RunHoldsSuffix(maxBytes: nat, calls: seq<Call>)
    ensures var r := RunAll(maxBytes, calls);
      HoldsSuffix(r.state.ledger, r.pieces, r.rotations) && Appended(r.pieces) == r.history && Sound(r.pieces)
    decreases |calls|
  {
    hide HoldsSuffix, Appended, Sound, Next;
    if calls == [] {
      NewRunHolds();
    } else {
      var front, c := calls[..|calls| - 1], calls[|calls| - 1];
      RunHoldsSuffix(maxBytes, front);
      NextKeepsSuffix(RunAll(maxBytes, front), maxBytes, c);
      NextKeepsHistory(RunAll(maxBytes, front), maxBytes, c);
    }
  }

  /**
    * In every run, whatever failing appends leave behind: each of the two files gives back exactly what was appended
    * to it if and only if no append to it left a torn line, or none succeeded and it cannot be read. If both do, the
    * reader sees the newest part of what was appended, in order; and with no torn line at all, it sees all of it if
    * and only if there was at most one rotation.
    */
  lemma ReaderSeesSuffix(maxBytes: nat, calls: seq<Call>)
    ensures var r := RunAll(maxBytes, calls); var l := r.state.ledger;
      && HoldsSuffix(l, r.pieces, r.rotations) && Appended(r.pieces) == r.history
      && (ReadOneFile(Segment(l.rotated)) == Appended(Segment(l.rotated)) <==> ReadsBack(Segment(l.rotated)))
      && (ReadOneFile(Segment(l.current)) == Appended(Segment(l.current)) <==> ReadsBack(Segment(l.current)))
      && (ReadsBack(Segment(l.rotated)) && ReadsBack(Segment(l.current)) ==>
            && (exists gone :: r.history == gone + ReadEvents(l) && (r.rotations <= 1 ==> gone == []))
            && Dropped(ReadEvents(l)) <= Dropped(r.history))
      && (AllAppended(r.pieces) ==> (ReadEvents(l) == r.history <==> r.rotations <= 1))
  {
    RunHoldsSuffix(maxBytes, calls);
    var r := RunAll(maxBytes, calls);
    var l := r.state.ledger;
    var gone :| r.pieces == gone + Held(l) && (gone == [] <==> r.rotations <= 1);
    SoundConcat(gone, Held(l));
    SoundConcat(Segment(l.rotated), Segment(l.current));
    FileReadsBackIff(Segment(l.rotated));
    FileReadsBackIff(Segment(l.current));
    AppendedConcat(gone, Held(l));
    if AllAppended(r.pieces) {
      AllAppendedParts(gone, Segment(l.rotated), Segment(l.current));
    }
    hide RunAll, HoldsSuffix, Sound, Appended, ReadOneFile, AllAppended;
    if ReadsBack(Segment(l.rotated)) && ReadsBack(Segment(l.current)) {
      EventsAreAppended(l);
      DroppedConcat(Appended(gone), ReadEvents(l));
      hide *;
      assert r.history == Appended(gone) + ReadEvents(l);
      NothingGone(gone);
      SuffixIsAllIff(Appended(gone), ReadEvents(l));
    }
  }

  lemma EventsAreAppended(l: Ledger)
    requires ReadOneFile(Segment(l.rotated)) == Appended(Segment(l.rotated))
    requires ReadOneFile(Segment(l.current)) == Appended(Segment(l.current))
    ensures ReadEvents(l) == Appended(Held(l))
  {
    AppendedConcat(Segment(l.rotated), Segment(l.current));
  }

  /**
    * An emit answers true exactly when its own line went out whole; otherwise, unless telemetry is off, one more loss
    * is pending. A line that went out settles all losses pending before, by a marker that goes out too; one that does
    * not adds itself.
    */
  lemma EmitTellsWhetherItWrote(s: State, maxBytes: nat, c: Call)
    ensures var (s', ok) := Emit(s, maxBytes, c);
      && (ok <==> !c.disabled && c.valid && c.own.mkdirOk && c.own.appendOk)
      && (!ok ==> s'.pending == if c.disabled then s.pending else s.pending + 1)
      && (ok ==> s'.pending == if s.pending == 0 || (c.marker.mkdirOk && c.marker.appendOk) then 0
                               else s.pending + 1)
  {
    hide Rotate, Stored;
  }

  lemma NothingGone(gone: seq<Piece>)
    ensures gone == [] ==> Appended(gone) == []
    ensures AllAppended(gone) && gone != [] ==> Appended(gone) != []
  {
    AppendedIsAllIff(gone);
  }

  lemma SuffixIsAllIff(gone: seq<Entry>, read: seq<Entry>)
    ensures gone + read == read <==> gone == []
  {
    assert |gone + read| == |gone| + |read|;
    assert gone == [] ==> gone + read == read;
  }

  lemma AllAppendedParts(a: seq<Piece>, b: seq<Piece>, c: seq<Piece>)
    requires AllAppended(a + (b + c))
    ensures AllAppended(a) && AllAppended(b) && AllAppended(c)
  {
    assert forall p :: p in a || p in b || p in c ==> p in a + (b + c);
  }

  /** One append that stops short, and another behind it: the reader loses what was in the segment before, too. */
  lemma TornLineLosesSegment(before: seq<Piece>, torn: Piece, next: Piece)
    requires !EndsLine(torn)
    ensures ReadOneFile(before + [torn, next]) == []
  {
    var pieces := before + [torn, next];
    FileReadsAs(pieces);
    assert pieces[|before|] == torn;
  }

  /** While every rename works, the current segment exceeds the cap by less than its last line. */
  lemma {:induction false} SegmentStaysNearTheCap(maxBytes: nat, calls: seq<Call>)
    requires maxBytes > 0
    requires forall c :: c in calls ==> c.own.statOk && c.own.renameOk && c.marker.statOk && c.marker.renameOk
    ensures var segment := Segment(RunAll(maxBytes, calls).state.ledger.current);
      segment != [] ==> Size(segment[..|segment| - 1]) < maxBytes
    decreases |calls|
  {
    hide Next;
    if calls != [] {
      var front, c := calls[..|calls| - 1], calls[|calls| - 1];
      assert calls == front + [c];
      SegmentStaysNearTheCap(maxBytes, front);
      NextStaysNearCap(RunAll(maxBytes, front), maxBytes, c);
    }
  }

  lemma NextStaysNearCap(r: Run, maxBytes: nat, c: Call)
    requires NearCap(r.state.ledger, maxBytes) && maxBytes > 0
    requires c.own.statOk && c.own.renameOk && c.marker.statOk && c.marker.renameOk
    ensures NearCap(Next(r, maxBytes, c).state.ledger, maxBytes)
  {
    hide NearCap, Write;
    var s := r.state;
    WriteStaysNearCap(s.ledger, maxBytes, c.own, OwnEntry(c));
    WriteStaysNearCap(Write(s.ledger, maxBytes, c.own, OwnEntry(c)).0, maxBytes, c.marker,
        Marker(s.pending, c.marker.size));
  }

  predicate NearCap(l: Ledger, maxBytes: nat) {
    l.current.Some? && l.current.value != [] ==> Size(l.current.value[..|l.current.value| - 1]) < maxBytes
  }

  lemma WriteStaysNearCap(l: Ledger, maxBytes: nat, d: Disk, entry: Entry)
    requires NearCap(l, maxBytes) && d.statOk && d.renameOk && maxBytes > 0
    ensures NearCap(Write(l, maxBytes, d, entry).0, maxBytes)
  {
    var l1 := Rotate(l, maxBytes, d);
    var stored := Stored(d, entry);
    assert (Segment(l1.current) + stored)[..|Segment(l1.current)|] == Segment(l1.current);
  }

  lemma {:induction false} SizeConcat(a: seq<Piece>, b: seq<Piece>)
    ensures Size(a + b) == Size(a) + Size(b)
  {
    if a == [] {
      assert a + b == b;
    } else {
      SizeConcat(a[1..], b);
      assert (a + b)[1..] == a[1..] + b;
    }
  }

  /** Every rotation took a full segment away, and the one still there is full. */
  predicate FullSegments(l: Ledger, maxBytes: nat, pieces: seq<Piece>, rotations: nat) {
    && maxBytes * rotations + Size(Segment(l.current)) <= Size(pieces)
    && (l.rotated.Some? ==> Size(l.rotated.value) >= maxBytes)
  }

  lemma WriteRotatesFullSegments(l: Ledger, maxBytes: nat, d: Disk, entry: Entry, pieces: seq<Piece>, rotations: nat)
    requires FullSegments(l, maxBytes, pieces, rotations)
    ensures FullSegments(Write(l, maxBytes, d, entry).0, maxBytes, pieces + Left(d, entry),
                         rotations + Bump(Rotates(l, maxBytes, d)))
  {
    var l1 := Rotate(l, maxBytes, d);
    assert pieces + [] == pieces && Segment(l1.current) + [] == Segment(l1.current);
    hide Size;
    SizeConcat(pieces, Stored(d, entry));
    SizeConcat(Segment(l1.current), Stored(d, entry));
    assert Size(Segment(l1.current)) == 0 || l1 == l by {
      NothingHasNoSize();
    }
    assert maxBytes * (rotations + 1) == maxBytes * rotations + maxBytes;
  }

  lemma NothingHasNoSize()
    ensures Size([]) == 0
  {
  }

  lemma NextRotatesFullSegments(r: Run, maxBytes: nat, c: Call)
    requires FullSegments(r.state.ledger, maxBytes, r.pieces, r.rotations)
    ensures var next := Next(r, maxBytes, c); FullSegments(next.state.ledger, maxBytes, next.pieces, next.rotations)
  {
    var s := r.state;
    if !c.disabled && c.valid {
      WriteRotatesFullSegments(s.ledger, maxBytes, c.own, OwnEntry(c), r.pieces, r.rotations);
      hide Write, Rotates, FullSegments, Left;
      var l := Write(s.ledger, maxBytes, c.own, OwnEntry(c)).0;
      var pieces := r.pieces + Left(c.own, OwnEntry(c));
      var rotations := r.rotations + Bump(Rotates(s.ledger, maxBytes, c.own));
      if MarkerDue(s, maxBytes, c) {
        WriteRotatesFullSegments(l, maxBytes, c.marker, Marker(s.pending, c.marker.size), pieces, rotations);
      } else {
        assert pieces + [] == pieces;
      }
    }
  }

  /**
    * In every run a segment is moved aside only once it has reached the cap: each rotation takes at least the cap in
    * bytes away from what was appended, and the segment rotated out last is full.
    */
  lemma {:induction false} OnlyFullSegmentsRotate(maxBytes: nat, calls: seq<Call>)
    ensures var r := RunAll(maxBytes, calls);
      && maxBytes * r.rotations + Size(Segment(r.state.ledger.current)) <= Size(r.pieces)
      && (r.state.ledger.rotated.Some? ==> Size(r.state.ledger.rotated.value) >= maxBytes)
    decreases |calls|
  {
    hide Next;
    if calls != [] {
      var front, c := calls[..|calls| - 1], calls[|calls| - 1];
      OnlyFullSegmentsRotate(maxBytes, front);
      NextRotatesFullSegments(RunAll(maxBytes, front), maxBytes, c);
    }
  }

  /** So with less than twice the cap appended in all, and no line torn, the reader still sees every line. */
  lemma BelowTwiceTheCapNothingIsLost(maxBytes: nat, calls: seq<Call>)
    requires Size(RunAll(maxBytes, calls).pieces) < 2 * maxBytes && AllAppended(RunAll(maxBytes, calls).pieces)
    ensures ReadEvents(RunAll(maxBytes, calls).state.ledger) == RunAll(maxBytes, calls).history
  {
    OnlyFullSegmentsRotate(maxBytes, calls);
    ReaderSeesSuffix(maxBytes, calls);
    hide *;
    TwiceIsAtMost(maxBytes, RunAll(maxBytes, calls).rotations);
  }

  lemma TwiceIsAtMost(a: nat, n: nat)
    ensures n >= 2 ==> 2 * a <= a * n
  {
    if n >= 2 {
      assert a * n == a * 2 + a * (n - 2);
    }
  }

  // ---------------------------------------------------------------- the report

  datatype Report = Report(totalEvents: nat, testOriginEvents: nat, writeFailures: nat, droppedEvents: nat,
                           byEvent: map<string, nat>, byProfile: map<string, nat>, failures: map<string, nat>)

  /** What a table of the report counts an event under, if it counts it. */
  datatype Heading = ByEvent | ByProfile | ByFailure

  const MARKER_NAME := "telemetry_write_failed"

  function NameOf(e: Entry): string {
    if e.Event? then e.name else MARKER_NAME
  }

  predicate FromTest(e: Entry) {
    e.Event? && e.testOrigin
  }

  function Kept(includeTests: bool): Entry -> bool {
    (e: Entry) => includeTests || !FromTest(e)
  }

  function Testing(): Entry -> bool {
    (e: Entry) => FromTest(e)
  }

  /**
    * A marker has no details; an error class counts only where there is no failure class, and an empty one not at all.
    */
  function HeadingOf(e: Entry, h: Heading): Option<string> {
    match h
    case ByEvent => Some(NameOf(e))
    case ByProfile => if e.Event? && e.details.profile.Some? then e.details.profile else Some("none")
    case ByFailure =>
      var kind := if e.Marker? then None
                    else if e.details.failureClass.Some? then e.details.failureClass else e.details.errorClass;
      if kind == Some("") then None else kind
  }

  function Under(h: Heading, name: string, includeTests: bool): Entry -> bool {
    (e: Entry) => (includeTests || !FromTest(e)) && HeadingOf(e, h) == Some(name)
  }

  function IsMarker(): Entry -> bool {
    (e: Entry) => NameOf(e) == MARKER_NAME
  }

  lemma CountNext(entries: seq<Entry>, i: nat, p: Entry -> bool)
    requires i < |entries|
    ensures Count(entries[..i + 1], p) == Count(entries[..i], p) + if p(entries[i]) then 1 else 0
  {
    assert entries[..i + 1] == entries[..i] + [entries[i]];
    CountLast(entries[..i], entries[i], p);
  }

  function KeptMarker(includeTests: bool): Entry -> bool {
    (e: Entry) => (includeTests || !FromTest(e)) && NameOf(e) == MARKER_NAME
  }

  /** What one entry adds to the totals. */
  lemma TotalsNext(entries: seq<Entry>, i: nat, includeTests: bool)
    requires i < |entries|
    ensures var (before, after, e) := (entries[..i], entries[..i + 1], entries[i]);
      && Count(after, Kept(includeTests)) == Count(before, Kept(includeTests)) + Bump(includeTests || !FromTest(e))
      && Count(after, Testing()) == Count(before, Testing()) + Bump(FromTest(e))
      && Count(after, KeptMarker(includeTests))
         == Count(before, KeptMarker(includeTests)) + Bump((includeTests || !FromTest(e)) && NameOf(e) == MARKER_NAME)
      && Dropped(after) == Dropped(before) + if e.Marker? then e.dropped else 0
  {
    CountNext(entries, i, Kept(includeTests));
    CountNext(entries, i, Testing());
    CountNext(entries, i, KeptMarker(includeTests));
    assert entries[..i + 1][..i] == entries[..i];
  }

  /** What it means for a table to be right. */
  ghost predicate Tabulates(counts: map<string, nat>, entries: seq<Entry>, h: Heading, includeTests: bool) {
    && (forall name :: name in counts ==> counts[name] == Count(entries, Under(h, name, includeTests)))
    && (forall name :: name in counts <==> Count(entries, Under(h, name, includeTests)) > 0)
  }

  /** The table with one more entry under `heading`. */
  function Tally(counts: map<string, nat>, heading: Option<string>): map<string, nat> {
    if heading.None? then counts
    else counts[heading.value := (if heading.value in counts then counts[heading.value] else 0) + 1]
  }

  /** Where the table counts an entry, if it counts it. */
  function Place(e: Entry, h: Heading, includeTests: bool): Option<string> {
    if includeTests || !FromTest(e) then HeadingOf(e, h) else None
  }

  lemma NothingTabulated(h: Heading, includeTests: bool)
    ensures Tabulates(map[], [], h, includeTests)
  {
    forall name: string
      ensures Count([], Under(h, name, includeTests)) == 0
    {
      CountNone([], Under(h, name, includeTests));
    }
  }

  lemma TallyTabulates(counts: map<string, nat>, entries: seq<Entry>, i: nat, h: Heading, includeTests: bool)
    requires i < |entries| && Tabulates(counts, entries[..i], h, includeTests)
    ensures Tabulates(Tally(counts, Place(entries[i], h, includeTests)), entries[..i + 1], h, includeTests)
  {
    hide Under, Place, Count;
    var place := Place(entries[i], h, includeTests);
    var after := Tally(counts, place);
    forall name: string
      ensures name in after <==> Count(entries[..i + 1], Under(h, name, includeTests)) > 0
      ensures name in after ==> after[name] == Count(entries[..i + 1], Under(h, name, includeTests))
    {
      CountOneMore(entries, i, h, includeTests, name);
    }
  }

  lemma CountOneMore(entries: seq<Entry>, i: nat, h: Heading, includeTests: bool, name: string)
    requires i < |entries|
    ensures Count(entries[..i + 1], Under(h, name, includeTests))
      == Count(entries[..i], Under(h, name, includeTests))
         + if Place(entries[i], h, includeTests) == Some(name) then 1 else 0
  {
    CountNext(entries, i, Under(h, name, includeTests));
  }

  /** One table of the report: a count for each name that occurs under the heading, and for none else. */
  method CountUnder(entries: seq<Entry>, h: Heading, includeTests: bool) returns (counts: map<string, nat>)
    ensures Tabulates(counts, entries, h, includeTests)
  {
    hide Tabulates, HeadingOf, FromTest;
    counts := map[];
    assert entries[..|entries|] == entries && entries[..0] == [];
    NothingTabulated(h, includeTests);
    for i := 0 to |entries|
      invariant Tabulates(counts, entries[..i], h, includeTests)
    {
      TallyTabulates(counts, entries, i, h, includeTests);
      var heading := HeadingOf(entries[i], h);
      if (includeTests || !FromTest(entries[i])) && heading.Some? {
        counts := counts[heading.value := (if heading.value in counts then counts[heading.value] else 0) + 1];
      }
    }
  }

  /**
    * The totals of the report; markers are recognised by their name, and one without a number of dropped events adds
    * none.
    */
  method SumUp(entries: seq<Entry>, includeTests: bool) returns (total: nat, tests: nat, failures: nat, dropped: nat)
    ensures total == Count(entries, Kept(includeTests)) && tests == Count(entries, Testing())
    ensures total + (if includeTests then 0 else tests) == |entries|
    ensures failures == Count(entries, KeptMarker(includeTests)) && dropped == Dropped(entries)
  {
    total, tests, failures, dropped := 0, 0, 0, 0;
    assert entries[..|entries|] == entries && entries[..0] == [];
    CountNone([], Kept(includeTests));
    CountNone([], Testing());
    CountNone([], KeptMarker(includeTests));
    assert Dropped([]) == 0;
    hide Count, Dropped, Kept, Testing, KeptMarker, FromTest, NameOf;
    for i := 0 to |entries|
      invariant total == Count(entries[..i], Kept(includeTests)) && tests == Count(entries[..i], Testing())
      invariant total + (if includeTests then 0 else tests) == i
      invariant failures == Count(entries[..i], KeptMarker(includeTests)) && dropped == Dropped(entries[..i])
    {
      var e := entries[i];
      TotalsNext(entries, i, includeTests);
      if FromTest(e) {
        tests := tests + 1;
      }
      if includeTests || !FromTest(e) {
        total := total + 1;
        if NameOf(e) == MARKER_NAME {
          failures := failures + 1;
          dropped := dropped + if e.Marker? then e.dropped else 0;
        }
      }
    }
  }

  /** Kept events of this name; a marker is an event too. */
  function EventNamed(name: string, includeTests: bool): Entry -> bool {
    (e: Entry) =>
      && (includeTests || e.Marker? || !e.testOrigin)
      && name == if e.Event? then e.name else "telemetry_write_failed"
  }

  /** Kept events with this output profile, which is "none" where there is none. */
  function WithProfile(name: string, includeTests: bool): Entry -> bool {
    (e: Entry) =>
      && (includeTests || e.Marker? || !e.testOrigin)
      && name == if e.Event? && e.details.profile.Some? then e.details.profile.value else "none"
  }

  /** Kept events of this failure class, or without one of this error class. */
  function FailedAs(name: string, includeTests: bool): Entry -> bool {
    (e: Entry) =>
      && e.Event? && (includeTests || !e.testOrigin) && name != ""
      && (e.details.failureClass == Some(name)
          || (e.details.failureClass.None? && e.details.errorClass == Some(name)))
  }

  function CountIn(counts: map<string, nat>, name: string): nat {
    if name in counts then counts[name] else 0
  }

  /** What the three tables count, told by the events themselves. */
  lemma TablesCount(counts: map<string, nat>, entries: seq<Entry>, h: Heading, includeTests: bool, name: string)
    requires Tabulates(counts, entries, h, includeTests)
    ensures CountIn(counts, name) == Count(entries, match h
      case ByEvent => EventNamed(name, includeTests)
      case ByProfile => WithProfile(name, includeTests)
      case ByFailure => FailedAs(name, includeTests))
  {
    hide Count;
    CountSame(entries, Under(h, name, includeTests), match h
      case ByEvent => EventNamed(name, includeTests)
      case ByProfile => WithProfile(name, includeTests)
      case ByFailure => FailedAs(name, includeTests));
  }

  method Summarize(entries: seq<Entry>, includeTests: bool) returns (r: Report)
    ensures r.totalEvents == Count(entries, Kept(includeTests)) && r.testOriginEvents == Count(entries, Testing())
    ensures r.totalEvents + (if includeTests then 0 else r.testOriginEvents) == |entries|
    ensures r.writeFailures == Count(entries, KeptMarker(includeTests)) && r.droppedEvents == Dropped(entries)
    ensures Tabulates(r.byEvent, entries, ByEvent, includeTests)
    ensures Tabulates(r.byProfile, entries, ByProfile, includeTests)
    ensures Tabulates(r.failures, entries, ByFailure, includeTests)
    ensures forall name :: CountIn(r.byEvent, name) == Count(entries, EventNamed(name, includeTests))
    ensures forall name :: CountIn(r.byProfile, name) == Count(entries, WithProfile(name, includeTests))
    ensures forall name :: CountIn(r.failures, name) == Count(entries, FailedAs(name, includeTests))
  {
    var total, tests, failures, dropped := SumUp(entries, includeTests);
    var byEvent := CountUnder(entries, ByEvent, includeTests);
    var byProfile := CountUnder(entries, ByProfile, includeTests);
    var failureClasses := CountUnder(entries, ByFailure, includeTests);
    hide Tabulates, Count, CountIn, EventNamed, WithProfile, FailedAs, Kept, Testing, KeptMarker, Dropped;
    forall name: string
      ensures CountIn(byEvent, name) == Count(entries, EventNamed(name, includeTests))
      ensures CountIn(byProfile, name) == Count(entries, WithProfile(name, includeTests))
      ensures CountIn(failureClasses, name) == Count(entries, FailedAs(name, includeTests))
    {
      TablesCount(byEvent, entries, ByEvent, includeTests, name);
      TablesCount(byProfile, entries, ByProfile, includeTests, name);
      TablesCount(failureClasses, entries, ByFailure, includeTests, name);
    }
    r := Report(total, tests, failures, dropped, byEvent, byProfile, failureClasses);
  }

  /**
    * What the report says of a run: with at most one rotation, every marker written and no line torn, its events that
    * are no markers, its dropped events and the losses still pending add up to the calls made with telemetry on.
    */
  lemma ReportAddsUp(maxBytes: nat, calls: seq<Call>)
    requires RunAll(maxBytes, calls).rotations <= 1 && RunAll(maxBytes, calls).failedMarkers == 0
    requires AllAppended(RunAll(maxBytes, calls).pieces)
    requires forall e :: e in ReadEvents(RunAll(maxBytes, calls).state.ledger) && e.Event? ==> e.name != MARKER_NAME
    ensures var r := RunAll(maxBytes, calls);
      var read := ReadEvents(r.state.ledger);
      |read| - Count(read, IsMarker()) + Dropped(read) + r.state.pending == Count(calls, IsEnabled())
  {
    EveryEmitIsAccountedFor(maxBytes, calls);
    ReaderSeesSuffix(maxBytes, calls);
    EventsAndMarkers(RunAll(maxBytes, calls).history);
  }

  lemma {:induction false} EventsAndMarkers(entries: seq<Entry>)
    requires forall e :: e in entries && e.Event? ==> e.name != MARKER_NAME
    ensures Count(entries, IsEvent()) + Count(entries, IsMarker()) == |entries|
    decreases |entries|
  {
    if entries != [] {
      EventsAndMarkers(entries[..|entries| - 1]);
    }
  }
}
