/** `status --watch`: the loop that threads the tail reader over the life of a job. */
module StatusWatch {
  import opened Wrappers
  import opened Utf8
  import opened TextDecoding
  import opened Framing
  import opened LogTail
  import opened LogTailRuns

  /** One poll of the job: what its log file looks like and whether it is still running or queued. */
  datatype Poll = Poll(log: LogFile, active: bool)

  /** `lines.slice(-requested)`, where 0 asks for all. */
  function Visible(lines: seq<Text>, requested: nat): seq<Text> {
    if requested == 0 || |lines| <= requested then lines else lines[|lines| - requested..]
  }

  /** The log lines the loop writes from here on, and whether it ended on a terminal status. */
  function WatchFrom(t: Tail, first: bool, polls: seq<Poll>, requested: nat): (seq<Text>, bool)
    requires t.Valid()
    decreases |polls|
  {
    if polls == [] then ([], false)
    else
      var r := ReadTail(polls[0].log, t);
      var shown := if first then Visible(r.lines, requested) else r.lines;
      if !polls[0].active then (shown + (if r.tail.pending != [] then [r.tail.pending] else []), true)
      else
        var rest := WatchFrom(r.tail, false, polls[1..], requested);
        (shown + rest.0, rest.1)
  }

  lemma WatchStep(t: Tail, first: bool, polls: seq<Poll>, requested: nat, before: seq<Text>)
    requires t.Valid() && polls != [] && polls[0].active
    ensures var r := ReadTail(polls[0].log, t);
      var now := WatchFrom(t, first, polls, requested); var later := WatchFrom(r.tail, false, polls[1..], requested);
      (before + now.0, now.1) == ((before + if first then Visible(r.lines, requested) else r.lines) + later.0, later.1)
  {
    var r := ReadTail(polls[0].log, t);
    ConcatAssoc(before, if first then Visible(r.lines, requested) else r.lines,
                WatchFrom(r.tail, false, polls[1..], requested).0);
  }

  lemma WatchEnd(t: Tail, first: bool, polls: seq<Poll>, requested: nat, before: seq<Text>)
    requires t.Valid() && polls != [] && !polls[0].active
    ensures var r := ReadTail(polls[0].log, t); var now := WatchFrom(t, first, polls, requested);
      (before + now.0, now.1) == ((before + if first then Visible(r.lines, requested) else r.lines)
                                   + (if r.tail.pending != [] then [r.tail.pending] else []), true)
  {
    var r := ReadTail(polls[0].log, t);
    ConcatAssoc(before, if first then Visible(r.lines, requested) else r.lines,
                if r.tail.pending != [] then [r.tail.pending] else []);
  }

  /** The loop over the polls the environment grants it. */
  method RunStatusWatch(polls: seq<Poll>, requested: nat) returns (written: seq<Text>, terminal: bool)
    ensures (written, terminal) == WatchFrom(START, true, polls, requested)
  {
    hide ReadTail;
    var lastOffset: nat, pendingPartial: Text, firstTick := 0, [], true;
    var decoder := new TextDecoder();
    written, terminal := [], false;
    ghost var t := START;
    ghost var all := WatchFrom(START, true, polls, requested);
    assert polls[0..] == polls && [] + all.0 == all.0;
    for i := 0 to |polls|
      invariant t == Tail(lastOffset, pendingPartial, Some(decoder.Value())) && t.Valid() && !terminal
      invariant all == (written + WatchFrom(t, firstTick, polls[i..], requested).0,
                        WatchFrom(t, firstTick, polls[i..], requested).1)
    {
      assert polls[i..][0] == polls[i] && polls[i..][1..] == polls[i + 1..];
      var lines, reset;
      lines, lastOffset, pendingPartial, reset :=
        ReadLogTailFromOffset(polls[i].log, lastOffset, pendingPartial, decoder);
      var shown := if firstTick then Visible(lines, requested) else lines;
      if !polls[i].active {
        WatchEnd(t, firstTick, polls[i..], requested, written);
        written := written + shown;
        assert written + [] == written;
        if pendingPartial != [] {
          written := written + [pendingPartial];
        }
        terminal := true;
        return;
      }
      WatchStep(t, firstTick, polls[i..], requested, written);
      t := ReadTail(polls[i].log, t).tail;
      written := written + shown;
      firstTick := false;
    }
    assert polls[|polls|..] == [];
    assert written + [] == written;
  }

  function Logs(polls: seq<Poll>): seq<LogFile> {
    seq(|polls|, i requires 0 <= i < |polls| => polls[i].log)
  }

  /** The job is seen active on every poll but the last. */
  predicate EndsTerminal(polls: seq<Poll>) {
    && polls != [] && !polls[|polls| - 1].active
    && forall i :: 0 <= i < |polls| - 1 ==> polls[i].active
  }

  lemma TerminalBehindFirst(polls: seq<Poll>)
    requires polls != [] && polls[0].active
    ensures (exists i :: 0 <= i < |polls[1..]| && !polls[1..][i].active) <==>
      exists i :: 0 <= i < |polls| && !polls[i].active
  {
    var rest := polls[1..];
    assert forall i :: 0 < i < |polls| ==> polls[i] == rest[i - 1];
    assert forall i :: 0 <= i < |rest| ==> rest[i] == polls[i + 1];
  }

  /** The watch ends on a terminal status exactly when a poll sees one, and looks at nothing behind that poll. */
  lemma {:induction false} WatchEndsAtFirstTerminalPoll(t: Tail, first: bool, polls: seq<Poll>, requested: nat)
    requires t.Valid()
    ensures WatchFrom(t, first, polls, requested).1 <==> exists i :: 0 <= i < |polls| && !polls[i].active
    ensures forall i :: 0 <= i < |polls| && !polls[i].active ==>
      WatchFrom(t, first, polls, requested) == WatchFrom(t, first, polls[..i + 1], requested)
    decreases |polls|
  {
    if polls != [] {
      var r, rest := ReadTail(polls[0].log, t), polls[1..];
      hide ReadTail, Visible;
      if polls[0].active {
        WatchEndsAtFirstTerminalPoll(r.tail, false, rest, requested);
        TerminalBehindFirst(polls);
        forall i | 0 <= i < |polls| && !polls[i].active
          ensures WatchFrom(t, first, polls, requested) == WatchFrom(t, first, polls[..i + 1], requested)
        {
          assert polls[i] == rest[i - 1] && polls[..i + 1][1..] == rest[..i];
        }
      } else {
        forall i | 0 <= i < |polls| && !polls[i].active
          ensures WatchFrom(t, first, polls, requested) == WatchFrom(t, first, polls[..i + 1], requested)
        {
          assert polls[..i + 1][0] == polls[0];
        }
      }
    }
  }

  lemma {:induction false} WatchWritesTicks(t: Tail, polls: seq<Poll>, requested: nat)
    requires t.Valid() && EndsTerminal(polls)
    ensures var (t', lines) := Ticks(t, Logs(polls));
      WatchFrom(t, false, polls, requested) == (lines + (if t'.pending != [] then [t'.pending] else []), true)
    decreases |polls|
  {
    var r := ReadTail(polls[0].log, t);
    assert Logs(polls)[0] == polls[0].log && Logs(polls)[1..] == Logs(polls[1..]);
    if |polls| == 1 {
      assert Ticks(r.tail, []) == (r.tail, []);
      assert r.lines + [] == r.lines;
    } else {
      WatchWritesTicks(r.tail, polls[1..], requested);
      var (t', lines) := Ticks(r.tail, Logs(polls[1..]));
      ConcatAssoc(r.lines, lines, if t'.pending != [] then [t'.pending] else []);
    }
  }

  /** A text as a reader sees it: its terminated lines, then the unterminated one if there is any. */
  function AllLines(s: Text): seq<Text> {
    Lines(s) + if Rest(s) == [] then [] else [Rest(s)]
  }

  /** The file decoded to its very end, an unfinished last character included. */
  function WholeText(bytes: seq<Byte>): Text {
    TextOf(bytes) + if DecodeText(FRESH, bytes).0.state.rest == 0 then [] else [REPLACEMENT]
  }

  /**
    * Watching a job whose log only grows, with all lines requested, writes every line of
    * the file exactly once and in order, and the unterminated last line when the job ends.
    */
  lemma WatchWritesEveryLineOnce(polls: seq<Poll>)
    requires EndsTerminal(polls) && GrowsThroughout([], Logs(polls))
    ensures WatchFrom(START, true, polls, 0) == (AllLines(TextOf(AfterAll([], Logs(polls)))), true)
  {
    assert TextOf([]) == [] && Mirrors(START, []);
    StreamingEqualsBatch(START, [], Logs(polls));
    WatchWritesTicks(START, polls, 0);
    var lines := Ticks(START, Logs(polls)).1;
    assert Lines([]) + lines == lines;
  }

  /** The final flush shows the file to its very end exactly when the file does not stop inside a character. */
  lemma WatchShowsTheEndIff(polls: seq<Poll>)
    requires EndsTerminal(polls) && GrowsThroughout([], Logs(polls))
    ensures var whole := AfterAll([], Logs(polls));
      WatchFrom(START, true, polls, 0).0 == AllLines(WholeText(whole)) <==> DecodeText(FRESH, whole).0.state.rest == 0
  {
    WatchWritesEveryLineOnce(polls);
    var whole := AfterAll([], Logs(polls));
    var s := TextOf(whole);
    if DecodeText(FRESH, whole).0.state.rest == 0 {
      assert s + [] == s;
    } else {
      LinesConcat(s, [REPLACEMENT]);
      RemainderHasNoSep(s, LF);
      var r := Rest(s) + [REPLACEMENT];
      LinesCons(r, []);
      assert Lines(s) + [] == Lines(s);
      assert AllLines(WholeText(whole)) == Lines(s) + [r];
      assert (Lines(s) + [r])[|Lines(s)|] == r && r != Rest(s);
      assert Rest(s) != [] ==> AllLines(s)[|Lines(s)|] == Rest(s);
    }
  }

  /**
    * What is written is the end of the file's lines. Nothing is cut when all lines are asked for or the first poll
    * found no more than `requested`; otherwise of the first poll's lines exactly the last `requested` are shown, and
    * every later line.
    */
  lemma WatchCutsOnlyTheFirstPoll(polls: seq<Poll>, requested: nat)
    requires EndsTerminal(polls) && GrowsThroughout([], Logs(polls))
    ensures var atFirst := Lines(TextOf(After([], polls[0].log)));
      var all := AllLines(TextOf(AfterAll([], Logs(polls))));
      var written := WatchFrom(START, true, polls, requested).0;
      && atFirst <= all
      && (requested == 0 || |atFirst| <= requested ==> written == all)
      && (0 < requested < |atFirst| ==> written == all[|atFirst| - requested..])
  {
    hide ReadTail, Lines, AllLines, TextOf, AfterAll, WatchFrom;
    WatchWritesEveryLineOnce(polls);
    assert Logs(polls)[0] == polls[0].log;
    FirstPoll(polls[0].log);
    var lines := ReadTail(polls[0].log, START).lines;
    var later := AfterFirstPoll(polls, requested);
    AfterFirstPollIsSame(polls, requested);
    assert WatchFrom(START, true, polls, 0).0 == lines + later;
    if 0 < requested < |lines| {
      assert (lines + later)[|lines| - requested..] == lines[|lines| - requested..] + later;
    }
  }

  /** What is written after the first poll's lines. */
  function AfterFirstPoll(polls: seq<Poll>, requested: nat): seq<Text>
    requires EndsTerminal(polls)
  {
    var r := ReadTail(polls[0].log, START);
    if polls[0].active then WatchFrom(r.tail, false, polls[1..], requested).0
    else if r.tail.pending != [] then [r.tail.pending] else []
  }

  lemma AfterFirstPollIsSame(polls: seq<Poll>, requested: nat)
    requires EndsTerminal(polls)
    ensures var lines := ReadTail(polls[0].log, START).lines;
      && WatchFrom(START, true, polls, requested).0 == Visible(lines, requested) + AfterFirstPoll(polls, requested)
      && WatchFrom(START, true, polls, 0).0 == lines + AfterFirstPoll(polls, requested)
  {
    hide Ticks;
    if polls[0].active {
      var r := ReadTail(polls[0].log, START);
      WatchWritesTicks(r.tail, polls[1..], requested);
      WatchWritesTicks(r.tail, polls[1..], 0);
    }
  }

  /** The first poll reads the complete lines of the log as it then is. */
  lemma FirstPoll(log: LogFile)
    requires GrowsThroughout([], [log])
    ensures ReadTail(log, START).lines == Lines(TextOf(After([], log)))
  {
    assert TextOf([]) == [] && Mirrors(START, []);
    assert [log][1..] == [];
    StreamingEqualsBatch(START, [], [log]);
    assert Ticks(START, [log]).1 == ReadTail(log, START).lines + [];
  }
}
