/** The client half of the broker's spawnWorker call: connect, one request, one settled answer. */
module SpawnClient {
  import opened Wrappers
  import opened Framing

  const NEWLINE := '\n'

  /** The result object of a reply: its pid, when that is a number, and whether it carries `ambiguous`. */
  datatype RpcResult = RpcResult(pid: Option<int>, ambiguous: bool)

  /** One line as the JSON parser sees it. */
  datatype Parsed = Malformed | OtherMessage | Answer(error: bool, result: Option<RpcResult>)

  /** What the call resolves to: null, `{ ambiguous: true }`, or the result object as it came. */
  datatype Outcome = Nothing | Unsure | Returned(result: RpcResult)

  datatype Client = Client(connected: bool, settled: Option<Outcome>, buffer: string)

  const FRESH_CLIENT := Client(false, None, "")

  function OutcomeOf(answer: Parsed): Outcome
    requires answer.Answer?
  {
    if answer.error || answer.result.None? then Nothing else Returned(answer.result.value)
  }

  /** The first line that answers the request; malformed lines and other messages are passed over. */
  function FirstAnswer(parse: string -> Parsed, lines: seq<string>): Option<Parsed> {
    if lines == [] then None
    else if parse(lines[0]).Answer? then Some(parse(lines[0]))
    else FirstAnswer(parse, lines[1..])
  }

  /** Only the first settlement counts; what is still buffered is then of no use. */
  function Settle(c: Client, outcome: Outcome): Client {
    if c.settled.Some? then c else c.(settled := Some(outcome), buffer := "")
  }

  /** Timeout, error and close: with a connection the request may have been served, without one it cannot. */
  function NoReply(c: Client): Client {
    Settle(c, if c.connected then Unsure else Nothing)
  }

  function Connect(c: Client, writeFails: bool): Client {
    var connected := c.(connected := true);
    if writeFails then NoReply(connected) else connected
  }

  function Data(parse: string -> Parsed, c: Client, chunk: string): Client {
    if c.settled.Some? then c
    else
      var all := c.buffer + chunk;
      var answer := FirstAnswer(parse, Frames(all, NEWLINE));
      if answer.Some? && answer.value.Answer? then Settle(c, OutcomeOf(answer.value))
      else c.(buffer := Remainder(all, NEWLINE))
  }

  class SpawnWorkerCall {
    const parse: string -> Parsed
    var connected: bool
    var settled: Option<Outcome>
    var buffer: string

    ghost function Value(): Client
      reads this
    {
      Client(connected, settled, if settled.Some? then "" else buffer)
    }

    constructor (parse: string -> Parsed)
      ensures Value() == FRESH_CLIENT && this.parse == parse
    {
      this.parse := parse;
      connected, settled, buffer := false, None, "";
    }

    method SettleWith(outcome: Outcome)
      modifies this`settled
      ensures Value() == Settle(old(Value()), outcome)
    {
      if settled.None? {
        settled := Some(outcome);
      }
    }

    /** The handler of the timer and of the socket's error and close events. */
    method OnNoReply()
      modifies this`settled
      ensures Value() == NoReply(old(Value()))
    {
      SettleWith(if connected then Unsure else Nothing);
    }

    method OnConnect(writeFails: bool)
      modifies this
      ensures Value() == Connect(old(Value()), writeFails)
    {
      connected := true;
      if writeFails {
        OnNoReply();
      }
    }

    method OnData(chunk: string)
      modifies this
      ensures Value() == Data(parse, old(Value()), chunk)
    {
      hide Frames, Remainder;
      buffer := buffer + chunk;
      ghost var all := buffer;
      var newlineIndex := IndexOf(buffer, NEWLINE);
      while newlineIndex != |buffer|
        invariant newlineIndex == IndexOf(buffer, NEWLINE) && connected == old(connected) && settled == old(settled)
        invariant FirstAnswer(parse, Frames(buffer, NEWLINE)) == FirstAnswer(parse, Frames(all, NEWLINE))
        invariant Remainder(buffer, NEWLINE) == Remainder(all, NEWLINE)
        decreases |buffer|
      {
        FramesStep(buffer, NEWLINE);
        var line := buffer[..newlineIndex];
        buffer := buffer[newlineIndex + 1..];
        var message := parse(line);
        assert ([line] + Frames(buffer, NEWLINE))[1..] == Frames(buffer, NEWLINE);
        if message.Answer? {
          SettleWith(OutcomeOf(message));
          return;
        }
        newlineIndex := IndexOf(buffer, NEWLINE);
      }
      FramesStep(buffer, NEWLINE);
    }
  }

  // ---------------------------------------------------------------- what the call means

  function DataAll(parse: string -> Parsed, c: Client, chunks: seq<string>): Client
    decreases |chunks|
  {
    if chunks == [] then c else DataAll(parse, Data(parse, c, chunks[0]), chunks[1..])
  }

  lemma {:induction false} FirstAnswerConcat(parse: string -> Parsed, a: seq<string>, b: seq<string>)
    ensures FirstAnswer(parse, a + b) == if FirstAnswer(parse, a).Some? then FirstAnswer(parse, a)
      else FirstAnswer(parse, b)
    ensures FirstAnswer(parse, a).Some? ==> FirstAnswer(parse, a).value.Answer?
    decreases |a|
  {
    if a == [] {
      assert a + b == b;
    } else {
      FirstAnswerConcat(parse, a[1..], b);
      assert (a + b)[1..] == a[1..] + b;
    }
  }

  lemma {:induction false} SettledStays(parse: string -> Parsed, c: Client, chunks: seq<string>)
    requires c.settled.Some?
    ensures DataAll(parse, c, chunks) == c
    decreases |chunks|
  {
    if chunks != [] {
      SettledStays(parse, c, chunks[1..]);
    }
  }

  /** However the bytes are cut: the call settles with the first line that answers it, or is still open. */
  lemma {:induction false} ChunkingDoesNotMatter(parse: string -> Parsed, c: Client, chunks: seq<string>)
    requires c.settled.None? && NEWLINE !in c.buffer
    ensures var all := c.buffer + Concat(chunks);
      var answer := FirstAnswer(parse, Frames(all, NEWLINE));
      && DataAll(parse, c, chunks).settled ==
         (if answer.Some? && answer.value.Answer? then Some(OutcomeOf(answer.value)) else None)
      && (answer.None? ==> DataAll(parse, c, chunks).buffer == Remainder(all, NEWLINE))
    decreases |chunks|
  {
    hide Frames, Remainder;
    if chunks == [] {
      assert c.buffer + Concat(chunks) == c.buffer;
      FramesCons(c.buffer, NEWLINE, []);
    } else {
      var all, later := c.buffer + chunks[0], Concat(chunks[1..]);
      var next := Data(parse, c, chunks[0]);
      ConcatAssoc(c.buffer, chunks[0], later);
      FramesConcat(all, later, NEWLINE);
      FirstAnswerConcat(parse, Frames(all, NEWLINE), Frames(Remainder(all, NEWLINE) + later, NEWLINE));
      if next.settled.Some? {
        SettledStays(parse, next, chunks[1..]);
      } else {
        RemainderHasNoSep(all, NEWLINE);
        ChunkingDoesNotMatter(parse, next, chunks[1..]);
      }
    }
  }

  datatype Event = Connected(writeFails: bool) | Received(chunk: string) | Silence

  function Handle(parse: string -> Parsed, c: Client, e: Event): Client {
    match e
    case Connected(writeFails) => Connect(c, writeFails)
    case Received(chunk) => Data(parse, c, chunk)
    case Silence => NoReply(c)
  }

  function HandleAll(parse: string -> Parsed, c: Client, events: seq<Event>): Client
    decreases |events|
  {
    if events == [] then c else Handle(parse, HandleAll(parse, c, events[..|events| - 1]), events[|events| - 1])
  }

  /** In every order of events, once the call has settled it stays with that outcome for good. */
  lemma {:induction false} SettlesOnce(parse: string -> Parsed, events: seq<Event>, k: nat)
    requires k <= |events| && HandleAll(parse, FRESH_CLIENT, events[..k]).settled.Some?
    ensures HandleAll(parse, FRESH_CLIENT, events).settled == HandleAll(parse, FRESH_CLIENT, events[..k]).settled
    decreases |events|
  {
    hide Data;
    assert events[..|events|] == events;
    if k < |events| {
      var front := events[..|events| - 1];
      assert front[..k] == events[..k];
      SettlesOnce(parse, front, k);
      SettledIgnores(parse, HandleAll(parse, FRESH_CLIENT, front), events[|events| - 1]);
    }
  }

  lemma SettledIgnores(parse: string -> Parsed, c: Client, e: Event)
    requires c.settled.Some?
    ensures Handle(parse, c, e).settled == c.settled
  {
  }

  /** All that was received so far. */
  function Stream(events: seq<Event>): string
    decreases |events|
  {
    if events == [] then ""
    else
      var last := events[|events| - 1];
      Stream(events[..|events| - 1]) + if last.Received? then last.chunk else ""
  }

  predicate NoAnswerIn(parse: string -> Parsed, lines: seq<string>) {
    forall i :: 0 <= i < |lines| ==> !parse(lines[i]).Answer?
  }

  lemma {:induction false} FirstAnswerIs(parse: string -> Parsed, lines: seq<string>)
    ensures FirstAnswer(parse, lines).None? <==> NoAnswerIn(parse, lines)
    ensures FirstAnswer(parse, lines).Some? ==>
      exists i :: 0 <= i < |lines| && NoAnswerIn(parse, lines[..i]) && parse(lines[i]).Answer?
        && FirstAnswer(parse, lines) == Some(parse(lines[i]))
    decreases |lines|
  {
    if lines != [] {
      if parse(lines[0]).Answer? {
        assert NoAnswerIn(parse, lines[..0]);
      } else {
        var rest := lines[1..];
        FirstAnswerIs(parse, rest);
        assert lines == [lines[0]] + rest;
        if FirstAnswer(parse, rest).Some? {
          var i :| 0 <= i < |rest| && NoAnswerIn(parse, rest[..i]) && parse(rest[i]).Answer?
            && FirstAnswer(parse, rest) == Some(parse(rest[i]));
          assert lines[..i + 1] == [lines[0]] + rest[..i] && lines[i + 1] == rest[i];
        } else {
          assert forall i :: 0 < i < |lines| ==> lines[i] == rest[i - 1];
        }
      }
    }
  }

  /**
    * In every order of events the call is open exactly while neither the timer, an error or a close has come, nor a
    * write failed on connecting, nor a line that answers it is complete in what was received, however it was cut.
    */
  lemma {:induction false} OpenExactlyUntilDecided(parse: string -> Parsed, events: seq<Event>)
    ensures var c := HandleAll(parse, FRESH_CLIENT, events);
      && (c.settled.None? <==>
            && Silence !in events && Connected(true) !in events
            && NoAnswerIn(parse, Frames(Stream(events), NEWLINE)))
      && (c.settled.None? ==>
            && (c.connected <==> Connected(false) in events)
            && c.buffer == Remainder(Stream(events), NEWLINE))
    decreases |events|
  {
    hide Frames, Remainder, FirstAnswer, NoAnswerIn;
    if events == [] {
      EmptyStream(parse);
    } else {
      var front, last := events[..|events| - 1], events[|events| - 1];
      assert events == front + [last];
      OpenExactlyUntilDecided(parse, front);
      var c, s := HandleAll(parse, FRESH_CLIENT, front), Stream(front);
      if last.Received? {
        FramesConcat(s, last.chunk, NEWLINE);
        NoAnswerConcat(parse, Frames(s, NEWLINE), Frames(Remainder(s, NEWLINE) + last.chunk, NEWLINE));
        FirstAnswerIs(parse, Frames(Remainder(s, NEWLINE) + last.chunk, NEWLINE));
      } else {
        assert s + "" == s;
      }
    }
  }

  lemma EmptyStream(parse: string -> Parsed)
    ensures NoAnswerIn(parse, Frames("", NEWLINE)) && Remainder("", NEWLINE) == ""
  {
  }

  lemma NoAnswerConcat(parse: string -> Parsed, a: seq<string>, b: seq<string>)
    ensures NoAnswerIn(parse, a + b) <==> NoAnswerIn(parse, a) && NoAnswerIn(parse, b)
  {
    if NoAnswerIn(parse, a + b) {
      assert forall i :: 0 <= i < |a| ==> a[i] == (a + b)[i];
      assert forall i :: 0 <= i < |b| ==> b[i] == (a + b)[|a| + i];
    }
  }

  /**
    * The event that decides an open call decides it for good: silence and a failed write as nothing without a
    * connection and as unsure with one, a received chunk by the first line of the whole stream that answers, which
    * gives its result unless it is an error or has none.
    */
  lemma DecidedByItsEvent(parse: string -> Parsed, front: seq<Event>, last: Event)
    requires HandleAll(parse, FRESH_CLIENT, front).settled.None?
    ensures var settled := HandleAll(parse, FRESH_CLIENT, front + [last]).settled;
      match last
      case Silence => settled == Some(if Connected(false) in front then Unsure else Nothing)
      case Connected(writeFails) => settled == if writeFails then Some(Unsure) else None
      case Received(chunk) =>
        var lines := Frames(Stream(front) + chunk, NEWLINE);
        || (settled.None? && NoAnswerIn(parse, lines))
        || exists i :: 0 <= i < |lines| && NoAnswerIn(parse, lines[..i]) && parse(lines[i]).Answer?
             && settled == Some(if parse(lines[i]).error || parse(lines[i]).result.None? then Nothing
                                else Returned(parse(lines[i]).result.value))
  {
    OpenExactlyUntilDecided(parse, front);
    assert (front + [last])[..|front|] == front;
    if last.Received? {
      var s := Stream(front);
      var before, added := Frames(s, NEWLINE), Frames(Remainder(s, NEWLINE) + last.chunk, NEWLINE);
      hide Frames, Remainder, FirstAnswer;
      FramesConcat(s, last.chunk, NEWLINE);
      FirstAnswerConcat(parse, before, added);
      FirstAnswerIs(parse, before);
      FirstAnswerIs(parse, before + added);
    }
  }
}
