/** Runs of the app-server: how many answers every request gets, and what an error leaves behind. */
module AppServerReplies {
  import opened Wrappers
  import opened Counting
  import opened AppServer
  import opened AppServerTurns
  import opened ImportLedger

  predicate IsAnswer(m: Message) {
    m.Reply? || m.ErrorReply?
  }

  function AnswerTo(id: RequestId): Message -> bool {
    (m: Message) => IsAnswer(m) && m.id == Some(id)
  }

  predicate Unanswering(out: seq<Message>) {
    forall m :: m in out ==> !IsAnswer(m)
  }

  /** `out[k]` answers the request `id`, and nothing else in `out` is an answer. */
  predicate AnswersOnceAt(out: seq<Message>, k: nat, id: Option<RequestId>) {
    k < |out| && IsAnswer(out[k]) && out[k].id == id && Unanswering(out[..k]) && Unanswering(out[k + 1..])
  }

  lemma CountAnswer(out: seq<Message>, k: nat, id: Option<RequestId>, asked: RequestId)
    requires AnswersOnceAt(out, k, id)
    ensures Count(out, AnswerTo(asked)) == if id == Some(asked) then 1 else 0
  {
    var p := AnswerTo(asked);
    assert out == (out[..k] + [out[k]]) + out[k + 1..];
    CountNone(out[..k], p);
    CountLast(out[..k], out[k], p);
    CountNone(out[k + 1..], p);
    CountConcat(out[..k] + [out[k]], out[k + 1..], p);
  }

  lemma TurnMessagesAnswerNothing(thread: ThreadId, turn: TurnId, items: seq<Message>)
    requires Unanswering(items)
    ensures Unanswering(TurnMessages(thread, turn, items))
  {
  }

  lemma ReviewItemsAnswerNothing(b: Behavior, thread: ThreadId, turn: TurnId)
    ensures Unanswering(ReviewItems(b, thread, turn))
  {
  }

  lemma SubagentAnswersNothing(b: Behavior, thread: ThreadId, turn: TurnId, sub: ThreadId, subTurn: TurnId)
    ensures Unanswering(SubagentMessages(b, thread, turn, sub, subTurn))
  {
  }

  lemma TurnItemsAnswerNothing(b: Behavior, thread: ThreadId, turn: TurnId)
    ensures Unanswering(TurnItems(b, thread, turn))
  {
  }

  lemma ReviewAnswers(b: Behavior, s: Server, id: Option<RequestId>, call: Call, now: nat) returns (k: nat)
    requires call.ReviewStart?
    ensures var e := OnReviewStart(b, s, id, call, now);
      if Find(s.threads, call.thread) == |s.threads| then e == Effect(s, [], true)
      else
        && AnswersOnceAt(e.out, k, id) && e.out[k].Reply? && e.thrown == !call.hasTarget
        && e.server.nextTurnId != s.nextTurnId
  {
    hide Find, TurnMessages, ReviewItems;
    k := if call.detached then 1 else 0;
    if Find(s.threads, call.thread) < |s.threads| {
      var review := if call.detached then s.nextThreadId else call.thread;
      var items := ReviewItems(b, review, s.nextTurnId);
      var messages := TurnMessages(review, s.nextTurnId, items);
      ReviewItemsAnswerNothing(b, review, s.nextTurnId);
      TurnMessagesAnswerNothing(review, s.nextTurnId, items);
      var out := OnReviewStart(b, s, id, call, now).out;
      assert out[k + 1..] == if call.hasTarget then messages else [];
    }
  }

  lemma BegunTurnIsUnanswering(b: Behavior, s: Server, thread: ThreadId, cwd: string, turn: TurnId, now: nat)
    ensures Unanswering(BeginTurn(b, s, thread, cwd, turn, now).out) && !BeginTurn(b, s, thread, cwd, turn, now).thrown
    ensures BeginTurn(b, s, thread, cwd, turn, now).server.nextTurnId >= s.nextTurnId
  {
    hide TurnMessages, SubagentMessages, TurnItems;
    SubagentAnswersNothing(b, thread, turn, s.nextThreadId, s.nextTurnId);
    TurnItemsAnswerNothing(b, thread, turn);
    TurnMessagesAnswerNothing(thread, turn, TurnItems(b, thread, turn));
  }

  lemma TurnStartAnswers(b: Behavior, s: Server, id: Option<RequestId>, call: Call, now: nat)
    requires call.TurnStart?
    ensures var e := OnTurnStart(b, s, id, call, now);
      if Find(s.threads, call.thread) == |s.threads| || !call.inputOk then e == Effect(s, [], true)
      else
        && AnswersOnceAt(e.out, 0, id) && e.out[0].Reply?
        && e.thrown == FailsAfterReply(s, Line(id, call, true)) && e.server.nextTurnId > s.nextTurnId
  {
    hide Find, BeginTurn;
    var k := Find(s.threads, call.thread);
    if k < |s.threads| && call.inputOk {
      BegunTurnIsUnanswering(b, OnTurnAccepted(s, k, now), call.thread, s.threads[k].cwd, s.nextTurnId, now);
    }
  }

  /** Throws before doing anything, or answers first and does not throw. */
  predicate AnswersOrThrows(s: Server, id: Option<RequestId>, e: Effect) {
    if e.thrown then e == Effect(s, [], true) else AnswersOnceAt(e.out, 0, id)
  }

  lemma ThreadHandlersAnswer(b: Behavior, s: Server, id: Option<RequestId>, call: Call, now: nat)
    ensures call.ThreadStart? ==> AnswersOrThrows(s, id, OnThreadStart(b, s, id, call, now))
    ensures call.ThreadNameSet? ==> AnswersOrThrows(s, id, OnThreadNameSet(s, id, call, now))
    ensures call.ThreadResume? ==> AnswersOrThrows(s, id, OnThreadResume(s, id, call, now))
    ensures call.ThreadList? ==> AnswersOrThrows(s, id, OnThreadList(s, id, call))
  {
    hide Find, Matching;
  }

  lemma ImportAnswers(b: Behavior, s: Server, id: Option<RequestId>, session: Option<Session>, now: nat)
    ensures AnswersOrThrows(s, id, OnImport(b, s, id, session, now))
  {
    hide Find, FindRecord;
  }

  /** Every handler either throws before doing anything, or answers once; only two throw after their answer. */
  lemma CallAnswers(b: Behavior, s: Server, id: Option<RequestId>, call: Call, now: nat) returns (k: nat)
    ensures var e := OnCall(b, s, id, call, now);
      var fails := FailsAfterReply(s, Line(id, call, true));
      && (fails ==> e.thrown)
      && (e.thrown && !fails ==> e == Effect(s, [], true))
      && (call.Initialized? ==> e == Effect(s, [], false))
      && ((!e.thrown || fails) && !call.Initialized? ==> AnswersOnceAt(e.out, k, id))
      && (fails ==> e.server.nextTurnId != s.nextTurnId)
  {
    hide OnReviewStart, OnTurnStart, OnThreadStart, OnThreadNameSet, OnThreadResume, OnThreadList, OnImport, Find;
    k := 0;
    ThreadHandlersAnswer(b, s, id, call, now);
    if call.Import? {
      ImportAnswers(b, s, id, call.session, now);
    } else if call.ReviewStart? {
      k := ReviewAnswers(b, s, id, call, now);
    } else if call.TurnStart? {
      TurnStartAnswers(b, s, id, call, now);
    } else if call.TurnInterrupt? && call.turn in s.interruptible {
      k := 1;
    }
  }

  predicate Asks(input: Input, id: RequestId) {
    input.Line? && input.id == Some(id) && !input.call.Initialized?
  }

  lemma StepAnswers(b: Behavior, s: Server, input: Input, now: nat, id: RequestId)
    ensures Count(Step(b, s, input, now).1, AnswerTo(id))
      == (if Asks(input, id) then 1 else 0) + (if Asks(input, id) && FailsAfterReply(s, input) then 1 else 0)
  {
    hide Count, OnCall, AnswersOnceAt, FailsAfterReply, OnResponse, OnTimer, OnDelay;
    var out := Step(b, s, input, now).1;
    match input
    case Line(asked, call, hasParams) =>
      if !hasParams && NeedsParams(b, call) {
        NoParamsNoFailure(s, input);
        assert out == [ErrorReply(asked, SERVER_ERROR)];
        CountOne(ErrorReply(asked, SERVER_ERROR), AnswerTo(id));
      } else {
        var e := OnCall(b, s, asked, call, now);
        var k := CallAnswers(b, s, asked, call, now);
        ParamsDoNotMatter(b, s, input);
        CountLast(e.out, ErrorReply(asked, SERVER_ERROR), AnswerTo(id));
        if (!e.thrown || FailsAfterReply(s, input)) && !call.Initialized? {
          CountAnswer(e.out, k, asked, id);
        } else {
          CountNone([], AnswerTo(id));
        }
      }
    case _ =>
      TimersDoNotAnswer(s, input.turn);
      NoParamsNoFailure(s, input);
      CountNone(out, AnswerTo(id));
  }

  lemma NoParamsNoFailure(s: Server, input: Input)
    requires input.Line? ==> !input.hasParams
    ensures !FailsAfterReply(s, input)
  {
  }

  lemma ParamsDoNotMatter(b: Behavior, s: Server, input: Input)
    requires input.Line? && (input.hasParams || !NeedsParams(b, input.call))
    ensures FailsAfterReply(s, input) == FailsAfterReply(s, input.(hasParams := true))
  {
  }

  lemma TimersDoNotAnswer(s: Server, turn: TurnId)
    ensures Unanswering(OnResponse(s, turn).1) && Unanswering(OnTimer(s, turn).1) && Unanswering(OnDelay(s, turn).1)
  {
  }

  /** How often the id was asked, `initialized` aside. */
  function Asked(events: seq<Event>, id: RequestId): nat {
    Count(events, Asking(id))
  }

  function Asking(id: RequestId): Event -> bool {
    (e: Event) => Asks(e.input, id)
  }

  /** How often a request with this id failed after its reply. */
  function FailedAfterReply(b: Behavior, cwd: string, events: seq<Event>, id: RequestId): nat
    decreases |events|
  {
    if events == [] then 0
    else
      var front, last := events[..|events| - 1], events[|events| - 1];
      FailedAfterReply(b, cwd, front, id)
      + if Asks(last.input, id) && FailsAfterReply(Run(b, cwd, front).server, last.input) then 1 else 0
  }

  /**
    * Over every run an id is answered as often as it is asked, plus once for every request that
    * fails after its reply: so exactly once for an id asked once, if and only if none of those occurs.
    */
  lemma {:induction false} AnswersMatchRequests(b: Behavior, cwd: string, events: seq<Event>, id: RequestId)
    ensures Count(Run(b, cwd, events).sent, AnswerTo(id)) == Asked(events, id) + FailedAfterReply(b, cwd, events, id)
    decreases |events|
  {
    hide Step, FailsAfterReply, Count;
    if events == [] {
      CountNone([], AnswerTo(id));
      CountNone([], Asking(id));
    } else {
      var front, last := events[..|events| - 1], events[|events| - 1];
      AnswersMatchRequests(b, cwd, front, id);
      var w := Run(b, cwd, front);
      StepAnswers(b, w.server, last.input, last.now, id);
      CountConcat(w.sent, Step(b, w.server, last.input, last.now).1, AnswerTo(id));
      CountLast(front, last, Asking(id));
      assert events == front + [last];
    }
  }

  /**
    * A step that answers with an error changes no thread and neither counter, if and only if the request
    * is not one of those that fail after their reply.
    */
  lemma ErrorsChangeNothing(b: Behavior, s: Server, input: Input, now: nat)
    requires exists m :: m in Step(b, s, input, now).1 && m.ErrorReply?
    ensures var s' := Step(b, s, input, now).0;
      && (!FailsAfterReply(s, input) ==> s' == s)
      && (!FailsAfterReply(s, input) <==>
            s'.threads == s.threads && s'.nextThreadId == s.nextThreadId && s'.nextTurnId == s.nextTurnId)
  {
    hide OnCall, FailsAfterReply, OnResponse, OnTimer, OnDelay;
    match input
    case Line(id, call, hasParams) =>
      NoParamsMeansNoFailure(s, input);
      if hasParams || !NeedsParams(b, call) {
        var k := CallAnswers(b, s, id, call, now);
        ParamsDoNotMatter(b, s, input);
        if !OnCall(b, s, id, call, now).thrown {
          ErrorWithoutThrowing(b, s, id, call, now);
        }
      }
    case _ =>
      TimersDoNotAnswer(s, input.turn);
  }

  lemma NoParamsMeansNoFailure(s: Server, input: Input)
    ensures input.Line? && !input.hasParams ==> !FailsAfterReply(s, input)
  {
  }

  lemma ErrorWithoutThrowing(b: Behavior, s: Server, id: Option<RequestId>, call: Call, now: nat)
    requires !OnCall(b, s, id, call, now).thrown
    requires exists m :: m in OnCall(b, s, id, call, now).out && m.ErrorReply?
    ensures OnCall(b, s, id, call, now).server == s
  {
    hide OnTurnStart, OnReviewStart, Find, FindRecord, Matching;
    if call.TurnStart? {
      TurnStartAnswers(b, s, id, call, now);
      ReplyIsNoError(OnTurnStart(b, s, id, call, now).out, 0, id);
    } else if call.ReviewStart? {
      var k := ReviewAnswers(b, s, id, call, now);
      ReplyIsNoError(OnReviewStart(b, s, id, call, now).out, k, id);
    }
  }

  lemma ReplyIsNoError(out: seq<Message>, k: nat, id: Option<RequestId>)
    requires AnswersOnceAt(out, k, id) && out[k].Reply?
    ensures forall m :: m in out ==> !m.ErrorReply?
  {
    assert out == out[..k] + [out[k]] + out[k + 1..];
  }

  // ---------------------------------------------------------------- which requests are refused, and with what

  predicate Known(s: Server, thread: ThreadId) {
    exists t :: t in s.threads && t.id == thread
  }

  /** The first thread with this id has a name that is neither missing nor a text. */
  predicate NamedByNoText(s: Server, thread: ThreadId) {
    exists k ::
      && 0 <= k < |s.threads| && s.threads[k].id == thread && (forall i :: 0 <= i < k ==> s.threads[i].id != thread)
      && (s.threads[k].name.ListName? || s.threads[k].name.OtherName?)
  }

  /** The transcript cannot be imported: it is not there, its record leads nowhere, or it cannot be read to its end. */
  predicate CannotImport(s: Server, session: Option<Session>) {
    || session.None? || session.value.path.None?
    || var k := FindRecord(s.ledger, session.value.path.value, session.value.hash);
       if k < |s.ledger| then s.ledger[k].threadId.None? || !Known(s, s.ledger[k].threadId.value)
       else session.value.title.None?
  }

  /** Why a request with its parameters is refused. */
  predicate Refused(b: Behavior, s: Server, call: Call) {
    match call
    case Initialize(_) => false
    case Initialized => false
    case AccountRead => false
    case ConfigRead => b.ConfigReadFails?
    case ThreadStart(_, _, persistHistory) => b.AuthRunFails? || (persistHistory && !s.experimentalApi)
    case ThreadNameSet(thread, _) => !Known(s, thread)
    case ThreadList(cwd, term) =>
      term != "" && exists t :: t in s.threads && (cwd == "" || t.cwd == cwd) && t.name.OtherName?
    case ThreadResume(thread, persistHistory) => (persistHistory && !s.experimentalApi) || !Known(s, thread)
    case ReviewStart(thread, _, hasTarget) => !Known(s, thread) || !hasTarget
    case TurnStart(thread, inputOk, wantsVerdict) =>
      !Known(s, thread) || !inputOk || (!wantsVerdict && NamedByNoText(s, thread))
    case TurnSteer(_, inputOk) => !inputOk
    case TurnInterrupt(_) => false
    case Import(session) =>
      b.ImportUnsupported? || (!b.ImportFails? && !b.ImportItemFailure? && CannotImport(s, session))
    case Unsupported => true
  }

  /** What a request that is not refused is answered with; the list of threads is told elsewhere. */
  predicate Grants(s: Server, call: Call, result: Result) {
    match call
    case ThreadStart(_, _, _) => result == ThreadOpened(s.nextThreadId)
    case ThreadResume(thread, _) => result == ThreadOpened(thread)
    case ThreadList(_, _) => result.Threads?
    case ReviewStart(_, _, _) => result == TurnAccepted(s.nextTurnId)
    case TurnStart(_, _, _) => result == TurnAccepted(s.nextTurnId)
    case TurnSteer(turn, _) => result == Steered(turn)
    case ThreadNameSet(_, _) => result == Empty
    case TurnInterrupt(_) => result == Empty
    case Import(_) => result == Empty
    case _ => result == Info
  }

  /** Which requests cannot do without parameters. */
  predicate LooksIntoParams(b: Behavior, call: Call) {
    && !call.Initialized? && !call.AccountRead? && !call.ConfigRead? && !call.Unsupported?
    && (call.Import? ==> !b.ImportUnsupported? && !b.ImportFails? && !b.ImportItemFailure?)
  }

  lemma KnownIsFound(s: Server, thread: ThreadId)
    ensures Known(s, thread) <==> Find(s.threads, thread) < |s.threads|
    ensures NamedByNoText(s, thread) <==>
      Find(s.threads, thread) < |s.threads| && BreaksStartsWith(s.threads[Find(s.threads, thread)].name)
  {
    var k := Find(s.threads, thread);
    hide Find;
    if k < |s.threads| {
      assert s.threads[k] in s.threads;
    }
  }

  lemma ErrorStays(out: seq<Message>, id: Option<RequestId>)
    ensures ErrorReply(id, SERVER_ERROR) in out + [ErrorReply(id, SERVER_ERROR)]
    ensures forall m :: m in out ==> m in out + [ErrorReply(id, SERVER_ERROR)]
    ensures forall m :: m in out + [ErrorReply(id, SERVER_ERROR)] ==> m in out || m == ErrorReply(id, SERVER_ERROR)
  {
  }

  /** What a handler throws, answers with an error, and answers, by its request. */
  predicate Handled(b: Behavior, s: Server, id: Option<RequestId>, call: Call, e: Effect) {
    && (e.thrown <==> Refused(b, s, call) && !Unserved(b, call))
    && (forall m :: m in e.out && m.ErrorReply? ==> m == ErrorReply(id, -32601) && Unserved(b, call))
    && (Unserved(b, call) ==> ErrorReply(id, -32601) in e.out)
    && (!Refused(b, s, call) && !call.Initialized? ==>
          exists m :: m in e.out && m.Reply? && m.id == id && Grants(s, call, m.result))
  }

  predicate Unserved(b: Behavior, call: Call) {
    call.Unsupported? || (call.Import? && b.ImportUnsupported?)
  }

  predicate MakesNoErrors(out: seq<Message>) {
    forall m :: m in out ==> !m.ErrorReply?
  }

  lemma ThrowingIsHandled(b: Behavior, s: Server, id: Option<RequestId>, call: Call, e: Effect)
    requires e.thrown && Refused(b, s, call) && !Unserved(b, call) && MakesNoErrors(e.out)
    ensures Handled(b, s, id, call, e)
  {
    hide Refused, Grants;
  }

  lemma ReplyingIsHandled(b: Behavior, s: Server, id: Option<RequestId>, call: Call, e: Effect, k: nat)
    requires !e.thrown && !Refused(b, s, call) && !Unserved(b, call) && MakesNoErrors(e.out)
    requires k < |e.out| && e.out[k].Reply? && e.out[k].id == id && Grants(s, call, e.out[k].result)
    ensures Handled(b, s, id, call, e)
  {
    hide Refused, Grants;
    assert e.out[k] in e.out;
  }

  lemma ThreadStartIsHandled(b: Behavior, s: Server, id: Option<RequestId>, call: Call, now: nat)
    requires call.ThreadStart?
    ensures Handled(b, s, id, call, OnThreadStart(b, s, id, call, now))
  {
    hide Handled;
    var e := OnThreadStart(b, s, id, call, now);
    if e.thrown {
      ThrowingIsHandled(b, s, id, call, e);
    } else {
      ReplyingIsHandled(b, s, id, call, e, 0);
    }
  }

  lemma ThreadListIsHandled(b: Behavior, s: Server, id: Option<RequestId>, call: Call)
    requires call.ThreadList?
    ensures Handled(b, s, id, call, OnThreadList(s, id, call))
  {
    hide Handled, Matching;
    var e := OnThreadList(s, id, call);
    if e.thrown {
      ThrowingIsHandled(b, s, id, call, e);
    } else {
      ReplyingIsHandled(b, s, id, call, e, 0);
    }
  }

  lemma KnownThreadCallsAreHandled(b: Behavior, s: Server, id: Option<RequestId>, call: Call, now: nat)
    ensures call.ThreadNameSet? ==> Handled(b, s, id, call, OnThreadNameSet(s, id, call, now))
    ensures call.ThreadResume? ==> Handled(b, s, id, call, OnThreadResume(s, id, call, now))
  {
    hide Handled, Find, Known;
    if call.ThreadNameSet? || call.ThreadResume? {
      KnownIsFound(s, call.thread);
      var e := if call.ThreadNameSet? then OnThreadNameSet(s, id, call, now) else OnThreadResume(s, id, call, now);
      if e.thrown {
        ThrowingIsHandled(b, s, id, call, e);
      } else {
        ReplyingIsHandled(b, s, id, call, e, 0);
      }
    }
  }

  lemma ReviewIsHandled(b: Behavior, s: Server, id: Option<RequestId>, call: Call, now: nat)
    requires call.ReviewStart?
    ensures Handled(b, s, id, call, OnReviewStart(b, s, id, call, now))
  {
    KnownIsFound(s, call.thread);
    hide Handled, Find, TurnMessages, ReviewItems, Known, NamedByNoText;
    var e := OnReviewStart(b, s, id, call, now);
    var review := if call.detached then s.nextThreadId else call.thread;
    ReviewMakesNoErrors(b, review, s.nextTurnId);
    if e.thrown {
      ThrowingIsHandled(b, s, id, call, e);
    } else {
      ReplyingIsHandled(b, s, id, call, e, if call.detached then 1 else 0);
    }
  }

  lemma ReviewMakesNoErrors(b: Behavior, thread: ThreadId, turn: TurnId)
    ensures forall m :: m in TurnMessages(thread, turn, ReviewItems(b, thread, turn)) ==> !m.ErrorReply?
  {
  }

  lemma BegunTurnMakesNoErrors(b: Behavior, s: Server, thread: ThreadId, cwd: string, turn: TurnId, now: nat)
    ensures forall m :: m in BeginTurn(b, s, thread, cwd, turn, now).out ==> !m.ErrorReply?
  {
    SubagentAnswersNothing(b, thread, turn, s.nextThreadId, s.nextTurnId);
    hide SubagentMessages;
  }

  lemma TurnStartIsHandled(b: Behavior, s: Server, id: Option<RequestId>, call: Call, now: nat)
    requires call.TurnStart?
    ensures Handled(b, s, id, call, OnTurnStart(b, s, id, call, now))
  {
    KnownIsFound(s, call.thread);
    hide Handled, Find, BeginTurn, Known, NamedByNoText, BreaksStartsWith;
    var k := Find(s.threads, call.thread);
    var e := OnTurnStart(b, s, id, call, now);
    if k < |s.threads| && call.inputOk {
      var s1 := OnTurnAccepted(s, k, now);
      BeginTurnReturns(b, s1, call.thread, s.threads[k].cwd, s.nextTurnId, now);
      BegunTurnMakesNoErrors(b, s1, call.thread, s.threads[k].cwd, s.nextTurnId, now);
    }
    hide OnTurnAccepted;
    if e.thrown {
      ThrowingIsHandled(b, s, id, call, e);
    } else {
      ReplyingIsHandled(b, s, id, call, e, 0);
    }
  }

  lemma ImportThrows(b: Behavior, s: Server, id: Option<RequestId>, session: Option<Session>, now: nat)
    requires !b.ImportUnsupported? && !b.ImportFails? && !b.ImportItemFailure?
    ensures var e := OnImport(b, s, id, session, now);
      && (e.thrown <==> CannotImport(s, session))
      && e.out == if e.thrown then [] else [Reply(id, Empty), ImportCompleted(false)]
  {
    if session.Some? && session.value.path.Some? {
      var k := FindRecord(s.ledger, session.value.path.value, session.value.hash);
      if k < |s.ledger| && s.ledger[k].threadId.Some? {
        KnownIsFound(s, s.ledger[k].threadId.value);
      }
    }
    hide Find, FindRecord, Known, NamedByNoText;
  }

  lemma ImportIsHandled(b: Behavior, s: Server, id: Option<RequestId>, call: Call, now: nat)
    requires call.Import?
    ensures Handled(b, s, id, call, OnImport(b, s, id, call.session, now))
  {
    var e := OnImport(b, s, id, call.session, now);
    if b.ImportUnsupported? {
      assert e.out == [ErrorReply(id, -32601)];
    } else {
      if !b.ImportFails? && !b.ImportItemFailure? {
        ImportThrows(b, s, id, call.session, now);
      } else {
        assert e.out[0] == Reply(id, Empty) && |e.out| == 2 && e.out[1].ImportCompleted? && !e.thrown;
      }
      hide Handled, CannotImport, OnImport;
      if e.thrown {
        ThrowingIsHandled(b, s, id, call, e);
      } else {
        ReplyingIsHandled(b, s, id, call, e, 0);
      }
    }
  }

  lemma SimpleCallsAreHandled(b: Behavior, s: Server, id: Option<RequestId>, call: Call, now: nat)
    requires call.Initialize? || call.AccountRead? || call.ConfigRead? || call.TurnSteer? || call.TurnInterrupt?
    ensures Handled(b, s, id, call, OnCall(b, s, id, call, now))
  {
    hide Handled;
    var e := OnCall(b, s, id, call, now);
    if e.thrown {
      ThrowingIsHandled(b, s, id, call, e);
    } else {
      ReplyingIsHandled(b, s, id, call, e, if call.TurnInterrupt? && call.turn in s.interruptible then 1 else 0);
    }
  }

  lemma CallIsHandled(b: Behavior, s: Server, id: Option<RequestId>, call: Call, now: nat)
    ensures Handled(b, s, id, call, OnCall(b, s, id, call, now))
  {
    match call
    case Initialized =>
    case Unsupported => assert OnCall(b, s, id, call, now).out[0] == ErrorReply(id, -32601);
    case ThreadStart(_, _, _) =>
      hide Handled, OnThreadStart;
      ThreadStartIsHandled(b, s, id, call, now);
    case ThreadNameSet(_, _) =>
      hide Handled, OnThreadNameSet;
      KnownThreadCallsAreHandled(b, s, id, call, now);
    case ThreadList(_, _) =>
      hide Handled, OnThreadList;
      ThreadListIsHandled(b, s, id, call);
    case ThreadResume(_, _) =>
      hide Handled, OnThreadResume;
      KnownThreadCallsAreHandled(b, s, id, call, now);
    case ReviewStart(_, _, _) =>
      hide Handled, OnReviewStart;
      ReviewIsHandled(b, s, id, call, now);
    case TurnStart(_, _, _) =>
      hide Handled, OnTurnStart;
      TurnStartIsHandled(b, s, id, call, now);
    case Import(_) =>
      hide Handled, OnImport;
      ImportIsHandled(b, s, id, call, now);
    case _ =>
      hide Handled;
      SimpleCallsAreHandled(b, s, id, call, now);
  }

  /**
    * Exactly the requests that say why are answered with an error: an unknown method with -32601, and everything a
    * handler throws over with -32000, missing parameters included. All others but `initialized` get the reply that
    * their request calls for.
    */
  lemma RequestIsRefusedIff(b: Behavior, s: Server, id: Option<RequestId>, call: Call, hasParams: bool, now: nat)
    ensures var out := Step(b, s, Line(id, call, hasParams), now).1;
      var unread := !hasParams && LooksIntoParams(b, call);
      && (ErrorReply(id, -32601) in out <==> Unserved(b, call))
      && (ErrorReply(id, -32000) in out <==> unread || (Refused(b, s, call) && !Unserved(b, call)))
      && (forall m :: m in out && m.ErrorReply? ==> m.id == id && m.code in {-32601, -32000})
      && (!unread && !Refused(b, s, call) && !call.Initialized? ==>
            exists m :: m in out && m.Reply? && m.id == id && Grants(s, call, m.result))
  {
    var unread := !hasParams && NeedsParams(b, call);
    assert NeedsParams(b, call) <==> LooksIntoParams(b, call);
    assert unread ==> !Unserved(b, call);
    hide OnCall, Refused, Grants, NeedsParams, LooksIntoParams;
    if !unread {
      CallIsHandled(b, s, id, call, now);
      ErrorStays(OnCall(b, s, id, call, now).out, id);
    }
  }
}
