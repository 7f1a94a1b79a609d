/** Runs of the app-server: where every turn is, and how many replies every request gets. */
module AppServerTurns {
  import opened Wrappers
  import opened Counting
  import opened AppServer
  import opened ImportLedger

  datatype Event = Event(input: Input, now: nat)

  datatype World = World(server: Server, sent: seq<Message>)

  function Run(b: Behavior, cwd: string, events: seq<Event>): World
    decreases |events|
  {
    if events == [] then World(Boot(cwd), [])
    else
      var w := Run(b, cwd, events[..|events| - 1]);
      var last := events[|events| - 1];
      var (s, out) := Step(b, w.server, last.input, last.now);
      World(s, w.sent + out)
  }

  lemma RunLast(b: Behavior, cwd: string, events: seq<Event>, last: Event)
    ensures var w := Run(b, cwd, events);
      var (s, out) := Step(b, w.server, last.input, last.now);
      Run(b, cwd, events + [last]) == World(s, w.sent + out)
  {
    assert (events + [last])[..|events|] == events;
  }

  // ---------------------------------------------------------------- what goes wrong, seen before the call

  /** A request that is answered with a turn and then, in addition, with an error. */
  predicate FailsAfterReply(s: Server, input: Input) {
    && input.Line? && input.hasParams
    && match input.call
       case ReviewStart(thread, _, hasTarget) => Find(s.threads, thread) < |s.threads| && !hasTarget
       case TurnStart(thread, inputOk, wantsVerdict) =>
         var k := Find(s.threads, thread);
         k < |s.threads| && inputOk && !wantsVerdict && BreaksStartsWith(s.threads[k].name)
       case _ => false
  }

  /** A request whose turn no later event will complete. */
  predicate LosesTurn(b: Behavior, s: Server, input: Input) {
    || FailsAfterReply(s, input)
    || (&& b.WithSubagentNoMainCompletion? && input.Line? && input.hasParams && input.call.TurnStart?
        && Find(s.threads, input.call.thread) < |s.threads| && input.call.inputOk)
  }

  // ---------------------------------------------------------------- turns

  function CompletionOf(t: TurnId): Message -> bool {
    (m: Message) => m.TurnCompleted? && m.turn == t
  }

  /** In how many of the three waiting places a turn is. */
  function Pending(s: Server, t: TurnId): nat {
    (if t in s.approvals then 1 else 0) + (if t in s.interruptible then 1 else 0) + (if t in s.delayed then 1 else 0)
  }

  ghost predicate Ready(s: Server) {
    && s.timers == s.interruptible.Keys
    && (forall t: TurnId :: Pending(s, t) <= 1 && (Pending(s, t) > 0 ==> t < s.nextTurnId))
  }

  predicate Uncompleting(out: seq<Message>) {
    forall m :: m in out ==> !m.TurnCompleted?
  }

  /** The turn a message is about; the reply to turn/steer only repeats what the client said. */
  function TurnOf(m: Message): Option<TurnId> {
    match m
    case Reply(_, TurnAccepted(turn)) => Some(turn)
    case TurnStarted(_, turn) => Some(turn)
    case ItemStarted(_, turn, _) => Some(turn)
    case ItemCompleted(_, turn, _) => Some(turn)
    case TurnCompleted(_, turn, _) => Some(turn)
    case ApprovalRequest(_, turn) => Some(turn)
    case _ => None
  }

  predicate MentionsNoTurn(out: seq<Message>) {
    forall m :: m in out ==> TurnOf(m).None?
  }

  predicate SameTurns(s: Server, s': Server) {
    && s'.nextTurnId == s.nextTurnId && s'.approvals == s.approvals && s'.interruptible == s.interruptible
    && s'.timers == s.timers && s'.delayed == s.delayed
  }

  lemma CountUncompleting(out: seq<Message>, t: TurnId)
    requires Uncompleting(out)
    ensures Count(out, CompletionOf(t)) == 0
  {
    CountNone(out, CompletionOf(t));
  }

  lemma TurnMessagesCompleteOnce(thread: ThreadId, turn: TurnId, items: seq<Message>, t: TurnId)
    requires Uncompleting(items)
    ensures Count(TurnMessages(thread, turn, items), CompletionOf(t)) == if t == turn then 1 else 0
  {
    var opening := [TurnStarted(thread, turn)] + items;
    CountUncompleting(opening, t);
    CountLast(opening, TurnCompleted(thread, turn, false), CompletionOf(t));
  }

  /** The balance of one step: completed now plus waiting after, against waiting before plus handed out. */
  predicate Balances(s: Server, s': Server, out: seq<Message>, lost: bool, t: TurnId) {
    && Count(out, CompletionOf(t)) + Pending(s', t)
       == Pending(s, t) + (if s.nextTurnId <= t < s'.nextTurnId && !(lost && t == s.nextTurnId) then 1 else 0)
    && s.nextTurnId <= s'.nextTurnId
  }

  /** The handlers of threads neither touch nor mention a turn. */
  lemma ThreadHandlersAreQuiet(b: Behavior, s: Server, id: Option<RequestId>, call: Call, now: nat)
    ensures call.ThreadStart? ==> IsQuiet(s, OnThreadStart(b, s, id, call, now))
    ensures call.ThreadNameSet? ==> IsQuiet(s, OnThreadNameSet(s, id, call, now))
    ensures call.ThreadResume? ==> IsQuiet(s, OnThreadResume(s, id, call, now))
    ensures call.ThreadList? ==> IsQuiet(s, OnThreadList(s, id, call))
  {
    hide Find, Matching;
  }

  lemma ImportIsQuiet(b: Behavior, s: Server, id: Option<RequestId>, session: Option<Session>, now: nat)
    ensures IsQuiet(s, OnImport(b, s, id, session, now))
  {
    hide Find, FindRecord;
  }

  predicate IsQuiet(s: Server, e: Effect) {
    SameTurns(s, e.server) && MentionsNoTurn(e.out)
  }

  lemma QuietCalls(b: Behavior, s: Server, id: Option<RequestId>, call: Call, now: nat)
    requires !call.ReviewStart? && !call.TurnStart? && !call.TurnInterrupt?
    ensures IsQuiet(s, OnCall(b, s, id, call, now))
  {
    hide OnThreadStart, OnThreadNameSet, OnThreadResume, OnThreadList, OnImport;
    ThreadHandlersAreQuiet(b, s, id, call, now);
    if call.Import? {
      ImportIsQuiet(b, s, id, call.session, now);
    }
  }

  lemma QuietBalances(s: Server, e: Effect, t: TurnId)
    requires Ready(s) && IsQuiet(s, e)
    ensures Ready(e.server) && Balances(s, e.server, e.out, false, t)
  {
    hide Count;
    CountUncompleting(e.out, t);
    assert forall x: TurnId :: Pending(e.server, x) == Pending(s, x);
  }

  lemma HandingOutStaysReady(s: Server, s': Server)
    requires Ready(s) && s.nextTurnId <= s'.nextTurnId && SameTurns(s, s'.(nextTurnId := s.nextTurnId))
    ensures Ready(s') && Pending(s, s.nextTurnId) == 0 && forall x: TurnId :: Pending(s', x) == Pending(s, x)
  {
    assert forall x: TurnId :: Pending(s', x) == Pending(s, x);
  }

  lemma ReviewBalances(b: Behavior, s: Server, id: Option<RequestId>, call: Call, now: nat, t: TurnId)
    requires Ready(s) && call.ReviewStart?
    ensures var e := OnReviewStart(b, s, id, call, now);
      Ready(e.server) && Balances(s, e.server, e.out, FailsAfterReply(s, Line(id, call, true)), t)
  {
    hide Count, TurnMessages, Ready, Pending, Find;
    var k := Find(s.threads, call.thread);
    var e := OnReviewStart(b, s, id, call, now);
    HandingOutStaysReady(s, e.server);
    if k == |s.threads| {
      CountUncompleting([], t);
    } else {
      var turn := s.nextTurnId;
      var review := if call.detached then s.nextThreadId else call.thread;
      var replied := (if call.detached then [ThreadStarted(review, false)] else []) + [Reply(id, TurnAccepted(turn))];
      CountUncompleting(replied, t);
      if call.hasTarget {
        TurnMessagesCompleteOnce(review, turn, ReviewItems(b, review, turn), t);
        CountConcat(replied, TurnMessages(review, turn, ReviewItems(b, review, turn)), CompletionOf(t));
      }
    }
  }

  lemma SubagentCompletes(b: Behavior, thread: ThreadId, turn: TurnId, sub: ThreadId, subTurn: TurnId, t: TurnId)
    requires turn != subTurn
    ensures Count(SubagentMessages(b, thread, turn, sub, subTurn), CompletionOf(t))
      == if t == subTurn || (t == turn && !b.WithSubagentNoMainCompletion?) then 1 else 0
  {
    var p := CompletionOf(t);
    var opening, closing := SubagentOpening(b, thread, turn, sub, subTurn), SubagentClosing(b, thread, turn);
    var tail := if b.WithSubagentNoMainCompletion? then [] else [TurnCompleted(thread, turn, false)];
    CountUncompleting(opening, t);
    CountUncompleting(closing, t);
    CountLast(opening, TurnCompleted(sub, subTurn, false), p);
    CountConcat(closing, tail, p);
    CountOne(TurnCompleted(thread, turn, false), p);
    CountConcat(opening + [TurnCompleted(sub, subTurn, false)], closing + tail, p);
  }

  /** `BeginTurn` takes over a turn that was just handed out. */
  lemma BeginTurnBalances(b: Behavior, s: Server, thread: ThreadId, cwd: string, turn: TurnId, now: nat, t: TurnId)
    requires Ready(s) && turn + 1 == s.nextTurnId && Pending(s, turn) == 0
    ensures var e := BeginTurn(b, s, thread, cwd, turn, now);
      && Ready(e.server) && s.nextTurnId <= e.server.nextTurnId
      && Count(e.out, CompletionOf(t)) + Pending(e.server, t)
         == Pending(s, t) + (if turn <= t < e.server.nextTurnId
             && !(b.WithSubagentNoMainCompletion? && t == turn) then 1 else 0)
  {
    hide Count, TurnMessages, SubagentMessages;
    var e := BeginTurn(b, s, thread, cwd, turn, now);
    if IsSubagent(b) {
      assert forall x: TurnId :: Pending(e.server, x) == Pending(s, x);
      SubagentCompletes(b, thread, turn, s.nextThreadId, s.nextTurnId, t);
    } else if b.ApprovalCommand? || b.AuthRefreshRequest? || b.InterruptibleSlowTask? || b.SlowTask? {
      CountUncompleting(e.out, t);
      assert forall x: TurnId :: Pending(e.server, x) == Pending(s, x) + if x == turn then 1 else 0;
    } else {
      TurnMessagesCompleteOnce(thread, turn, TurnItems(b, thread, turn), t);
    }
  }

  lemma TurnStartBalances(b: Behavior, s: Server, id: Option<RequestId>, call: Call, now: nat, t: TurnId)
    requires Ready(s) && call.TurnStart?
    ensures var e := OnTurnStart(b, s, id, call, now);
      Ready(e.server) && Balances(s, e.server, e.out, LosesTurn(b, s, Line(id, call, true)), t)
  {
    hide Count, BeginTurn, Ready, Pending;
    var k := Find(s.threads, call.thread);
    if k == |s.threads| || !call.inputOk {
      CountUncompleting([], t);
    } else {
      var s1 := OnTurnAccepted(s, k, now);
      var replied := [Reply(id, TurnAccepted(s.nextTurnId))];
      CountUncompleting(replied, t);
      HandingOutStaysReady(s, s1);
      if call.wantsVerdict || !BreaksStartsWith(s.threads[k].name) {
        var e := BeginTurn(b, s1, call.thread, s.threads[k].cwd, s.nextTurnId, now);
        BeginTurnBalances(b, s1, call.thread, s.threads[k].cwd, s.nextTurnId, now, t);
        CountConcat(replied, e.out, CompletionOf(t));
      }
    }
  }

  lemma InterruptBalances(s: Server, id: Option<RequestId>, turn: TurnId, t: TurnId)
    requires Ready(s)
    ensures var e := OnTurnInterrupt(s, id, turn); Ready(e.server) && Balances(s, e.server, e.out, false, t)
  {
    hide Count;
    CountUncompleting([Reply(id, Empty)], t);
    if turn in s.interruptible {
      var done := TurnCompleted(s.interruptible[turn], turn, true);
      CountOne(done, CompletionOf(t));
      CountConcat([done], [Reply(id, Empty)], CompletionOf(t));
      assert [done] + [Reply(id, Empty)] == [done, Reply(id, Empty)];
      var s' := OnTurnInterrupt(s, id, turn).server;
      assert forall x: TurnId :: Pending(s', x) <= Pending(s, x);
    }
  }

  lemma TimerBalances(s: Server, turn: TurnId, t: TurnId)
    requires Ready(s)
    ensures var (s', out) := OnTimer(s, turn); Ready(s') && Balances(s, s', out, false, t)
  {
    hide Count;
    CountUncompleting([], t);
    var (s', out) := OnTimer(s, turn);
    assert forall x: TurnId :: Pending(s', x) <= Pending(s, x);
    if turn in s.interruptible {
      var thread := s.interruptible[turn];
      var item := ItemCompleted(thread, turn, FinalAnswer);
      CountUncompleting([item], t);
      CountLast([item], TurnCompleted(thread, turn, false), CompletionOf(t));
      assert out == [item] + [TurnCompleted(thread, turn, false)];
    }
  }

  lemma DelayBalances(s: Server, turn: TurnId, t: TurnId)
    requires Ready(s)
    ensures var (s', out) := OnDelay(s, turn); Ready(s') && Balances(s, s', out, false, t)
  {
    hide Count, TurnMessages;
    CountUncompleting([], t);
    var s' := OnDelay(s, turn).0;
    assert forall x: TurnId :: Pending(s', x) <= Pending(s, x);
    if turn in s.delayed {
      TurnMessagesCompleteOnce(s.delayed[turn], turn, [ItemCompleted(s.delayed[turn], turn, FinalAnswer)], t);
    }
  }

  lemma ResponseBalances(s: Server, turn: TurnId, t: TurnId)
    requires Ready(s)
    ensures var (s', out) := OnResponse(s, turn); Ready(s') && Balances(s, s', out, false, t)
  {
    hide Count, TurnMessages;
    CountUncompleting([], t);
    var s' := OnResponse(s, turn).0;
    assert forall x: TurnId :: Pending(s', x) <= Pending(s, x);
    if turn in s.approvals {
      TurnMessagesCompleteOnce(s.approvals[turn], turn, [ItemCompleted(s.approvals[turn], turn, FinalAnswer)], t);
    }
  }

  lemma ErrorCompletesNothing(out: seq<Message>, id: Option<RequestId>, t: TurnId)
    ensures Count(out + [ErrorReply(id, SERVER_ERROR)], CompletionOf(t)) == Count(out, CompletionOf(t))
  {
    CountLast(out, ErrorReply(id, SERVER_ERROR), CompletionOf(t));
  }

  lemma LineBalances(b: Behavior, s: Server, id: Option<RequestId>, call: Call, hasParams: bool, now: nat, t: TurnId)
    requires Ready(s)
    ensures var (s', out) := OnLine(b, s, id, call, hasParams, now);
      Ready(s') && Balances(s, s', out, LosesTurn(b, s, Line(id, call, hasParams)), t)
  {
    hide Count, OnReviewStart, OnTurnStart, OnTurnInterrupt, Find, Ready, IsQuiet, Pending;
    var skipped := !hasParams && NeedsParams(b, call);
    var e := if skipped then Effect(s, [], true) else OnCall(b, s, id, call, now);
    ErrorCompletesNothing(e.out, id, t);
    if skipped {
      NothingIsQuiet(s);
      QuietBalances(s, e, t);
    } else if call.ReviewStart? {
      ReviewBalances(b, s, id, call, now, t);
    } else if call.TurnStart? {
      TurnStartBalances(b, s, id, call, now, t);
    } else if call.TurnInterrupt? {
      InterruptBalances(s, id, call.turn, t);
    } else {
      QuietCalls(b, s, id, call, now);
      hide OnCall;
      QuietBalances(s, e, t);
    }
  }

  lemma NothingIsQuiet(s: Server)
    ensures IsQuiet(s, Effect(s, [], true))
  {
  }

  /** Are all completions in `out` finished ones, or all interrupted ones of turn `t`? */
  predicate CompletesBy(out: seq<Message>, interrupted: Option<TurnId>) {
    forall m :: m in out && m.TurnCompleted? ==>
      m.interrupted == interrupted.Some? && (interrupted.Some? ==> m.turn == interrupted.value)
  }

  lemma TurnMessagesFinish(thread: ThreadId, turn: TurnId, items: seq<Message>)
    requires Uncompleting(items)
    ensures CompletesBy(TurnMessages(thread, turn, items), None)
  {
  }

  lemma SubagentFinishes(b: Behavior, thread: ThreadId, turn: TurnId, sub: ThreadId, subTurn: TurnId)
    ensures CompletesBy(SubagentMessages(b, thread, turn, sub, subTurn), None)
  {
  }

  lemma BegunTurnFinishes(b: Behavior, s: Server, thread: ThreadId, cwd: string, turn: TurnId, now: nat)
    ensures CompletesBy(BeginTurn(b, s, thread, cwd, turn, now).out, None)
  {
    hide TurnMessages, SubagentMessages;
    SubagentFinishes(b, thread, turn, s.nextThreadId, s.nextTurnId);
    TurnMessagesFinish(thread, turn, TurnItems(b, thread, turn));
  }

  lemma ReviewFinishes(b: Behavior, s: Server, id: Option<RequestId>, call: Call, now: nat)
    requires call.ReviewStart?
    ensures CompletesBy(OnReviewStart(b, s, id, call, now).out, None)
  {
    hide Find, TurnMessages;
    var review := if call.detached then s.nextThreadId else call.thread;
    TurnMessagesFinish(review, s.nextTurnId, ReviewItems(b, review, s.nextTurnId));
  }

  lemma TurnStartFinishes(b: Behavior, s: Server, id: Option<RequestId>, call: Call, now: nat)
    requires call.TurnStart?
    ensures CompletesBy(OnTurnStart(b, s, id, call, now).out, None)
  {
    hide Find, BeginTurn, OnTurnAccepted;
    var k := Find(s.threads, call.thread);
    if k < |s.threads| {
      BegunTurnFinishes(b, OnTurnAccepted(s, k, now), call.thread, s.threads[k].cwd, s.nextTurnId, now);
    }
  }

  lemma WaitingFinishes(s: Server, turn: TurnId)
    ensures CompletesBy(OnResponse(s, turn).1, None)
    ensures CompletesBy(OnTimer(s, turn).1, None)
    ensures CompletesBy(OnDelay(s, turn).1, None)
  {
  }

  lemma ErrorKeepsCompletions(out: seq<Message>, id: Option<RequestId>, who: Option<TurnId>)
    ensures CompletesBy(out + [ErrorReply(id, SERVER_ERROR)], who) <==> CompletesBy(out, who)
  {
    assert forall m :: m in out ==> m in out + [ErrorReply(id, SERVER_ERROR)];
  }

  lemma InterruptCompletes(s: Server, id: Option<RequestId>, turn: TurnId)
    ensures CompletesBy(OnTurnInterrupt(s, id, turn).out, Some(turn))
  {
  }

  lemma NothingCompletes(out: seq<Message>, who: Option<TurnId>)
    requires MentionsNoTurn(out)
    ensures CompletesBy(out, who)
  {
  }

  /** The completions of one call; an error reply behind them completes nothing. */
  lemma LineCompletesBy(b: Behavior, s: Server, id: Option<RequestId>, call: Call, hasParams: bool, now: nat)
    ensures CompletesBy(OnLine(b, s, id, call, hasParams, now).1, if call.TurnInterrupt? then Some(call.turn) else None)
  {
    hide OnReviewStart, OnTurnStart, OnTurnInterrupt, CompletesBy, MentionsNoTurn, SameTurns, NeedsParams;
    var who := if call.TurnInterrupt? then Some(call.turn) else None;
    var skipped := !hasParams && NeedsParams(b, call);
    var e := if skipped then Effect(s, [], true) else OnCall(b, s, id, call, now);
    ErrorKeepsCompletions(e.out, id, who);
    if skipped {
      NothingIsQuiet(s);
      NothingCompletes(e.out, who);
    } else if call.ReviewStart? {
      ReviewFinishes(b, s, id, call, now);
    } else if call.TurnStart? {
      TurnStartFinishes(b, s, id, call, now);
    } else if call.TurnInterrupt? {
      InterruptCompletes(s, id, call.turn);
    } else {
      QuietCalls(b, s, id, call, now);
      NothingCompletes(e.out, who);
      hide OnCall;
    }
  }

  /** A completion is an interrupted one if and only if the step is a request to interrupt that very turn. */
  lemma InterruptedOnlyOnRequest(b: Behavior, s: Server, input: Input, now: nat)
    ensures CompletesBy(Step(b, s, input, now).1,
                        if input.Line? && input.call.TurnInterrupt? then Some(input.call.turn) else None)
  {
    hide OnLine, OnResponse, OnTimer, OnDelay, CompletesBy;
    match input
    case Line(id, call, hasParams) => LineCompletesBy(b, s, id, call, hasParams, now);
    case _ => WaitingFinishes(s, input.turn);
  }

  lemma StepBalances(b: Behavior, s: Server, input: Input, now: nat, t: TurnId)
    requires Ready(s)
    ensures var (s', out) := Step(b, s, input, now); Ready(s') && Balances(s, s', out, LosesTurn(b, s, input), t)
  {
    hide Count, OnLine, OnResponse, OnTimer, OnDelay, Ready, Balances, Find;
    match input
    case Line(id, call, hasParams) => LineBalances(b, s, id, call, hasParams, now, t);
    case Response(turn) => ResponseBalances(s, turn, t);
    case TimerFires(turn) => TimerBalances(s, turn, t);
    case DelayFires(turn) => DelayBalances(s, turn, t);
  }

  /** Turn `t` was handed out by a request that loses its turn. */
  predicate LostIn(b: Behavior, cwd: string, events: seq<Event>, t: TurnId)
    decreases |events|
  {
    && events != []
    && var front, last := events[..|events| - 1], events[|events| - 1];
       || LostIn(b, cwd, front, t)
       || (Run(b, cwd, front).server.nextTurnId == t && LosesTurn(b, Run(b, cwd, front).server, last.input))
  }

  /**
    * Conservation, in every run: a turn not handed out is nowhere; a turn handed out is in exactly one place
    * (completed once, awaiting approval, interruptible, or delayed) if and only if no request lost it.
    */
  lemma {:induction false} EveryTurnIsInOnePlace(b: Behavior, cwd: string, events: seq<Event>, t: TurnId)
    ensures var w := Run(b, cwd, events);
      && Ready(w.server) && 0 < w.server.nextTurnId
      && (0 < t < w.server.nextTurnId ==>
            (Count(w.sent, CompletionOf(t)) + Pending(w.server, t) == 1 <==> !LostIn(b, cwd, events, t)))
      && (LostIn(b, cwd, events, t) ==> 0 < t < w.server.nextTurnId)
      && (t == 0 || w.server.nextTurnId <= t || LostIn(b, cwd, events, t) ==>
            Count(w.sent, CompletionOf(t)) == 0 && Pending(w.server, t) == 0)
    decreases |events|
  {
    hide Step, LosesTurn, Count;
    if events == [] {
      CountUncompleting([], t);
    } else {
      var front, last := events[..|events| - 1], events[|events| - 1];
      EveryTurnIsInOnePlace(b, cwd, front, t);
      var w := Run(b, cwd, front);
      var (s, out) := Step(b, w.server, last.input, last.now);
      StepBalances(b, w.server, last.input, last.now, t);
      if LosesTurn(b, w.server, last.input) {
        LossHandsOut(b, w.server, last.input, last.now);
      }
      CountConcat(w.sent, out, CompletionOf(t));
    }
  }

  lemma LossHandsOut(b: Behavior, s: Server, input: Input, now: nat)
    requires LosesTurn(b, s, input)
    ensures Step(b, s, input, now).0.nextTurnId > s.nextTurnId
  {
  }

  /** A review without a target: the turn is named in the reply and then never heard of again. */
  lemma ReviewWithoutTargetLosesItsTurn(cwd: string, now: nat)
    ensures var events := [Event(Line(Some(1), ThreadStart("", false, false), true), now),
                           Event(Line(Some(2), ReviewStart(1, false, false), true), now)];
      var w := Run(Ordinary, cwd, events);
      && w.sent == [Reply(Some(1), ThreadOpened(1)), ThreadStarted(1, false),
                    Reply(Some(2), TurnAccepted(1)), ErrorReply(Some(2), SERVER_ERROR)]
      && LostIn(Ordinary, cwd, events, 1) && w.server.nextTurnId == 2
  {
    var first := Event(Line(Some(1), ThreadStart("", false, false), true), now);
    var second := Event(Line(Some(2), ReviewStart(1, false, false), true), now);
    RunLast(Ordinary, cwd, [], first);
    RunLast(Ordinary, cwd, [first], second);
    assert [] + [first] == [first] && [first] + [second] == [first, second] && [first, second][..1] == [first];
    var s0, w1 := Boot(cwd), Run(Ordinary, cwd, [first]);
    assert w1.sent == Step(Ordinary, s0, first.input, now).1;
    var thread := Thread(1, cwd, NoName, false, now, false);
    assert w1.server.threads == [thread];
    assert Find([thread], 1) == 0;
    var w := Run(Ordinary, cwd, [first, second]);
    assert w.sent == w1.sent + Step(Ordinary, w1.server, second.input, now).1;
    hide Run;
    assert |w1.sent| == 2;
  }
}
