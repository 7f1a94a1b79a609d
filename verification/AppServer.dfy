/**
  * The app-server protocol peer: a JSON-RPC server that hands out threads and turns,
  * keeps pending approvals, interruptible and delayed turns, and an import ledger.
  * `Step` says what one input does; the class `AppServer` does it in place.
  */
module AppServer {
  import opened Wrappers
  import opened StableSort
  import opened Counting
  import opened ImportLedger

  type TurnId = nat
  type RequestId = nat

  /** The behaviour the server is started with; `Ordinary` stands for all that handle no request differently. */
  datatype Behavior =
    | Ordinary
    | WithReasoning
    | WithSubagent
    | WithLateSubagentMessage
    | WithSubagentNoMainCompletion
    | ApprovalCommand
    | AuthRefreshRequest
    | InterruptibleSlowTask
    | SlowTask
    | AuthRunFails
    | ConfigReadFails
    | ImportUnsupported
    | ImportFails
    | ImportItemFailure

  /** What a client may store as a name: nothing (or a falsy value), a text, a list, or some other value. */
  datatype Name = NoName | Text(text: string) | ListName(items: seq<string>) | OtherName

  datatype Thread = Thread(id: ThreadId, cwd: string, name: Name, ephemeral: bool, updatedAt: nat, imported: bool)

  datatype Server = Server(
    nextThreadId: ThreadId,
    nextTurnId: TurnId,
    threads: seq<Thread>,
    experimentalApi: bool,
    ledger: seq<Record>,
    approvals: map<TurnId, ThreadId>,
    interruptible: map<TurnId, ThreadId>,
    timers: set<TurnId>,
    delayed: map<TurnId, ThreadId>,
    processCwd: string)

  /**
    * A transcript as the server finds it: where it really is, its content hash, and its title unless a line is no JSON.
    */
  datatype Session = Session(path: Option<string>, cwd: string, hash: string, title: Option<Name>)

  datatype Call =
    | Initialize(experimentalApi: bool)
    | Initialized
    | AccountRead
    | ConfigRead
    | ThreadStart(cwd: string, ephemeral: bool, persistHistory: bool)
    | ThreadNameSet(thread: ThreadId, name: Name)
    | ThreadList(cwd: string, searchTerm: string)
    | ThreadResume(thread: ThreadId, persistHistory: bool)
    | ReviewStart(thread: ThreadId, detached: bool, hasTarget: bool)
    | TurnStart(thread: ThreadId, inputOk: bool, wantsVerdict: bool)
    | TurnSteer(turn: TurnId, inputOk: bool)
    | TurnInterrupt(turn: TurnId)
    | Import(session: Option<Session>)
    | Unsupported

  datatype Input =
    | Line(id: Option<RequestId>, call: Call, hasParams: bool)
    | Response(turn: TurnId)
    | TimerFires(turn: TurnId)
    | DelayFires(turn: TurnId)

  datatype Result =
    | Empty
    | Info
    | TurnAccepted(turn: TurnId)
    | Steered(turn: TurnId)
    | ThreadOpened(thread: ThreadId)
    | Threads(ids: seq<ThreadId>)

  datatype ItemKind = FinalAnswer | Analysis | Reasoning | CollabWait | Command | EnteredReview | ExitedReview

  datatype Message =
    | Reply(id: Option<RequestId>, result: Result)
    | ErrorReply(id: Option<RequestId>, code: int)
    | ThreadStarted(thread: ThreadId, nickname: bool)
    | TurnStarted(thread: ThreadId, turn: TurnId)
    | ItemStarted(thread: ThreadId, turn: TurnId, kind: ItemKind)
    | ItemCompleted(thread: ThreadId, turn: TurnId, kind: ItemKind)
    | TurnCompleted(thread: ThreadId, turn: TurnId, interrupted: bool)
    | ApprovalRequest(thread: ThreadId, turn: TurnId)
    | ImportCompleted(failed: bool)

  /** What a handler did before it returned or threw. */
  datatype Effect = Effect(server: Server, out: seq<Message>, thrown: bool)

  const METHOD_NOT_FOUND := -32601
  const SERVER_ERROR := -32000

  function Boot(processCwd: string): Server {
    Server(1, 1, [], false, [], map[], map[], {}, map[], processCwd)
  }

  // ---------------------------------------------------------------- helpers of the handlers

  /** The first thread with this id, or the length of the list. */
  function Find(threads: seq<Thread>, id: ThreadId): (k: nat)
    ensures k <= |threads|
    ensures k < |threads| ==> threads[k].id == id
    ensures forall i :: 0 <= i < k ==> threads[i].id != id
  {
    FirstIndex(threads, (t: Thread) => t.id == id)
  }

  function FindRecord(ledger: seq<Record>, source: string, hash: string): (k: nat)
    ensures k <= |ledger|
    ensures k < |ledger| ==> ledger[k].source == source && ledger[k].hash == hash
    ensures forall i :: 0 <= i < k ==> !(ledger[i].source == source && ledger[i].hash == hash)
  {
    FirstIndex(ledger, (r: Record) => r.source == source && r.hash == hash)
  }

  function NextThread(s: Server, cwd: string, name: Name, ephemeral: bool, imported: bool, now: nat): Server {
    var thread := Thread(s.nextThreadId, if cwd == "" then s.processCwd else cwd, name, ephemeral, now, imported);
    s.(nextThreadId := s.nextThreadId + 1, threads := [thread] + s.threads)
  }

  function TurnMessages(thread: ThreadId, turn: TurnId, items: seq<Message>): seq<Message> {
    [TurnStarted(thread, turn)] + items + [TurnCompleted(thread, turn, false)]
  }

  predicate HasText(text: string, term: string)
    decreases |text|
  {
    term <= text || (text != "" && HasText(text[1..], term))
  }

  predicate NameMatches(name: Name, term: string) {
    match name
    case NoName => HasText("", term)
    case Text(text) => HasText(text, term)
    case ListName(items) => term in items
    case OtherName => false
  }

  function Matching(threads: seq<Thread>, cwd: string, term: string): seq<Thread>
    decreases |threads|
  {
    if threads == [] then []
    else
      var keep := (cwd == "" || threads[0].cwd == cwd) && (term == "" || NameMatches(threads[0].name, term));
      (if keep then [threads[0]] else []) + Matching(threads[1..], cwd, term)
  }

  function NewestUpdateFirst(t: Thread): int {
    -(t.updatedAt as int)
  }

  function Ids(threads: seq<Thread>): (ids: seq<ThreadId>)
    ensures |ids| == |threads| && forall i :: 0 <= i < |ids| ==> ids[i] == threads[i].id
  {
    seq(|threads|, i requires 0 <= i < |threads| => threads[i].id)
  }

  predicate IsSubagent(b: Behavior) {
    b.WithSubagent? || b.WithLateSubagentMessage? || b.WithSubagentNoMainCompletion?
  }

  /** A truthy name without `startsWith`. */
  predicate BreaksStartsWith(name: Name) {
    name.ListName? || name.OtherName?
  }

  // ---------------------------------------------------------------- the handlers

  function OnThreadStart(b: Behavior, s: Server, id: Option<RequestId>, call: Call, now: nat): Effect
    requires call.ThreadStart?
  {
    if b.AuthRunFails? || (call.persistHistory && !s.experimentalApi) then Effect(s, [], true)
    else
      Effect(NextThread(s, call.cwd, NoName, call.ephemeral, false, now),
             [Reply(id, ThreadOpened(s.nextThreadId)), ThreadStarted(s.nextThreadId, false)], false)
  }

  function OnThreadNameSet(s: Server, id: Option<RequestId>, call: Call, now: nat): Effect
    requires call.ThreadNameSet?
  {
    var k := Find(s.threads, call.thread);
    if k == |s.threads| then Effect(s, [], true)
    else
      Effect(s.(threads := s.threads[k := s.threads[k].(name := call.name, updatedAt := now)]), [Reply(id, Empty)],
          false)
  }

  function OnThreadList(s: Server, id: Option<RequestId>, call: Call): Effect
    requires call.ThreadList?
  {
    if call.searchTerm != ""
       && (exists t :: t in s.threads && (call.cwd == "" || t.cwd == call.cwd) && t.name.OtherName?) then
      Effect(s, [], true)
    else
      var ordered := Sort(NewestUpdateFirst, Matching(s.threads, call.cwd, call.searchTerm));
      Effect(s, [Reply(id, Threads(Ids(ordered)))], false)
  }

  function OnThreadResume(s: Server, id: Option<RequestId>, call: Call, now: nat): Effect
    requires call.ThreadResume?
  {
    var k := Find(s.threads, call.thread);
    if (call.persistHistory && !s.experimentalApi) || k == |s.threads| then Effect(s, [], true)
    else Effect(s.(threads := s.threads[k := s.threads[k].(updatedAt := now)]), [Reply(id, ThreadOpened(call.thread))],
        false)
  }

  function ReviewItems(b: Behavior, thread: ThreadId, turn: TurnId): seq<Message> {
    [ItemStarted(thread, turn, EnteredReview)]
    + (if b.WithReasoning? then [ItemCompleted(thread, turn, Reasoning)] else [])
    + [ItemCompleted(thread, turn, ExitedReview)]
  }

  /** The reply leaves before the review text is made, and a missing target fails only there. */
  function OnReviewStart(b: Behavior, s: Server, id: Option<RequestId>, call: Call, now: nat): Effect
    requires call.ReviewStart?
  {
    var k := Find(s.threads, call.thread);
    if k == |s.threads| then Effect(s, [], true)
    else
      var review := if call.detached then s.nextThreadId else call.thread;
      var announced := if call.detached then [ThreadStarted(review, false)] else [];
      var s1 := if call.detached then NextThread(s, s.threads[k].cwd, NoName, true, false, now) else s;
      var s2 := s1.(nextTurnId := s.nextTurnId + 1);
      var replied := announced + [Reply(id, TurnAccepted(s.nextTurnId))];
      if !call.hasTarget then Effect(s2, replied, true)
      else Effect(s2, replied + TurnMessages(review, s.nextTurnId, ReviewItems(b, review, s.nextTurnId)), false)
  }

  function SubagentOpening(b: Behavior, thread: ThreadId, turn: TurnId, sub: ThreadId, subTurn: TurnId): seq<Message> {
    [ThreadStarted(sub, true), TurnStarted(thread, turn), ItemStarted(thread, turn, CollabWait)]
    + (if b.WithLateSubagentMessage? then [ItemCompleted(thread, turn, FinalAnswer)] else [])
    + [TurnStarted(sub, subTurn), ItemCompleted(sub, subTurn, Reasoning), ItemCompleted(sub, subTurn, Analysis)]
  }

  function SubagentClosing(b: Behavior, thread: ThreadId, turn: TurnId): seq<Message> {
    [ItemCompleted(thread, turn, CollabWait)]
    + (if b.WithLateSubagentMessage? then [] else [ItemCompleted(thread, turn, FinalAnswer)])
  }

  function SubagentMessages(b: Behavior, thread: ThreadId, turn: TurnId, sub: ThreadId, subTurn: TurnId): seq<Message> {
    SubagentOpening(b, thread, turn, sub, subTurn) + [TurnCompleted(sub, subTurn, false)]
    + (SubagentClosing(b, thread, turn)
       + (if b.WithSubagentNoMainCompletion? then [] else [TurnCompleted(thread, turn, false)]))
  }

  function TurnItems(b: Behavior, thread: ThreadId, turn: TurnId): seq<Message> {
    (if b.WithReasoning? then [ItemCompleted(thread, turn, Reasoning)] else [])
    + [ItemCompleted(thread, turn, FinalAnswer)]
  }

  /** What follows the reply to turn/start: a whole turn, a turn with a subagent's inside, or a turn left pending. */
  function BeginTurn(b: Behavior, s: Server, thread: ThreadId, cwd: string, turn: TurnId, now: nat): Effect {
    if IsSubagent(b) then
      var s1 := NextThread(s, cwd, Text("design-challenger"), true, false, now);
      var out := SubagentMessages(b, thread, turn, s.nextThreadId, s.nextTurnId);
      Effect(s1.(nextTurnId := s.nextTurnId + 1), out, false)
    else
      match b
      case ApprovalCommand =>
        Effect(s.(approvals := s.approvals[turn := thread]),
               [TurnStarted(thread, turn), ItemStarted(thread, turn, Command), ApprovalRequest(thread, turn)], false)
      case AuthRefreshRequest =>
        Effect(s.(approvals := s.approvals[turn := thread]), [TurnStarted(thread, turn), ApprovalRequest(thread, turn)],
            false)
      case InterruptibleSlowTask =>
        Effect(s.(interruptible := s.interruptible[turn := thread], timers := s.timers + {turn}),
               [TurnStarted(thread, turn)], false)
      case SlowTask => Effect(s.(delayed := s.delayed[turn := thread]), [], false)
      case _ => Effect(s, TurnMessages(thread, turn, TurnItems(b, thread, turn)), false)
  }

  lemma BeginTurnReturns(b: Behavior, s: Server, thread: ThreadId, cwd: string, turn: TurnId, now: nat)
    ensures !BeginTurn(b, s, thread, cwd, turn, now).thrown
    ensures !IsSubagent(b) ==> BeginTurn(b, s, thread, cwd, turn, now) == BeginTurn(b, s, thread, "", turn, 0)
  {
  }

  function OnTurnAccepted(s: Server, k: nat, now: nat): Server
    requires k < |s.threads|
  {
    s.(nextTurnId := s.nextTurnId + 1, threads := s.threads[k := s.threads[k].(updatedAt := now)])
  }

  /** Here too the reply leaves first; the prompt is then built with the thread's name, which may not be a text. */
  function OnTurnStart(b: Behavior, s: Server, id: Option<RequestId>, call: Call, now: nat): Effect
    requires call.TurnStart?
  {
    var k := Find(s.threads, call.thread);
    if k == |s.threads| || !call.inputOk then Effect(s, [], true)
    else
      var thread := s.threads[k];
      var s1 := OnTurnAccepted(s, k, now);
      var replied := [Reply(id, TurnAccepted(s.nextTurnId))];
      if !call.wantsVerdict && BreaksStartsWith(thread.name) then Effect(s1, replied, true)
      else
        var e := BeginTurn(b, s1, call.thread, thread.cwd, s.nextTurnId, now);
        e.(out := replied + e.out)
  }

  function OnTurnInterrupt(s: Server, id: Option<RequestId>, turn: TurnId): Effect {
    if turn in s.interruptible then
      Effect(s.(interruptible := s.interruptible - {turn}, timers := s.timers - {turn}),
             [TurnCompleted(s.interruptible[turn], turn, true), Reply(id, Empty)], false)
    else Effect(s, [Reply(id, Empty)], false)
  }

  function OnImport(b: Behavior, s: Server, id: Option<RequestId>, session: Option<Session>, now: nat): Effect {
    if b.ImportUnsupported? then Effect(s, [ErrorReply(id, METHOD_NOT_FOUND)], false)
    else if b.ImportFails? || b.ImportItemFailure? then
      Effect(s, [Reply(id, Empty), ImportCompleted(b.ImportItemFailure?)], false)
    else if session.None? || session.value.path.None? then Effect(s, [], true)
    else
      var source, hash := session.value.path.value, session.value.hash;
      var done := [Reply(id, Empty), ImportCompleted(false)];
      var k := FindRecord(s.ledger, source, hash);
      if k < |s.ledger| then
        var thread := s.ledger[k].threadId;
        if thread.None? || Find(s.threads, thread.value) == |s.threads| then Effect(s, [], true)
            else Effect(s, done, false)
      else if session.value.title.None? then Effect(s, [], true)
      else
        var s1 := NextThread(s, session.value.cwd, session.value.title.value, false, true, now);
        Effect(s1.(ledger := s.ledger + [Record(source, hash, Some(s.nextThreadId), Some(now))]), done, false)
  }

  /** Some handlers look into `params` before anything else and throw when there are none. */
  predicate NeedsParams(b: Behavior, call: Call) {
    match call
    case Initialized => false
    case AccountRead => false
    case ConfigRead => false
    case Unsupported => false
    case Import(_) => !(b.ImportUnsupported? || b.ImportFails? || b.ImportItemFailure?)
    case _ => true
  }

  function OnCall(b: Behavior, s: Server, id: Option<RequestId>, call: Call, now: nat): Effect {
    match call
    case Initialize(experimentalApi) => Effect(s.(experimentalApi := experimentalApi), [Reply(id, Info)], false)
    case Initialized => Effect(s, [], false)
    case AccountRead => Effect(s, [Reply(id, Info)], false)
    case ConfigRead => if b.ConfigReadFails? then Effect(s, [], true) else Effect(s, [Reply(id, Info)], false)
    case ThreadStart(_, _, _) => OnThreadStart(b, s, id, call, now)
    case ThreadNameSet(_, _) => OnThreadNameSet(s, id, call, now)
    case ThreadList(_, _) => OnThreadList(s, id, call)
    case ThreadResume(_, _) => OnThreadResume(s, id, call, now)
    case ReviewStart(_, _, _) => OnReviewStart(b, s, id, call, now)
    case TurnStart(_, _, _) => OnTurnStart(b, s, id, call, now)
    case TurnSteer(turn, inputOk) => if inputOk then Effect(s, [Reply(id, Steered(turn))], false)
        else Effect(s, [], true)
    case TurnInterrupt(turn) => OnTurnInterrupt(s, id, turn)
    case Import(session) => OnImport(b, s, id, session, now)
    case Unsupported => Effect(s, [ErrorReply(id, METHOD_NOT_FOUND)], false)
  }

  /** The try block around the switch: whatever throws is answered with an error, after what was already sent. */
  function OnLine(b: Behavior, s: Server, id: Option<RequestId>, call: Call, hasParams: bool, now: nat)
    : (Server, seq<Message>)
  {
    var e := if !hasParams && NeedsParams(b, call) then Effect(s, [], true) else OnCall(b, s, id, call, now);
    (e.server, if e.thrown then e.out + [ErrorReply(id, SERVER_ERROR)] else e.out)
  }

  function OnResponse(s: Server, turn: TurnId): (Server, seq<Message>) {
    if turn in s.approvals then
      var thread := s.approvals[turn];
      (s.(approvals := s.approvals - {turn}), TurnMessages(thread, turn, [ItemCompleted(thread, turn, FinalAnswer)]))
    else (s, [])
  }

  function OnTimer(s: Server, turn: TurnId): (Server, seq<Message>) {
    if turn !in s.timers then (s, [])
    else
      var s1 := s.(timers := s.timers - {turn});
      if turn in s.interruptible then
        var thread := s.interruptible[turn];
        (s1.(interruptible := s.interruptible - {turn}),
         [ItemCompleted(thread, turn, FinalAnswer), TurnCompleted(thread, turn, false)])
      else (s1, [])
  }

  function OnDelay(s: Server, turn: TurnId): (Server, seq<Message>) {
    if turn in s.delayed then
      var thread := s.delayed[turn];
      (s.(delayed := s.delayed - {turn}), TurnMessages(thread, turn, [ItemCompleted(thread, turn, FinalAnswer)]))
    else (s, [])
  }

  /** One input: a request line, an approval answer, or a timer that is armed. */
  function Step(b: Behavior, s: Server, input: Input, now: nat): (Server, seq<Message>) {
    match input
    case Line(id, call, hasParams) => OnLine(b, s, id, call, hasParams, now)
    case Response(turn) => OnResponse(s, turn)
    case TimerFires(turn) => OnTimer(s, turn)
    case DelayFires(turn) => OnDelay(s, turn)
  }

  // ---------------------------------------------------------------- the running server

  class AppServer {
    const behavior: Behavior
    const processCwd: string
    var nextThreadId: ThreadId
    var nextTurnId: TurnId
    var threads: seq<Thread>
    var experimentalApi: bool
    var ledger: seq<Record>
    var pendingApprovals: map<TurnId, ThreadId>
    var interruptibleTurns: map<TurnId, ThreadId>
    var timers: set<TurnId>
    var delayedTurns: map<TurnId, ThreadId>
    var sent: seq<Message>

    ghost function Value(): Server
      reads this
    {
      Server(nextThreadId, nextTurnId, threads, experimentalApi, ledger, pendingApprovals, interruptibleTurns, timers,
             delayedTurns, processCwd)
    }

    constructor (behavior: Behavior, processCwd: string)
      ensures Value() == Boot(processCwd) && sent == [] && this.behavior == behavior
    {
      this.behavior, this.processCwd := behavior, processCwd;
      nextThreadId, nextTurnId, threads := 1, 1, [];
      experimentalApi, ledger, sent := false, [], [];
      pendingApprovals, interruptibleTurns, timers, delayedTurns := map[], map[], {}, map[];
    }

    method Send(message: Message)
      modifies this`sent
      ensures sent == old(sent) + [message]
    {
      sent := sent + [message];
    }

    method SendAll(messages: seq<Message>)
      modifies this`sent
      ensures sent == old(sent) + messages
    {
      for i := 0 to |messages|
        invariant sent == old(sent) + messages[..i]
      {
        Send(messages[i]);
      }
    }

    method OpenThread(cwd: string, ephemeral: bool, now: nat) returns (id: ThreadId)
      modifies this`nextThreadId, this`threads
      ensures id == old(nextThreadId)
      ensures Value() == NextThread(old(Value()), cwd, NoName, ephemeral, false, now)
    {
      id := nextThreadId;
      nextThreadId := nextThreadId + 1;
      threads := [Thread(id, if cwd == "" then processCwd else cwd, NoName, ephemeral, now, false)] + threads;
    }

    method HandOutTurn() returns (turn: TurnId)
      modifies this`nextTurnId
      ensures turn == old(nextTurnId) && nextTurnId == turn + 1
    {
      turn := nextTurnId;
      nextTurnId := nextTurnId + 1;
    }

    method EmitTurnCompleted(thread: ThreadId, turn: TurnId, items: seq<Message>)
      modifies this`sent
      ensures sent == old(sent) + TurnMessages(thread, turn, items)
    {
      Send(TurnStarted(thread, turn));
      SendAll(items);
      Send(TurnCompleted(thread, turn, false));
    }

    method Review(id: Option<RequestId>, call: Call, now: nat) returns (thrown: bool)
      requires call.ReviewStart?
      modifies this
      ensures var e := OnReviewStart(behavior, old(Value()), id, call, now);
        Value() == e.server && sent == old(sent) + e.out && thrown == e.thrown
    {
      hide Find, TurnMessages, ReviewItems;
      var k := Find(threads, call.thread);
      if k == |threads| {
        return true;
      }
      var review := call.thread;
      if call.detached {
        review := OpenThread(threads[k].cwd, true, now);
        Send(ThreadStarted(review, false));
      }
      var turn := HandOutTurn();
      Send(Reply(id, TurnAccepted(turn)));
      if !call.hasTarget {
        return true;
      }
      EmitTurnCompleted(review, turn, ReviewItems(behavior, review, turn));
      thrown := false;
    }

    method RunSubagent(thread: ThreadId, cwd: string, turn: TurnId, now: nat)
      requires IsSubagent(behavior)
      modifies this
      ensures var e := BeginTurn(behavior, old(Value()), thread, cwd, turn, now);
        Value() == e.server && sent == old(sent) + e.out
    {
      var sub := OpenThread(cwd, true, now);
      threads := threads[0 := threads[0].(name := Text("design-challenger"))];
      var subTurn := HandOutTurn();
      SendAll(SubagentOpening(behavior, thread, turn, sub, subTurn));
      Send(TurnCompleted(sub, subTurn, false));
      SendAll(SubagentClosing(behavior, thread, turn));
      if !behavior.WithSubagentNoMainCompletion? {
        Send(TurnCompleted(thread, turn, false));
      }
    }

    method RunTurn(thread: ThreadId, turn: TurnId)
      requires !IsSubagent(behavior)
      modifies this
      ensures var e := BeginTurn(behavior, old(Value()), thread, "", turn, 0);
        Value() == e.server && sent == old(sent) + e.out
    {
      if behavior.ApprovalCommand? || behavior.AuthRefreshRequest? {
        Send(TurnStarted(thread, turn));
        pendingApprovals := pendingApprovals[turn := thread];
        if behavior.ApprovalCommand? {
          Send(ItemStarted(thread, turn, Command));
        }
        Send(ApprovalRequest(thread, turn));
      } else if behavior.InterruptibleSlowTask? {
        Send(TurnStarted(thread, turn));
        timers := timers + {turn};
        interruptibleTurns := interruptibleTurns[turn := thread];
      } else if behavior.SlowTask? {
        delayedTurns := delayedTurns[turn := thread];
      } else {
        EmitTurnCompleted(thread, turn, TurnItems(behavior, thread, turn));
      }
    }

    method StartTurn(id: Option<RequestId>, call: Call, now: nat) returns (thrown: bool)
      requires call.TurnStart?
      modifies this
      ensures var e := OnTurnStart(behavior, old(Value()), id, call, now);
        Value() == e.server && sent == old(sent) + e.out && thrown == e.thrown
    {
      hide BeginTurn;
      var k := Find(threads, call.thread);
      if k == |threads| || !call.inputOk {
        return true;
      }
      var cwd, name := threads[k].cwd, threads[k].name;
      var turn := HandOutTurn();
      threads := threads[k := threads[k].(updatedAt := now)];
      Send(Reply(id, TurnAccepted(turn)));
      if !call.wantsVerdict && BreaksStartsWith(name) {
        return true;
      }
      thrown := ContinueTurn(call.thread, cwd, turn, now);
      ghost var replied := [Reply(id, TurnAccepted(turn))];
      ghost var rest := BeginTurn(behavior, OnTurnAccepted(old(Value()), k, now), call.thread, cwd, turn, now).out;
      assert (old(sent) + replied) + rest == old(sent) + (replied + rest);
    }

    method ContinueTurn(thread: ThreadId, cwd: string, turn: TurnId, now: nat) returns (thrown: bool)
      modifies this
      ensures var e := BeginTurn(behavior, old(Value()), thread, cwd, turn, now);
        Value() == e.server && sent == old(sent) + e.out && thrown == e.thrown
    {
      BeginTurnReturns(behavior, Value(), thread, cwd, turn, now);
      hide BeginTurn;
      thrown := false;
      if IsSubagent(behavior) {
        RunSubagent(thread, cwd, turn, now);
      } else {
        RunTurn(thread, turn);
      }
    }

    method InterruptTurn(id: Option<RequestId>, turn: TurnId)
      modifies this
      ensures var e := OnTurnInterrupt(old(Value()), id, turn);
        Value() == e.server && sent == old(sent) + e.out && !e.thrown
    {
      if turn in interruptibleTurns {
        var thread := interruptibleTurns[turn];
        timers := timers - {turn};
        interruptibleTurns := interruptibleTurns - {turn};
        Send(TurnCompleted(thread, turn, true));
      }
      Send(Reply(id, Empty));
    }

    method ImportSession(id: Option<RequestId>, session: Option<Session>, now: nat) returns (thrown: bool)
      modifies this
      ensures var e := OnImport(behavior, old(Value()), id, session, now);
        Value() == e.server && sent == old(sent) + e.out && thrown == e.thrown
    {
      hide Find, FindRecord;
      if behavior.ImportUnsupported? {
        Send(ErrorReply(id, METHOD_NOT_FOUND));
        return false;
      }
      if behavior.ImportFails? || behavior.ImportItemFailure? {
        Send(Reply(id, Empty));
        Send(ImportCompleted(behavior.ImportItemFailure?));
        return false;
      }
      if session.None? || session.value.path.None? {
        return true;
      }
      var source, hash := session.value.path.value, session.value.hash;
      var k := FindRecord(ledger, source, hash);
      if k < |ledger| {
        if ledger[k].threadId.None? || Find(threads, ledger[k].threadId.value) == |threads| {
          return true;
        }
      } else {
        if session.value.title.None? {
          return true;
        }
        var thread := OpenThread(session.value.cwd, false, now);
        threads := threads[0 := threads[0].(name := session.value.title.value, imported := true)];
        ledger := ledger + [Record(source, hash, Some(thread), Some(now))];
      }
      Send(Reply(id, Empty));
      Send(ImportCompleted(false));
      thrown := false;
    }

    method ListThreads(id: Option<RequestId>, call: Call) returns (thrown: bool)
      requires call.ThreadList?
      modifies this
      ensures var e := OnThreadList(old(Value()), id, call);
        Value() == e.server && sent == old(sent) + e.out && thrown == e.thrown
    {
      thrown := call.searchTerm != ""
        && (exists t :: t in threads && (call.cwd == "" || t.cwd == call.cwd) && t.name.OtherName?);
      if !thrown {
        var matching := Matching(threads, call.cwd, call.searchTerm);
        Send(Reply(id, Threads(Ids(Sort(NewestUpdateFirst, matching)))));
      }
    }

    method StartThread(id: Option<RequestId>, call: Call, now: nat) returns (thrown: bool)
      requires call.ThreadStart?
      modifies this
      ensures var e := OnThreadStart(behavior, old(Value()), id, call, now);
        Value() == e.server && sent == old(sent) + e.out && thrown == e.thrown
    {
      if behavior.AuthRunFails? || (call.persistHistory && !experimentalApi) {
        return true;
      }
      var thread := OpenThread(call.cwd, call.ephemeral, now);
      Send(Reply(id, ThreadOpened(thread)));
      Send(ThreadStarted(thread, false));
      thrown := false;
    }

    method NameThread(id: Option<RequestId>, call: Call, now: nat) returns (thrown: bool)
      requires call.ThreadNameSet?
      modifies this
      ensures var e := OnThreadNameSet(old(Value()), id, call, now);
        Value() == e.server && sent == old(sent) + e.out && thrown == e.thrown
    {
      var k := Find(threads, call.thread);
      if k == |threads| {
        return true;
      }
      threads := threads[k := threads[k].(name := call.name, updatedAt := now)];
      Send(Reply(id, Empty));
      thrown := false;
    }

    method ResumeThread(id: Option<RequestId>, call: Call, now: nat) returns (thrown: bool)
      requires call.ThreadResume?
      modifies this
      ensures var e := OnThreadResume(old(Value()), id, call, now);
        Value() == e.server && sent == old(sent) + e.out && thrown == e.thrown
    {
      var k := Find(threads, call.thread);
      if (call.persistHistory && !experimentalApi) || k == |threads| {
        return true;
      }
      threads := threads[k := threads[k].(updatedAt := now)];
      Send(Reply(id, ThreadOpened(call.thread)));
      thrown := false;
    }

    /** The switch over the method. */
    method Dispatch(id: Option<RequestId>, call: Call, now: nat) returns (thrown: bool)
      modifies this
      ensures var e := OnCall(behavior, old(Value()), id, call, now);
        Value() == e.server && sent == old(sent) + e.out && thrown == e.thrown
    {
      hide OnThreadStart, OnThreadNameSet, OnThreadList, OnThreadResume, OnReviewStart, OnTurnStart, OnTurnInterrupt,
          OnImport;
      thrown := false;
      match call
      case Initialize(experimental) =>
        experimentalApi := experimental;
        Send(Reply(id, Info));
      case Initialized =>
      case AccountRead => Send(Reply(id, Info));
      case ConfigRead =>
        if behavior.ConfigReadFails? {
          return true;
        }
        Send(Reply(id, Info));
      case ThreadStart(_, _, _) => thrown := StartThread(id, call, now);
      case ThreadNameSet(_, _) => thrown := NameThread(id, call, now);
      case ThreadList(_, _) => thrown := ListThreads(id, call);
      case ThreadResume(_, _) => thrown := ResumeThread(id, call, now);
      case ReviewStart(_, _, _) => thrown := Review(id, call, now);
      case TurnStart(_, _, _) => thrown := StartTurn(id, call, now);
      case TurnSteer(turn, inputOk) =>
        if !inputOk {
          return true;
        }
        Send(Reply(id, Steered(turn)));
      case TurnInterrupt(turn) => InterruptTurn(id, turn);
      case Import(session) => thrown := ImportSession(id, session, now);
      case Unsupported => Send(ErrorReply(id, METHOD_NOT_FOUND));
    }

    method HandleLine(id: Option<RequestId>, call: Call, hasParams: bool, now: nat)
      modifies this
      ensures var (s, out) := OnLine(behavior, old(Value()), id, call, hasParams, now);
        Value() == s && sent == old(sent) + out
    {
      hide OnCall;
      var thrown := true;
      if hasParams || !NeedsParams(behavior, call) {
        thrown := Dispatch(id, call, now);
      }
      if thrown {
        Send(ErrorReply(id, SERVER_ERROR));
      }
    }

    method HandleResponse(turn: TurnId)
      modifies this
      ensures var (s, out) := OnResponse(old(Value()), turn); Value() == s && sent == old(sent) + out
    {
      if turn in pendingApprovals {
        var thread := pendingApprovals[turn];
        pendingApprovals := pendingApprovals - {turn};
        EmitTurnCompleted(thread, turn, [ItemCompleted(thread, turn, FinalAnswer)]);
      }
    }

    /** The five-second timer of an interruptible turn. */
    method FireTimer(turn: TurnId)
      modifies this
      ensures var (s, out) := OnTimer(old(Value()), turn); Value() == s && sent == old(sent) + out
    {
      if turn in timers {
        timers := timers - {turn};
        if turn in interruptibleTurns {
          var thread := interruptibleTurns[turn];
          interruptibleTurns := interruptibleTurns - {turn};
          Send(ItemCompleted(thread, turn, FinalAnswer));
          Send(TurnCompleted(thread, turn, false));
        }
      }
    }

    method FireDelay(turn: TurnId)
      modifies this
      ensures var (s, out) := OnDelay(old(Value()), turn); Value() == s && sent == old(sent) + out
    {
      if turn in delayedTurns {
        var thread := delayedTurns[turn];
        delayedTurns := delayedTurns - {turn};
        EmitTurnCompleted(thread, turn, [ItemCompleted(thread, turn, FinalAnswer)]);
      }
    }
  }
}
