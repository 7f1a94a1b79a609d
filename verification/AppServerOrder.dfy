/** Runs of the app-server: in what order the messages about a turn go out. */
module AppServerOrder {
  import opened Wrappers
  import opened AppServer
  import opened AppServerTurns
  import opened ImportLedger

  predicate Accepts(m: Message, t: TurnId) {
    m.Reply? && m.result == TurnAccepted(t)
  }

  predicate Accepted(sent: seq<Message>, t: TurnId) {
    exists m :: m in sent && Accepts(m, t)
  }

  predicate Open(sent: seq<Message>, t: TurnId) {
    forall m :: m in sent ==> !(m.TurnCompleted? && m.turn == t)
  }

  predicate Unmentioned(sent: seq<Message>, t: TurnId) {
    forall m :: m in sent ==> TurnOf(m) != Some(t)
  }

  /**
    * What may follow `before`: nothing about a turn once it is completed, the reply naming a turn before
    * anything else about it, and its completion only on the thread it was started on and after that reply,
    * or, for the turn of a subagent, after the thread of the subagent was announced.
    */
  predicate Follows(b: Behavior, before: seq<Message>, m: Message) {
    && (TurnOf(m).Some? ==> Open(before, TurnOf(m).value))
    && (m.Reply? && m.result.TurnAccepted? ==> Unmentioned(before, m.result.turn))
    && (m.TurnCompleted? ==>
          && TurnStarted(m.thread, m.turn) in before
          && (Accepted(before, m.turn) || (IsSubagent(b) && ThreadStarted(m.thread, true) in before)))
  }

  predicate Orderly(b: Behavior, sent: seq<Message>) {
    forall j :: 0 <= j < |sent| ==> Follows(b, sent[..j], sent[j])
  }

  lemma OrderlyLast(b: Behavior, sent: seq<Message>, m: Message)
    requires Orderly(b, sent) && Follows(b, sent, m)
    ensures Orderly(b, sent + [m])
  {
    hide Follows;
    var all := sent + [m];
    forall j | 0 <= j < |all|
      ensures Follows(b, all[..j], all[j])
    {
      assert all[..j] == sent[..j];
    }
  }

  /** Messages about turns of `ts` only, none a completion and none a reply that names a turn. */
  predicate About(items: seq<Message>, ts: set<TurnId>) {
    forall m :: m in items ==>
        !m.TurnCompleted? && !(m.Reply? && m.result.TurnAccepted?) && (TurnOf(m).Some? ==> TurnOf(m).value in ts)
  }

  lemma {:induction false} OrderlyItems(b: Behavior, sent: seq<Message>, items: seq<Message>, ts: set<TurnId>)
    requires Orderly(b, sent) && About(items, ts) && forall t :: t in ts ==> Open(sent, t)
    ensures Orderly(b, sent + items) && forall t: TurnId :: Open(sent, t) ==> Open(sent + items, t)
    decreases |items|
  {
    if items == [] {
      assert sent + items == sent;
    } else {
      var front, last := items[..|items| - 1], items[|items| - 1];
      OrderlyItems(b, sent, front, ts);
      OrderlyLast(b, sent + front, last);
      assert sent + items == sent + front + [last];
    }
  }

  lemma OrderlyTurn(b: Behavior, sent: seq<Message>, thread: ThreadId, turn: TurnId, items: seq<Message>)
    requires Orderly(b, sent) && About(items, {turn}) && Accepted(sent, turn) && Open(sent, turn)
    ensures Orderly(b, sent + TurnMessages(thread, turn, items))
  {
    hide Orderly;
    var opening := [TurnStarted(thread, turn)] + items;
    OrderlyItems(b, sent, opening, {turn});
    var done := TurnCompleted(thread, turn, false);
    assert TurnStarted(thread, turn) in sent + opening;
    OrderlyLast(b, sent + opening, done);
    assert sent + TurnMessages(thread, turn, items) == sent + opening + [done];
  }

  // ---------------------------------------------------------------- the invariant

  predicate Waiting(sent: seq<Message>, t: TurnId) {
    Accepted(sent, t) && Open(sent, t)
  }

  ghost predicate OrderInv(b: Behavior, s: Server, sent: seq<Message>) {
    && Ready(s)
    && Orderly(b, sent)
    && (forall m :: m in sent && TurnOf(m).Some? ==> TurnOf(m).value < s.nextTurnId)
    && (forall t :: t in s.approvals ==> Waiting(sent, t) && TurnStarted(s.approvals[t], t) in sent)
    && (forall t :: t in s.interruptible ==> Waiting(sent, t) && TurnStarted(s.interruptible[t], t) in sent)
    && (forall t :: t in s.delayed ==> Waiting(sent, t))
  }

  /** `out` mentions only turns handed out, and completes none that is pending afterwards. */
  ghost predicate Fits(s': Server, out: seq<Message>) {
    && (forall m :: m in out && TurnOf(m).Some? ==> TurnOf(m).value < s'.nextTurnId)
    && (forall t: TurnId :: Pending(s', t) > 0 ==> Open(out, t))
  }

  lemma InvExtends(b: Behavior, s: Server, s': Server, sent: seq<Message>, out: seq<Message>)
    requires OrderInv(b, s, sent) && Ready(s') && s.nextTurnId <= s'.nextTurnId
    requires Orderly(b, sent + out) && Fits(s', out)
    requires forall t :: t in s'.approvals ==> (t in s.approvals && s.approvals[t] == s'.approvals[t])
    requires forall t :: t in s'.interruptible ==> (t in s.interruptible && s.interruptible[t] == s'.interruptible[t])
    requires forall t :: t in s'.delayed ==> t in s.delayed
    ensures OrderInv(b, s', sent + out)
  {
    hide Orderly, Accepted, Ready;
    forall t | t in s'.approvals || t in s'.interruptible || t in s'.delayed
      ensures Waiting(sent + out, t)
    {
      assert Pending(s', t) > 0;
      AcceptedStays(sent, out, t);
    }
  }

  lemma AcceptedStays(sent: seq<Message>, out: seq<Message>, t: TurnId)
    ensures Accepted(sent, t) ==> Accepted(sent + out, t)
  {
  }

  lemma NewTurnIsOpen(b: Behavior, s: Server, sent: seq<Message>, t: TurnId)
    requires OrderInv(b, s, sent) && s.nextTurnId <= t
    ensures Open(sent, t) && Unmentioned(sent, t) && Pending(s, t) == 0
  {
    assert Pending(s, t) <= 1 && (Pending(s, t) > 0 ==> t < s.nextTurnId);
  }

  /** Handing out a turn: nothing before it is about it, so the reply may name it. */
  lemma AcceptExtends(b: Behavior, s: Server, s': Server, sent: seq<Message>, announced: seq<Message>,
                      id: Option<RequestId>)
    requires OrderInv(b, s, sent) && About(announced, {}) && s'.nextTurnId == s.nextTurnId + 1
    requires SameTurns(s, s'.(nextTurnId := s.nextTurnId))
    ensures OrderInv(b, s', sent + (announced + [Reply(id, TurnAccepted(s.nextTurnId))]))
    ensures Waiting(sent + (announced + [Reply(id, TurnAccepted(s.nextTurnId))]), s.nextTurnId)
    ensures Pending(s', s.nextTurnId) == 0
  {
    hide Orderly;
    var t := s.nextTurnId;
    var reply := Reply(id, TurnAccepted(t));
    NewTurnIsOpen(b, s, sent, t);
    OrderlyItems(b, sent, announced, {});
    OrderlyLast(b, sent + announced, reply);
    assert sent + (announced + [reply]) == sent + announced + [reply];
    HandingOutStaysReady(s, s');
    InvExtends(b, s, s', sent, announced + [reply]);
    assert reply in sent + (announced + [reply]) && Accepts(reply, t);
  }

  lemma QuietKeepsOrder(b: Behavior, s: Server, s': Server, sent: seq<Message>, out: seq<Message>)
    requires OrderInv(b, s, sent) && SameTurns(s, s') && About(out, {})
    ensures OrderInv(b, s', sent + out)
  {
    hide Orderly;
    OrderlyItems(b, sent, out, {});
    HandingOutStaysReady(s, s');
    InvExtends(b, s, s', sent, out);
  }

  lemma MentioningNothing(out: seq<Message>)
    requires MentionsNoTurn(out)
    ensures About(out, {})
  {
  }

  lemma ReviewKeepsOrder(b: Behavior, s: Server, sent: seq<Message>, id: Option<RequestId>, call: Call, now: nat)
    requires OrderInv(b, s, sent) && call.ReviewStart?
    ensures var e := OnReviewStart(b, s, id, call, now); OrderInv(b, e.server, sent + e.out)
  {
    hide Find, OrderInv, TurnMessages, Waiting;
    var e := OnReviewStart(b, s, id, call, now);
    if Find(s.threads, call.thread) == |s.threads| {
      assert sent + [] == sent;
    } else {
      var turn := s.nextTurnId;
      var review := if call.detached then s.nextThreadId else call.thread;
      var announced := if call.detached then [ThreadStarted(review, false)] else [];
      var replied := announced + [Reply(id, TurnAccepted(turn))];
      AcceptExtends(b, s, e.server, sent, announced, id);
      if call.hasTarget {
        var items := ReviewItems(b, review, turn);
        CompleteNewTurn(b, e.server, sent + replied, review, turn, items);
        assert sent + e.out == sent + replied + TurnMessages(review, turn, items);
      }
    }
  }

  /** A whole turn goes out at once, for a turn that is accepted and waits nowhere. */
  lemma CompleteNewTurn(b: Behavior, s: Server, sent: seq<Message>, thread: ThreadId, turn: TurnId, items: seq<Message>)
    requires OrderInv(b, s, sent) && About(items, {turn}) && Waiting(sent, turn) && Pending(s, turn) == 0
    ensures OrderInv(b, s, sent + TurnMessages(thread, turn, items))
  {
    hide Orderly;
    OrderlyTurn(b, sent, thread, turn, items);
    var m :| m in sent && Accepts(m, turn);
    assert TurnOf(m) == Some(turn);
    InvExtends(b, s, s, sent, TurnMessages(thread, turn, items));
  }

  /** The subagent's own turn, inside the main one. */
  lemma SubagentTurnIsOrderly(b: Behavior, sent: seq<Message>, thread: ThreadId, turn: TurnId, sub: ThreadId,
                              subTurn: TurnId)
    requires Orderly(b, sent) && IsSubagent(b) && turn != subTurn
    requires Waiting(sent, turn) && Open(sent, subTurn)
    ensures var s1 := sent + SubagentOpening(b, thread, turn, sub, subTurn) + [TurnCompleted(sub, subTurn, false)];
      Orderly(b, s1) && Waiting(s1, turn) && TurnStarted(thread, turn) in s1
  {
    hide Orderly, Accepted;
    var opening, subDone := SubagentOpening(b, thread, turn, sub, subTurn), TurnCompleted(sub, subTurn, false);
    OrderlyItems(b, sent, opening, {turn, subTurn});
    assert opening[0] == ThreadStarted(sub, true) && opening[1] == TurnStarted(thread, turn);
    assert opening[|opening| - 3] == TurnStarted(sub, subTurn);
    AcceptedStays(sent, opening, turn);
    OrderlyLast(b, sent + opening, subDone);
    AcceptedStays(sent + opening, [subDone], turn);
  }

  lemma ClosingIsOrderly(b: Behavior, sent: seq<Message>, thread: ThreadId, turn: TurnId)
    requires Orderly(b, sent) && Waiting(sent, turn) && TurnStarted(thread, turn) in sent
    ensures Orderly(b, sent + SubagentClosing(b, thread, turn))
    ensures Orderly(b, sent + SubagentClosing(b, thread, turn) + [TurnCompleted(thread, turn, false)])
  {
    var closing := SubagentClosing(b, thread, turn);
    assert About(closing, {turn});
    hide Orderly, SubagentClosing;
    OrderlyItems(b, sent, closing, {turn});
    AcceptedStays(sent, closing, turn);
    hide Accepted;
    OrderlyLast(b, sent + closing, TurnCompleted(thread, turn, false));
  }

  lemma SubagentIsOrderly(b: Behavior, sent: seq<Message>, thread: ThreadId, turn: TurnId, sub: ThreadId,
                          subTurn: TurnId)
    requires Orderly(b, sent) && IsSubagent(b) && turn != subTurn
    requires Waiting(sent, turn) && Open(sent, subTurn)
    ensures Orderly(b, sent + SubagentMessages(b, thread, turn, sub, subTurn))
  {
    hide Orderly, Waiting, Open, SubagentOpening, SubagentClosing;
    var opening, closing := SubagentOpening(b, thread, turn, sub, subTurn), SubagentClosing(b, thread, turn);
    var s1 := sent + opening + [TurnCompleted(sub, subTurn, false)];
    SubagentTurnIsOrderly(b, sent, thread, turn, sub, subTurn);
    ClosingIsOrderly(b, s1, thread, turn);
    var all := sent + SubagentMessages(b, thread, turn, sub, subTurn);
    if b.WithSubagentNoMainCompletion? {
      assert all == s1 + closing;
    } else {
      assert all == s1 + closing + [TurnCompleted(thread, turn, false)];
    }
  }

  lemma ItemsKeepWaiting(sent: seq<Message>, items: seq<Message>, ts: set<TurnId>)
    requires About(items, ts)
    ensures forall t: TurnId :: Waiting(sent, t) ==> Waiting(sent + items, t)
  {
    forall t: TurnId | Waiting(sent, t)
      ensures Waiting(sent + items, t)
    {
      AcceptedStays(sent, items, t);
    }
  }

  predicate Adds(before: map<TurnId, ThreadId>, after: map<TurnId, ThreadId>, turn: TurnId, thread: ThreadId) {
    forall t :: t in after ==> (t in before && after[t] == before[t]) || (t == turn && after[t] == thread)
  }

  lemma InvParks(b: Behavior, s: Server, s': Server, sent: seq<Message>, out: seq<Message>, thread: ThreadId,
                 turn: TurnId)
    requires OrderInv(b, s, sent) && Waiting(sent, turn) && turn < s.nextTurnId == s'.nextTurnId && Ready(s')
    requires About(out, {turn}) && Orderly(b, sent + out)
    requires Adds(s.approvals, s'.approvals, turn, thread) && Adds(s.interruptible, s'.interruptible, turn, thread)
      && Adds(s.delayed, s'.delayed, turn, thread)
    requires turn in s'.approvals || turn in s'.interruptible ==> TurnStarted(thread, turn) in out
    ensures OrderInv(b, s', sent + out)
  {
    hide Orderly, Waiting, Ready;
    ItemsKeepWaiting(sent, out, {turn});
  }

  predicate Parks(b: Behavior) {
    b.ApprovalCommand? || b.AuthRefreshRequest? || b.InterruptibleSlowTask? || b.SlowTask?
  }

  lemma ParkedTurnIs(b: Behavior, s: Server, thread: ThreadId, cwd: string, turn: TurnId, now: nat)
    requires Parks(b)
    ensures var e := BeginTurn(b, s, thread, cwd, turn, now);
      && About(e.out, {turn}) && e.server.nextTurnId == s.nextTurnId
      && Adds(s.approvals, e.server.approvals, turn, thread)
          && Adds(s.interruptible, e.server.interruptible, turn, thread)
      && Adds(s.delayed, e.server.delayed, turn, thread)
      && (if b.SlowTask? then e.server.approvals == s.approvals && e.server.interruptible == s.interruptible
          else TurnStarted(thread, turn) in e.out)
  {
    var e := BeginTurn(b, s, thread, cwd, turn, now);
    assert !b.SlowTask? ==> e.out[0] == TurnStarted(thread, turn);
  }

  /** A turn that starts and then waits: in an approval, under the interruptible timer, or under the delay. */
  lemma ParkedTurnKeepsOrder(b: Behavior, s: Server, sent: seq<Message>, thread: ThreadId, cwd: string, turn: TurnId,
                             now: nat)
    requires OrderInv(b, s, sent) && Waiting(sent, turn) && Pending(s, turn) == 0 && turn + 1 == s.nextTurnId
      && Parks(b)
    ensures var e := BeginTurn(b, s, thread, cwd, turn, now); OrderInv(b, e.server, sent + e.out)
  {
    var e := BeginTurn(b, s, thread, cwd, turn, now);
    InvHas(b, s, sent);
    ParkedTurnIs(b, s, thread, cwd, turn, now);
    WaitingIsOpen(sent, turn);
    PendingMembers(s, turn);
    hide OrderInv, Ready, Orderly, Waiting, Open, BeginTurn, About, Adds, Pending;
    BeginTurnBalances(b, s, thread, cwd, turn, now, turn);
    OrderlyItems(b, sent, e.out, {turn});
    InvParks(b, s, e.server, sent, e.out, thread, turn);
  }

  lemma InvHas(b: Behavior, s: Server, sent: seq<Message>)
    requires OrderInv(b, s, sent)
    ensures Orderly(b, sent) && Ready(s)
  {
  }

  lemma PendingMembers(s: Server, t: TurnId)
    ensures Pending(s, t) == 0 ==> t !in s.approvals && t !in s.interruptible && t !in s.delayed
  {
  }

  lemma WaitingIsOpen(sent: seq<Message>, t: TurnId)
    requires Waiting(sent, t)
    ensures Open(sent, t)
  {
  }

  lemma BeginTurnKeepsOrder(b: Behavior, s: Server, sent: seq<Message>, thread: ThreadId, cwd: string, turn: TurnId,
                            now: nat)
    requires OrderInv(b, s, sent) && Waiting(sent, turn) && Pending(s, turn) == 0 && turn + 1 == s.nextTurnId
    ensures var e := BeginTurn(b, s, thread, cwd, turn, now); OrderInv(b, e.server, sent + e.out)
  {
    if Parks(b) {
      ParkedTurnKeepsOrder(b, s, sent, thread, cwd, turn, now);
    } else if IsSubagent(b) {
      SubagentKeepsOrder(b, s, sent, thread, cwd, turn, now);
    } else {
      hide OrderInv, Waiting, TurnMessages;
      CompleteNewTurn(b, s, sent, thread, turn, TurnItems(b, thread, turn));
    }
  }

  lemma SubagentKeepsOrder(b: Behavior, s: Server, sent: seq<Message>, thread: ThreadId, cwd: string, turn: TurnId,
                           now: nat)
    requires OrderInv(b, s, sent) && Waiting(sent, turn) && Pending(s, turn) == 0 && turn + 1 == s.nextTurnId
      && IsSubagent(b)
    ensures var e := BeginTurn(b, s, thread, cwd, turn, now); OrderInv(b, e.server, sent + e.out)
  {
    hide Orderly, SubagentMessages;
    var e := BeginTurn(b, s, thread, cwd, turn, now);
    NewTurnIsOpen(b, s, sent, s.nextTurnId);
    SubagentIsOrderly(b, sent, thread, turn, s.nextThreadId, s.nextTurnId);
    SubagentMentions(b, thread, turn, s.nextThreadId, s.nextTurnId);
    HandingOutStaysReady(s, e.server);
    InvExtends(b, s, e.server, sent, e.out);
  }

  lemma SubagentMentions(b: Behavior, thread: ThreadId, turn: TurnId, sub: ThreadId, subTurn: TurnId)
    ensures forall m :: m in SubagentMessages(b, thread, turn, sub, subTurn) ==>
      TurnOf(m) == None || TurnOf(m) == Some(turn) || TurnOf(m) == Some(subTurn)
  {
  }

  lemma TurnStartKeepsOrder(b: Behavior, s: Server, sent: seq<Message>, id: Option<RequestId>, call: Call, now: nat)
    requires OrderInv(b, s, sent) && call.TurnStart?
    ensures var e := OnTurnStart(b, s, id, call, now); OrderInv(b, e.server, sent + e.out)
  {
    hide Find, OrderInv, BeginTurn, Waiting, Pending;
    var k := Find(s.threads, call.thread);
    if k == |s.threads| || !call.inputOk {
      assert sent + [] == sent;
    } else {
      var turn := s.nextTurnId;
      var s1 := OnTurnAccepted(s, k, now);
      var replied := [Reply(id, TurnAccepted(turn))];
      assert [] + replied == replied;
      AcceptExtends(b, s, s1, sent, [], id);
      if call.wantsVerdict || !BreaksStartsWith(s.threads[k].name) {
        var e := BeginTurn(b, s1, call.thread, s.threads[k].cwd, turn, now);
        BeginTurnKeepsOrder(b, s1, sent + replied, call.thread, s.threads[k].cwd, turn, now);
        assert sent + (replied + e.out) == sent + replied + e.out;
      }
    }
  }

  /** The completion of a turn that was waiting, after some last items. */
  lemma CompleteWaiting(b: Behavior, s: Server, s': Server, sent: seq<Message>, items: seq<Message>, done: Message)
    requires OrderInv(b, s, sent) && Ready(s') && s'.nextTurnId == s.nextTurnId
    requires done.TurnCompleted? && Waiting(sent, done.turn) && done.turn < s.nextTurnId && About(items, {done.turn})
    requires TurnStarted(done.thread, done.turn) in sent + items
    requires Pending(s', done.turn) == 0
    requires s'.approvals == s.approvals - {done.turn} && s'.interruptible == s.interruptible - {done.turn}
      && s'.delayed == s.delayed - {done.turn}
    ensures OrderInv(b, s', sent + items + [done])
  {
    hide Orderly;
    OrderlyItems(b, sent, items, {done.turn});
    AcceptedStays(sent, items, done.turn);
    OrderlyLast(b, sent + items, done);
    assert sent + (items + [done]) == sent + items + [done];
    InvExtends(b, s, s', sent, items + [done]);
  }

  lemma PendingWaits(b: Behavior, s: Server, sent: seq<Message>, turn: TurnId)
    requires OrderInv(b, s, sent) && Pending(s, turn) > 0
    ensures Waiting(sent, turn) && turn < s.nextTurnId && Pending(s, turn) == 1
  {
  }

  function FinishMessages(thread: ThreadId, turn: TurnId, announce: bool): seq<Message> {
    var item := ItemCompleted(thread, turn, FinalAnswer);
    if announce then TurnMessages(thread, turn, [item]) else [item, TurnCompleted(thread, turn, false)]
  }

  predicate Released(s: Server, s': Server, turn: TurnId) {
    s'.approvals == s.approvals - {turn} && s'.interruptible == s.interruptible - {turn}
        && s'.delayed == s.delayed - {turn}
  }

  lemma ReleasedIsGone(s: Server, s': Server, turn: TurnId)
    requires Released(s, s', turn)
    ensures Pending(s', turn) == 0
  {
  }

  lemma InterruptReleases(s: Server, id: Option<RequestId>, turn: TurnId)
    requires Ready(s) && turn in s.interruptible
    ensures var e := OnTurnInterrupt(s, id, turn);
      && Pending(s, turn) == 1 && Released(s, e.server, turn) && e.server.nextTurnId == s.nextTurnId
      && e.out == [TurnCompleted(s.interruptible[turn], turn, true)] + [Reply(id, Empty)]
  {
    assert Pending(s, turn) == 1;
    assert s.approvals - {turn} == s.approvals && s.delayed - {turn} == s.delayed;
  }

  lemma InterruptKeepsOrder(b: Behavior, s: Server, sent: seq<Message>, id: Option<RequestId>, turn: TurnId)
    requires OrderInv(b, s, sent)
    ensures var e := OnTurnInterrupt(s, id, turn); OrderInv(b, e.server, sent + e.out)
  {
    var e := OnTurnInterrupt(s, id, turn);
    InvHas(b, s, sent);
    InterruptibleStarted(b, s, sent, turn);
    if turn in s.interruptible {
      InterruptReleases(s, id, turn);
      PendingWaits(b, s, sent, turn);
      InterruptBalances(s, id, turn, turn);
      ReleasedIsGone(s, e.server, turn);
      hide OrderInv, Ready, Waiting, Pending, OnTurnInterrupt;
      var done := TurnCompleted(s.interruptible[turn], turn, true);
      assert sent + [] == sent;
      CompleteWaiting(b, s, e.server, sent, [], done);
      QuietKeepsOrder(b, e.server, e.server, sent + [done], [Reply(id, Empty)]);
      assert sent + ([done] + [Reply(id, Empty)]) == sent + [done] + [Reply(id, Empty)];
    } else {
      hide OrderInv;
      QuietKeepsOrder(b, s, s, sent, e.out);
    }
  }

  /** The final answer and the completion of a waiting turn, announced once more or not. */
  lemma FinishWaiting(b: Behavior, s: Server, s': Server, sent: seq<Message>, thread: ThreadId, turn: TurnId,
                      announce: bool)
    requires OrderInv(b, s, sent) && Ready(s') && s'.nextTurnId == s.nextTurnId
    requires Pending(s, turn) > 0
    requires Released(s, s', turn)
    requires announce || TurnStarted(thread, turn) in sent
    ensures OrderInv(b, s', sent + FinishMessages(thread, turn, announce))
  {
    PendingWaits(b, s, sent, turn);
    ReleasedIsGone(s, s', turn);
    var items := FinishMessages(thread, turn, announce)[..if announce then 2 else 1];
    FinishMessagesAre(thread, turn, announce);
    assert announce ==> TurnStarted(thread, turn) in sent + items;
    hide OrderInv, Waiting, Ready, Pending, FinishMessages, About;
    CompleteWaiting(b, s, s', sent, items, TurnCompleted(thread, turn, false));
    assert sent + items + [TurnCompleted(thread, turn, false)] == sent + (items + [TurnCompleted(thread, turn, false)]);
  }

  lemma FinishMessagesAre(thread: ThreadId, turn: TurnId, announce: bool)
    ensures var all := FinishMessages(thread, turn, announce);
      && |all| == (if announce then 3 else 2)
      && var items := all[..if announce then 2 else 1];
         && all == items + [TurnCompleted(thread, turn, false)] && About(items, {turn})
         && (announce ==> TurnStarted(thread, turn) in items)
  {
    var all := FinishMessages(thread, turn, announce);
    assert all[0] == if announce then TurnStarted(thread, turn) else ItemCompleted(thread, turn, FinalAnswer);
    assert announce ==> all[..2][0] == TurnStarted(thread, turn);
  }

  lemma TimersRelease(s: Server, turn: TurnId)
    requires Ready(s)
    ensures turn in s.interruptible ==> var (s', out) := OnTimer(s, turn);
      Pending(s, turn) > 0 && Released(s, s', turn) && out == FinishMessages(s.interruptible[turn], turn, false)
    ensures turn in s.delayed ==> var (s', out) := OnDelay(s, turn);
      Pending(s, turn) > 0 && Released(s, s', turn) && out == FinishMessages(s.delayed[turn], turn, true)
    ensures turn in s.approvals ==> var (s', out) := OnResponse(s, turn);
      Pending(s, turn) > 0 && Released(s, s', turn) && out == FinishMessages(s.approvals[turn], turn, true)
  {
    hide TurnMessages;
    assert Pending(s, turn) <= 1;
    assert turn !in s.approvals ==> s.approvals - {turn} == s.approvals;
    assert turn !in s.delayed ==> s.delayed - {turn} == s.delayed;
    assert turn !in s.interruptible ==> s.interruptible - {turn} == s.interruptible;
  }

  lemma TimersKeepOrder(b: Behavior, s: Server, sent: seq<Message>, turn: TurnId)
    requires OrderInv(b, s, sent)
    ensures var (s', out) := OnTimer(s, turn); OrderInv(b, s', sent + out)
    ensures var (s', out) := OnDelay(s, turn); OrderInv(b, s', sent + out)
    ensures var (s', out) := OnResponse(s, turn); OrderInv(b, s', sent + out)
  {
    TimerBalances(s, turn, turn);
    DelayBalances(s, turn, turn);
    ResponseBalances(s, turn, turn);
    TimersRelease(s, turn);
    InterruptibleStarted(b, s, sent, turn);
    assert sent + [] == sent;
    hide Balances, OrderInv, Released, FinishMessages, Ready, Pending;
    if turn in s.interruptible {
      FinishWaiting(b, s, OnTimer(s, turn).0, sent, s.interruptible[turn], turn, false);
    }
    if turn in s.delayed {
      FinishWaiting(b, s, OnDelay(s, turn).0, sent, s.delayed[turn], turn, true);
    }
    if turn in s.approvals {
      FinishWaiting(b, s, OnResponse(s, turn).0, sent, s.approvals[turn], turn, true);
    }
  }

  lemma InterruptibleStarted(b: Behavior, s: Server, sent: seq<Message>, turn: TurnId)
    requires OrderInv(b, s, sent)
    ensures turn in s.interruptible ==> TurnStarted(s.interruptible[turn], turn) in sent
    ensures s.timers == s.interruptible.Keys
  {
  }

  lemma LineKeepsOrder(b: Behavior, s: Server, sent: seq<Message>, id: Option<RequestId>, call: Call, hasParams: bool,
                       now: nat)
    requires OrderInv(b, s, sent)
    ensures var (s', out) := OnLine(b, s, id, call, hasParams, now); OrderInv(b, s', sent + out)
  {
    hide OrderInv, OnReviewStart, OnTurnStart, OnTurnInterrupt, Find;
    var skipped := !hasParams && NeedsParams(b, call);
    var e := if skipped then Effect(s, [], true) else OnCall(b, s, id, call, now);
    if skipped {
      assert sent + [] == sent;
    } else if call.ReviewStart? {
      ReviewKeepsOrder(b, s, sent, id, call, now);
    } else if call.TurnStart? {
      TurnStartKeepsOrder(b, s, sent, id, call, now);
    } else if call.TurnInterrupt? {
      InterruptKeepsOrder(b, s, sent, id, call.turn);
    } else {
      QuietCalls(b, s, id, call, now);
      MentioningNothing(e.out);
      hide OnCall;
      QuietKeepsOrder(b, s, e.server, sent, e.out);
    }
    QuietKeepsOrder(b, e.server, e.server, sent + e.out, [ErrorReply(id, SERVER_ERROR)]);
    assert sent + (e.out + [ErrorReply(id, SERVER_ERROR)]) == sent + e.out + [ErrorReply(id, SERVER_ERROR)];
  }

  lemma {:induction false} RunKeepsOrder(b: Behavior, cwd: string, events: seq<Event>)
    ensures OrderInv(b, Run(b, cwd, events).server, Run(b, cwd, events).sent)
    decreases |events|
  {
    if events != [] {
      var front, last := events[..|events| - 1], events[|events| - 1];
      RunKeepsOrder(b, cwd, front);
      hide OrderInv, OnLine, OnResponse, OnTimer, OnDelay;
      var w := Run(b, cwd, front);
      match last.input
      case Line(id, call, hasParams) => LineKeepsOrder(b, w.server, w.sent, id, call, hasParams, last.now);
      case _ => TimersKeepOrder(b, w.server, w.sent, last.input.turn);
    }
  }

  /**
    * In every run: the reply that names a turn is the first message about it; its completion is the last one,
    * and comes on the thread the turn was started on, after the reply that named it or, for the turn a subagent
    * runs, after the subagent's thread was announced.
    */
  lemma TurnMessagesComeInOrder(b: Behavior, cwd: string, events: seq<Event>, i: nat, j: nat)
    requires i < j < |Run(b, cwd, events).sent|
    ensures var sent := Run(b, cwd, events).sent;
      && (sent[j].Reply? && sent[j].result.TurnAccepted? ==> TurnOf(sent[i]) != Some(sent[j].result.turn))
      && (sent[i].TurnCompleted? ==> TurnOf(sent[j]) != Some(sent[i].turn))
      && (sent[j].TurnCompleted? ==>
            && TurnStarted(sent[j].thread, sent[j].turn) in sent[..j]
            && (Accepted(sent[..j], sent[j].turn)
                || (IsSubagent(b) && ThreadStarted(sent[j].thread, true) in sent[..j])))
  {
    RunKeepsOrder(b, cwd, events);
    var sent := Run(b, cwd, events).sent;
    assert Follows(b, sent[..j], sent[j]);
    assert sent[..j][i] in sent[..j];
  }
}
