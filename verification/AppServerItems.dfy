/** Runs of the app-server: what a turn tells the client, message by message. */
module AppServerItems {
  import opened Wrappers
  import opened Counting
  import opened AppServer
  import opened AppServerTurns
  import opened ImportLedger

  /** The messages about turn `t`, in the order in which they went out. */
  function Of(sent: seq<Message>, t: TurnId): seq<Message>
    decreases |sent|
  {
    if sent == [] then []
    else
      var last := sent[|sent| - 1];
      Of(sent[..|sent| - 1], t) + (if TurnOf(last) == Some(t) then [last] else [])
  }

  lemma {:induction false} OfConcat(sent: seq<Message>, out: seq<Message>, t: TurnId)
    ensures Of(sent + out, t) == Of(sent, t) + Of(out, t)
    decreases |out|
  {
    if out == [] {
      assert sent + out == sent;
    } else {
      OfConcat(sent, out[..|out| - 1], t);
      assert (sent + out)[..|sent + out| - 1] == sent + out[..|out| - 1];
    }
  }

  lemma {:induction false} OfOwn(out: seq<Message>, t: TurnId)
    requires forall m :: m in out ==> TurnOf(m) == Some(t)
    ensures Of(out, t) == out
    decreases |out|
  {
    if out != [] {
      OfOwn(out[..|out| - 1], t);
    }
  }

  lemma {:induction false} OfOthers(out: seq<Message>, t: TurnId)
    requires forall m :: m in out ==> TurnOf(m) != Some(t)
    ensures Of(out, t) == []
    decreases |out|
  {
    if out != [] {
      OfOthers(out[..|out| - 1], t);
    }
  }

  /** The messages about `t` up to one of them are a prefix of all of them. */
  lemma OfPrefix(sent: seq<Message>, j: nat, t: TurnId)
    requires j < |sent| && TurnOf(sent[j]) == Some(t)
    ensures Of(sent[..j], t) + [sent[j]] <= Of(sent, t)
  {
    assert sent == sent[..j] + [sent[j]] + sent[j + 1..];
    OfConcat(sent[..j] + [sent[j]], sent[j + 1..], t);
    OfConcat(sent[..j], [sent[j]], t);
    OfOwn([sent[j]], t);
  }

  lemma {:induction false} OfMembers(sent: seq<Message>, t: TurnId, m: Message)
    ensures m in Of(sent, t) <==> m in sent && TurnOf(m) == Some(t)
    decreases |sent|
  {
    if sent != [] {
      OfMembers(sent[..|sent| - 1], t, m);
      assert sent == sent[..|sent| - 1] + [sent[|sent| - 1]];
    }
  }

  lemma {:induction false} CountOf(sent: seq<Message>, t: TurnId, p: Message -> bool)
    requires forall m :: p(m) ==> TurnOf(m) == Some(t)
    ensures Count(sent, p) == Count(Of(sent, t), p)
    decreases |sent|
  {
    if sent != [] {
      var front, last := sent[..|sent| - 1], sent[|sent| - 1];
      CountOf(front, t, p);
      CountLast(Of(front, t), last, p);
      assert Of(front, t) + [] == Of(front, t);
    }
  }

  // ---------------------------------------------------------------- who named a turn, and what it tells

  /** The request whose reply names turn `t`. */
  function NamedBy(b: Behavior, cwd: string, events: seq<Event>, t: TurnId): Option<Call>
    decreases |events|
  {
    if events == [] then None
    else
      var front, last := events[..|events| - 1], events[|events| - 1];
      NextName(NamedBy(b, cwd, front, t), last.input, Step(b, Run(b, cwd, front).server, last.input, last.now).1, t)
  }

  function NextName(named: Option<Call>, input: Input, out: seq<Message>, t: TurnId): Option<Call> {
    if input.Line? && Reply(input.id, TurnAccepted(t)) in out then Some(input.call) else named
  }

  /** What a turn of turn/start tells after the reply, when nobody interrupts it. */
  function TurnStory(b: Behavior, thread: ThreadId, t: TurnId): seq<Message> {
    var started, done := TurnStarted(thread, t), TurnCompleted(thread, t, false);
    var answer := ItemCompleted(thread, t, FinalAnswer);
    match b
    case WithReasoning => [started, ItemCompleted(thread, t, Reasoning), answer, done]
    case WithSubagent =>
      [started, ItemStarted(thread, t, CollabWait), ItemCompleted(thread, t, CollabWait), answer, done]
    case WithLateSubagentMessage =>
      [started, ItemStarted(thread, t, CollabWait), answer, ItemCompleted(thread, t, CollabWait), done]
    case WithSubagentNoMainCompletion =>
      [started, ItemStarted(thread, t, CollabWait), ItemCompleted(thread, t, CollabWait), answer]
    case ApprovalCommand => Question(b, thread, t) + [started, answer, done]
    case AuthRefreshRequest => Question(b, thread, t) + [started, answer, done]
    case _ => [started, answer, done]
  }

  /** What a turn tells before it waits for the client's answer. */
  function Question(b: Behavior, thread: ThreadId, t: TurnId): seq<Message> {
    if b.ApprovalCommand? then
      [TurnStarted(thread, t), ItemStarted(thread, t, Command), ApprovalRequest(thread, t)]
    else [TurnStarted(thread, t), ApprovalRequest(thread, t)]
  }

  function ReviewStory(b: Behavior, thread: ThreadId, t: TurnId): seq<Message> {
    if b.WithReasoning? then
      [TurnStarted(thread, t), ItemStarted(thread, t, EnteredReview), ItemCompleted(thread, t, Reasoning),
       ItemCompleted(thread, t, ExitedReview), TurnCompleted(thread, t, false)]
    else
      [TurnStarted(thread, t), ItemStarted(thread, t, EnteredReview), ItemCompleted(thread, t, ExitedReview),
       TurnCompleted(thread, t, false)]
  }

  function SubagentStory(thread: ThreadId, t: TurnId): seq<Message> {
    [TurnStarted(thread, t), ItemCompleted(thread, t, Reasoning), ItemCompleted(thread, t, Analysis),
     TurnCompleted(thread, t, false)]
  }

  /** The messages about `t` so far, after the reply: of a turn that waits, or of one that does not. */
  predicate TellsTurn(b: Behavior, s: Server, rest: seq<Message>, thread: ThreadId, t: TurnId) {
    if t in s.approvals then
      s.approvals[t] == thread && (b.ApprovalCommand? || b.AuthRefreshRequest?) && rest == Question(b, thread, t)
    else if t in s.interruptible then
      s.interruptible[t] == thread && b.InterruptibleSlowTask? && rest == [TurnStarted(thread, t)]
    else if t in s.delayed then
      s.delayed[t] == thread && b.SlowTask? && rest == []
    else
      || rest == []
      || rest == TurnStory(b, thread, t)
      || (b.InterruptibleSlowTask? && rest == [TurnStarted(thread, t), TurnCompleted(thread, t, true)])
  }

  predicate TellsReview(b: Behavior, rest: seq<Message>, call: Call, t: TurnId)
    requires call.ReviewStart?
  {
    if !call.hasTarget then rest == []
    else
      && rest != [] && rest[0].TurnStarted? && (!call.detached ==> rest[0].thread == call.thread)
      && rest == ReviewStory(b, rest[0].thread, t)
  }

  predicate Waits(s: Server, t: TurnId) {
    t in s.approvals || t in s.interruptible || t in s.delayed
  }

  predicate Tells(b: Behavior, s: Server, told: seq<Message>, named: Option<Call>, t: TurnId) {
    && (s.nextTurnId <= t ==> told == [] && named.None?)
    && (Waits(s, t) ==> named.Some? && named.value.TurnStart?)
    && match named
       case None =>
         told == [] || (IsSubagent(b) && told[0].TurnStarted? && told == SubagentStory(told[0].thread, t))
       case Some(call) =>
         && told != [] && told[0].Reply? && told[0].result == TurnAccepted(t)
         && match call
            case TurnStart(thread, _, _) => TellsTurn(b, s, told[1..], thread, t)
            case ReviewStart(_, _, _) => TellsReview(b, told[1..], call, t)
            case _ => false
  }

  // ---------------------------------------------------------------- one step

  predicate SamePlaces(s: Server, s': Server, t: TurnId) {
    && s.nextTurnId <= s'.nextTurnId
    && (t in s'.approvals <==> t in s.approvals) && (t in s.approvals ==> s'.approvals[t] == s.approvals[t])
    && (t in s'.interruptible <==> t in s.interruptible)
    && (t in s.interruptible ==> s'.interruptible[t] == s.interruptible[t])
    && (t in s'.delayed <==> t in s.delayed) && (t in s.delayed ==> s'.delayed[t] == s.delayed[t])
  }

  /** A step that neither mentions `t` nor moves it. */
  lemma OthersTell(b: Behavior, s: Server, s': Server, told: seq<Message>, named: Option<Call>, input: Input,
                   out: seq<Message>, t: TurnId)
    requires Tells(b, s, told, named, t) && SamePlaces(s, s', t)
    requires forall m :: m in out ==> TurnOf(m) != Some(t)
    ensures Tells(b, s', told + Of(out, t), NextName(named, input, out, t), t)
  {
    hide TurnStory, ReviewStory, SubagentStory, Question;
    OfOthers(out, t);
    assert told + [] == told;
    if input.Line? {
      assert TurnOf(Reply(input.id, TurnAccepted(t))) == Some(t);
    }
  }

  /** The turn just handed out: its messages are those of `out`, behind the reply that names it. */
  lemma NewTurnTells(b: Behavior, s: Server, s': Server, told: seq<Message>, named: Option<Call>,
                     id: Option<RequestId>, call: Call, announced: seq<Message>, out: seq<Message>, t: TurnId)
    requires Tells(b, s, told, named, t) && s.nextTurnId <= t < s'.nextTurnId
    requires forall m :: m in announced ==> TurnOf(m).None?
    requires call.TurnStart? || call.ReviewStart?
    requires call.TurnStart? ==> TellsTurn(b, s', Of(out, t), call.thread, t)
    requires call.ReviewStart? ==> TellsReview(b, Of(out, t), call, t) && !Waits(s', t)
    ensures var all := announced + [Reply(id, TurnAccepted(t))] + out;
      Tells(b, s', told + Of(all, t), NextName(named, Line(id, call, true), all, t), t)
  {
    hide *;
    var reply := Reply(id, TurnAccepted(t));
    var all := announced + [reply] + out;
    NothingPending(b, s, told, named, t);
    OfNewTurn(announced, id, out, t);
    assert told + Of(all, t) == [reply] + Of(out, t);
    assert reply in all;
    NewlyNamed(named, id, call, all, t);
    assert ([reply] + Of(out, t))[1..] == Of(out, t);
    NamedTells(b, s', [reply] + Of(out, t), id, call, t);
  }

  lemma OfNewTurn(announced: seq<Message>, id: Option<RequestId>, out: seq<Message>, t: TurnId)
    requires forall m :: m in announced ==> TurnOf(m).None?
    ensures Of(announced + [Reply(id, TurnAccepted(t))] + out, t) == [Reply(id, TurnAccepted(t))] + Of(out, t)
  {
    var reply := Reply(id, TurnAccepted(t));
    assert TurnOf(reply) == Some(t);
    hide *;
    OfConcat(announced + [reply], out, t);
    OfConcat(announced, [reply], t);
    OfOthers(announced, t);
    OfOwn([reply], t);
    assert [] + [reply] == [reply];
  }

  lemma NewlyNamed(named: Option<Call>, id: Option<RequestId>, call: Call, all: seq<Message>, t: TurnId)
    requires Reply(id, TurnAccepted(t)) in all
    ensures NextName(named, Line(id, call, true), all, t) == Some(call)
  {
  }

  lemma NamedTells(b: Behavior, s: Server, told: seq<Message>, id: Option<RequestId>, call: Call, t: TurnId)
    requires told != [] && told[0] == Reply(id, TurnAccepted(t)) && t < s.nextTurnId
    requires call.TurnStart? || call.ReviewStart?
    requires call.TurnStart? ==> TellsTurn(b, s, told[1..], call.thread, t)
    requires call.ReviewStart? ==> TellsReview(b, told[1..], call, t) && !Waits(s, t)
    ensures Tells(b, s, told, Some(call), t)
  {
    hide TellsTurn, TellsReview, Waits;
  }

  lemma ReviewMessagesAre(b: Behavior, thread: ThreadId, turn: TurnId)
    ensures TurnMessages(thread, turn, ReviewItems(b, thread, turn)) == ReviewStory(b, thread, turn)
    ensures Of(ReviewStory(b, thread, turn), turn) == ReviewStory(b, thread, turn)
  {
    OfOwn(ReviewStory(b, thread, turn), turn);
  }

  lemma ReviewMentions(b: Behavior, s: Server, id: Option<RequestId>, call: Call, now: nat, t: TurnId)
    requires call.ReviewStart? && t != s.nextTurnId
    ensures var e := OnReviewStart(b, s, id, call, now);
      SamePlaces(s, e.server, t) && forall m :: m in e.out ==> TurnOf(m) != Some(t)
  {
    hide Find;
  }

  lemma ReviewRestTells(b: Behavior, call: Call, sub: ThreadId, t: TurnId)
    requires call.ReviewStart?
    ensures var review := if call.detached then sub else call.thread;
      TellsReview(b, Of(if call.hasTarget then ReviewStory(b, review, t) else [], t), call, t)
  {
    var review := if call.detached then sub else call.thread;
    ReviewMessagesAre(b, review, t);
    ReviewStoryStarts(b, review, t);
    hide ReviewStory;
  }

  lemma ReviewTellsNew(b: Behavior, s: Server, told: seq<Message>, named: Option<Call>, id: Option<RequestId>,
                       call: Call, now: nat)
    requires Tells(b, s, told, named, s.nextTurnId) && call.ReviewStart? && Find(s.threads, call.thread) < |s.threads|
    ensures var e, t := OnReviewStart(b, s, id, call, now), s.nextTurnId;
      Tells(b, e.server, told + Of(e.out, t), NextName(named, Line(id, call, true), e.out, t), t)
  {
    var e, t := OnReviewStart(b, s, id, call, now), s.nextTurnId;
    var review := if call.detached then s.nextThreadId else call.thread;
    var announced := if call.detached then [ThreadStarted(review, false)] else [];
    var rest := if call.hasTarget then ReviewStory(b, review, t) else [];
    assert forall m :: m in announced ==> TurnOf(m).None?;
    hide *;
    NothingPending(b, s, told, named, t);
    ReviewMessagesAre(b, review, t);
    ReviewIs(b, s, id, call, now, announced, rest);
    ReviewRestTells(b, call, s.nextThreadId, t);
    NewTurnTells(b, s, e.server, told, named, id, call, announced, rest, t);
  }

  lemma ReviewIs(b: Behavior, s: Server, id: Option<RequestId>, call: Call, now: nat, announced: seq<Message>,
                 rest: seq<Message>)
    requires call.ReviewStart? && Find(s.threads, call.thread) < |s.threads|
    requires var review := if call.detached then s.nextThreadId else call.thread;
      && announced == (if call.detached then [ThreadStarted(review, false)] else [])
      && rest == if call.hasTarget then TurnMessages(review, s.nextTurnId, ReviewItems(b, review, s.nextTurnId)) else []
    ensures var e, t := OnReviewStart(b, s, id, call, now), s.nextTurnId;
      && e.out == announced + [Reply(id, TurnAccepted(t))] + rest && t < e.server.nextTurnId
      && (!Waits(s, t) ==> !Waits(e.server, t))
  {
    hide Find, TurnMessages, ReviewItems;
  }

  lemma ReviewTells(b: Behavior, s: Server, told: seq<Message>, named: Option<Call>, id: Option<RequestId>, call: Call,
                    now: nat, t: TurnId)
    requires Tells(b, s, told, named, t) && call.ReviewStart?
    ensures var e := OnReviewStart(b, s, id, call, now);
      Tells(b, e.server, told + Of(e.out, t), NextName(named, Line(id, call, true), e.out, t), t)
  {
    hide Tells, NextName;
    if Find(s.threads, call.thread) == |s.threads| {
      OthersTell(b, s, s, told, named, Line(id, call, true), [], t);
    } else {
      hide OnReviewStart;
      if t == s.nextTurnId {
        ReviewTellsNew(b, s, told, named, id, call, now);
      } else {
        var e := OnReviewStart(b, s, id, call, now);
        ReviewMentions(b, s, id, call, now, t);
        OthersTell(b, s, e.server, told, named, Line(id, call, true), e.out, t);
      }
    }
  }

  lemma ReviewStoryStarts(b: Behavior, thread: ThreadId, t: TurnId)
    ensures ReviewStory(b, thread, t) != [] && ReviewStory(b, thread, t)[0] == TurnStarted(thread, t)
  {
  }

  lemma NothingPending(b: Behavior, s: Server, told: seq<Message>, named: Option<Call>, t: TurnId)
    requires Tells(b, s, told, named, t) && s.nextTurnId <= t
    ensures !Waits(s, t) && told == [] && named.None?
  {
  }

  /** The messages of the main turn around those of the subagent's. */
  function MainBefore(b: Behavior, thread: ThreadId, turn: TurnId): seq<Message> {
    [TurnStarted(thread, turn), ItemStarted(thread, turn, CollabWait)]
    + (if b.WithLateSubagentMessage? then [ItemCompleted(thread, turn, FinalAnswer)] else [])
  }

  function MainAfter(b: Behavior, thread: ThreadId, turn: TurnId): seq<Message> {
    [ItemCompleted(thread, turn, CollabWait)]
    + (if b.WithLateSubagentMessage? then [] else [ItemCompleted(thread, turn, FinalAnswer)])
    + (if b.WithSubagentNoMainCompletion? then [] else [TurnCompleted(thread, turn, false)])
  }

  lemma SubagentMessagesAre(b: Behavior, thread: ThreadId, turn: TurnId, sub: ThreadId, subTurn: TurnId)
    requires IsSubagent(b)
    ensures SubagentMessages(b, thread, turn, sub, subTurn)
      == [ThreadStarted(sub, true)] + MainBefore(b, thread, turn) + SubagentStory(sub, subTurn)
         + MainAfter(b, thread, turn)
    ensures MainBefore(b, thread, turn) + MainAfter(b, thread, turn) == TurnStory(b, thread, turn)
  {
  }

  lemma SubagentTells(b: Behavior, thread: ThreadId, turn: TurnId, sub: ThreadId, subTurn: TurnId, t: TurnId)
    requires IsSubagent(b) && turn != subTurn
    ensures var out := SubagentMessages(b, thread, turn, sub, subTurn);
      && Of(out, turn) == TurnStory(b, thread, turn) && Of(out, subTurn) == SubagentStory(sub, subTurn)
      && (forall m :: m in out ==> !m.Reply?)
      && (t != turn && t != subTurn ==> forall m :: m in out ==> TurnOf(m) != Some(t))
  {
    hide *;
    var before, inner, after := MainBefore(b, thread, turn), SubagentStory(sub, subTurn), MainAfter(b, thread, turn);
    var announced := ThreadStarted(sub, true);
    SubagentMessagesAre(b, thread, turn, sub, subTurn);
    PiecesMention(b, thread, turn, sub, subTurn);
    OfFourPieces(announced, before, inner, after, turn);
    OfFourPieces(announced, before, inner, after, subTurn);
    OfOwn(before, turn);
    OfOthers(inner, turn);
    OfOwn(after, turn);
    OfOthers(before, subTurn);
    OfOwn(inner, subTurn);
    OfOthers(after, subTurn);
    assert before + [] + after == before + after && [] + inner + [] == inner;
  }

  lemma PiecesMention(b: Behavior, thread: ThreadId, turn: TurnId, sub: ThreadId, subTurn: TurnId)
    ensures TurnOf(ThreadStarted(sub, true)).None?
    ensures forall m :: m in MainBefore(b, thread, turn) || m in MainAfter(b, thread, turn) ==>
      TurnOf(m) == Some(turn) && !m.Reply?
    ensures forall m :: m in SubagentStory(sub, subTurn) ==> TurnOf(m) == Some(subTurn) && !m.Reply?
  {
  }

  lemma OfFourPieces(announced: Message, before: seq<Message>, inner: seq<Message>, after: seq<Message>, t: TurnId)
    requires TurnOf(announced).None?
    ensures Of([announced] + before + inner + after, t) == Of(before, t) + Of(inner, t) + Of(after, t)
  {
    hide *;
    OfConcat([announced] + before + inner, after, t);
    OfConcat([announced] + before, inner, t);
    OfConcat([announced], before, t);
    OfOthers([announced], t);
    assert [] + Of(before, t) == Of(before, t);
  }

  lemma SubagentTurnBegins(b: Behavior, s: Server, thread: ThreadId, cwd: string, turn: TurnId, now: nat)
    requires IsSubagent(b) && turn + 1 == s.nextTurnId && !Waits(s, turn)
    ensures var e := BeginTurn(b, s, thread, cwd, turn, now);
      && e.out == SubagentMessages(b, thread, turn, s.nextThreadId, s.nextTurnId)
      && !Waits(e.server, turn) && turn < e.server.nextTurnId
  {
    hide SubagentMessages;
  }

  lemma DirectTurnTells(b: Behavior, s: Server, thread: ThreadId, cwd: string, turn: TurnId, now: nat)
    requires !IsSubagent(b) && turn + 1 == s.nextTurnId && !Waits(s, turn)
    ensures var e := BeginTurn(b, s, thread, cwd, turn, now);
      TellsTurn(b, e.server, e.out, thread, turn) && turn < e.server.nextTurnId
  {
  }

  /** What `BeginTurn` sends for the turn it takes over, and where it leaves it. */
  lemma BegunTurnTells(b: Behavior, s: Server, thread: ThreadId, cwd: string, turn: TurnId, now: nat)
    requires turn + 1 == s.nextTurnId && !Waits(s, turn)
    ensures var e := BeginTurn(b, s, thread, cwd, turn, now);
      TellsTurn(b, e.server, Of(e.out, turn), thread, turn) && turn < e.server.nextTurnId
  {
    hide Of, BeginTurn, TurnStory, Question, SubagentMessages;
    if IsSubagent(b) {
      SubagentTells(b, thread, turn, s.nextThreadId, s.nextTurnId, turn);
      SubagentTurnBegins(b, s, thread, cwd, turn, now);
    } else {
      BegunTurnIsOwn(b, s, thread, cwd, turn, now);
      hide TellsTurn;
      DirectTurnTells(b, s, thread, cwd, turn, now);
    }
  }

  lemma BegunTurnIsOwn(b: Behavior, s: Server, thread: ThreadId, cwd: string, turn: TurnId, now: nat)
    requires !IsSubagent(b)
    ensures var out := BeginTurn(b, s, thread, cwd, turn, now).out; Of(out, turn) == out
  {
    hide Of;
    OfOwn(BeginTurn(b, s, thread, cwd, turn, now).out, turn);
  }

  lemma BegunTurnMentions(b: Behavior, s: Server, thread: ThreadId, cwd: string, turn: TurnId, now: nat, t: TurnId)
    requires turn + 1 == s.nextTurnId && t != turn
    ensures var e := BeginTurn(b, s, thread, cwd, turn, now);
      && SamePlaces(s, e.server, t) && (forall m :: m in e.out ==> !m.Reply?)
      && ((forall m :: m in e.out ==> TurnOf(m) != Some(t))
          || (IsSubagent(b) && s.nextTurnId <= t < e.server.nextTurnId
              && Of(e.out, t) == SubagentStory(s.nextThreadId, t)))
  {
    if IsSubagent(b) {
      SubagentTells(b, thread, turn, s.nextThreadId, s.nextTurnId, t);
      hide SubagentMessages, SubagentStory, TurnStory, Of;
    } else {
      hide Of, SubagentStory;
    }
  }

  /** A turn named in a reply and then given up over the thread's name. */
  lemma NoRestTells(b: Behavior, s: Server, thread: ThreadId, t: TurnId)
    requires !Waits(s, t)
    ensures TellsTurn(b, s, Of([], t), thread, t)
  {
  }

  /** What turn/start does behind its reply: give up over the thread's name, or begin the turn. */
  function BehindReply(b: Behavior, s: Server, call: Call, now: nat): Effect
    requires call.TurnStart? && Find(s.threads, call.thread) < |s.threads|
  {
    var k := Find(s.threads, call.thread);
    var s1 := OnTurnAccepted(s, k, now);
    if !call.wantsVerdict && BreaksStartsWith(s.threads[k].name) then Effect(s1, [], true)
    else BeginTurn(b, s1, call.thread, s.threads[k].cwd, s.nextTurnId, now)
  }

  lemma TurnStartIs(b: Behavior, s: Server, id: Option<RequestId>, call: Call, now: nat)
    requires call.TurnStart? && Find(s.threads, call.thread) < |s.threads| && call.inputOk
    ensures var e, rest := OnTurnStart(b, s, id, call, now), BehindReply(b, s, call, now);
      e.server == rest.server && e.out == [Reply(id, TurnAccepted(s.nextTurnId))] + rest.out
  {
    hide Find, BeginTurn;
  }

  lemma BehindReplyTells(b: Behavior, s: Server, call: Call, now: nat)
    requires call.TurnStart? && Find(s.threads, call.thread) < |s.threads| && !Waits(s, s.nextTurnId)
    ensures var rest, t := BehindReply(b, s, call, now), s.nextTurnId;
      TellsTurn(b, rest.server, Of(rest.out, t), call.thread, t) && t < rest.server.nextTurnId
  {
    var k := Find(s.threads, call.thread);
    var s1 := OnTurnAccepted(s, k, now);
    hide Find, BeginTurn, TellsTurn;
    if !call.wantsVerdict && BreaksStartsWith(s.threads[k].name) {
      NoRestTells(b, s1, call.thread, s.nextTurnId);
    } else {
      BegunTurnTells(b, s1, call.thread, s.threads[k].cwd, s.nextTurnId, now);
    }
  }

  lemma TurnStartTellsNew(b: Behavior, s: Server, told: seq<Message>, named: Option<Call>, id: Option<RequestId>,
                          call: Call, now: nat)
    requires Tells(b, s, told, named, s.nextTurnId) && call.TurnStart?
    requires Find(s.threads, call.thread) < |s.threads| && call.inputOk
    ensures var e, t := OnTurnStart(b, s, id, call, now), s.nextTurnId;
      Tells(b, e.server, told + Of(e.out, t), NextName(named, Line(id, call, true), e.out, t), t)
  {
    hide *;
    var t, rest := s.nextTurnId, BehindReply(b, s, call, now);
    NothingPending(b, s, told, named, t);
    TurnStartIs(b, s, id, call, now);
    BehindReplyTells(b, s, call, now);
    assert [] + [Reply(id, TurnAccepted(t))] + rest.out == [Reply(id, TurnAccepted(t))] + rest.out;
    NewTurnTells(b, s, rest.server, told, named, id, call, [], rest.out, t);
  }

  lemma BehindReplyMentions(b: Behavior, s: Server, call: Call, now: nat, t: TurnId)
    requires call.TurnStart? && Find(s.threads, call.thread) < |s.threads| && t != s.nextTurnId
    ensures var rest := BehindReply(b, s, call, now);
      && SamePlaces(s, rest.server, t) && (forall m :: m in rest.out ==> !m.Reply?)
      && ((forall m :: m in rest.out ==> TurnOf(m) != Some(t))
          || (IsSubagent(b) && s.nextTurnId <= t < rest.server.nextTurnId
              && Of(rest.out, t) == SubagentStory(s.nextThreadId, t)))
  {
    var k := Find(s.threads, call.thread);
    var s1 := OnTurnAccepted(s, k, now);
    hide Find, BeginTurn, Of, SubagentStory, SamePlaces;
    if call.wantsVerdict || !BreaksStartsWith(s.threads[k].name) {
      BegunTurnMentions(b, s1, call.thread, s.threads[k].cwd, s.nextTurnId, now, t);
      AcceptedPlaces(s, s1, BehindReply(b, s, call, now).server, t);
    } else {
      AcceptedPlaces(s, s1, s1, t);
    }
  }

  lemma AcceptedPlaces(s: Server, s1: Server, s2: Server, t: TurnId)
    requires s1.nextTurnId == s.nextTurnId + 1 && SameTurns(s, s1.(nextTurnId := s.nextTurnId))
    requires s2 == s1 || SamePlaces(s1, s2, t)
    ensures SamePlaces(s, s2, t)
  {
  }

  /** Another turn than the one handed out: untouched, or the turn of the subagent. */
  lemma TurnStartTellsOther(b: Behavior, s: Server, told: seq<Message>, named: Option<Call>, id: Option<RequestId>,
                            call: Call, now: nat, t: TurnId)
    requires Tells(b, s, told, named, t) && call.TurnStart? && t != s.nextTurnId
    requires Find(s.threads, call.thread) < |s.threads| && call.inputOk
    ensures var e := OnTurnStart(b, s, id, call, now);
      Tells(b, e.server, told + Of(e.out, t), NextName(named, Line(id, call, true), e.out, t), t)
  {
    var reply, rest := Reply(id, TurnAccepted(s.nextTurnId)), BehindReply(b, s, call, now);
    assert TurnOf(reply) != Some(t);
    hide *;
    TurnStartIs(b, s, id, call, now);
    BehindReplyMentions(b, s, call, now, t);
    var out := [reply] + rest.out;
    if forall m :: m in rest.out ==> TurnOf(m) != Some(t) {
      OthersTell(b, s, rest.server, told, named, Line(id, call, true), out, t);
    } else {
      OfConcat([reply], rest.out, t);
      OfOthers([reply], t);
      assert [] + Of(rest.out, t) == Of(rest.out, t);
      SubagentTurnTells(b, s, rest.server, told, named, Line(id, call, true), out, s.nextThreadId, t);
    }
  }

  lemma SubagentTurnTells(b: Behavior, s: Server, s': Server, told: seq<Message>, named: Option<Call>, input: Input,
                          out: seq<Message>, sub: ThreadId, t: TurnId)
    requires Tells(b, s, told, named, t) && s.nextTurnId <= t < s'.nextTurnId && IsSubagent(b) && SamePlaces(s, s', t)
    requires forall m :: m in out && m.Reply? ==> m.result != TurnAccepted(t)
    requires Of(out, t) == SubagentStory(sub, t)
    ensures Tells(b, s', told + Of(out, t), NextName(named, input, out, t), t)
  {
    hide TurnStory, ReviewStory, Question;
    assert told + Of(out, t) == SubagentStory(sub, t);
  }

  lemma TurnStartTells(b: Behavior, s: Server, told: seq<Message>, named: Option<Call>, id: Option<RequestId>,
                       call: Call, now: nat, t: TurnId)
    requires Tells(b, s, told, named, t) && call.TurnStart?
    ensures var e := OnTurnStart(b, s, id, call, now);
      Tells(b, e.server, told + Of(e.out, t), NextName(named, Line(id, call, true), e.out, t), t)
  {
    hide Tells, NextName, BeginTurn;
    if Find(s.threads, call.thread) == |s.threads| || !call.inputOk {
      OthersTell(b, s, s, told, named, Line(id, call, true), [], t);
    } else {
      hide OnTurnStart;
      if t == s.nextTurnId {
        TurnStartTellsNew(b, s, told, named, id, call, now);
      } else {
        TurnStartTellsOther(b, s, told, named, id, call, now, t);
      }
    }
  }

  /** What brings a waiting turn's story to its end, in each of the three places. */
  lemma WaitingStory(b: Behavior, s: Server, rest: seq<Message>, thread: ThreadId, t: TurnId)
    requires TellsTurn(b, s, rest, thread, t) && Pending(s, t) <= 1
    ensures t in s.approvals ==>
      s.approvals[t] == thread
      && rest + TurnMessages(thread, t, [ItemCompleted(thread, t, FinalAnswer)]) == TurnStory(b, thread, t)
    ensures t in s.delayed ==>
      s.delayed[t] == thread
      && rest + TurnMessages(thread, t, [ItemCompleted(thread, t, FinalAnswer)]) == TurnStory(b, thread, t)
    ensures t in s.interruptible ==>
      && s.interruptible[t] == thread && b.InterruptibleSlowTask?
      && rest + [ItemCompleted(thread, t, FinalAnswer), TurnCompleted(thread, t, false)] == TurnStory(b, thread, t)
      && rest + [TurnCompleted(thread, t, true)] == [TurnStarted(thread, t), TurnCompleted(thread, t, true)]
  {
  }

  predicate Over(b: Behavior, rest: seq<Message>, thread: ThreadId, t: TurnId) {
    || rest == TurnStory(b, thread, t)
    || (b.InterruptibleSlowTask? && rest == [TurnStarted(thread, t), TurnCompleted(thread, t, true)])
  }

  /** A waiting turn ends: with its answer, or interrupted without one. */
  lemma EndedTells(b: Behavior, s: Server, s': Server, told: seq<Message>, named: Option<Call>, input: Input,
                   out: seq<Message>, t: TurnId)
    requires Tells(b, s, told, named, t) && Waits(s, t) && !Waits(s', t) && s.nextTurnId == s'.nextTurnId
    requires forall m :: m in out ==> !m.Reply? || m.result != TurnAccepted(t)
    requires named.Some? && named.value.TurnStart? && told != [] ==>
      Over(b, told[1..] + Of(out, t), named.value.thread, t)
    ensures Tells(b, s', told + Of(out, t), NextName(named, input, out, t), t)
  {
    hide TurnStory, ReviewStory, Question;
    assert (told + Of(out, t))[1..] == told[1..] + Of(out, t);
  }

  lemma WaitingIsNamed(b: Behavior, s: Server, told: seq<Message>, named: Option<Call>, t: TurnId)
    requires Tells(b, s, told, named, t) && Waits(s, t)
    ensures named.Some? && named.value.TurnStart? && told != [] && TellsTurn(b, s, told[1..], named.value.thread, t)
  {
    hide TellsTurn, TellsReview;
  }

  /** The answer and the completion, announced once more or not. */
  lemma AnsweredTells(b: Behavior, s: Server, s': Server, told: seq<Message>, named: Option<Call>, input: Input,
                      t: TurnId)
    requires Tells(b, s, told, named, t) && Pending(s, t) <= 1 && !Waits(s', t) && s.nextTurnId == s'.nextTurnId
    ensures t in s.approvals || t in s.delayed ==>
      var thread := if t in s.approvals then s.approvals[t] else s.delayed[t];
      var out := TurnMessages(thread, t, [ItemCompleted(thread, t, FinalAnswer)]);
      Tells(b, s', told + Of(out, t), NextName(named, input, out, t), t)
    ensures t in s.interruptible ==>
      var out := [ItemCompleted(s.interruptible[t], t, FinalAnswer), TurnCompleted(s.interruptible[t], t, false)];
      Tells(b, s', told + Of(out, t), NextName(named, input, out, t), t)
  {
    if Waits(s, t) {
      WaitingIsNamed(b, s, told, named, t);
      var thread := named.value.thread;
      WaitingStory(b, s, told[1..], thread, t);
      var announced := TurnMessages(thread, t, [ItemCompleted(thread, t, FinalAnswer)]);
      var silent := [ItemCompleted(thread, t, FinalAnswer), TurnCompleted(thread, t, false)];
      OfOwn(announced, t);
      OfOwn(silent, t);
      assert forall m :: m in announced || m in silent ==> !m.Reply?;
      hide Tells, TellsTurn, TurnStory, Question, Of, NextName, TurnMessages, Pending;
      if t in s.approvals || t in s.delayed {
        EndedTells(b, s, s', told, named, input, announced, t);
      }
      if t in s.interruptible {
        EndedTells(b, s, s', told, named, input, silent, t);
      }
    }
  }

  lemma ResponseTells(b: Behavior, s: Server, told: seq<Message>, named: Option<Call>, turn: TurnId, t: TurnId)
    requires Ready(s) && Tells(b, s, told, named, t)
    ensures var (s', out) := OnResponse(s, turn);
      Tells(b, s', told + Of(out, t), NextName(named, Response(turn), out, t), t)
  {
    hide Tells, Of, NextName;
    var (s', out) := OnResponse(s, turn);
    if turn != t || t !in s.approvals {
      OthersTell(b, s, s', told, named, Response(turn), out, t);
    } else {
      assert Pending(s, t) <= 1;
      AnsweredTells(b, s, s', told, named, Response(turn), t);
    }
  }

  lemma DelayTells(b: Behavior, s: Server, told: seq<Message>, named: Option<Call>, turn: TurnId, t: TurnId)
    requires Ready(s) && Tells(b, s, told, named, t)
    ensures var (s', out) := OnDelay(s, turn);
      Tells(b, s', told + Of(out, t), NextName(named, DelayFires(turn), out, t), t)
  {
    hide Tells, Of, NextName;
    var (s', out) := OnDelay(s, turn);
    if turn != t || t !in s.delayed {
      OthersTell(b, s, s', told, named, DelayFires(turn), out, t);
    } else {
      assert Pending(s, t) <= 1;
      AnsweredTells(b, s, s', told, named, DelayFires(turn), t);
    }
  }

  lemma TimerTells(b: Behavior, s: Server, told: seq<Message>, named: Option<Call>, turn: TurnId, t: TurnId)
    requires Ready(s) && Tells(b, s, told, named, t)
    ensures var (s', out) := OnTimer(s, turn);
      Tells(b, s', told + Of(out, t), NextName(named, TimerFires(turn), out, t), t)
  {
    hide Tells, Of, NextName;
    var (s', out) := OnTimer(s, turn);
    if turn != t || t !in s.interruptible {
      OthersTell(b, s, s', told, named, TimerFires(turn), out, t);
    } else {
      assert Pending(s, t) <= 1;
      AnsweredTells(b, s, s', told, named, TimerFires(turn), t);
    }
  }

  lemma InterruptTells(b: Behavior, s: Server, told: seq<Message>, named: Option<Call>, id: Option<RequestId>,
                       turn: TurnId, t: TurnId)
    requires Ready(s) && Tells(b, s, told, named, t)
    ensures var e := OnTurnInterrupt(s, id, turn);
      Tells(b, e.server, told + Of(e.out, t), NextName(named, Line(id, TurnInterrupt(turn), true), e.out, t), t)
  {
    var e := OnTurnInterrupt(s, id, turn);
    if turn != t || t !in s.interruptible {
      hide Tells, Of, NextName;
      OthersTell(b, s, e.server, told, named, Line(id, TurnInterrupt(turn), true), e.out, t);
    } else {
      assert Pending(s, t) <= 1;
      WaitingIsNamed(b, s, told, named, t);
      WaitingStory(b, s, told[1..], named.value.thread, t);
      var done := TurnCompleted(s.interruptible[t], t, true);
      assert e.out == [done] + [Reply(id, Empty)];
      OfConcat([done], [Reply(id, Empty)], t);
      OfOwn([done], t);
      OfOthers([Reply(id, Empty)], t);
      hide Tells, TellsTurn, TurnStory, Question, Of, NextName;
      assert Of(e.out, t) == [done];
      EndedTells(b, s, e.server, told, named, Line(id, TurnInterrupt(turn), true), e.out, t);
    }
  }

  lemma LineTells(b: Behavior, s: Server, told: seq<Message>, named: Option<Call>, id: Option<RequestId>, call: Call,
                  hasParams: bool, now: nat, t: TurnId)
    requires Ready(s) && Tells(b, s, told, named, t)
    ensures var (s', out) := OnLine(b, s, id, call, hasParams, now);
      Tells(b, s', told + Of(out, t), NextName(named, Line(id, call, hasParams), out, t), t)
  {
    hide Tells, OnReviewStart, OnTurnStart, OnTurnInterrupt, Find, Ready, IsQuiet, Pending, NextName;
    var skipped := !hasParams && NeedsParams(b, call);
    var e := if skipped then Effect(s, [], true) else OnCall(b, s, id, call, now);
    if skipped {
      OthersTell(b, s, s, told, named, Line(id, call, true), [], t);
    } else if call.ReviewStart? {
      ReviewTells(b, s, told, named, id, call, now, t);
    } else if call.TurnStart? {
      TurnStartTells(b, s, told, named, id, call, now, t);
    } else if call.TurnInterrupt? {
      InterruptTells(b, s, told, named, id, call.turn, t);
    } else {
      QuietCalls(b, s, id, call, now);
      hide OnCall;
      QuietTells(b, s, e, told, named, Line(id, call, true), t);
    }
    ErrorTells(e.out, named, id, call, hasParams, t);
  }

  lemma QuietTells(b: Behavior, s: Server, e: Effect, told: seq<Message>, named: Option<Call>, input: Input, t: TurnId)
    requires IsQuiet(s, e) && Tells(b, s, told, named, t)
    ensures Tells(b, e.server, told + Of(e.out, t), NextName(named, input, e.out, t), t)
  {
    hide Tells;
    OthersTell(b, s, e.server, told, named, input, e.out, t);
  }

  lemma ErrorTells(out: seq<Message>, named: Option<Call>, id: Option<RequestId>, call: Call, hasParams: bool,
                   t: TurnId)
    ensures var all := out + [ErrorReply(id, SERVER_ERROR)];
      && Of(all, t) == Of(out, t)
      && NextName(named, Line(id, call, hasParams), all, t) == NextName(named, Line(id, call, true), out, t)
    ensures NextName(named, Line(id, call, hasParams), out, t) == NextName(named, Line(id, call, true), out, t)
  {
    OfConcat(out, [ErrorReply(id, SERVER_ERROR)], t);
    OfOthers([ErrorReply(id, SERVER_ERROR)], t);
    assert Of(out, t) + [] == Of(out, t);
  }

  lemma StepTells(b: Behavior, s: Server, told: seq<Message>, named: Option<Call>, input: Input, now: nat, t: TurnId)
    requires Ready(s) && Tells(b, s, told, named, t)
    ensures var (s', out) := Step(b, s, input, now); Tells(b, s', told + Of(out, t), NextName(named, input, out, t), t)
  {
    hide Tells, OnLine, OnResponse, OnTimer, OnDelay, Ready, NextName;
    match input
    case Line(id, call, hasParams) => LineTells(b, s, told, named, id, call, hasParams, now, t);
    case Response(turn) => ResponseTells(b, s, told, named, turn, t);
    case TimerFires(turn) => TimerTells(b, s, told, named, turn, t);
    case DelayFires(turn) => DelayTells(b, s, told, named, turn, t);
  }

  // ---------------------------------------------------------------- runs

  lemma {:induction false} RunTells(b: Behavior, cwd: string, events: seq<Event>, t: TurnId)
    ensures var w := Run(b, cwd, events); Tells(b, w.server, Of(w.sent, t), NamedBy(b, cwd, events, t), t)
    decreases |events|
  {
    if events != [] {
      var front, last := events[..|events| - 1], events[|events| - 1];
      RunTells(b, cwd, front, t);
      EveryTurnIsInOnePlace(b, cwd, front, t);
      hide Tells, Step, NextName, Ready, LostIn;
      var w := Run(b, cwd, front);
      var (s, out) := Step(b, w.server, last.input, last.now);
      StepTells(b, w.server, Of(w.sent, t), NamedBy(b, cwd, front, t), last.input, last.now, t);
      OfConcat(w.sent, out, t);
    }
  }

  // ---------------------------------------------------------------- what a completed turn has delivered

  function ItemOf(kind: ItemKind, t: TurnId): Message -> bool {
    (m: Message) => m.ItemCompleted? && m.turn == t && m.kind == kind
  }

  function StartOf(kind: ItemKind, t: TurnId): Message -> bool {
    (m: Message) => m.ItemStarted? && m.turn == t && m.kind == kind
  }

  function QuestionOf(t: TurnId): Message -> bool {
    (m: Message) => m.ApprovalRequest? && m.turn == t
  }

  function One(s: seq<Message>, i: nat, p: Message -> bool): nat {
    if i < |s| && p(s[i]) then 1 else 0
  }

  lemma CountFew(s: seq<Message>, p: Message -> bool)
    requires |s| <= 6
    ensures Count(s, p) == One(s, 0, p) + One(s, 1, p) + One(s, 2, p) + One(s, 3, p) + One(s, 4, p) + One(s, 5, p)
    decreases |s|
  {
    if s != [] {
      CountFew(s[..|s| - 1], p);
    }
  }

  /** How often `p` holds of a reply and the story behind it. */
  lemma CountStory(sent: seq<Message>, t: TurnId, p: Message -> bool)
    requires forall m :: p(m) ==> TurnOf(m) == Some(t) && !m.Reply?
    requires Of(sent, t) != [] && Of(sent, t)[0].Reply? && |Of(sent, t)| <= 7
    ensures var story := Of(sent, t)[1..];
      Count(sent, p)
      == One(story, 0, p) + One(story, 1, p) + One(story, 2, p) + One(story, 3, p) + One(story, 4, p)
         + One(story, 5, p)
  {
    var told := Of(sent, t);
    CountOf(sent, t, p);
    CountFew(told[1..], p);
    assert told == told[..1] + told[1..] && told[..1] == [told[0]];
    CountConcat(told[..1], told[1..], p);
    CountOne(told[0], p);
  }

  /** Everything a completed turn tells, from the reply that names it to its completion. */
  lemma CompletedTurnIsToldWhole(b: Behavior, cwd: string, events: seq<Event>, thread: ThreadId, t: TurnId)
    requires TurnCompleted(thread, t, false) in Run(b, cwd, events).sent
    ensures var told, named := Of(Run(b, cwd, events).sent, t), NamedBy(b, cwd, events, t);
      if named.None? then IsSubagent(b) && told == SubagentStory(thread, t)
      else
        && told != [] && told[0].Reply? && told[0].result == TurnAccepted(t)
        && var call := named.value;
           || (call.TurnStart? && call.thread == thread && told[1..] == TurnStory(b, thread, t)
               && !b.WithSubagentNoMainCompletion?)
           || (call.ReviewStart? && call.hasTarget && (call.detached || call.thread == thread)
               && told[1..] == ReviewStory(b, thread, t))
  {
    var w := Run(b, cwd, events);
    hide *;
    RunTells(b, cwd, events, t);
    OfMembers(w.sent, t, TurnCompleted(thread, t, false));
    assert TurnOf(TurnCompleted(thread, t, false)) == Some(t) by { CompletionIsAbout(thread, t); }
    OnlyStoriesFinish(b, w.server, Of(w.sent, t), NamedBy(b, cwd, events, t), thread, t);
  }

  lemma CompletionIsAbout(thread: ThreadId, t: TurnId)
    ensures TurnOf(TurnCompleted(thread, t, false)) == Some(t)
  {
  }

  lemma StoriesEndOnTheirThread(b: Behavior, on: ThreadId, thread: ThreadId, t: TurnId)
    ensures TurnCompleted(thread, t, false) in TurnStory(b, on, t) ==>
      thread == on && !b.WithSubagentNoMainCompletion?
    ensures TurnCompleted(thread, t, false) in ReviewStory(b, on, t) ==> thread == on
    ensures TurnCompleted(thread, t, false) in SubagentStory(on, t) ==> thread == on
    ensures TurnCompleted(thread, t, false) !in Question(b, on, t)
  {
  }

  lemma OnlyStoriesFinish(b: Behavior, s: Server, told: seq<Message>, named: Option<Call>, thread: ThreadId, t: TurnId)
    requires Tells(b, s, told, named, t) && TurnCompleted(thread, t, false) in told
    ensures
      if named.None? then IsSubagent(b) && told == SubagentStory(thread, t)
      else
        && told[0].Reply? && told[0].result == TurnAccepted(t)
        && var call := named.value;
           || (call.TurnStart? && call.thread == thread && told[1..] == TurnStory(b, thread, t)
               && !b.WithSubagentNoMainCompletion?)
           || (call.ReviewStart? && call.hasTarget && (call.detached || call.thread == thread)
               && told[1..] == ReviewStory(b, thread, t))
  {
    hide TurnStory, ReviewStory, SubagentStory, Question;
    assert told == [told[0]] + told[1..];
    if named.None? {
      StoriesEndOnTheirThread(b, told[0].thread, thread, t);
    } else if named.value.TurnStart? {
      StoriesEndOnTheirThread(b, named.value.thread, thread, t);
    } else if told[1..] != [] && told[1].TurnStarted? {
      StoriesEndOnTheirThread(b, told[1].thread, thread, t);
    }
  }

  /** The only message of a list that equals `m` is at `k`, so a prefix that ends in `m` ends there. */
  lemma PrefixEndsAt(sent: seq<Message>, j: nat, t: TurnId, k: nat)
    requires j < |sent| && TurnOf(sent[j]) == Some(t)
    requires k < |Of(sent, t)| && forall i :: 0 <= i < |Of(sent, t)| && i != k ==> Of(sent, t)[i] != sent[j]
    ensures Of(sent, t)[k] == sent[j] && Of(sent[..j], t) == Of(sent, t)[..k]
  {
    OfPrefix(sent, j, t);
    var before := Of(sent[..j], t);
    assert Of(sent, t)[|before|] == (before + [sent[j]])[|before|];
    assert before == Of(sent, t)[..|before|];
  }

  /** Once `sent[j]` is placed in the list of its turn, what stands before it there went out before it. */
  lemma ToldBefore(sent: seq<Message>, j: nat, t: TurnId, k: nat, i: nat)
    requires j < |sent| && TurnOf(sent[j]) == Some(t)
    requires k < |Of(sent, t)| && forall l :: 0 <= l < |Of(sent, t)| && l != k ==> Of(sent, t)[l] != sent[j]
    requires i < k
    ensures Of(sent, t)[i] in sent[..j]
  {
    PrefixEndsAt(sent, j, t, k);
    assert Of(sent, t)[..k][i] == Of(sent, t)[i];
    OfMembers(sent[..j], t, Of(sent, t)[i]);
  }

  lemma TurnStoryAnswers(b: Behavior, sent: seq<Message>, thread: ThreadId, t: TurnId)
    requires Of(sent, t) != [] && Of(sent, t)[0].Reply? && Of(sent, t)[1..] == TurnStory(b, thread, t)
    ensures Count(sent, ItemOf(FinalAnswer, t)) == 1
    ensures Count(sent, ItemOf(Reasoning, t)) == if b.WithReasoning? then 1 else 0
  {
    hide Count, Of;
    CountStory(sent, t, ItemOf(FinalAnswer, t));
    CountStory(sent, t, ItemOf(Reasoning, t));
  }

  lemma TurnStoryCollaborates(b: Behavior, sent: seq<Message>, thread: ThreadId, t: TurnId)
    requires Of(sent, t) != [] && Of(sent, t)[0].Reply? && Of(sent, t)[1..] == TurnStory(b, thread, t)
    ensures Count(sent, StartOf(CollabWait, t)) == if IsSubagent(b) then 1 else 0
    ensures Count(sent, ItemOf(CollabWait, t)) == if IsSubagent(b) then 1 else 0
  {
    hide Count, Of;
    CountStory(sent, t, StartOf(CollabWait, t));
    CountStory(sent, t, ItemOf(CollabWait, t));
  }

  lemma TurnStoryAsks(b: Behavior, sent: seq<Message>, thread: ThreadId, t: TurnId)
    requires Of(sent, t) != [] && Of(sent, t)[0].Reply? && Of(sent, t)[1..] == TurnStory(b, thread, t)
    ensures Count(sent, StartOf(Command, t)) == if b.ApprovalCommand? then 1 else 0
    ensures Count(sent, QuestionOf(t)) == if b.ApprovalCommand? || b.AuthRefreshRequest? then 1 else 0
  {
    hide Count, Of;
    CountStory(sent, t, StartOf(Command, t));
    CountStory(sent, t, QuestionOf(t));
  }

  /** Where the answer and the completion stand in the story of a turn. */
  lemma TurnStoryPlaces(b: Behavior, thread: ThreadId, t: TurnId) returns (answer: nat)
    requires !b.WithSubagentNoMainCompletion?
    ensures var story := TurnStory(b, thread, t);
      && answer < |story| - 1 && story[answer] == ItemCompleted(thread, t, FinalAnswer)
      && story[|story| - 1] == TurnCompleted(thread, t, false)
      && forall i :: 0 <= i < |story| - 1 ==> !story[i].TurnCompleted?
  {
    answer := match b
      case WithSubagent => 3
      case WithReasoning => 2
      case WithLateSubagentMessage => 2
      case ApprovalCommand => 4
      case AuthRefreshRequest => 3
      case _ => 1;
  }

  /**
    * In every run: a turn named by the reply to turn/start that completes without being interrupted has delivered
    * exactly one final answer, on its own thread and before its completion. It has one reasoning item exactly when
    * the server reasons, one collaboration begun and ended exactly with a subagent, and one approval asked for
    * exactly when the server needs one.
    */
  lemma CompletedTurnHasItsAnswer(b: Behavior, cwd: string, events: seq<Event>, thread: ThreadId, t: TurnId, j: nat)
    requires var sent, named := Run(b, cwd, events).sent, NamedBy(b, cwd, events, t);
      && named.Some? && named.value.TurnStart? && j < |sent| && sent[j] == TurnCompleted(thread, t, false)
    ensures NamedBy(b, cwd, events, t).value.thread == thread
    ensures var sent := Run(b, cwd, events).sent;
      && Count(sent, ItemOf(FinalAnswer, t)) == 1 && ItemCompleted(thread, t, FinalAnswer) in sent[..j]
      && Count(sent, ItemOf(Reasoning, t)) == (if b.WithReasoning? then 1 else 0)
      && Count(sent, StartOf(CollabWait, t)) == (if IsSubagent(b) then 1 else 0)
      && Count(sent, ItemOf(CollabWait, t)) == (if IsSubagent(b) then 1 else 0)
      && Count(sent, StartOf(Command, t)) == (if b.ApprovalCommand? then 1 else 0)
      && Count(sent, QuestionOf(t)) == (if b.ApprovalCommand? || b.AuthRefreshRequest? then 1 else 0)
  {
    CompletedTurnIsToldWhole(b, cwd, events, thread, t);
    var sent, named := Run(b, cwd, events).sent, NamedBy(b, cwd, events, t);
    assert named.value.TurnStart?;
    hide *;
    TurnStoryAnswers(b, sent, thread, t);
    TurnStoryCollaborates(b, sent, thread, t);
    TurnStoryAsks(b, sent, thread, t);
    AnswerIsToldBefore(b, sent, thread, t, j);
  }

  lemma AnswerIsToldBefore(b: Behavior, sent: seq<Message>, thread: ThreadId, t: TurnId, j: nat)
    requires Of(sent, t) != [] && Of(sent, t)[0].Reply? && Of(sent, t)[1..] == TurnStory(b, thread, t)
    requires !b.WithSubagentNoMainCompletion? && j < |sent| && sent[j] == TurnCompleted(thread, t, false)
    ensures ItemCompleted(thread, t, FinalAnswer) in sent[..j]
  {
    hide Of, TurnStory, Question;
    var told := Of(sent, t);
    var answer := TurnStoryPlaces(b, thread, t);
    assert forall i :: 0 < i < |told| ==> told[i] == told[1..][i - 1];
    ToldBefore(sent, j, t, |told| - 1, answer + 1);
  }

  lemma ReviewStoryCounts(b: Behavior, sent: seq<Message>, thread: ThreadId, t: TurnId)
    requires Of(sent, t) != [] && Of(sent, t)[0].Reply? && Of(sent, t)[1..] == ReviewStory(b, thread, t)
    ensures Count(sent, StartOf(EnteredReview, t)) == 1 && Count(sent, ItemOf(ExitedReview, t)) == 1
    ensures Count(sent, ItemOf(Reasoning, t)) == if b.WithReasoning? then 1 else 0
    ensures Count(sent, ItemOf(FinalAnswer, t)) == 0
  {
    hide Count, Of;
    CountStory(sent, t, StartOf(EnteredReview, t));
    CountStory(sent, t, ItemOf(ExitedReview, t));
    CountStory(sent, t, ItemOf(Reasoning, t));
    CountStory(sent, t, ItemOf(FinalAnswer, t));
  }

  lemma ReviewStoryPlaces(b: Behavior, thread: ThreadId, t: TurnId)
    ensures var story := ReviewStory(b, thread, t);
      && |story| >= 4 && story[1] == ItemStarted(thread, t, EnteredReview)
      && story[|story| - 2] == ItemCompleted(thread, t, ExitedReview)
      && story[|story| - 1] == TurnCompleted(thread, t, false)
      && (forall i :: 0 <= i < |story| - 1 ==> !story[i].TurnCompleted?)
      && (forall i :: 0 <= i < |story| && i != |story| - 2 ==> story[i] != ItemCompleted(thread, t, ExitedReview))
  {
  }

  /** The same places, one further on behind the reply. */
  lemma ReviewPlaces(b: Behavior, told: seq<Message>, thread: ThreadId, t: TurnId)
    requires told != [] && told[0].Reply? && told[1..] == ReviewStory(b, thread, t)
    ensures |told| >= 5 && told[2] == ItemStarted(thread, t, EnteredReview)
    ensures told[|told| - 2] == ItemCompleted(thread, t, ExitedReview)
    ensures told[|told| - 1] == TurnCompleted(thread, t, false)
    ensures forall i :: 0 <= i < |told| - 1 ==> !told[i].TurnCompleted?
    ensures forall i :: 0 <= i < |told| && i != |told| - 2 ==> told[i] != ItemCompleted(thread, t, ExitedReview)
  {
    ReviewStoryPlaces(b, thread, t);
    hide ReviewStory;
    assert forall k :: 0 < k < |told| ==> told[k] == told[1..][k - 1];
  }

  /**
    * In every run: a review that completes has entered the review exactly once, left it exactly once, in this order
    * and before its completion, with one reasoning item exactly when the server reasons, and no final answer.
    */
  lemma CompletedReviewEntersAndLeaves(b: Behavior, cwd: string, events: seq<Event>, thread: ThreadId, t: TurnId,
                                       j: nat)
    requires var sent, named := Run(b, cwd, events).sent, NamedBy(b, cwd, events, t);
      && named.Some? && named.value.ReviewStart? && j < |sent| && sent[j] == TurnCompleted(thread, t, false)
    ensures var sent, call := Run(b, cwd, events).sent, NamedBy(b, cwd, events, t).value;
      && call.hasTarget && (call.detached || call.thread == thread)
      && ItemCompleted(thread, t, ExitedReview) in sent[..j]
      && (forall i :: 0 <= i < |sent| && sent[i] == ItemCompleted(thread, t, ExitedReview) ==>
            ItemStarted(thread, t, EnteredReview) in sent[..i])
      && Count(sent, StartOf(EnteredReview, t)) == 1 && Count(sent, ItemOf(ExitedReview, t)) == 1
      && Count(sent, ItemOf(Reasoning, t)) == (if b.WithReasoning? then 1 else 0)
      && Count(sent, ItemOf(FinalAnswer, t)) == 0
  {
    CompletedTurnIsToldWhole(b, cwd, events, thread, t);
    var sent, named := Run(b, cwd, events).sent, NamedBy(b, cwd, events, t);
    assert named.value.ReviewStart?;
    hide *;
    ReviewStoryCounts(b, sent, thread, t);
    ReviewIsToldInOrder(b, sent, thread, t, j);
  }

  lemma ReviewIsToldInOrder(b: Behavior, sent: seq<Message>, thread: ThreadId, t: TurnId, j: nat)
    requires Of(sent, t) != [] && Of(sent, t)[0].Reply? && Of(sent, t)[1..] == ReviewStory(b, thread, t)
    requires j < |sent| && sent[j] == TurnCompleted(thread, t, false)
    ensures ItemCompleted(thread, t, ExitedReview) in sent[..j]
    ensures forall i :: 0 <= i < |sent| && sent[i] == ItemCompleted(thread, t, ExitedReview) ==>
      ItemStarted(thread, t, EnteredReview) in sent[..i]
  {
    hide Of, ReviewStory;
    var told := Of(sent, t);
    ReviewPlaces(b, told, thread, t);
    ToldBefore(sent, j, t, |told| - 1, |told| - 2);
    forall i | 0 <= i < |sent| && sent[i] == ItemCompleted(thread, t, ExitedReview)
      ensures ItemStarted(thread, t, EnteredReview) in sent[..i]
    {
      ToldBefore(sent, i, t, |told| - 2, 2);
    }
  }

  /** In every run: an interrupted turn was started on its thread by turn/start, and never answered. */
  lemma InterruptedTurnHasNoAnswer(b: Behavior, cwd: string, events: seq<Event>, thread: ThreadId, t: TurnId)
    requires TurnCompleted(thread, t, true) in Run(b, cwd, events).sent
    ensures var sent, named := Run(b, cwd, events).sent, NamedBy(b, cwd, events, t);
      && b.InterruptibleSlowTask? && named.Some? && named.value.TurnStart? && named.value.thread == thread
      && Of(sent, t) != [] && Of(sent, t)[1..] == [TurnStarted(thread, t), TurnCompleted(thread, t, true)]
      && Count(sent, ItemOf(FinalAnswer, t)) == 0
  {
    var sent, named := Run(b, cwd, events).sent, NamedBy(b, cwd, events, t);
    RunTells(b, cwd, events, t);
    OfMembers(sent, t, TurnCompleted(thread, t, true));
    hide Run, NamedBy, Of, Count;
    OnlyInterruptedTellsSo(b, Run(b, cwd, events).server, Of(sent, t), named, thread, t);
    CountStory(sent, t, ItemOf(FinalAnswer, t));
  }

  lemma OnlyInterruptedTellsSo(b: Behavior, s: Server, told: seq<Message>, named: Option<Call>, thread: ThreadId,
                               t: TurnId)
    requires Tells(b, s, told, named, t) && TurnCompleted(thread, t, true) in told
    ensures b.InterruptibleSlowTask? && named.Some? && named.value.TurnStart? && named.value.thread == thread
    ensures told[1..] == [TurnStarted(thread, t), TurnCompleted(thread, t, true)]
    ensures told[0].Reply? && |told| == 3
  {
    StoriesFinish(b, t);
    hide TurnStory, ReviewStory, SubagentStory;
    var k :| 0 <= k < |told| && told[k] == TurnCompleted(thread, t, true);
    assert k > 0 ==> told[1..][k - 1] == told[k];
  }

  lemma StoriesFinish(b: Behavior, t: TurnId)
    ensures forall thread, i :: 0 <= i < |TurnStory(b, thread, t)| && TurnStory(b, thread, t)[i].TurnCompleted? ==>
      !TurnStory(b, thread, t)[i].interrupted
    ensures forall thread, i :: 0 <= i < |ReviewStory(b, thread, t)| && ReviewStory(b, thread, t)[i].TurnCompleted? ==>
      !ReviewStory(b, thread, t)[i].interrupted
    ensures forall thread, i :: 0 <= i < |SubagentStory(thread, t)| && SubagentStory(thread, t)[i].TurnCompleted? ==>
      !SubagentStory(thread, t)[i].interrupted
  {
  }

  predicate RunsOn(out: seq<Message>, thread: ThreadId) {
    forall m :: m in out && (m.TurnStarted? || m.ItemStarted? || m.ItemCompleted? || m.TurnCompleted?) ==>
      m.thread == thread
  }

  /**
    * A detached review opens one new ephemeral thread in the directory of the thread it reviews, announces it first
    * and runs there alone; any other review runs on the thread itself and leaves the threads as they are.
    */
  lemma ReviewRunsOnItsThread(b: Behavior, s: Server, id: Option<RequestId>, call: Call, now: nat)
    requires call.ReviewStart? && exists t :: t in s.threads && t.id == call.thread
    ensures var (s', out) := Step(b, s, Line(id, call, true), now);
      if call.detached then
        && out != [] && out[0] == ThreadStarted(s.nextThreadId, false) && RunsOn(out, s.nextThreadId)
        && s'.nextThreadId == s.nextThreadId + 1 && |s'.threads| == |s.threads| + 1 && s'.threads[1..] == s.threads
        && var first := s'.threads[0];
           && first.id == s.nextThreadId && first.name == NoName && first.ephemeral && !first.imported
           && first.updatedAt == now
           && exists t :: t in s.threads && t.id == call.thread
                && first.cwd == if t.cwd == "" then s.processCwd else t.cwd
      else RunsOn(out, call.thread) && s'.threads == s.threads && s'.nextThreadId == s.nextThreadId
  {
    hide *;
    var k := Find(s.threads, call.thread);
    assert k < |s.threads|;
    var review, t := if call.detached then s.nextThreadId else call.thread, s.nextTurnId;
    var announced := if call.detached then [ThreadStarted(review, false)] else [];
    var rest := if call.hasTarget then TurnMessages(review, t, ReviewItems(b, review, t)) else [];
    StepReviews(b, s, id, call, now);
    ReviewIs(b, s, id, call, now, announced, rest);
    assert forall m :: m in announced ==> m.ThreadStarted?;
    ReviewRunsOn(b, review, t, call.hasTarget, announced, id);
    ReviewThreads(b, s, id, call, now);
    assert s.threads[k] in s.threads;
  }

  lemma StepReviews(b: Behavior, s: Server, id: Option<RequestId>, call: Call, now: nat)
    requires call.ReviewStart?
    ensures var e, (s', out) := OnReviewStart(b, s, id, call, now), Step(b, s, Line(id, call, true), now);
      s' == e.server && (out == e.out || out == e.out + [ErrorReply(id, SERVER_ERROR)])
  {
    hide OnReviewStart;
  }

  lemma ReviewThreads(b: Behavior, s: Server, id: Option<RequestId>, call: Call, now: nat)
    requires call.ReviewStart? && Find(s.threads, call.thread) < |s.threads|
    ensures var cwd := s.threads[Find(s.threads, call.thread)].cwd;
      var added := Thread(s.nextThreadId, if cwd == "" then s.processCwd else cwd, NoName, true, now, false);
      var s' := OnReviewStart(b, s, id, call, now).server;
      if call.detached then s'.threads == [added] + s.threads && s'.nextThreadId == s.nextThreadId + 1
      else s'.threads == s.threads && s'.nextThreadId == s.nextThreadId
  {
    hide Find, ReviewItems, TurnMessages;
  }

  lemma ReviewRunsOn(b: Behavior, thread: ThreadId, t: TurnId, whole: bool, announced: seq<Message>,
                     id: Option<RequestId>)
    requires forall m :: m in announced ==> m.ThreadStarted?
    ensures var rest := if whole then TurnMessages(thread, t, ReviewItems(b, thread, t)) else [];
      var out := announced + [Reply(id, TurnAccepted(t))] + rest;
      RunsOn(out, thread) && RunsOn(out + [ErrorReply(id, SERVER_ERROR)], thread)
  {
    ReviewStoryRunsOn(b, thread, t);
    hide TurnMessages, ReviewItems;
  }

  lemma ReviewStoryRunsOn(b: Behavior, thread: ThreadId, t: TurnId)
    ensures RunsOn(TurnMessages(thread, t, ReviewItems(b, thread, t)), thread)
  {
  }
}
