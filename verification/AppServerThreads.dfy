/** What a client sees of the threads: started, named, and found again in the list. */
module AppServerThreads {
  import opened Wrappers
  import opened StableSort
  import opened ImportLedger
  import opened AppServer
  import opened AppServerReplies
  import opened AppServerTurns
  import opened SessionImport

  /** A thread of this directory whose name contains the term: as a part of a text, or as an item of a list. */
  predicate Shown(t: Thread, cwd: string, term: string) {
    && (cwd == "" || t.cwd == cwd)
    && (term == ""
        || match t.name
           case NoName => false
           case Text(text) => Contains(text, term)
           case ListName(items) => term in items
           case OtherName => false)
  }

  predicate Contains(text: string, term: string) {
    exists i :: 0 <= i <= |text| && term <= text[i..]
  }

  lemma {:induction false} ContainsIff(text: string, term: string)
    ensures HasText(text, term) <==> Contains(text, term)
    decreases |text|
  {
    if text != "" {
      ContainsIff(text[1..], term);
      assert forall i :: 0 < i <= |text| ==> text[i..] == text[1..][i - 1..];
      assert text[0..] == text;
      if Contains(text[1..], term) {
        var i :| 0 <= i <= |text[1..]| && term <= text[1..][i..];
        assert text[i + 1..] == text[1..][i..];
      }
    } else {
      assert text[0..] == text;
    }
  }

  lemma ShownIff(t: Thread, cwd: string, term: string)
    ensures Shown(t, cwd, term) <==> (cwd == "" || t.cwd == cwd) && (term == "" || NameMatches(t.name, term))
  {
    hide Contains, HasText;
    if t.name.Text? {
      ContainsIff(t.name.text, term);
    }
    if t.name.NoName? {
      ContainsIff("", term);
      NothingContains(term);
    }
  }

  lemma NothingContains(term: string)
    ensures Contains("", term) <==> term == ""
  {
    assert ""[0..] == "";
  }

  lemma {:induction false} MatchingAreShown(threads: seq<Thread>, cwd: string, term: string)
    ensures forall t :: t in Matching(threads, cwd, term) <==> t in threads && Shown(t, cwd, term)
    decreases |threads|
  {
    if threads != [] {
      MatchingAreShown(threads[1..], cwd, term);
      ShownIff(threads[0], cwd, term);
      hide Shown, NameMatches;
      assert threads == [threads[0]] + threads[1..];
    }
  }

  function Ordered(s: Server, cwd: string, term: string): seq<Thread> {
    Sort(NewestUpdateFirst, Matching(s.threads, cwd, term))
  }

  /**
    * The list holds exactly the threads that match, the latest update first; it fails if and only if a term is
    * given and one of the threads it would search has a name that cannot be searched.
    */
  lemma ListShowsMatchingThreads(s: Server, id: Option<RequestId>, cwd: string, term: string)
    ensures var e := OnThreadList(s, id, ThreadList(cwd, term));
      && (e.thrown <==> term != "" && exists t :: t in s.threads && (cwd == "" || t.cwd == cwd) && t.name.OtherName?)
      && (!e.thrown ==> e.out == [Reply(id, Threads(Ids(Ordered(s, cwd, term))))])
    ensures forall t :: t in Ordered(s, cwd, term) <==> t in s.threads && Shown(t, cwd, term)
    ensures forall i, j :: 0 <= i < j < |Ordered(s, cwd, term)| ==>
      Ordered(s, cwd, term)[i].updatedAt >= Ordered(s, cwd, term)[j].updatedAt
  {
    MatchingAreShown(s.threads, cwd, term);
    SortMembers(NewestUpdateFirst, Matching(s.threads, cwd, term));
    SortIsStable(NewestUpdateFirst, Matching(s.threads, cwd, term), 0);
    hide Sort, Matching;
    var ordered := Ordered(s, cwd, term);
    forall i, j | 0 <= i < j < |ordered|
      ensures ordered[i].updatedAt >= ordered[j].updatedAt
    {
      assert NewestUpdateFirst(ordered[i]) <= NewestUpdateFirst(ordered[j]);
    }
  }

  /** A thread that was started is new, and the list shows it, under its directory and without a term. */
  lemma StartedThreadIsListed(b: Behavior, s: Server, id: Option<RequestId>, call: Call, now: nat)
    requires NewestFirst(s) && call.ThreadStart? && !OnThreadStart(b, s, id, call, now).thrown
    ensures var e := OnThreadStart(b, s, id, call, now);
      var cwd := if call.cwd == "" then s.processCwd else call.cwd;
      exists t :: Reply(id, ThreadOpened(t)) in e.out && t !in Ids(s.threads) && t in Ids(Ordered(e.server, cwd, ""))
  {
    var e := OnThreadStart(b, s, id, call, now);
    var thread := e.server.threads[0];
    var cwd := if call.cwd == "" then s.processCwd else call.cwd;
    assert e.out[0] == Reply(id, ThreadOpened(thread.id));
    ListShowsMatchingThreads(e.server, id, cwd, "");
    assert thread in e.server.threads && Shown(thread, cwd, "");
    InIds(Ordered(e.server, cwd, ""), thread);
  }

  lemma InIds(threads: seq<Thread>, thread: Thread)
    requires thread in threads
    ensures thread.id in Ids(threads)
  {
    var i :| 0 <= i < |threads| && threads[i] == thread;
    assert Ids(threads)[i] == thread.id;
  }

  /** A thread that was given a name is found by any part of it, and by nothing else. */
  lemma NamedThreadIsFound(s: Server, id: Option<RequestId>, thread: ThreadId, name: string, term: string, now: nat)
    requires NewestFirst(s) && term != "" && !OnThreadNameSet(s, id, ThreadNameSet(thread, Text(name)), now).thrown
    ensures var s' := OnThreadNameSet(s, id, ThreadNameSet(thread, Text(name)), now).server;
      thread in Ids(Ordered(s', "", term)) <==> exists i :: 0 <= i <= |name| && term <= name[i..]
  {
    var s' := OnThreadNameSet(s, id, ThreadNameSet(thread, Text(name)), now).server;
    var k := Find(s.threads, thread);
    var renamed := s'.threads[k];
    ListShowsMatchingThreads(s', id, "", term);
    hide Ordered;
    hide Contains;
    if Contains(name, term) {
      assert renamed in s'.threads && Shown(renamed, "", term);
      InIds(Ordered(s', "", term), renamed);
    }
    if thread in Ids(Ordered(s', "", term)) {
      var ordered := Ordered(s', "", term);
      var i :| 0 <= i < |ordered| && Ids(ordered)[i] == thread;
      var shown := ordered[i];
      assert shown in s'.threads && shown.id == thread;
      var m :| 0 <= m < |s'.threads| && s'.threads[m] == shown;
      assert s'.threads[m].id == s.threads[m].id == |s.threads| - m;
      assert m == k;
    }
  }

  /** What naming or resuming a thread, or starting a turn on it, makes of the thread itself. */
  function Touched(was: Thread, call: Call, now: nat): Thread {
    if call.ThreadNameSet? then was.(name := call.name, updatedAt := now) else was.(updatedAt := now)
  }

  /** The request is about a known thread and is not refused before it gets there. */
  predicate Touches(s: Server, call: Call) {
    match call
    case ThreadNameSet(thread, _) => Known(s, thread)
    case ThreadResume(thread, persistHistory) => Known(s, thread) && (persistHistory ==> s.experimentalApi)
    case TurnStart(thread, inputOk, _) => Known(s, thread) && inputOk
    case _ => false
  }

  /** The threads after such a request: the touched one in its place, and in front a subagent's if there is one. */
  lemma TouchedThreads(b: Behavior, s: Server, id: Option<RequestId>, call: Call, now: nat)
    returns (k: nat, added: seq<Thread>)
    requires Touches(s, call)
    ensures k < |s.threads| && s.threads[k].id == call.thread
    ensures forall i :: 0 <= i < k ==> s.threads[i].id != call.thread
    ensures Step(b, s, Line(id, call, true), now).0.threads
      == added + s.threads[k := Touched(s.threads[k], call, now)]
    ensures added == if call.TurnStart? && IsSubagent(b) && (call.wantsVerdict || !NamedByNoText(s, call.thread)) then
        var cwd := s.threads[k].cwd;
        [Thread(s.nextThreadId, if cwd == "" then s.processCwd else cwd, Text("design-challenger"), true, now, false)]
      else []
  {
    k, added := Find(s.threads, call.thread), [];
    KnownIsFound(s, call.thread);
    hide Find, Known, NamedByNoText;
    var same := s.threads[k := Touched(s.threads[k], call, now)];
    assert [] + same == same;
    if call.TurnStart? {
      hide Step;
      added := StartedThreads(b, s, id, call, now);
    } else {
      TouchedInPlace(b, s, id, call, now);
      hide Step;
    }
  }

  lemma TouchedInPlace(b: Behavior, s: Server, id: Option<RequestId>, call: Call, now: nat)
    requires Touches(s, call) && !call.TurnStart?
    ensures var k := Find(s.threads, call.thread);
      && k < |s.threads|
      && Step(b, s, Line(id, call, true), now).0.threads == s.threads[k := Touched(s.threads[k], call, now)]
  {
    KnownIsFound(s, call.thread);
    hide Find, Known;
  }

  lemma StartedThreads(b: Behavior, s: Server, id: Option<RequestId>, call: Call, now: nat)
    returns (added: seq<Thread>)
    requires call.TurnStart? && call.inputOk && Find(s.threads, call.thread) < |s.threads|
    ensures var k := Find(s.threads, call.thread);
      && Step(b, s, Line(id, call, true), now).0.threads == added + s.threads[k := s.threads[k].(updatedAt := now)]
      && added == if IsSubagent(b) && (call.wantsVerdict || !BreaksStartsWith(s.threads[k].name)) then
           var cwd := s.threads[k].cwd;
           [Thread(s.nextThreadId, if cwd == "" then s.processCwd else cwd, Text("design-challenger"), true, now,
                   false)]
         else []
  {
    hide Find, BeginTurn;
    var k := Find(s.threads, call.thread);
    var s1, cwd := OnTurnAccepted(s, k, now), s.threads[k].cwd;
    BegunThreads(b, s1, call.thread, cwd, s.nextTurnId, now);
    StepStarts(b, s, id, call, now);
    added := [];
    assert [] + s1.threads == s1.threads;
    if IsSubagent(b) && (call.wantsVerdict || !BreaksStartsWith(s.threads[k].name)) {
      var home := if cwd == "" then s.processCwd else cwd;
      added := [Thread(s.nextThreadId, home, Text("design-challenger"), true, now, false)];
    }
  }

  lemma StepStarts(b: Behavior, s: Server, id: Option<RequestId>, call: Call, now: nat)
    requires call.TurnStart?
    ensures Step(b, s, Line(id, call, true), now).0 == OnTurnStart(b, s, id, call, now).server
  {
    hide OnTurnStart;
  }

  lemma BegunThreads(b: Behavior, s: Server, thread: ThreadId, cwd: string, turn: TurnId, now: nat)
    ensures BeginTurn(b, s, thread, cwd, turn, now).server.threads
      == if IsSubagent(b) then
           [Thread(s.nextThreadId, if cwd == "" then s.processCwd else cwd, Text("design-challenger"), true, now,
                   false)]
           + s.threads
         else s.threads
  {
    hide SubagentMessages, TurnMessages, TurnItems;
  }

  /**
    * Naming a thread, resuming it or starting a turn on it stamps it with the present time, and the list then shows it
    * ahead of every thread last updated before; all other threads stay as they are.
    */
  lemma TouchedThreadComesFirst(b: Behavior, s: Server, id: Option<RequestId>, call: Call, now: nat)
    requires Touches(s, call)
    ensures var s' := Step(b, s, Line(id, call, true), now).0;
      && (exists was ::
            && was in s.threads && was.id == call.thread
            && LeadsTheList(s', if call.ThreadNameSet? then was.(name := call.name, updatedAt := now)
                                else was.(updatedAt := now)))
      && (forall other :: other in s.threads && other.id != call.thread ==> other in s'.threads)
  {
    var k, added := TouchedThreads(b, s, id, call, now);
    var s' := Step(b, s, Line(id, call, true), now).0;
    hide *;
    var was := s.threads[k];
    var t := Touched(was, call, now);
    OthersStay(added, s.threads, k, t, call.thread);
    TouchedIs(was, call, now);
    TouchedLeads(s', t);
    assert was in s.threads;
  }

  lemma OthersStay(added: seq<Thread>, threads: seq<Thread>, k: nat, t: Thread, id: ThreadId)
    requires k < |threads| && threads[k].id == id
    ensures t in added + threads[k := t]
    ensures forall other :: other in threads && other.id != id ==> other in added + threads[k := t]
  {
    var after := added + threads[k := t];
    assert after[|added| + k] == t;
    forall other | other in threads && other.id != id
      ensures other in after
    {
      var j :| 0 <= j < |threads| && threads[j] == other;
      assert after[|added| + j] == other;
    }
  }

  lemma TouchedIs(was: Thread, call: Call, now: nat)
    ensures Touched(was, call, now) == if call.ThreadNameSet? then was.(name := call.name, updatedAt := now)
                                       else was.(updatedAt := now)
  {
  }

  /** The list of all threads shows `t`, ahead of every thread with an earlier update. */
  predicate LeadsTheList(s: Server, t: Thread) {
    var ordered := Ordered(s, "", "");
    exists i ::
      && 0 <= i < |ordered| && ordered[i] == t
      && forall j :: 0 <= j < |ordered| && ordered[j].updatedAt < t.updatedAt ==> i < j
  }

  lemma TouchedLeads(s: Server, t: Thread)
    requires t in s.threads
    ensures LeadsTheList(s, t)
  {
    ListShowsMatchingThreads(s, None, "", "");
    assert Shown(t, "", "");
    hide Ordered;
  }

  /** The record a new thread gets in front of the list. */
  predicate Adds(s: Server, s': Server, cwd: string, name: Name, ephemeral: bool, now: nat, imported: bool) {
    && s'.nextThreadId == s.nextThreadId + 1 && |s'.threads| == |s.threads| + 1 && s'.threads[1..] == s.threads
    && var t := s'.threads[0];
       && t.id == s.nextThreadId && t.name == name && t.ephemeral == ephemeral && t.updatedAt == now
       && t.imported == imported && t.cwd == if cwd == "" then s.processCwd else cwd
  }

  /**
    * A started thread and an imported one come in front of the list, as the request or the transcript describes them
    * and in the server's own directory if they name none; an import of new content also records it. The capability is
    * what the client last gave with `initialize`, and no other request changes it.
    */
  lemma NewThreadIsAsAsked(b: Behavior, s: Server, id: Option<RequestId>, call: Call, now: nat)
    ensures var s' := Step(b, s, Line(id, call, true), now).0;
      && s'.experimentalApi == (if call.Initialize? then call.experimentalApi else s.experimentalApi)
      && (call.ThreadStart? && !Refused(b, s, call) ==> Adds(s, s', call.cwd, NoName, call.ephemeral, now, false))
      && (call.Import? && !Refused(b, s, call) && !b.ImportFails? && !b.ImportItemFailure? ==>
            var session := call.session.value;
            var known := exists r :: r in s.ledger && r.source == session.path.value && r.hash == session.hash;
            if known then s' == s
            else
              && Adds(s, s', session.cwd, session.title.value, false, now, true)
              && s'.ledger == s.ledger + [Record(session.path.value, session.hash, Some(s.nextThreadId), Some(now))])
  {
    CapabilityStays(b, s, id, call, now);
    if call.Import? && !Refused(b, s, call) && !b.ImportFails? && !b.ImportItemFailure? {
      var session := call.session.value;
      ImportThrows(b, s, id, call.session, now);
      var k := FindRecord(s.ledger, session.path.value, session.hash);
      assert k < |s.ledger| ==> s.ledger[k] in s.ledger;
      hide Find, FindRecord, Known, NamedByNoText, CannotImport;
    } else {
      hide Find, FindRecord, Known, NamedByNoText, OnReviewStart, OnTurnStart, OnThreadList, OnImport;
    }
  }

  lemma TurnKeepsCapability(b: Behavior, s: Server, id: Option<RequestId>, call: Call, now: nat)
    ensures call.TurnStart? ==> OnTurnStart(b, s, id, call, now).server.experimentalApi == s.experimentalApi
    ensures call.ReviewStart? ==> OnReviewStart(b, s, id, call, now).server.experimentalApi == s.experimentalApi
  {
    hide Find, TurnMessages, SubagentMessages, ReviewItems, TurnItems;
  }

  lemma OthersKeepCapability(b: Behavior, s: Server, id: Option<RequestId>, call: Call, now: nat)
    requires !call.TurnStart? && !call.ReviewStart? && !call.Initialize?
    ensures OnCall(b, s, id, call, now).server.experimentalApi == s.experimentalApi
  {
    hide Find, FindRecord, Matching, NameMatches;
  }

  lemma CapabilityStays(b: Behavior, s: Server, id: Option<RequestId>, call: Call, now: nat)
    ensures Step(b, s, Line(id, call, true), now).0.experimentalApi
      == if call.Initialize? then call.experimentalApi else s.experimentalApi
  {
    if call.TurnStart? || call.ReviewStart? {
      TurnKeepsCapability(b, s, id, call, now);
    } else if !call.Initialize? {
      OthersKeepCapability(b, s, id, call, now);
      hide OnCall;
    }
    hide OnTurnStart, OnReviewStart, OnImport, OnThreadList, OnThreadStart, OnThreadNameSet, OnThreadResume;
  }

  /** What the client gave with the last `initialize` that was read; nothing before that. */
  predicate LastCapability(events: seq<Event>)
    decreases |events|
  {
    && events != []
    && var last := events[|events| - 1].input;
       if last.Line? && last.call.Initialize? && last.hasParams then last.call.experimentalApi
       else LastCapability(events[..|events| - 1])
  }

  /** In every run the capability is the one last given. */
  lemma {:induction false} CapabilityIsTheLastGiven(b: Behavior, cwd: string, events: seq<Event>)
    ensures Run(b, cwd, events).server.experimentalApi == LastCapability(events)
    decreases |events|
  {
    if events != [] {
      var front, last := events[..|events| - 1], events[|events| - 1];
      CapabilityIsTheLastGiven(b, cwd, front);
      StepCapability(b, Run(b, cwd, front).server, last.input, last.now);
      hide Step;
    }
  }

  lemma StepCapability(b: Behavior, s: Server, input: Input, now: nat)
    ensures Step(b, s, input, now).0.experimentalApi
      == if input.Line? && input.call.Initialize? && input.hasParams then input.call.experimentalApi
         else s.experimentalApi
  {
    if input.Line? {
      CapabilityStays(b, s, input.id, input.call, now);
      hide OnCall;
    }
  }
}
