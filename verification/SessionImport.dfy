/**
  * Session imports end to end: what the server's ledger holds in every run, and which thread the client takes from it.
  */
module SessionImport {
  import opened Wrappers
  import opened Counting
  import opened ImportLedger
  import opened AppServer
  import opened AppServerTurns

  // ---------------------------------------------------------------- threads and ledger over every run

  /** The list holds every thread ever handed out, newest first, so no two share an id. */
  predicate NewestFirst(s: Server) {
    |s.threads| + 1 == s.nextThreadId && forall i :: 0 <= i < |s.threads| ==> s.threads[i].id == |s.threads| - i
  }

  /** Record `r` names a thread of the list, and one that an import created. */
  predicate NamesImported(s: Server, r: Record) {
    && r.threadId.Some? && r.importedAt.Some?
    && exists k :: 0 <= k < |s.threads| && s.threads[k].id == r.threadId.value && s.threads[k].imported
  }

  function IsImported(): Thread -> bool {
    (t: Thread) => t.imported
  }

  /** Records are distinct in source and content and in their threads, which are the imported threads and no others. */
  predicate SoundLedger(s: Server) {
    && (forall i :: 0 <= i < |s.ledger| ==> NamesImported(s, s.ledger[i]))
    && (forall i, j :: 0 <= i < j < |s.ledger| ==>
          s.ledger[i].source != s.ledger[j].source || s.ledger[i].hash != s.ledger[j].hash)
    && (forall i, j :: 0 <= i < j < |s.ledger| ==> s.ledger[i].threadId != s.ledger[j].threadId)
    && Count(s.threads, IsImported()) == |s.ledger|
  }

  predicate SameShape(a: seq<Thread>, b: seq<Thread>) {
    |a| == |b| && forall i :: 0 <= i < |a| ==> a[i].id == b[i].id && a[i].imported == b[i].imported
  }

  /** What one step may do to threads and ledger. */
  datatype Change = Touch | Open | Recorded(r: Record)

  predicate Changes(s: Server, s': Server, change: Change) {
    match change
    case Touch => s'.nextThreadId == s.nextThreadId && SameShape(s.threads, s'.threads) && s'.ledger == s.ledger
    case Open =>
      && s'.nextThreadId == s.nextThreadId + 1 && s'.threads != [] && SameShape(s.threads, s'.threads[1..])
      && s'.threads[0].id == s.nextThreadId && !s'.threads[0].imported && s'.ledger == s.ledger
    case Recorded(r) =>
      && s'.nextThreadId == s.nextThreadId + 1 && s'.threads != [] && s'.threads[1..] == s.threads
      && s'.threads[0].id == s.nextThreadId && s'.threads[0].imported && s'.ledger == s.ledger + [r]
      && r.threadId == Some(s.nextThreadId) && r.importedAt.Some?
      && forall i :: 0 <= i < |s.ledger| ==> s.ledger[i].source != r.source || s.ledger[i].hash != r.hash
  }

  lemma BegunTurnThreads(b: Behavior, s: Server, thread: ThreadId, cwd: string, turn: TurnId, now: nat)
    ensures var s' := BeginTurn(b, s, thread, cwd, turn, now).server;
      Changes(s, s', if IsSubagent(b) then Open else Touch)
  {
    hide SubagentMessages, TurnMessages;
  }

  lemma ChangeAfterTouch(s: Server, s1: Server, s': Server, change: Change)
    requires Changes(s, s1, Touch) && Changes(s1, s', change) && !change.Recorded?
    ensures Changes(s, s', change)
  {
  }

  lemma AcceptingTouches(s: Server, k: nat, now: nat)
    requires k < |s.threads|
    ensures Changes(s, OnTurnAccepted(s, k, now), Touch)
  {
  }

  lemma TurnStartChanges(b: Behavior, s: Server, id: Option<RequestId>, call: Call, now: nat) returns (change: Change)
    requires call.TurnStart?
    ensures Changes(s, OnTurnStart(b, s, id, call, now).server, change) && !change.Recorded?
  {
    change := Touch;
    var k := Find(s.threads, call.thread);
    if k < |s.threads| && call.inputOk {
      hide Find, BeginTurn, Changes, OnTurnAccepted;
      var s1 := OnTurnAccepted(s, k, now);
      AcceptingTouches(s, k, now);
      if call.wantsVerdict || !BreaksStartsWith(s.threads[k].name) {
        change := if IsSubagent(b) then Open else Touch;
        var s' := BeginTurn(b, s1, call.thread, s.threads[k].cwd, s.nextTurnId, now).server;
        BegunTurnThreads(b, s1, call.thread, s.threads[k].cwd, s.nextTurnId, now);
        ChangeAfterTouch(s, s1, s', change);
      }
    }
  }

  lemma ReviewChanges(b: Behavior, s: Server, id: Option<RequestId>, call: Call, now: nat) returns (change: Change)
    requires call.ReviewStart?
    ensures Changes(s, OnReviewStart(b, s, id, call, now).server, change) && !change.Recorded?
  {
    hide Find, TurnMessages, ReviewItems;
    change := if call.detached && Find(s.threads, call.thread) < |s.threads| then Open else Touch;
  }

  lemma ImportChanges(b: Behavior, s: Server, id: Option<RequestId>, session: Option<Session>,
                      now: nat) returns (change: Change)
    ensures Changes(s, OnImport(b, s, id, session, now).server, change)
    ensures change.Recorded? ==> change.r.importedAt == Some(now)
  {
    hide Find;
    var s' := OnImport(b, s, id, session, now).server;
    change := if s'.ledger == s.ledger then Touch else Recorded(s'.ledger[|s.ledger|]);
  }

  lemma ThreadCallChanges(b: Behavior, s: Server, id: Option<RequestId>, call: Call, now: nat) returns (change: Change)
    ensures !change.Recorded?
    ensures call.ThreadStart? ==> Changes(s, OnThreadStart(b, s, id, call, now).server, change)
    ensures call.ThreadNameSet? ==> Changes(s, OnThreadNameSet(s, id, call, now).server, change)
    ensures call.ThreadResume? ==> Changes(s, OnThreadResume(s, id, call, now).server, change)
  {
    hide Find;
    change := if call.ThreadStart? && !OnThreadStart(b, s, id, call, now).thrown then Open else Touch;
  }

  lemma CallChanges(b: Behavior, s: Server, id: Option<RequestId>, call: Call, now: nat) returns (change: Change)
    ensures Changes(s, OnCall(b, s, id, call, now).server, change)
    ensures change.Recorded? ==> change.r.importedAt == Some(now)
  {
    hide Find, Matching, OnTurnStart, OnReviewStart, OnImport, OnThreadStart, OnThreadNameSet, OnThreadResume;
    change := ThreadCallChanges(b, s, id, call, now);
    match call
    case ThreadStart(_, _, _) =>
    case ThreadNameSet(_, _) =>
    case ThreadResume(_, _) =>
    case TurnStart(_, _, _) => change := TurnStartChanges(b, s, id, call, now);
    case ReviewStart(_, _, _) => change := ReviewChanges(b, s, id, call, now);
    case Import(session) => change := ImportChanges(b, s, id, session, now);
    case _ => change := Touch;
  }

  lemma StepChanges(b: Behavior, s: Server, input: Input, now: nat) returns (change: Change)
    ensures Changes(s, Step(b, s, input, now).0, change) && (change.Recorded? ==> change.r.importedAt == Some(now))
  {
    change := Touch;
    hide OnCall;
    if input.Line? && (input.hasParams || !NeedsParams(b, input.call)) {
      change := CallChanges(b, s, input.id, input.call, now);
    }
  }

  lemma {:induction false} CountSameShape(a: seq<Thread>, b: seq<Thread>)
    requires SameShape(a, b)
    ensures Count(a, IsImported()) == Count(b, IsImported())
    decreases |a|
  {
    if a != [] {
      CountSameShape(a[..|a| - 1], b[..|b| - 1]);
    }
  }

  lemma NamesStay(s: Server, s': Server, r: Record, shift: nat)
    requires NamesImported(s, r) && |s'.threads| == |s.threads| + shift && SameShape(s.threads, s'.threads[shift..])
    ensures NamesImported(s', r)
  {
    var k :| 0 <= k < |s.threads| && s.threads[k].id == r.threadId.value && s.threads[k].imported;
    assert s'.threads[shift..][k] == s'.threads[k + shift];
  }

  lemma ChangeKeepsNewestFirst(s: Server, s': Server, change: Change)
    requires Changes(s, s', change) && NewestFirst(s)
    ensures NewestFirst(s')
  {
    if !change.Touch? {
      forall i | 0 < i < |s'.threads|
        ensures s'.threads[i].id == |s'.threads| - i
      {
        assert s'.threads[i] == s'.threads[1..][i - 1];
      }
    }
  }

  lemma ChangeKeepsLedger(s: Server, s': Server, change: Change)
    requires Changes(s, s', change) && NewestFirst(s) && SoundLedger(s)
    ensures SoundLedger(s')
  {
    var shift := if change.Touch? then 0 else 1;
    assert s'.threads[shift..] == if change.Touch? then s'.threads else s'.threads[1..];
    CountSameShape(s.threads, s'.threads[shift..]);
    forall i | 0 <= i < |s.ledger|
      ensures NamesImported(s', s.ledger[i]) && s.ledger[i].threadId.value < s.nextThreadId
    {
      NamesStay(s, s', s.ledger[i], shift);
    }
    if !change.Touch? {
      assert s'.threads == [s'.threads[0]] + s'.threads[1..];
      CountOne(s'.threads[0], IsImported());
      CountConcat([s'.threads[0]], s'.threads[1..], IsImported());
    }
  }

  /** In every run the threads stay newest first and distinct, and the ledger stays sound. */
  lemma {:induction false} EveryRunKeepsLedgerSound(b: Behavior, cwd: string, events: seq<Event>)
    ensures NewestFirst(Run(b, cwd, events).server) && SoundLedger(Run(b, cwd, events).server)
    decreases |events|
  {
    hide Step, NewestFirst, SoundLedger;
    if events == [] {
      BootIsSound(cwd);
    } else {
      var front, last := events[..|events| - 1], events[|events| - 1];
      EveryRunKeepsLedgerSound(b, cwd, front);
      var s := Run(b, cwd, front).server;
      var change := StepChanges(b, s, last.input, last.now);
      var s' := Step(b, s, last.input, last.now).0;
      ChangeKeepsNewestFirst(s, s', change);
      ChangeKeepsLedger(s, s', change);
    }
  }

  lemma BootIsSound(cwd: string)
    ensures NewestFirst(Boot(cwd)) && SoundLedger(Boot(cwd))
  {
  }

  // ---------------------------------------------------------------- the client

  function ThreadIds(rs: seq<Record>): set<ThreadId> {
    set r | r in rs && r.threadId.Some? :: r.threadId.value
  }

  /** The records whose thread was not in the ledger before the import. */
  function Fresh(known: set<ThreadId>, after: seq<Record>): seq<Record>
    decreases |after|
  {
    if after == [] then []
    else
      var rest := Fresh(known, after[..|after| - 1]);
      var last := after[|after| - 1];
      if last.threadId.Some? && last.threadId.value !in known then rest + [last] else rest
  }

  /** What the client takes as the imported thread: from the records this run added, or else from all. */
  function TransferredThread(platform: Platform, prior: seq<Record>, after: seq<Record>,
                             source: string): Option<ThreadId> {
    var added := PickImportedThreadId(platform, Fresh(ThreadIds(prior), after), source);
    if added.Some? then added else PickImportedThreadId(platform, after, source)
  }

  lemma {:induction false} NothingFresh(known: set<ThreadId>, rs: seq<Record>)
    requires forall r :: r in rs && r.threadId.Some? ==> r.threadId.value in known
    ensures Fresh(known, rs) == []
    decreases |rs|
  {
    if rs != [] {
      NothingFresh(known, rs[..|rs| - 1]);
    }
  }

  lemma PickOfOne(platform: Platform, r: Record, source: string)
    requires IsCandidate(platform, r, source)
    ensures PickImportedThreadId(platform, [r], source) == r.threadId
  {
    PickIsLatestOfSource(platform, [r], source, 0);
  }

  lemma LatestExists(platform: Platform, rs: seq<Record>, source: string, k: nat) returns (best: nat)
    requires k < |rs| && IsCandidate(platform, rs[k], source)
    ensures IsLatestFor(platform, rs, source, best)
  {
    best := k;
    for i := 0 to |rs|
      invariant best < |rs| && IsCandidate(platform, rs[best], source)
      invariant forall j :: 0 <= j < i && IsCandidate(platform, rs[j], source) ==>
        TimeOf(rs[j]) <= TimeOf(rs[best]) && (best < j ==> TimeOf(rs[j]) < TimeOf(rs[best]))
    {
      if IsCandidate(platform, rs[i], source)
          && (TimeOf(rs[best]) < TimeOf(rs[i]) || (TimeOf(rs[best]) == TimeOf(rs[i]) && best < i)) {
        best := i;
      }
    }
  }

  /** The thread the server means by this session, after it has answered the import. */
  function ServersThread(s: Server, source: string, hash: string): Option<ThreadId> {
    var k := FindRecord(s.ledger, source, hash);
    if k < |s.ledger| then s.ledger[k].threadId else None
  }

  predicate ImportWorks(b: Behavior, session: Session) {
    && !(b.ImportUnsupported? || b.ImportFails? || b.ImportItemFailure?)
    && session.path.Some? && session.path.value != ""
  }

  /** New content: the client takes the thread the server has just made, whatever the clock says. */
  lemma NewContentIsFound(platform: Platform, b: Behavior, cwd: string, events: seq<Event>, id: Option<RequestId>,
                          session: Session, now: nat)
    requires ImportWorks(b, session) && session.title.Some?
    requires var s := Run(b, cwd, events).server; FindRecord(s.ledger, session.path.value, session.hash) == |s.ledger|
    ensures var s := Run(b, cwd, events).server;
      var s' := Step(b, s, Line(id, Import(Some(session)), true), now).0;
      && ServersThread(s', session.path.value, session.hash) == Some(s.nextThreadId)
      && TransferredThread(platform, s.ledger, s'.ledger, session.path.value) == Some(s.nextThreadId)
      && |s'.ledger| == |s.ledger| + 1
  {
    EveryRunKeepsLedgerSound(b, cwd, events);
    var s := Run(b, cwd, events).server;
    hide Run;
    ImportRecords(b, s, id, session, now);
    RecordsAreOld(s);
    hide SoundLedger, NewestFirst, Step;
    OneFreshRecord(platform, s.ledger, Record(session.path.value, session.hash, Some(s.nextThreadId), Some(now)));
  }

  lemma ImportRecords(b: Behavior, s: Server, id: Option<RequestId>, session: Session, now: nat)
    requires ImportWorks(b, session) && session.title.Some?
    requires FindRecord(s.ledger, session.path.value, session.hash) == |s.ledger|
    ensures var s' := Step(b, s, Line(id, Import(Some(session)), true), now).0;
      && s'.ledger == s.ledger + [Record(session.path.value, session.hash, Some(s.nextThreadId), Some(now))]
      && ServersThread(s', session.path.value, session.hash) == Some(s.nextThreadId)
  {
    var r := Record(session.path.value, session.hash, Some(s.nextThreadId), Some(now));
    FindAppended(s.ledger, r);
    hide FindRecord;
  }

  lemma FindAppended(ledger: seq<Record>, r: Record)
    requires FindRecord(ledger, r.source, r.hash) == |ledger|
    ensures FindRecord(ledger + [r], r.source, r.hash) == |ledger|
  {
    var grown := ledger + [r];
    assert forall i :: 0 <= i < |ledger| ==> grown[i] == ledger[i];
    assert grown[|ledger|] == r;
  }

  lemma OneFreshRecord(platform: Platform, prior: seq<Record>, r: Record)
    requires r.source != "" && r.threadId.Some? && r.threadId.value !in ThreadIds(prior)
    ensures TransferredThread(platform, prior, prior + [r], r.source) == r.threadId
  {
    hide PickImportedThreadId;
    NothingFresh(ThreadIds(prior), prior);
    assert (prior + [r])[..|prior|] == prior;
    assert Fresh(ThreadIds(prior), prior + [r]) == [r];
    PickOfOne(platform, r, r.source);
  }

  lemma RecordsAreOld(s: Server)
    requires NewestFirst(s) && SoundLedger(s)
    ensures s.nextThreadId !in ThreadIds(s.ledger)
  {
  }

  /**
    * Known content: nothing is added, and the client takes the server's thread if and only if the matching
    * record is the latest of its source.
    */
  lemma KnownContentIsFoundIffLatest(platform: Platform, b: Behavior, cwd: string, events: seq<Event>,
                                     id: Option<RequestId>, session: Session, now: nat)
    requires ImportWorks(b, session)
    requires var s := Run(b, cwd, events).server; FindRecord(s.ledger, session.path.value, session.hash) < |s.ledger|
    ensures var s := Run(b, cwd, events).server;
      && Step(b, s, Line(id, Import(Some(session)), true), now) == (s, [Reply(id, Empty), ImportCompleted(false)])
      && (TransferredThread(platform, s.ledger, s.ledger, session.path.value) ==
          ServersThread(s, session.path.value, session.hash)
          <==> IsLatestFor(platform, s.ledger, session.path.value,
              FindRecord(s.ledger, session.path.value, session.hash)))
  {
    EveryRunKeepsLedgerSound(b, cwd, events);
    var s := Run(b, cwd, events).server;
    hide Run;
    var k := FindRecord(s.ledger, session.path.value, session.hash);
    RecordedThreadIsKnown(s, k);
    ImportAddsNothing(b, s, id, session, now);
    hide Step;
    RepeatedTransfer(platform, s.ledger, session.path.value, k);
  }

  lemma ImportAddsNothing(b: Behavior, s: Server, id: Option<RequestId>, session: Session, now: nat)
    requires ImportWorks(b, session)
    requires var k := FindRecord(s.ledger, session.path.value, session.hash);
      k < |s.ledger| && s.ledger[k].threadId.Some? && Find(s.threads, s.ledger[k].threadId.value) < |s.threads|
    ensures Step(b, s, Line(id, Import(Some(session)), true), now) == (s, [Reply(id, Empty), ImportCompleted(false)])
  {
  }

  /** With nothing added, the client takes the latest record of the source: record `k` only if that is the latest. */
  lemma RepeatedTransfer(platform: Platform, ledger: seq<Record>, source: string, k: nat)
    requires k < |ledger| && IsCandidate(platform, ledger[k], source)
    requires forall i, j :: 0 <= i < j < |ledger| ==> ledger[i].threadId != ledger[j].threadId
    ensures TransferredThread(platform, ledger, ledger, source) == ledger[k].threadId <==>
      IsLatestFor(platform, ledger, source, k)
  {
    hide PickImportedThreadId;
    NothingFresh(ThreadIds(ledger), ledger);
    PickIsLatestOfSource(platform, [], source, 0);
    var best := LatestExists(platform, ledger, source, k);
    PickIsLatestOfSource(platform, ledger, source, best);
    if IsLatestFor(platform, ledger, source, k) {
      PickIsLatestOfSource(platform, ledger, source, k);
    }
  }

  lemma RecordedThreadIsKnown(s: Server, k: nat)
    requires SoundLedger(s) && k < |s.ledger|
    ensures s.ledger[k].threadId.Some? && Find(s.threads, s.ledger[k].threadId.value) < |s.threads|
  {
    assert NamesImported(s, s.ledger[k]);
    var j :| 0 <= j < |s.threads| && s.threads[j].id == s.ledger[k].threadId.value;
  }

  // ---------------------------------------------------------------- with a clock that does not run backwards

  predicate Clocked(events: seq<Event>) {
    forall i, j :: 0 <= i < j < |events| ==> events[i].now <= events[j].now
  }

  predicate TimesRise(ledger: seq<Record>, now: nat) {
    && (forall i :: 0 <= i < |ledger| ==> TimeOf(ledger[i]) <= now)
    && (forall i, j :: 0 <= i < j < |ledger| ==> TimeOf(ledger[i]) <= TimeOf(ledger[j]))
  }

  lemma {:induction false} LedgerTimesRise(b: Behavior, cwd: string, events: seq<Event>, now: nat)
    requires Clocked(events) && (events != [] ==> events[|events| - 1].now <= now)
    ensures TimesRise(Run(b, cwd, events).server.ledger, now)
    decreases |events|
  {
    hide Step;
    if events != [] {
      var front, last := events[..|events| - 1], events[|events| - 1];
      LedgerTimesRise(b, cwd, front, last.now);
      var change := StepChanges(b, Run(b, cwd, front).server, last.input, last.now);
    }
  }

  /**
    * With a clock that does not run backwards, the latest record is the one with no later import of its source behind
    * it.
    */
  lemma LatestMeansLastImport(platform: Platform, b: Behavior, cwd: string, events: seq<Event>, source: string, k: nat)
    requires Clocked(events) && k < |Run(b, cwd, events).server.ledger|
    requires SameSourcePath(platform, Run(b, cwd, events).server.ledger[k].source, source)
    ensures var ledger := Run(b, cwd, events).server.ledger;
      IsLatestFor(platform, ledger, source, k) <==>
          forall i :: k < i < |ledger| ==> !SameSourcePath(platform, ledger[i].source, source)
  {
    EveryRunKeepsLedgerSound(b, cwd, events);
    LedgerTimesRise(b, cwd, events, if events == [] then 0 else events[|events| - 1].now);
    var s := Run(b, cwd, events).server;
    hide Run, Count, SameSourcePath;
    forall i | 0 <= i < |s.ledger|
      ensures IsCandidate(platform, s.ledger[i], source) <==> SameSourcePath(platform, s.ledger[i].source, source)
    {
      assert NamesImported(s, s.ledger[i]);
    }
  }

  lemma TwoImports(cwd: string, a: Session, b: Session, now: nat)
    requires ImportWorks(Ordinary, a) && a.title.Some? && ImportWorks(Ordinary, b) && b.title.Some?
    requires a.path == b.path && a.hash != b.hash
    ensures
      var events := [Event(Line(Some(1), Import(Some(a)), true), now),
          Event(Line(Some(2), Import(Some(b)), true), now)];
      Run(Ordinary, cwd, events).server.ledger ==
      [Record(a.path.value, a.hash, Some(1), Some(now)), Record(b.path.value, b.hash, Some(2), Some(now))]
  {
    var first, second := Event(Line(Some(1), Import(Some(a)), true), now),
        Event(Line(Some(2), Import(Some(b)), true), now);
    RunLast(Ordinary, cwd, [], first);
    RunLast(Ordinary, cwd, [first], second);
    assert [] + [first] == [first] && [first] + [second] == [first, second];
    var s0, s1 := Boot(cwd), Run(Ordinary, cwd, [first]).server;
    ImportRecords(Ordinary, s0, Some(1), a, now);
    var r := Record(a.path.value, a.hash, Some(1), Some(now));
    assert s1.ledger == [r] && s1.nextThreadId == 2;
    assert FindRecord([r], b.path.value, b.hash) == 1;
    hide Run, Step;
    ImportRecords(Ordinary, s1, Some(2), b, now);
  }

  /**
    * A transcript imported, changed, imported again, and changed back: the server means the first thread,
    * the client takes the second.
    */
  lemma RevertedTranscriptYieldsTheWrongThread(platform: Platform, cwd: string, now: nat)
    ensures var a, b := Session(Some("t"), cwd, "before", Some(NoName)), Session(Some("t"), cwd, "after", Some(NoName));
      var events := [Event(Line(Some(1), Import(Some(a)), true), now),
          Event(Line(Some(2), Import(Some(b)), true), now)];
      var s := Run(Ordinary, cwd, events).server;
      && ServersThread(s, "t", "before") == Some(1)
      && TransferredThread(platform, s.ledger, s.ledger, "t") == Some(2)
  {
    hide Run;
    var a, b := Session(Some("t"), cwd, "before", Some(NoName)), Session(Some("t"), cwd, "after", Some(NoName));
    TwoImports(cwd, a, b, now);
    var older, newer := Record("t", "before", Some(1), Some(now)), Record("t", "after", Some(2), Some(now));
    assert FindRecord([older, newer], "t", "before") == 0;
    RepeatedTransfer(platform, [older, newer], "t", 1);
  }
}
