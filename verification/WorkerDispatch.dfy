/**
  * Dispatching a background worker: the dispatcher asks the broker, and spawns a worker itself only
  * when the broker has definitely not spawned one. The run of both sides, with their timeouts, and
  * what the job's record says afterwards.
  */
module WorkerDispatch {
  import opened Wrappers
  import opened JobPruning
  import opened JobStore
  import opened JobStoreRuns
  import opened SpawnClient

  // ---------------------------------------------------------------- the dispatcher's decision

  datatype Decision = ViaBroker(pid: Pid) | Ambiguous | NoBrokerWorker

  function Decide(outcome: Outcome): Decision {
    match outcome
    case Nothing => NoBrokerWorker
    case Unsure => Ambiguous
    case Returned(result) =>
      if result.ambiguous then Ambiguous
      else if result.pid.Some? && result.pid.value > 0 then ViaBroker(result.pid.value)
      else NoBrokerWorker
  }

  // ---------------------------------------------------------------- both sides

  /**
    * The broker's part: not asked, starting a worker, having one, refused, or tired of waiting for the one it started.
    */
  datatype Broker = Idle | Starting(since: nat) | Up(pid: Pid) | Refused | GaveUp

  /** `now` counts from the moment the call begins; `wire` is the broker's reply on its way. */
  datatype World = World(
    now: nat,
    connected: bool,
    requested: bool,
    broker: Broker,
    wire: Option<Parsed>,
    settled: Option<Outcome>,
    brokerWorkers: nat,
    localTried: bool,
    localWorkers: nat)

  const START := World(0, false, false, Idle, None, None, 0, false, 0)

  datatype Happening =
    | TimePasses(to: nat)
    | ClientConnects(writeFails: bool)
    | ClientHearsNothing
    | BrokerRefuses(reply: Parsed)
    | BrokerStartsWorker
    | WorkerComesUp(pid: Pid)
    | WorkerFails
    | BrokerGivesUp
    | ReplyArrives
    | LocalSpawn(succeeds: bool)

  /** The two timeouts, in milliseconds, and whether the dispatcher may spawn a worker itself. */
  datatype Setup = Setup(client: nat, broker: nat, localFallback: bool)

  const ERROR_REPLY := Answer(true, None)

  /** The call as the client's object has it, its buffer aside. */
  function CallOf(w: World): Client {
    Client(w.connected, w.settled, "")
  }

  /** What can happen next. A timer that is due fires before a later reply is read. */
  predicate Possible(t: Setup, w: World, h: Happening) {
    match h
    case TimePasses(to) => w.now <= to
    case ClientConnects(_) => w.settled.None? && !w.connected
    case ClientHearsNothing => true
    case BrokerRefuses(reply) =>
      w.requested && w.broker.Idle? && reply.Answer? && !Decide(OutcomeOf(reply)).ViaBroker?
    case BrokerStartsWorker => w.requested && w.broker.Idle?
    case WorkerComesUp(_) => w.broker.Starting? || w.broker.GaveUp?
    case WorkerFails => w.broker.Starting? || w.broker.GaveUp?
    case BrokerGivesUp => w.broker.Starting? && w.broker.since + t.broker <= w.now
    case ReplyArrives => w.wire.Some? && w.wire.value.Answer? && w.connected && w.now < t.client
    case LocalSpawn(_) => t.localFallback && w.settled.Some? && Decide(w.settled.value).NoBrokerWorker? && !w.localTried
  }

  function After(w: World, h: Happening): World {
    match h
    case TimePasses(to) => w.(now := to)
    case ClientConnects(writeFails) =>
      w.(connected := true, requested := !writeFails, settled := Connect(CallOf(w), writeFails).settled)
    case ClientHearsNothing => w.(settled := NoReply(CallOf(w)).settled)
    case BrokerRefuses(reply) => w.(broker := Refused, wire := Some(reply))
    case BrokerStartsWorker => w.(broker := Starting(w.now))
    case WorkerComesUp(pid) =>
      w.(broker := Up(pid), brokerWorkers := w.brokerWorkers + 1,
         wire := if w.broker.Starting? then Some(Answer(false, Some(RpcResult(Some(pid), false)))) else w.wire)
    case WorkerFails => w.(broker := Refused, wire := if w.broker.Starting? then Some(ERROR_REPLY) else w.wire)
    case BrokerGivesUp => w.(broker := GaveUp, wire := Some(ERROR_REPLY))
    case ReplyArrives =>
      if w.wire.Some? && w.wire.value.Answer?
      then w.(wire := None, settled := Settle(CallOf(w), OutcomeOf(w.wire.value)).settled)
      else w
    case LocalSpawn(succeeds) => w.(localTried := true, localWorkers := w.localWorkers + if succeeds then 1 else 0)
  }

  function RunAll(happenings: seq<Happening>): World
    decreases |happenings|
  {
    if happenings == [] then START else After(RunAll(happenings[..|happenings| - 1]), happenings[|happenings| - 1])
  }

  predicate Legal(t: Setup, happenings: seq<Happening>)
    decreases |happenings|
  {
    happenings == [] ||
      var front := happenings[..|happenings| - 1];
      Legal(t, front) && Possible(t, RunAll(front), happenings[|happenings| - 1])
  }

  function Workers(w: World): nat {
    w.brokerWorkers + w.localWorkers
  }

  // ---------------------------------------------------------------- at most one worker

  /** A reply without a pid that is on its way: no worker will come, or the broker's own timeout has passed. */
  predicate WireIsTrue(t: Setup, w: World) {
    w.wire.Some? ==>
      && w.wire.value.Answer? && w.requested
      && match Decide(OutcomeOf(w.wire.value))
         case ViaBroker(pid) => w.broker == Up(pid)
         case _ => w.broker.Refused? || ((w.broker.GaveUp? || w.broker.Up?) && t.broker <= w.now)
  }

  predicate DispatchInv(t: Setup, w: World) {
    && w.brokerWorkers == (if w.broker.Up? then 1 else 0)
    && (w.requested ==> w.connected)
    && (!w.broker.Idle? ==> w.requested)
    && WireIsTrue(t, w)
    && (w.settled.Some? ==>
          match Decide(w.settled.value)
          case ViaBroker(pid) => w.broker == Up(pid)
          case NoBrokerWorker => t.client <= t.broker ==> !w.requested || w.broker.Refused?
          case Ambiguous => w.connected)
    && w.localWorkers <= (if w.localTried then 1 else 0)
    && (w.localTried ==> w.settled.Some? && Decide(w.settled.value).NoBrokerWorker?)
  }

  lemma HappeningKeepsInv(t: Setup, w: World, h: Happening)
    requires DispatchInv(t, w) && Possible(t, w, h)
    ensures DispatchInv(t, After(w, h))
  {
  }

  lemma {:induction false} LegalRunKeepsInv(t: Setup, happenings: seq<Happening>)
    requires Legal(t, happenings)
    ensures DispatchInv(t, RunAll(happenings))
    decreases |happenings|
  {
    if happenings != [] {
      var front := happenings[..|happenings| - 1];
      LegalRunKeepsInv(t, front);
      HappeningKeepsInv(t, RunAll(front), happenings[|happenings| - 1]);
    }
  }

  /** The run that ends with two workers when the client waits longer than the broker. */
  function TwoWorkers(t: Setup): seq<Happening> {
    [ClientConnects(false), BrokerStartsWorker, TimePasses(t.broker), BrokerGivesUp, ReplyArrives, LocalSpawn(true),
        WorkerComesUp(1)]
  }

  lemma LegalLast(t: Setup, happenings: seq<Happening>, h: Happening)
    requires Legal(t, happenings) && Possible(t, RunAll(happenings), h)
    ensures Legal(t, happenings + [h]) && RunAll(happenings + [h]) == After(RunAll(happenings), h)
  {
    assert (happenings + [h])[..|happenings|] == happenings;
  }

  lemma ImpatientBrokerLeadsToTwo(t: Setup)
    requires t.broker < t.client && t.localFallback
    ensures Legal(t, TwoWorkers(t)) && Workers(RunAll(TwoWorkers(t))) == 2
  {
    var r := TwoWorkers(t);
    assert r[..0] == [] && r[..7] == r;
    hide Legal, RunAll;
    LegalEmpty(t);
    for i := 0 to 7
      invariant Legal(t, r[..i])
      invariant RunAll(r[..i]) == WorldAt(t, i)
    {
      LegalLast(t, r[..i], r[i]);
      assert r[..i] + [r[i]] == r[..i + 1];
    }
  }

  lemma LegalEmpty(t: Setup)
    ensures Legal(t, []) && RunAll([]) == START
  {
  }

  function WorldAt(t: Setup, i: nat): World {
    if i == 0 then START
    else if i == 1 then World(0, true, true, Idle, None, None, 0, false, 0)
    else if i == 2 then World(0, true, true, Starting(0), None, None, 0, false, 0)
    else if i == 3 then World(t.broker, true, true, Starting(0), None, None, 0, false, 0)
    else if i == 4 then World(t.broker, true, true, GaveUp, Some(ERROR_REPLY), None, 0, false, 0)
    else if i == 5 then World(t.broker, true, true, GaveUp, None, Some(Nothing), 0, false, 0)
    else if i == 6 then World(t.broker, true, true, GaveUp, None, Some(Nothing), 0, true, 1)
    else World(t.broker, true, true, Up(1), None, Some(Nothing), 1, true, 1)
  }

  /**
    * A job never gets two workers, in any order of events, if and only if the client gives up no later than the
    * broker, or the dispatcher spawns none itself.
    */
  lemma AtMostOneWorkerIff(t: Setup)
    ensures (forall happenings :: Legal(t, happenings) ==> Workers(RunAll(happenings)) <= 1) <==>
      t.client <= t.broker || !t.localFallback
  {
    if t.client <= t.broker || !t.localFallback {
      forall happenings | Legal(t, happenings)
        ensures Workers(RunAll(happenings)) <= 1
      {
        LegalRunKeepsInv(t, happenings);
        LocalSpawnsCount(t, happenings);
      }
    } else {
      ImpatientBrokerLeadsToTwo(t);
    }
  }

  /** The dispatcher spawns once at most, never without the fallback, and has a worker exactly when that succeeds. */
  lemma {:induction false} LocalSpawnsCount(t: Setup, happenings: seq<Happening>)
    requires Legal(t, happenings)
    ensures var w := RunAll(happenings);
      && w.localWorkers == (if LocalSpawn(true) in happenings then 1 else 0)
      && (w.localTried <==> LocalSpawn(true) in happenings || LocalSpawn(false) in happenings)
      && (w.localTried ==> t.localFallback)
    decreases |happenings|
  {
    if happenings != [] {
      var front, last := happenings[..|happenings| - 1], happenings[|happenings| - 1];
      LocalSpawnsCount(t, front);
      assert happenings == front + [last];
    }
  }

  /**
    * With the program's timeouts. A definite outcome means exactly one worker: the broker's, with the pid it
    * reported, or, once the local spawn has succeeded, that one; with the fallback disabled a definite no means none.
    * Only an ambiguous outcome leaves it open, and then there is a worker if and only if the broker's came up.
    */
  lemma DefiniteMeansExactlyOne(localFallback: bool, happenings: seq<Happening>)
    requires Legal(Setup(2000, 4000, localFallback), happenings)
    ensures var w := RunAll(happenings);
      && w.brokerWorkers + w.localWorkers <= 1
      && match w.settled
         case None => w.localWorkers == 0
         case Some(Unsure) => w.localWorkers == 0 && (w.brokerWorkers == 1 <==> w.broker.Up?)
         case Some(Nothing) => w.brokerWorkers == 0 && w.localWorkers == SpawnedLocally(happenings, localFallback)
         case Some(Returned(RpcResult(pid, ambiguous))) =>
           if ambiguous then w.localWorkers == 0 && (w.brokerWorkers == 1 <==> w.broker.Up?)
           else if pid.Some? && pid.value > 0 then
             w.localWorkers == 0 && w.brokerWorkers == 1 && w.broker.Up? && w.broker.pid == pid.value
           else w.brokerWorkers == 0 && w.localWorkers == SpawnedLocally(happenings, localFallback)
  {
    LegalRunKeepsInv(Setup(2000, 4000, localFallback), happenings);
    LocalSpawnsCount(Setup(2000, 4000, localFallback), happenings);
  }

  /** One worker if the dispatcher is allowed to spawn one and its spawn succeeded. */
  function SpawnedLocally(happenings: seq<Happening>, localFallback: bool): nat {
    if localFallback && LocalSpawn(true) in happenings then 1 else 0
  }

  // ---------------------------------------------------------------- the job's record

  function NoChange(id: JobId): Patch {
    Patch(id, None, None, None, None, None, None, None, None, None, None, None)
  }

  /** The dispatcher's last write; after an ambiguous outcome the pid is null. */
  function RecordPid(id: JobId, pid: Option<Pid>): Patch {
    NoChange(id).(pid := Some(pid))
  }

  /** The worker's first write. */
  function WorkerStarts(job: Job, pid: Pid, mark: Option<string>, startedAt: nat): Patch {
    NoChange(job.id).(status := Some(Running), phase := Some("starting"), pid := Some(Some(pid)),
                      processMark := Some(mark), startedAt := Some(Some(startedAt)), logFile := Some(job.logFile))
  }

  function Patched(job: Job, p: Patch, now: nat): Job {
    Merge(job, p).(updatedAt := Some(now))
  }

  lemma UpsertPatchesOwner(s: Store, p: Patch, now: nat, job: Job)
    requires Owns(s, job) && p.id == job.id && p.logFile in {None, Some(job.logFile)} && Active(Patched(job, p, now))
    ensures Upsert(s, p, now, true).1 && Owns(Upsert(s, p, now, true).0, Patched(job, p, now))
  {
    UpsertPatchesOwned(Jobs(s), p, now, job);
    SaveKeepsOwner(s.(locks := s.locks + 1), UpsertInto(Jobs(s), p, now), Patched(job, p, now), job);
  }

  /** What the dispatcher writes when there is no broker's worker and it may not spawn one. */
  function Refusal(id: JobId, at: nat, message: string): Patch {
    NoChange(id).(status := Some(Failed), phase := Some("terminated"), pid := Some(None), completedAt := Some(Some(at)),
                  errorMessage := Some(Some(message)), failureReason := Some(Some("no_survivable_broker")))
  }

  /**
    * A definite no with the fallback disabled: the job's only record ends as failed at once, with the dispatcher's own
    * reason, and no pass of the reaper reports it again; the record is there whenever the index fits the cap.
    */
  lemma RefusedDispatchEndsFailed(s: Store, job: Job, at: nat, message: string, pass: Pass)
    requires Owns(s, job)
    ensures var w := Upsert(s, Refusal(job.id, at, message), at, true).0;
      var failed := Patched(job, Refusal(job.id, at, message), at);
      && failed.status.Failed? && failed.failureReason == Some("no_survivable_broker")
      && failed.phase == "terminated" && failed.pid.None? && failed.completedAt == Some(at)
      && failed.errorMessage == Some(message) && failed.logFile == job.logFile
      && (forall other :: other in Jobs(w) && other.id == job.id ==> other == failed)
      && (|Jobs(s)| <= 50 ==> failed in Jobs(w))
      && forall e :: e in ReapDeadJobs(w, pass).1 ==> e.id != job.id
  {
    var p := Refusal(job.id, at, message);
    var w := Upsert(s, p, at, true).0;
    var next := UpsertInto(Jobs(s), p, at);
    var failed := Patched(job, p, at);
    UpsertPatchesOwned(Jobs(s), p, at, job);
    assert Jobs(w) == Prune(next);
    assert |next| == |Jobs(s)|;
    hide Prune, ReapDeadJobs, UpsertInto;
    forall other | other in Jobs(w) && other.id == job.id
      ensures other == failed
    {
      PruneKeepsActive(next, other);
      OnlyOwner(next, failed, other);
    }
    if |Jobs(s)| <= 50 {
      PruneDropsNothingIff(next);
      assert failed in multiset(next);
    }
    forall e | e in ReapDeadJobs(w, pass).1
      ensures e.id != job.id
    {
      ReasonsAreTrue(w, pass, e);
    }
  }

  lemma OnlyOwner(jobs: seq<Job>, job: Job, other: Job)
    requires OwnedIn(jobs, job) && other in jobs && other.id == job.id
    ensures other == job
  {
    var i :| 0 <= i < |jobs| && jobs[i] == job;
    CountOfMember(jobs, i, HasId(job.id));
  }

  /** The index after the dispatcher's two writes that follow an ambiguous outcome, with nothing from a worker. */
  function AfterSilence(s: Store, id: JobId, t1: nat, t2: nat): Store {
    Upsert(Upsert(s, NoChange(id), t1, true).0, RecordPid(id, None), t2, true).0
  }

  /**
    * A silent dispatch whose worker never came: the job stays queued for exactly the grace period after the
    * dispatcher's last write; the first pass after that ends it as `dispatch_lost`.
    */
  lemma SilentDispatchEndsAsLost(s: Store, job: Job, t1: nat, t2: nat, pass: Pass)
    requires Owns(s, job) && job.status.Queued? && job.pid.None? && pass.lockFree
    ensures var w := AfterSilence(s, job.id, t1, t2);
      var queued := Patched(Patched(job, NoChange(job.id), t1), RecordPid(job.id, None), t2);
      && Owns(w, queued) && queued.status.Queued?
      && (pass.nowMs - t2 < 60000 ==> queued in Jobs(ReapDeadJobs(w, pass).0))
      && (pass.nowMs - t2 >= 60000 <==> Reaped(job.id, DispatchLost) in ReapDeadJobs(w, pass).1)
      && (pass.nowMs - t2 >= 60000 && |Jobs(w)| <= 50 ==>
            exists ended :: ended in Jobs(ReapDeadJobs(w, pass).0) && EndedBy(ended, queued, DispatchLost, pass.at))
  {
    var first := Patched(job, NoChange(job.id), t1);
    var queued := Patched(first, RecordPid(job.id, None), t2);
    UpsertPatchesOwner(s, NoChange(job.id), t1, job);
    UpsertPatchesOwner(Upsert(s, NoChange(job.id), t1, true).0, RecordPid(job.id, None), t2, first);
    var w := AfterSilence(s, job.id, t1, t2);
    assert queued.status.Queued? && queued.pid.None? && queued.updatedAt == Some(t2);
    assert w.index.Index?;
    hide AfterSilence, ReapDeadJobs, Upsert, EndedBy;
    forall other | other in Jobs(w) && other.id == job.id
      ensures other == queued
    {
      OnlyOwner(Jobs(w), queued, other);
    }
    JobIsReapedIff(w, pass, queued, DispatchLost);
    if pass.nowMs - t2 < 60000 {
      LiveJobsAreNeverReaped(w, pass, queued);
    } else if |Jobs(w)| <= 50 {
      ReapedJobsKeepTheirRecords(w, pass, queued, DispatchLost);
    }
  }

  lemma ReapIsReported(s: Store, pass: Pass, job: Job)
    requires pass.lockFree && job in Jobs(s) && ShouldReap(job, pass.processes, pass.nowMs)
    ensures Reaped(job.id, ReasonOf(job, pass.processes)) in ReapDeadJobs(s, pass).1
  {
    ReapedAreListed(Jobs(s), pass, job);
  }

  /** The record of the job when the worker's first write lands before, or after, the dispatcher's last one. */
  function AfterBoth(s: Store, job: Job, worker: Patch, tw: nat, td: nat, workerFirst: bool): Store {
    if workerFirst then Upsert(Upsert(s, worker, tw, true).0, RecordPid(job.id, None), td, true).0
    else Upsert(Upsert(s, RecordPid(job.id, None), td, true).0, worker, tw, true).0
  }

  /**
    * An ambiguous dispatch whose worker did come up: the live worker's job survives every pass of the reaper if
    * and only if its first write lands after the dispatcher's last. Before it, the null pid wipes out the
    * worker's own, and the next pass ends the running job as `no_pid_recorded`, with no grace period.
    */
  lemma LiveWorkerSurvivesIffItWritesLast(s: Store, job: Job, pid: Pid, mark: Option<string>, tw: nat, td: nat,
                                          workerFirst: bool, pass: Pass)
    requires Owns(s, job) && job.status.Queued? && job.pid.None? && pass.lockFree
    requires pid in pass.processes.running && (mark.Some? && pid in pass.processes.marks ==>
      pass.processes.marks[pid] == mark.value)
    ensures var w := AfterBoth(s, job, WorkerStarts(job, pid, mark, tw), tw, td, workerFirst);
      && (exists running :: running in Jobs(w) && running.id == job.id && running.status.Running?
            && running.phase == "starting" && running.startedAt == Some(tw) && running.processMark == mark
            && (!workerFirst <==> running in Jobs(ReapDeadJobs(w, pass).0)))
      && (Reaped(job.id, NoPidRecorded) in ReapDeadJobs(w, pass).1 <==> workerFirst)
  {
    var worker, dispatcher := WorkerStarts(job, pid, mark, tw), RecordPid(job.id, None);
    var (p1, t1, p2, t2) := if workerFirst then (worker, tw, dispatcher, td) else (dispatcher, td, worker, tw);
    var first := Patched(job, p1, t1);
    var running := Patched(first, p2, t2);
    UpsertPatchesOwner(s, p1, t1, job);
    UpsertPatchesOwner(Upsert(s, p1, t1, true).0, p2, t2, first);
    var w := AfterBoth(s, job, worker, tw, td, workerFirst);
    WorkerAndNull(job, pid, mark, tw, td, workerFirst);
    hide AfterBoth, ReapDeadJobs, Patched, WorkerStarts, RecordPid, Upsert;
    if workerFirst {
      ReapIsReported(w, pass, running);
      if running in Jobs(ReapDeadJobs(w, pass).0) {
        ReapEndsOnlyTheDead(w, pass, running);
      }
    } else {
      LiveJobsAreNeverReaped(w, pass, running);
      LiveOwnerIsNotReported(w, pass, running);
    }
  }

  /** The record after both writes, in either order; only the pid depends on it. */
  lemma WorkerAndNull(job: Job, pid: Pid, mark: Option<string>, tw: nat, td: nat, workerFirst: bool)
    ensures var worker, silent := WorkerStarts(job, pid, mark, tw), RecordPid(job.id, None);
      var r := if workerFirst then Patched(Patched(job, worker, tw), silent, td)
               else Patched(Patched(job, silent, td), worker, tw);
      && r.id == job.id && r.status.Running? && r.phase == "starting" && r.startedAt == Some(tw)
      && r.processMark == mark && r.pid == if workerFirst then None else Some(pid)
  {
  }

  lemma LiveOwnerIsNotReported(s: Store, pass: Pass, job: Job)
    requires Owns(s, job) && !ShouldReap(job, pass.processes, pass.nowMs)
    ensures forall e :: e in ReapDeadJobs(s, pass).1 ==> e.id != job.id
  {
    ReapKeepsOwner(Jobs(s), pass, job);
  }
}
