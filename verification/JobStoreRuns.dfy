/** Runs of the job store: what saves and reaps keep, end, and delete. */
module JobStoreRuns {
  import opened Wrappers
  import opened Counting
  import opened StableSort
  import opened JobPruning
  import opened JobStore

  // ---------------------------------------------------------------- one save

  /**
    * A save, an upsert or the write of a job file reports whether it took place: without the lock, and for the index
    * also over an unreadable one, it does not and leaves every file as it was; otherwise it does.
    */
  lemma WritesReportWhetherTheyTookPlace(s: Store, jobs: seq<Job>, p: Patch, now: nat, id: JobId, job: Job,
                                         lockFree: bool)
    ensures var (s', ok) := SaveLocked(s, jobs, lockFree);
      && (ok <==> lockFree && !s.index.Corrupt?) && (if ok then s'.index == Index(Prune(jobs)) else SameDisk(s, s'))
    ensures var (s', ok) := Upsert(s, p, now, lockFree);
      && (ok <==> lockFree && !s.index.Corrupt?)
      && (if ok then s'.index == Index(Prune(UpsertInto(Jobs(s), p, now))) else SameDisk(s, s'))
    ensures var (s', ok) := WriteFile(s, id, job, lockFree);
      && ok == lockFree && s'.index == s.index && s'.logs == s.logs
      && s'.jobFiles == if ok then s.jobFiles[id := Stored(job)] else s.jobFiles
  {
    hide Prune, UpsertInto;
  }

  /** The files of a job that a save drops are deleted if and only if the index had the job before. */
  lemma DroppedJobFileGoesIff(s: Store, jobs: seq<Job>, id: JobId)
    requires id in s.jobFiles && id !in Ids(Prune(jobs))
    ensures id !in Save(s, jobs).jobFiles <==> id in Ids(Jobs(s))
  {
  }

  /** A log goes if and only if a job the index had and now drops names it, whoever else names it too. */
  lemma LogGoesIff(s: Store, jobs: seq<Job>, log: string)
    requires log in s.logs
    ensures log !in Save(s, jobs).logs <==>
      exists job :: job in Jobs(s) && job.logFile == Some(log)
        && forall kept :: kept in Prune(jobs) ==> kept.id != job.id
  {
    var next := Prune(jobs);
    hide Prune;
    assert forall id :: id in Ids(next) <==> exists kept :: kept in next && kept.id == id;
  }

  /**
    * With the cap full of active jobs, a finished job that is new to the index is dropped at once and leaves its files.
    */
  lemma NewFinishedJobLeaksItsFiles(s: Store, p: Patch, now: nat)
    requires s.index.Index? && Count(Jobs(s), IsActive()) >= MAX_JOBS
    requires p.id !in Ids(Jobs(s)) && p.id in s.jobFiles
    requires p.status.Some? && !p.status.value.Running? && !p.status.value.Queued?
    ensures var s' := Upsert(s, p, now, true).0;
      p.id !in Ids(Jobs(s')) && p.id in s'.jobFiles && s'.jobFiles[p.id] == s.jobFiles[p.id]
  {
    var jobs := Jobs(s);
    var made := Merge(NewJob(p.id, now), p);
    var k := FindJob(jobs, p.id);
    assert k < |jobs| ==> jobs[k] in jobs;
    var next := [made] + jobs;
    CountConcat([made], jobs, IsActive());
    CountOne(made, IsActive());
    PruneKeeps(next);
    SelectCounts(Prune(next));
    forall kept | kept in Prune(next)
      ensures kept.id != p.id
    {
      PruneKeepsActive(next, kept);
      InSelect(Prune(next), kept);
      assert kept in next ==> kept == made || kept in jobs;
    }
  }

  // ---------------------------------------------------------------- one upsert

  /** Every field but `updatedAt` is the patch's where the patch sets it, and `was`'s where it does not. */
  predicate PatchedFrom(r: Job, was: Job, p: Patch) {
    && r.id == p.id
    && (if p.status.Some? then r.status == p.status.value else r.status == was.status)
    && (if p.pid.Some? then r.pid == p.pid.value else r.pid == was.pid)
    && (if p.processMark.Some? then r.processMark == p.processMark.value else r.processMark == was.processMark)
    && (if p.createdAt.Some? then r.createdAt == p.createdAt.value else r.createdAt == was.createdAt)
    && (if p.startedAt.Some? then r.startedAt == p.startedAt.value else r.startedAt == was.startedAt)
    && (if p.completedAt.Some? then r.completedAt == p.completedAt.value else r.completedAt == was.completedAt)
    && (if p.logFile.Some? then r.logFile == p.logFile.value else r.logFile == was.logFile)
    && (if p.phase.Some? then r.phase == p.phase.value else r.phase == was.phase)
    && (if p.errorMessage.Some? then r.errorMessage == p.errorMessage.value else r.errorMessage == was.errorMessage)
    && (if p.failureReason.Some? then r.failureReason == p.failureReason.value
        else r.failureReason == was.failureReason)
  }

  lemma FittingJobsStay(jobs: seq<Job>, job: Job)
    requires job in jobs && (|jobs| <= 50 || job.status.Running? || job.status.Queued?)
    ensures job in Prune(jobs)
  {
    PruneKeepsActive(jobs, job);
    PruneDropsNothingIff(jobs);
    hide Prune;
    if |jobs| <= 50 {
      assert job in multiset(jobs);
      assert job in multiset(Prune(jobs));
    }
  }

  /**
    * A known job is patched in place, field by field, and stamped with the present time whatever the patch says; the
    * other records stay. The record itself is in the index if it fits the cap or is running or queued now.
    */
  lemma UpsertPatchesTheRecord(s: Store, was: Job, p: Patch, now: nat)
    requires s.index.Index? && was in Jobs(s) && was.id == p.id
    requires forall other :: other in Jobs(s) && other.id == p.id ==> other == was
    ensures var after := Jobs(Upsert(s, p, now, true).0);
      && (exists r ::
            && PatchedFrom(r, was, p) && r.updatedAt == Some(now)
            && (|Jobs(s)| <= 50 || r.status.Running? || r.status.Queued? ==> r in after))
      && (forall other :: other in Jobs(s) && other.id != p.id ==>
            (|Jobs(s)| <= 50 || other.status.Running? || other.status.Queued? ==> other in after))
  {
    var jobs := Jobs(s);
    var next := UpsertInto(jobs, p, now);
    var k := FindJob(jobs, p.id);
    assert k < |jobs| && jobs[k] == was;
    hide Prune, FindJob;
    assert PatchedFrom(next[k], was, p) && next[k] in next && |next| == |jobs|;
    if |jobs| <= 50 || next[k].status.Running? || next[k].status.Queued? {
      FittingJobsStay(next, next[k]);
    }
    forall other | other in jobs && other.id != p.id && (|jobs| <= 50 || other.status.Running? || other.status.Queued?)
      ensures other in Prune(next)
    {
      var i :| 0 <= i < |jobs| && jobs[i] == other;
      assert next[i] == other;
      FittingJobsStay(next, other);
    }
  }

  /** A job that is new to the index comes with the patch's fields, and with the present time where those give none. */
  lemma UpsertAddsTheRecord(s: Store, p: Patch, now: nat)
    requires !s.index.Corrupt? && forall other :: other in Jobs(s) ==> other.id != p.id
    ensures var empty := Job(p.id, OtherStatus, None, None, None, Some(now), None, None, None, "", None, None);
      var after := Jobs(Upsert(s, p, now, true).0);
      && (exists r ::
            && PatchedFrom(r, empty, p)
            && r.updatedAt == (if p.updatedAt.Some? then p.updatedAt.value else Some(now))
            && (|Jobs(s)| < 50 || r.status.Running? || r.status.Queued? ==> r in after))
      && (forall other :: other in Jobs(s) ==>
            (|Jobs(s)| < 50 || other.status.Running? || other.status.Queued? ==> other in after))
  {
    var jobs := Jobs(s);
    var next := UpsertInto(jobs, p, now);
    var k := FindJob(jobs, p.id);
    assert k == |jobs|;
    hide Prune, FindJob;
    var empty := Job(p.id, OtherStatus, None, None, None, Some(now), None, None, None, "", None, None);
    assert PatchedFrom(next[0], empty, p) && next[0] in next && |next| == |jobs| + 1 && next[1..] == jobs;
    if |jobs| < 50 || next[0].status.Running? || next[0].status.Queued? {
      FittingJobsStay(next, next[0]);
    }
    forall other | other in jobs && (|jobs| < 50 || other.status.Running? || other.status.Queued?)
      ensures other in Prune(next)
    {
      assert other in next[1..];
      FittingJobsStay(next, other);
    }
  }

  // ---------------------------------------------------------------- one pass of the reaper

  lemma {:induction false} MirrorKeepsIndex(s: Store, entries: seq<Reaped>, pass: Pass)
    ensures var s' := Mirror(s, entries, pass);
      s'.index == s.index && s'.logs == s.logs && s'.writes == s.writes && s'.jobFiles.Keys == s.jobFiles.Keys
    decreases |entries|
  {
    if entries != [] {
      MirrorKeepsIndex(s, entries[..|entries| - 1], pass);
    }
  }

  lemma {:induction false} NothingToReap(jobs: seq<Job>, pass: Pass)
    ensures ReapedOf(jobs, pass) == [] <==> !SomethingDead(jobs, pass)
    decreases |jobs|
  {
    if jobs != [] {
      NothingToReap(jobs[..|jobs| - 1], pass);
      assert jobs == jobs[..|jobs| - 1] + [jobs[|jobs| - 1]];
    }
  }

  lemma ReapNothing(jobs: seq<Job>, pass: Pass)
    requires !SomethingDead(jobs, pass)
    ensures ReapJobs(jobs, pass) == jobs
  {
    forall i | 0 <= i < |jobs|
      ensures ReapJob(jobs[i], pass) == jobs[i]
    {
      assert jobs[i] in jobs;
    }
  }

  /** The same files with the same contents; how often they were written or locked does not matter. */
  predicate SameDisk(a: Store, b: Store) {
    a.index == b.index && a.jobFiles == b.jobFiles && a.logs == b.logs
  }

  /**
    * The scan refines the locked pass: the same jobs are reaped on every store, and the same files result
    * if and only if something is dead, the lock is taken, the index is unreadable, or the index is already pruned.
    */
  lemma ScanRefinesLockedPassIff(s: Store, pass: Pass)
    ensures ReapDeadJobs(s, pass).1 == LockedPass(s, pass).1
    ensures SameDisk(ReapDeadJobs(s, pass).0, LockedPass(s, pass).0) <==>
      SomethingDead(Jobs(s), pass) || !pass.lockFree || s.index.Corrupt?
      || (s.index.Index? && Prune(s.index.jobs) == s.index.jobs)
  {
    hide Prune, SomethingDead;
    var jobs := Jobs(s);
    NothingToReap(jobs, pass);
    if !SomethingDead(jobs, pass) {
      ReapNothing(jobs, pass);
      var locked := s.(locks := s.locks + 1);
      assert Mirror(Save(locked, jobs), [], pass) == Save(locked, jobs);
      if Prune(jobs) == jobs {
        assert DroppedIds(jobs, jobs) == {} && DroppedLogs(jobs, jobs) == {};
      }
    }
  }

  /**
    * The index is rewritten if and only if something is dead and the lock is free; otherwise nothing at all is touched.
    */
  lemma ReapWritesIffSomethingDead(s: Store, pass: Pass)
    ensures var (s', entries) := ReapDeadJobs(s, pass);
      && (s'.writes != s.writes <==> SomethingDead(Jobs(s), pass) && pass.lockFree)
      && (s'.writes == s.writes ==> s' == s && entries == [])
      && (s'.writes != s.writes ==> entries != [])
  {
    NothingToReap(Jobs(s), pass);
    if SomethingDead(Jobs(s), pass) && pass.lockFree {
      MirrorKeepsIndex(Save(s.(locks := s.locks + 1), ReapJobs(Jobs(s), pass)), ReapedOf(Jobs(s), pass), pass);
    }
  }

  /** The index after a pass that wrote. */
  lemma IndexAfterReap(s: Store, pass: Pass)
    ensures Jobs(ReapDeadJobs(s, pass).0)
      == if SomethingDead(Jobs(s), pass) && pass.lockFree then Prune(ReapJobs(Jobs(s), pass)) else Jobs(s)
  {
    hide Prune, ReapedOf;
    if SomethingDead(Jobs(s), pass) && pass.lockFree {
      MirrorKeepsIndex(Save(s.(locks := s.locks + 1), ReapJobs(Jobs(s), pass)), ReapedOf(Jobs(s), pass), pass);
    }
  }

  /**
    * What a pass does to the jobs: every job in the index afterwards was there before, either untouched
    * or now ended; whoever is active afterwards was active before and is not dead; and every job that was
    * active and not dead is still there, untouched.
    */
  lemma ReapEndsOnlyTheDead(s: Store, pass: Pass, job: Job)
    requires pass.lockFree
    ensures var after := Jobs(ReapDeadJobs(s, pass).0);
      && (job in after ==> exists was :: was in Jobs(s) && job == ReapJob(was, pass))
      && (job in after && Active(job) ==> job in Jobs(s) && !ShouldReap(job, pass.processes, pass.nowMs))
      && (job in Jobs(s) && Active(job) && !ShouldReap(job, pass.processes, pass.nowMs) ==> job in after)
  {
    var jobs := Jobs(s);
    IndexAfterReap(s, pass);
    hide Prune;
    if SomethingDead(jobs, pass) {
      var next := ReapJobs(jobs, pass);
      PruneKeepsActive(next, job);
      if job in Prune(next) {
        var i :| 0 <= i < |next| && next[i] == job;
        assert jobs[i] in jobs && job == ReapJob(jobs[i], pass);
      }
      if job in jobs && !ShouldReap(job, pass.processes, pass.nowMs) {
        var i :| 0 <= i < |jobs| && jobs[i] == job;
        assert next[i] == job;
      }
    } else if job in jobs {
      assert job == ReapJob(job, pass);
    }
  }

  /** Reaping again, against the same processes and at the same time, finds and changes nothing. */
  lemma ReapingTwiceIsReapingOnce(s: Store, pass: Pass)
    ensures var s' := ReapDeadJobs(s, pass).0; ReapDeadJobs(s', pass) == (s', [])
  {
    var s' := ReapDeadJobs(s, pass).0;
    if pass.lockFree && SomethingDead(Jobs(s'), pass) {
      hide ReapDeadJobs;
      var job :| job in Jobs(s') && ShouldReap(job, pass.processes, pass.nowMs);
      ReapEndsOnlyTheDead(s, pass, job);
      assert false;
    }
  }

  /**
    * A running or queued job keeps its record as it is when its process runs and its birth mark, if it recorded one
    * and the process can be probed, is the one on record; or when it is queued without a process and less than a
    * minute has passed since it was updated, or else created, or else started.
    */
  lemma LiveJobsAreNeverReaped(s: Store, pass: Pass, job: Job)
    requires pass.lockFree && job in Jobs(s) && (job.status.Running? || job.status.Queued?)
    requires var p := pass.processes;
      if job.pid.Some? then
        && job.pid.value in p.running
        && (job.processMark.Some? && job.processMark.value != "" && job.pid.value in p.marks ==>
              p.marks[job.pid.value] in {"", job.processMark.value})
      else job.status.Queued? && Recent(job, pass.nowMs)
    ensures job in Jobs(ReapDeadJobs(s, pass).0)
  {
    ReasonExplains(job, ReasonOf(job, pass.processes), pass);
    hide ShouldReap, Recent;
    ReapEndsOnlyTheDead(s, pass, job);
  }

  lemma RecentIsPlausible(job: Job, nowMs: int)
    ensures DispatchStillPlausible(job, nowMs) <==> Recent(job, nowMs)
  {
  }

  /** The first time on record, of the last update, the creation or the start, lies less than a minute back. */
  predicate Recent(job: Job, nowMs: int) {
    || (job.updatedAt.Some? && nowMs < job.updatedAt.value + 60000)
    || (job.updatedAt.None? && job.createdAt.Some? && nowMs < job.createdAt.value + 60000)
    || (job.updatedAt.None? && job.createdAt.None? && job.startedAt.Some? && nowMs < job.startedAt.value + 60000)
  }

  /**
    * The law of the reaper, job by job, over a readable index and with the lock free. A job with a process on record
    * is reaped as died if and only if that process does not run, and as reused if and only if it runs with another
    * birth mark than the one recorded, both known. Without one, a running job is always reaped, and a queued one if
    * and only if it is no longer recent. A job that is neither running nor queued is never reaped.
    */
  lemma JobIsReapedIff(s: Store, pass: Pass, job: Job, reason: Reason)
    requires pass.lockFree && s.index.Index? && job in s.index.jobs
    requires forall other :: other in s.index.jobs && other.id == job.id ==> other == job
    ensures Reaped(job.id, reason) in ReapDeadJobs(s, pass).1 <==> ExplainedBy(job, reason, pass)
  {
    var jobs := s.index.jobs;
    NothingToReap(jobs, pass);
    assert ReapDeadJobs(s, pass).1 == ReapedOf(jobs, pass) by {
      hide ReapedOf, Prune, Mirror, ShouldReap;
    }
    ReasonExplains(job, reason, pass);
    hide ReapDeadJobs, ReapedOf, SomethingDead, ShouldReap, ReasonOf, ExplainedBy;
    ReapedExactly(jobs, pass);
    if Reaped(job.id, reason) in ReapedOf(jobs, pass) {
      var dead :| dead in jobs && ShouldReap(dead, pass.processes, pass.nowMs) && dead.id == job.id
        && reason == ReasonOf(dead, pass.processes);
      assert dead == job;
    }
    if ShouldReap(job, pass.processes, pass.nowMs) {
      ReapedAreListed(jobs, pass, job);
    }
  }

  /** Why a job is over: exactly one reason holds of a job that is, and none of one that is not. */
  predicate ExplainedBy(job: Job, reason: Reason, pass: Pass) {
    var p := pass.processes;
    match reason
    case DispatchLost => job.status.Queued? && job.pid.None? && !Recent(job, pass.nowMs)
    case NoPidRecorded => job.status.Running? && job.pid.None?
    case PidReused =>
      && (job.status.Running? || job.status.Queued?)
      && job.pid.Some? && job.pid.value in p.running && job.pid.value in p.marks && job.processMark.Some?
      && p.marks[job.pid.value] != "" && job.processMark.value != ""
      && p.marks[job.pid.value] != job.processMark.value
    case ProcessDied =>
      (job.status.Running? || job.status.Queued?) && job.pid.Some? && job.pid.value !in p.running
  }

  lemma ReasonExplains(job: Job, reason: Reason, pass: Pass)
    ensures ShouldReap(job, pass.processes, pass.nowMs) && ReasonOf(job, pass.processes) == reason
      <==> ExplainedBy(job, reason, pass)
  {
    RecentIsPlausible(job, pass.nowMs);
    hide DispatchStillPlausible, Recent;
  }

  lemma {:induction false} ReapedExactly(jobs: seq<Job>, pass: Pass)
    ensures forall e :: e in ReapedOf(jobs, pass) ==>
      exists job :: job in jobs && ShouldReap(job, pass.processes, pass.nowMs) && job.id == e.id
        && e.reason == ReasonOf(job, pass.processes)
    decreases |jobs|
  {
    hide ShouldReap, ReasonOf;
    if jobs != [] {
      var front, last := jobs[..|jobs| - 1], jobs[|jobs| - 1];
      ReapedExactly(front, pass);
      assert jobs == front + [last];
      assert last in jobs;
    }
  }

  /** What a record says once its job was reaped: the rest of it stays. */
  predicate EndedBy(ended: Job, was: Job, reason: Reason, at: nat) {
    var word := match reason
      case DispatchLost => "dispatch_lost"
      case NoPidRecorded => "no_pid_recorded"
      case PidReused => "pid_reused"
      case ProcessDied => "process_died";
    && ended.id == was.id && ended.status == Failed && ended.phase == "terminated" && ended.pid == None
    && ended.completedAt == Some(at)
    && ended.failureReason == (if was.failureReason.Some? then was.failureReason else Some("reaper:" + word))
    && ended.errorMessage == (if was.errorMessage.Some? then was.errorMessage
                              else Some("Job reaped by liveness check (" + word + ")"))
    && ended.processMark == was.processMark && ended.updatedAt == was.updatedAt && ended.createdAt == was.createdAt
    && ended.startedAt == was.startedAt && ended.logFile == was.logFile
  }

  /**
    * With at most fifty jobs in all, the record of a reaped job stays in the index, ended now for the reason that is
    * reported; a message or reason it already carried is kept.
    */
  lemma ReapedJobsKeepTheirRecords(s: Store, pass: Pass, job: Job, reason: Reason)
    requires pass.lockFree && job in Jobs(s) && |Jobs(s)| <= 50
    requires forall other :: other in Jobs(s) && other.id == job.id ==> other == job
    requires Reaped(job.id, reason) in ReapDeadJobs(s, pass).1
    ensures exists ended :: ended in Jobs(ReapDeadJobs(s, pass).0) && EndedBy(ended, job, reason, pass.at)
  {
    var jobs := Jobs(s);
    var next := ReapJobs(jobs, pass);
    IndexAfterReap(s, pass);
    PruneDropsNothingIff(next);
    NothingToReap(jobs, pass);
    assert ReapDeadJobs(s, pass).1 == ReapedOf(jobs, pass) && SomethingDead(jobs, pass) by {
      hide Prune, Mirror, ShouldReap;
    }
    hide Prune, ReapDeadJobs, ReapedOf, SomethingDead, ShouldReap;
    ReapedExactly(jobs, pass);
    var i :| 0 <= i < |next| && jobs[i] == job;
    assert next[i] in multiset(next);
    assert next[i] in multiset(Prune(next));
    assert EndedBy(next[i], job, reason, pass.at);
  }

  /** Whatever this module has written is pruned: pruning it again changes nothing. */
  predicate PrunedIndex(s: Store) {
    s.index.Index? ==> Prune(s.index.jobs) == s.index.jobs
  }

  lemma {:induction false} ReapingMakesTerminal(jobs: seq<Job>, pass: Pass)
    ensures Count(ReapJobs(jobs, pass), IsTerminal()) == Count(jobs, IsTerminal()) + |ReapedOf(jobs, pass)|
    ensures Count(ReapJobs(jobs, pass), IsActive()) == Count(jobs, IsActive()) - |ReapedOf(jobs, pass)|
    decreases |jobs|
  {
    if jobs != [] {
      ReapingMakesTerminal(jobs[..|jobs| - 1], pass);
      assert ReapJobs(jobs, pass)[..|jobs| - 1] == ReapJobs(jobs[..|jobs| - 1], pass);
    }
  }

  /**
    * A pass keeps as many records as there were, on every store, if and only if it writes nothing or the jobs fit the
    * cap.
    */
  lemma ReapKeepsEveryRecordIff(s: Store, pass: Pass)
    ensures |Jobs(ReapDeadJobs(s, pass).0)| == |Jobs(s)| <==>
      !SomethingDead(Jobs(s), pass) || !pass.lockFree || |Jobs(s)| <= 50
  {
    var jobs := Jobs(s);
    IndexAfterReap(s, pass);
    NothingToReap(jobs, pass);
    ReapingMakesTerminal(jobs, pass);
    PruneDropsNothingIff(ReapJobs(jobs, pass));
  }

  lemma DroppedMeansBeyondCap(jobs: seq<Job>, job: Job)
    requires job in jobs && job !in Prune(jobs)
    ensures !Active(job) && |jobs| > MAX_JOBS
  {
    PruneKeepsActive(jobs, job);
    PruneDropsNothingIff(jobs);
    assert job in multiset(jobs) && job !in multiset(Prune(jobs));
  }

  /**
    * Over an index this module has written: a record is lost only beyond the cap, only that of a reaped job, and
    * only if no reaped one that was updated earlier is kept.
    */
  lemma LostRecordsAreReaped(s: Store, pass: Pass, job: Job, other: Job)
    requires PrunedIndex(s) && pass.lockFree && job in Jobs(s) && ReapJob(job, pass) !in Jobs(ReapDeadJobs(s, pass).0)
    ensures ShouldReap(job, pass.processes, pass.nowMs) && |Jobs(s)| > MAX_JOBS
    ensures other in Jobs(ReapDeadJobs(s, pass).0) && !other.status.Running? && !other.status.Queued? ==>
      job.updatedAt.None? || (other.updatedAt.Some? && job.updatedAt.value <= other.updatedAt.value)
  {
    IndexAfterReap(s, pass);
    hide Prune, ReapDeadJobs;
    var jobs := Jobs(s);
    var next := ReapJobs(jobs, pass);
    var i :| 0 <= i < |jobs| && jobs[i] == job;
    assert next[i] == ReapJob(job, pass) && next[i] in next;
    if !SomethingDead(jobs, pass) {
      ReapNothing(jobs, pass);
    }
    DroppedMeansBeyondCap(next, next[i]);
    OnlyActiveBeyondCap(jobs);
    if other in Prune(next) && !Active(other) {
      PruneDropsTheOldest(next, next[i], other);
    }
  }

  /** And beyond the cap as many are left as jobs were not reaped, or `MAX_JOBS` if those are fewer. */
  lemma RecordsLeftBeyondCap(s: Store, pass: Pass)
    requires PrunedIndex(s) && pass.lockFree && SomethingDead(Jobs(s), pass) && |Jobs(s)| > MAX_JOBS
    ensures var (s', entries) := ReapDeadJobs(s, pass);
      |Jobs(s')| == if |Jobs(s)| - |entries| > MAX_JOBS then |Jobs(s)| - |entries| else MAX_JOBS
  {
    IndexAfterReap(s, pass);
    assert ReapDeadJobs(s, pass).1 == ReapedOf(Jobs(s), pass);
    hide Prune, ReapDeadJobs, SomethingDead, ReapedOf;
    OnlyActiveBeyondCap(Jobs(s));
    ReapingMakesTerminal(Jobs(s), pass);
    PruneCaps(ReapJobs(Jobs(s), pass));
  }

  lemma CountsAddUp(jobs: seq<Job>)
    ensures Count(jobs, IsActive()) + Count(jobs, IsTerminal()) == |jobs|
  {
    SelectCounts(jobs);
  }

  /** A pruned index beyond the cap holds active jobs only. */
  lemma OnlyActiveBeyondCap(jobs: seq<Job>)
    requires Prune(jobs) == jobs && |jobs| > MAX_JOBS
    ensures Count(jobs, IsActive()) == |jobs| && Count(jobs, IsTerminal()) == 0
    ensures forall job :: job in jobs ==> Active(job)
  {
    PruneCaps(jobs);
    SelectCounts(jobs);
    SelectedAre(jobs, true);
  }

  /** When all of more than fifty jobs are dead, all are reported and exactly `MAX_JOBS` records survive. */
  lemma ManyDeadJobsLoseTheirRecords(s: Store, pass: Pass)
    requires pass.lockFree && |Jobs(s)| > MAX_JOBS
    requires forall job :: job in Jobs(s) ==> ShouldReap(job, pass.processes, pass.nowMs)
    ensures var (s', entries) := ReapDeadJobs(s, pass);
      |entries| == |Jobs(s)| && |Jobs(s')| == MAX_JOBS
  {
    var jobs := Jobs(s);
    assert jobs[0] in jobs;
    IndexAfterReap(s, pass);
    assert SomethingDead(jobs, pass) && ReapDeadJobs(s, pass).1 == ReapedOf(jobs, pass);
    AllReaped(jobs, pass);
    CountsAddUp(jobs);
    hide Prune, ReapDeadJobs, SomethingDead, ReapedOf, ShouldReap;
    ReapingMakesTerminal(jobs, pass);
    PruneCaps(ReapJobs(jobs, pass));
  }

  lemma {:induction false} AllReaped(jobs: seq<Job>, pass: Pass)
    requires forall job :: job in jobs ==> ShouldReap(job, pass.processes, pass.nowMs)
    ensures |ReapedOf(jobs, pass)| == |jobs|
    decreases |jobs|
  {
    if jobs != [] {
      AllReaped(jobs[..|jobs| - 1], pass);
    }
  }

  /**
    * Every reason that is reported is true of the job: lost before it got a process, running without one on record,
    * another process under its pid, or no process at all.
    */
  lemma ReasonsAreTrue(s: Store, pass: Pass, e: Reaped)
    requires e in ReapDeadJobs(s, pass).1
    ensures exists job :: job in Jobs(s) && job.id == e.id && ExplainedBy(job, e.reason, pass)
  {
    ReapedExplained(Jobs(s), pass);
  }

  lemma ReapedExplained(jobs: seq<Job>, pass: Pass)
    ensures forall e :: e in ReapedOf(jobs, pass) ==>
      exists job :: job in jobs && job.id == e.id && ExplainedBy(job, e.reason, pass)
  {
    hide ReapedOf, ShouldReap, ReasonOf, ExplainedBy;
    ReapedExactly(jobs, pass);
    forall e | e in ReapedOf(jobs, pass)
      ensures exists job :: job in jobs && job.id == e.id && ExplainedBy(job, e.reason, pass)
    {
      var dead :| dead in jobs && ShouldReap(dead, pass.processes, pass.nowMs) && dead.id == e.id
        && e.reason == ReasonOf(dead, pass.processes);
      ReasonExplains(dead, e.reason, pass);
    }
  }

  // ---------------------------------------------------------------- the job files

  predicate IsFinished(f: JobFile) {
    f.Stored? && (f.job.status.Completed? || f.job.status.Failed?)
  }

  /** What mirroring one entry does to the file of `id`. */
  lemma MirrorOneFile(s: Store, e: Reaped, pass: Pass, id: JobId)
    requires id in s.jobFiles
    ensures var files := MirrorOne(s, e, pass).jobFiles;
      && id in files && (s.jobFiles[id].Stored? ==> files[id].Stored?)
      && (e.id == id && id !in pass.blocked && s.jobFiles[id].Stored? ==> IsFinished(files[id]))
      && (e.id != id || IsFinished(s.jobFiles[id]) ==> files[id] == s.jobFiles[id])
      && (e.id == id && id !in pass.blocked && s.jobFiles[id].Stored? && !IsFinished(s.jobFiles[id]) ==>
            EndedBy(files[id].job, s.jobFiles[id].job, e.reason, pass.at))
      && (files[id] == s.jobFiles[id]
          || (e.id == id && id !in pass.blocked && s.jobFiles[id].Stored? && !IsFinished(s.jobFiles[id])))
  {
  }

  lemma EndedIsFinished(ended: Job, was: Job, reason: Reason, at: nat)
    requires EndedBy(ended, was, reason, at)
    ensures IsFinished(Stored(ended))
  {
  }

  lemma {:induction false} MirrorEndsFiles(s: Store, entries: seq<Reaped>, pass: Pass, id: JobId)
    requires id in s.jobFiles
    ensures var files := Mirror(s, entries, pass).jobFiles;
      && id in files && (s.jobFiles[id].Stored? ==> files[id].Stored?)
      && (id !in pass.blocked && s.jobFiles[id].Stored? && (exists e :: e in entries && e.id == id) ==>
          IsFinished(files[id]))
      && ((forall e :: e in entries ==> e.id != id) || IsFinished(s.jobFiles[id]) ==> files[id] == s.jobFiles[id])
      && (files[id] == s.jobFiles[id]
          || (files[id].Stored? && s.jobFiles[id].Stored?
              && exists e :: e in entries && e.id == id
                   && EndedBy(files[id].job, s.jobFiles[id].job, e.reason, pass.at)))
    decreases |entries|
  {
    hide MirrorOne, IsFinished, EndedBy;
    if entries != [] {
      var front, last := entries[..|entries| - 1], entries[|entries| - 1];
      MirrorEndsFiles(s, front, pass, id);
      MirrorOneFile(Mirror(s, front, pass), last, pass, id);
      assert entries == front + [last];
      var mid := Mirror(s, front, pass).jobFiles[id];
      if mid != s.jobFiles[id] {
        var e :| e in front && e.id == id && EndedBy(mid.job, s.jobFiles[id].job, e.reason, pass.at);
        EndedIsFinished(mid.job, s.jobFiles[id].job, e.reason, pass.at);
        assert e in entries;
      } else {
        assert last in entries;
      }
    }
  }

  lemma {:induction false} ReapedAreListed(jobs: seq<Job>, pass: Pass, job: Job)
    requires job in jobs && ShouldReap(job, pass.processes, pass.nowMs)
    ensures Reaped(job.id, ReasonOf(job, pass.processes)) in ReapedOf(jobs, pass)
    decreases |jobs|
  {
    var front, last := jobs[..|jobs| - 1], jobs[|jobs| - 1];
    assert jobs == front + [last];
    if job in front {
      ReapedAreListed(front, pass, job);
    }
  }

  /**
    * After a pass the file of a reaped job that is still in the index has ended too, unless its lock was taken;
    * a file that had completed or failed on its own is left as it was.
    */
  lemma ReapedJobsEndInTheirFiles(s: Store, pass: Pass, job: Job)
    requires pass.lockFree && job in Jobs(s) && ShouldReap(job, pass.processes, pass.nowMs)
    requires job.id in s.jobFiles && s.jobFiles[job.id].Stored? && job.id in Ids(Jobs(ReapDeadJobs(s, pass).0))
    ensures var was, files := s.jobFiles[job.id].job, ReapDeadJobs(s, pass).0.jobFiles;
      && job.id in files && files[job.id].Stored?
      && (job.id !in pass.blocked ==> files[job.id].job.status.Completed? || files[job.id].job.status.Failed?)
      && (was.status.Completed? || was.status.Failed? ==> files[job.id].job == was)
      && (job.id !in pass.blocked && !was.status.Completed? && !was.status.Failed? ==>
            exists e :: e in ReapDeadJobs(s, pass).1 && e.id == job.id
              && EndedBy(files[job.id].job, was, e.reason, pass.at))
  {
    IndexAfterReap(s, pass);
    var entries := ReapedOf(Jobs(s), pass);
    var saved := Save(s.(locks := s.locks + 1), ReapJobs(Jobs(s), pass));
    assert ReapDeadJobs(s, pass) == (Mirror(saved, entries, pass), entries) by {
      hide Save, Mirror, ReapedOf, ShouldReap;
    }
    assert job.id in saved.jobFiles && saved.jobFiles[job.id] == s.jobFiles[job.id] by {
      hide Prune, Mirror, ReapedOf, ShouldReap;
    }
    hide Save, ReapDeadJobs, Mirror, ReapedOf, EndedBy;
    ReapedAreListed(Jobs(s), pass, job);
    MirrorEndsFiles(saved, entries, pass, job.id);
  }

  // ---------------------------------------------------------------- runs

  datatype Op =
    | Saving(jobs: seq<Job>, lockFree: bool)
    | Upserting(p: Patch, now: nat, lockFree: bool)
    | Reaping(pass: Pass)
    | WritingFile(id: JobId, content: Job, lockFree: bool)
    | WritingLog(log: string)

  function Apply(s: Store, op: Op): Store {
    match op
    case Saving(jobs, lockFree) => SaveLocked(s, jobs, lockFree).0
    case Upserting(p, now, lockFree) => Upsert(s, p, now, lockFree).0
    case Reaping(pass) => ReapDeadJobs(s, pass).0
    case WritingFile(id, content, lockFree) => WriteFile(s, id, content, lockFree).0
    case WritingLog(log) => s.(logs := s.logs + {log})
  }

  function RunOps(s: Store, ops: seq<Op>): Store
    decreases |ops|
  {
    if ops == [] then s else Apply(RunOps(s, ops[..|ops| - 1]), ops[|ops| - 1])
  }

  lemma OpKeepsIndexPruned(s: Store, op: Op)
    requires PrunedIndex(s)
    ensures PrunedIndex(Apply(s, op))
  {
    hide Prune;
    match op
    case Saving(jobs, _) => PruneIsIdempotent(jobs);
    case WritingFile(_, _, _) =>
    case WritingLog(_) =>
    case Upserting(p, now, lockFree) => PruneIsIdempotent(UpsertInto(Jobs(s), p, now));
    case Reaping(pass) =>
      PruneIsIdempotent(ReapJobs(Jobs(s), pass));
      if SomethingDead(Jobs(s), pass) && pass.lockFree {
        MirrorKeepsIndex(Save(s.(locks := s.locks + 1), ReapJobs(Jobs(s), pass)), ReapedOf(Jobs(s), pass), pass);
      }
  }

  /**
    * In a workspace that only these operations write, from its first use on, the scan and the locked pass agree
    * on every file as soon as there is an index.
    */
  lemma {:induction false} ScanIsFaithfulInEveryRun(s: Store, ops: seq<Op>, pass: Pass)
    requires s.index.Missing?
    ensures var w := RunOps(s, ops);
      && PrunedIndex(w)
      && ReapDeadJobs(w, pass).1 == LockedPass(w, pass).1
      && (w.index.Index? ==> SameDisk(ReapDeadJobs(w, pass).0, LockedPass(w, pass).0))
    decreases |ops|
  {
    hide Apply, Prune, ReapDeadJobs, LockedPass;
    if ops != [] {
      ScanIsFaithfulInEveryRun(s, ops[..|ops| - 1], pass);
      OpKeepsIndexPruned(RunOps(s, ops[..|ops| - 1]), ops[|ops| - 1]);
    }
    ScanRefinesLockedPassIff(RunOps(s, ops), pass);
  }

  /** The operation neither drops, patches nor writes this job nor finds it dead, and names its log for no other job. */
  predicate LeavesAlone(op: Op, job: Job) {
    match op
    case Saving(jobs, _) => OwnedIn(jobs, job)
    case WritingFile(id, _, _) => id != job.id
    case WritingLog(_) => true
    case Upserting(p, _, _) =>
      p.id != job.id && (p.logFile.Some? && p.logFile.value.Some? ==> p.logFile.value != job.logFile)
    case Reaping(pass) => !ShouldReap(job, pass.processes, pass.nowMs)
  }

  function HasId(id: JobId): Job -> bool {
    (job: Job) => job.id == id
  }

  /** The job is there, no other entry has its id, and no other job names its log. */
  predicate OwnedIn(jobs: seq<Job>, job: Job) {
    && job in jobs
    && Count(jobs, HasId(job.id)) == 1
    && (forall other :: other in jobs && other.id != job.id && job.logFile.Some? ==> other.logFile != job.logFile)
  }

  predicate Owns(s: Store, job: Job) {
    OwnedIn(Jobs(s), job)
  }

  lemma {:induction false} CountOfMember(jobs: seq<Job>, i: nat, p: Job -> bool)
    requires i < |jobs| && p(jobs[i])
    ensures Count(jobs, p) >= 1
    ensures forall j :: 0 <= j < |jobs| && j != i && p(jobs[j]) ==> Count(jobs, p) >= 2
    decreases |jobs|
  {
    if i < |jobs| - 1 {
      CountOfMember(jobs[..|jobs| - 1], i, p);
    } else {
      forall j | 0 <= j < |jobs| && j != i && p(jobs[j])
        ensures Count(jobs, p) >= 2
      {
        CountOfMember(jobs[..|jobs| - 1], j, p);
      }
    }
  }

  /** Whoever has the id of an owned job is that job, at that place. */
  lemma OwnedOnce(jobs: seq<Job>, job: Job, i: nat, j: nat)
    requires OwnedIn(jobs, job) && i < |jobs| && j < |jobs| && jobs[i] == job && jobs[j].id == job.id
    ensures i == j
  {
    CountOfMember(jobs, i, HasId(job.id));
  }

  lemma {:induction false} RetainCounts(jobs: seq<Job>, budget: nat, p: Job -> bool)
    ensures Count(Retain(jobs, budget), p) <= Count(jobs, p)
    decreases |jobs|
  {
    if jobs != [] {
      var left := if Active(jobs[0]) then budget else if budget > 0 then budget - 1 else 0;
      CountFirst(jobs, p);
      RetainCounts(jobs[1..], left, p);
      var kept := Retain(jobs, budget);
      if Active(jobs[0]) || budget > 0 {
        CountFirst(kept, p);
        assert kept[1..] == Retain(jobs[1..], left);
      }
    }
  }

  lemma PruneKeepsOwned(jobs: seq<Job>, job: Job)
    requires OwnedIn(jobs, job) && Active(job)
    ensures OwnedIn(Prune(jobs), job)
  {
    var p := HasId(job.id);
    PruneKeepsActive(jobs, job);
    SortCounts(jobs, p);
    RetainCounts(Sort(Recency, jobs), TerminalBudget(jobs), p);
    var kept := Prune(jobs);
    forall other | other in kept
      ensures other in jobs
    {
      PruneKeepsActive(jobs, other);
    }
    hide Prune;
    var i :| 0 <= i < |kept| && kept[i] == job;
    CountOfMember(kept, i, p);
  }

  lemma SaveKeepsOwner(s: Store, jobs: seq<Job>, job: Job, was: Job)
    requires Active(job) && Owns(s, was) && OwnedIn(jobs, job) && was.id == job.id && was.logFile == job.logFile
    ensures var s' := Save(s, jobs);
      && Owns(s', job)
      && (job.id in s.jobFiles ==> job.id in s'.jobFiles && s'.jobFiles[job.id] == s.jobFiles[job.id])
      && (job.logFile.Some? && job.logFile.value in s.logs ==> job.logFile.value in s'.logs)
  {
    PruneKeepsOwned(jobs, job);
    hide Prune;
    assert job.id in Ids(Prune(jobs));
  }

  lemma UpsertKeepsOwner(jobs: seq<Job>, p: Patch, now: nat, job: Job)
    requires OwnedIn(jobs, job) && LeavesAlone(Upserting(p, now, true), job)
    ensures OwnedIn(UpsertInto(jobs, p, now), job)
  {
    var next := UpsertInto(jobs, p, now);
    var k := FindJob(jobs, p.id);
    var i :| 0 <= i < |jobs| && jobs[i] == job;
    if k == |jobs| {
      CountFirst(next, HasId(job.id));
      assert next[1..] == jobs && next[i + 1] == job;
    } else {
      CountUpdate(jobs, k, next[k], HasId(job.id));
      assert next[i] == job && jobs[k] in jobs;
      assert forall other :: other in next ==> other in jobs || other == next[k];
    }
  }

  /** The owned job itself is patched: it stays the only one with its id. */
  lemma UpsertPatchesOwned(jobs: seq<Job>, p: Patch, now: nat, job: Job)
    requires OwnedIn(jobs, job) && p.id == job.id && p.logFile in {None, Some(job.logFile)}
    ensures OwnedIn(UpsertInto(jobs, p, now), Merge(job, p).(updatedAt := Some(now)))
  {
    var next := UpsertInto(jobs, p, now);
    var k := FindJob(jobs, p.id);
    var i :| 0 <= i < |jobs| && jobs[i] == job;
    OwnedOnce(jobs, job, i, k);
    CountUpdate(jobs, k, next[k], HasId(job.id));
    assert next[k] in next;
    assert forall other :: other in next ==> other in jobs || other == next[k];
  }

  lemma {:induction false} ReapKeepsIds(jobs: seq<Job>, pass: Pass, id: JobId)
    ensures Count(ReapJobs(jobs, pass), HasId(id)) == Count(jobs, HasId(id))
    decreases |jobs|
  {
    if jobs != [] {
      ReapKeepsIds(jobs[..|jobs| - 1], pass, id);
      assert ReapJobs(jobs, pass)[..|jobs| - 1] == ReapJobs(jobs[..|jobs| - 1], pass);
    }
  }

  lemma ReapKeepsOwner(jobs: seq<Job>, pass: Pass, job: Job)
    requires OwnedIn(jobs, job) && LeavesAlone(Reaping(pass), job)
    ensures OwnedIn(ReapJobs(jobs, pass), job)
    ensures forall e :: e in ReapedOf(jobs, pass) ==> e.id != job.id
  {
    var next := ReapJobs(jobs, pass);
    var i :| 0 <= i < |jobs| && jobs[i] == job;
    assert next[i] == job;
    ReapKeepsIds(jobs, pass, job.id);
    forall other | other in next && other.id != job.id && job.logFile.Some?
      ensures other.logFile != job.logFile
    {
      var j :| 0 <= j < |next| && next[j] == other;
      assert jobs[j] in jobs;
    }
    ReapedCameFrom(jobs, pass);
    forall e | e in ReapedOf(jobs, pass)
      ensures e.id != job.id
    {
      var dead :| dead in jobs && ShouldReap(dead, pass.processes, pass.nowMs) && dead.id == e.id;
      var j :| 0 <= j < |jobs| && jobs[j] == dead;
      if dead.id == job.id {
        OwnedOnce(jobs, job, i, j);
      }
    }
  }

  lemma {:induction false} ReapedCameFrom(jobs: seq<Job>, pass: Pass)
    ensures forall e :: e in ReapedOf(jobs, pass) ==>
      exists job :: job in jobs && ShouldReap(job, pass.processes, pass.nowMs) && job.id == e.id
    decreases |jobs|
  {
    if jobs != [] {
      ReapedCameFrom(jobs[..|jobs| - 1], pass);
      assert jobs == jobs[..|jobs| - 1] + [jobs[|jobs| - 1]];
    }
  }

  /** The job has kept its record, its file and its log in `s'`. */
  predicate KeepsOwner(s: Store, s': Store, job: Job) {
    && Owns(s', job)
    && (job.id in s.jobFiles ==> job.id in s'.jobFiles && s'.jobFiles[job.id] == s.jobFiles[job.id])
    && (job.logFile.Some? && job.logFile.value in s.logs ==> job.logFile.value in s'.logs)
  }

  lemma PassKeepsOwner(s: Store, pass: Pass, job: Job)
    requires Active(job) && Owns(s, job) && LeavesAlone(Reaping(pass), job)
    ensures KeepsOwner(s, ReapDeadJobs(s, pass).0, job)
  {
    hide Save, ShouldReap, Mirror, ReapedOf, Prune;
    if SomethingDead(Jobs(s), pass) && pass.lockFree {
      var locked := s.(locks := s.locks + 1);
      var entries, jobs := ReapedOf(Jobs(s), pass), ReapJobs(Jobs(s), pass);
      ReapKeepsOwner(Jobs(s), pass, job);
      SaveKeepsOwner(locked, jobs, job, job);
      var saved := Save(locked, jobs);
      MirrorKeepsIndex(saved, entries, pass);
      if job.id in s.jobFiles {
        MirrorEndsFiles(saved, entries, pass, job.id);
      }
    }
  }

  lemma OpKeepsOwner(s: Store, op: Op, job: Job)
    requires Active(job) && Owns(s, job) && LeavesAlone(op, job)
    ensures KeepsOwner(s, Apply(s, op), job)
  {
    hide Save, ShouldReap, ReapDeadJobs;
    var locked := s.(locks := s.locks + 1);
    match op
    case Saving(jobs, lockFree) =>
      if lockFree && !s.index.Corrupt? {
        SaveKeepsOwner(locked, jobs, job, job);
      }
    case WritingFile(_, _, _) =>
    case WritingLog(_) =>
    case Upserting(p, now, lockFree) =>
      if lockFree && !s.index.Corrupt? {
        UpsertKeepsOwner(Jobs(s), p, now, job);
        SaveKeepsOwner(locked, UpsertInto(Jobs(s), p, now), job, job);
      }
    case Reaping(pass) => PassKeepsOwner(s, pass, job);
  }

  /**
    * Over any sequence of saves, upserts, reaps and writes that leave it alone, however many and however new the other
    * jobs, a running or queued job keeps its record, its file and its log.
    */
  lemma {:induction false} ActiveJobOutlivesEveryRun(s: Store, ops: seq<Op>, job: Job)
    requires Active(job) && Owns(s, job)
    requires forall op :: op in ops ==> LeavesAlone(op, job)
    ensures var s' := RunOps(s, ops);
      && Owns(s', job)
      && (job.id in s.jobFiles ==> job.id in s'.jobFiles && s'.jobFiles[job.id] == s.jobFiles[job.id])
      && (job.logFile.Some? && job.logFile.value in s.logs ==> job.logFile.value in s'.logs)
    decreases |ops|
  {
    hide Apply, Owns, LeavesAlone;
    if ops != [] {
      var front, last := ops[..|ops| - 1], ops[|ops| - 1];
      assert ops == front + [last];
      ActiveJobOutlivesEveryRun(s, front, job);
      OpKeepsOwner(RunOps(s, front), last, job);
    }
  }

  // ---------------------------------------------------------------- files and logs over every run

  /** `id` was in the index before and is not after. */
  predicate Drops(before: Store, after: Store, id: JobId) {
    id in Ids(Jobs(before)) && id !in Ids(Jobs(after))
  }

  /** A job that named the log was in the index before, and none of its id is after. */
  predicate DropsLog(before: Store, after: Store, log: string) {
    exists job :: job in Jobs(before) && job.logFile == Some(log) && job.id !in Ids(Jobs(after))
  }

  /** Written since the index last dropped the job, or there from the start and never dropped. */
  predicate FileExpected(s: Store, ops: seq<Op>, id: JobId)
    decreases |ops|
  {
    if ops == [] then id in s.jobFiles
    else
      var front, last := ops[..|ops| - 1], ops[|ops| - 1];
      || (last.WritingFile? && last.id == id && last.lockFree)
      || (FileExpected(s, front, id) && !Drops(RunOps(s, front), RunOps(s, ops), id))
  }

  predicate LogExpected(s: Store, ops: seq<Op>, log: string)
    decreases |ops|
  {
    if ops == [] then log in s.logs
    else
      var front, last := ops[..|ops| - 1], ops[|ops| - 1];
      || last == WritingLog(log)
      || (LogExpected(s, front, log) && !DropsLog(RunOps(s, front), RunOps(s, ops), log))
  }

  lemma SaveFollowsIndex(s: Store, jobs: seq<Job>, id: JobId, log: string)
    ensures var s' := Save(s, jobs);
      && (id in s'.jobFiles <==> id in s.jobFiles && !Drops(s, s', id))
      && (log in s'.logs <==> log in s.logs && !DropsLog(s, s', log))
  {
    hide Prune;
  }

  lemma SameIndexDropsNothing(s: Store, s': Store, id: JobId, log: string)
    requires Jobs(s') == Jobs(s)
    ensures !Drops(s, s', id) && !DropsLog(s, s', log)
  {
  }

  lemma OpFollowsIndex(s: Store, op: Op, id: JobId, log: string)
    ensures var s' := Apply(s, op);
      && (id in s'.jobFiles <==>
            (op.WritingFile? && op.id == id && op.lockFree) || (id in s.jobFiles && !Drops(s, s', id)))
      && (log in s'.logs <==> op == WritingLog(log) || (log in s.logs && !DropsLog(s, s', log)))
  {
    hide Save, Prune;
    var s' := Apply(s, op);
    var locked := s.(locks := s.locks + 1);
    if Jobs(s') == Jobs(s) {
      SameIndexDropsNothing(s, s', id, log);
    }
    match op
    case Saving(jobs, _) => SaveFollowsIndex(locked, jobs, id, log);
    case Upserting(p, now, _) => SaveFollowsIndex(locked, UpsertInto(Jobs(s), p, now), id, log);
    case Reaping(pass) =>
      var saved := Save(locked, ReapJobs(Jobs(s), pass));
      SaveFollowsIndex(locked, ReapJobs(Jobs(s), pass), id, log);
      MirrorKeepsIndex(saved, ReapedOf(Jobs(s), pass), pass);
    case WritingFile(_, _, _) =>
    case WritingLog(_) =>
  }

  /**
    * Over any sequence of saves, upserts, reaps and writes exactly the dropped jobs' artifacts are deleted: a file is
    * there if and only if it was written since the index last dropped its job, and a log if and only if it was written
    * since the index last dropped a job that names it.
    */
  lemma {:induction false} ArtifactsFollowTheIndex(s: Store, ops: seq<Op>, id: JobId, log: string)
    ensures id in RunOps(s, ops).jobFiles <==> FileExpected(s, ops, id)
    ensures log in RunOps(s, ops).logs <==> LogExpected(s, ops, log)
    decreases |ops|
  {
    hide Apply, Drops, DropsLog;
    if ops != [] {
      ArtifactsFollowTheIndex(s, ops[..|ops| - 1], id, log);
      OpFollowsIndex(RunOps(s, ops[..|ops| - 1]), ops[|ops| - 1], id, log);
    }
  }
}
