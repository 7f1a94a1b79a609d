/**
  * The job store of one workspace: the index file, one file and one log for each job, and the
  * reaper that ends the jobs whose process is gone.
  */
module JobStore {
  import opened Wrappers
  import opened Counting
  import opened JobPruning

  datatype IndexFile = Missing | Corrupt | Index(jobs: seq<Job>)

  datatype JobFile = Unreadable | Stored(job: Job)

  /** `writes` counts the rewrites of the index file and `locks` the times the state lock was taken. */
  datatype Store = Store(index: IndexFile, jobFiles: map<JobId, JobFile>, logs: set<string>, writes: nat, locks: nat)

  /** `loadState`: a missing index reads as empty, and so does an unreadable one unless asked to throw. */
  function Jobs(s: Store): seq<Job> {
    if s.index.Index? then s.index.jobs else []
  }

  function Ids(jobs: seq<Job>): set<JobId> {
    set job | job in jobs :: job.id
  }

  // ---------------------------------------------------------------- saving

  function DroppedIds(previous: seq<Job>, next: seq<Job>): set<JobId> {
    Ids(previous) - Ids(next)
  }

  function DroppedLogs(previous: seq<Job>, next: seq<Job>): set<string> {
    set job | job in previous && job.id !in Ids(next) && job.logFile.Some? :: job.logFile.value
  }

  /** Write the pruned jobs; the artifacts of what the previous index had and this one has not are deleted. */
  function Save(s: Store, jobs: seq<Job>): Store {
    var previous, next := Jobs(s), Prune(jobs);
    s.(index := Index(next),
       jobFiles := s.jobFiles - DroppedIds(previous, next),
       logs := s.logs - DroppedLogs(previous, next),
       writes := s.writes + 1)
  }

  /** `saveState`: nothing is written without the lock, or over an unreadable index. */
  function SaveLocked(s: Store, jobs: seq<Job>, lockFree: bool): (Store, bool) {
    if !lockFree then (s, false)
    else
      var locked := s.(locks := s.locks + 1);
      if s.index.Corrupt? then (locked, false) else (Save(locked, jobs), true)
  }

  /** `writeJobFile`: the job's own file, under the same lock; the index is not looked at. */
  function WriteFile(s: Store, id: JobId, job: Job, lockFree: bool): (Store, bool) {
    if !lockFree then (s, false)
    else (s.(jobFiles := s.jobFiles[id := Stored(job)], locks := s.locks + 1), true)
  }

  // ---------------------------------------------------------------- upserting

  /** The fields a patch sets; `Some(None)` sets a field to null. */
  datatype Patch = Patch(
    id: JobId,
    status: Option<Status>,
    pid: Option<Option<Pid>>,
    processMark: Option<Option<string>>,
    updatedAt: Option<Option<nat>>,
    createdAt: Option<Option<nat>>,
    startedAt: Option<Option<nat>>,
    completedAt: Option<Option<nat>>,
    logFile: Option<Option<string>>,
    phase: Option<string>,
    errorMessage: Option<Option<string>>,
    failureReason: Option<Option<string>>)

  function Or<T>(patch: Option<T>, field: T): T {
    if patch.Some? then patch.value else field
  }

  function Merge(job: Job, p: Patch): Job {
    Job(p.id, Or(p.status, job.status), Or(p.pid, job.pid), Or(p.processMark, job.processMark),
        Or(p.updatedAt, job.updatedAt), Or(p.createdAt, job.createdAt), Or(p.startedAt, job.startedAt),
        Or(p.completedAt, job.completedAt), Or(p.logFile, job.logFile), Or(p.phase, job.phase),
        Or(p.errorMessage, job.errorMessage), Or(p.failureReason, job.failureReason))
  }

  function NewJob(id: JobId, now: nat): Job {
    Job(id, OtherStatus, None, None, Some(now), Some(now), None, None, None, "", None, None)
  }

  function FindJob(jobs: seq<Job>, id: JobId): (k: nat)
    ensures k <= |jobs|
    ensures k < |jobs| ==> jobs[k].id == id
    ensures forall i :: 0 <= i < k ==> jobs[i].id != id
  {
    FirstIndex(jobs, (job: Job) => job.id == id)
  }

  /** A new job comes first and may bring its own time; a known one is merged and stamped now. */
  function UpsertInto(jobs: seq<Job>, p: Patch, now: nat): seq<Job> {
    var k := FindJob(jobs, p.id);
    if k == |jobs| then [Merge(NewJob(p.id, now), p)] + jobs
    else jobs[k := Merge(jobs[k], p).(updatedAt := Some(now))]
  }

  /** False when the lock is not to be had in time, or the index is unreadable: then nothing is written. */
  function Upsert(s: Store, p: Patch, now: nat, lockFree: bool): (Store, bool) {
    SaveLocked(s, UpsertInto(Jobs(s), p, now), lockFree)
  }

  // ---------------------------------------------------------------- liveness

  /** The process table: which pids answer a signal, and the birth mark of those that can be probed. */
  datatype Processes = Processes(running: set<Pid>, marks: map<Pid, string>)

  const QUEUED_DISPATCH_GRACE_MS := 60000

  predicate IsJobProcessAlive(p: Processes, job: Job) {
    && job.pid.Some?
    && job.pid.value in p.running
    && (job.processMark.None? || job.processMark.value == "" || job.pid.value !in p.marks
        || p.marks[job.pid.value] == "" || p.marks[job.pid.value] == job.processMark.value)
  }

  predicate DispatchStillPlausible(job: Job, nowMs: int) {
    var stamp := if job.updatedAt.Some? then job.updatedAt else if job.createdAt.Some? then job.createdAt
        else job.startedAt;
    stamp.Some? && nowMs - stamp.value < QUEUED_DISPATCH_GRACE_MS
  }

  predicate ShouldReap(job: Job, p: Processes, nowMs: int) {
    && Active(job)
    && !(job.pid.None? && job.status.Queued? && DispatchStillPlausible(job, nowMs))
    && !IsJobProcessAlive(p, job)
  }

  datatype Reason = DispatchLost | NoPidRecorded | PidReused | ProcessDied

  datatype Reaped = Reaped(id: JobId, reason: Reason)

  function ReasonOf(job: Job, p: Processes): Reason {
    if job.pid.None? then if job.status.Queued? then DispatchLost else NoPidRecorded
    else if job.pid.value in p.running then PidReused else ProcessDied
  }

  function ReasonText(reason: Reason): string {
    match reason
    case DispatchLost => "dispatch_lost"
    case NoPidRecorded => "no_pid_recorded"
    case PidReused => "pid_reused"
    case ProcessDied => "process_died"
  }

  function Terminated(job: Job, reason: Reason, at: nat): Job {
    job.(status := Failed, phase := "terminated", pid := None, completedAt := Some(at),
         errorMessage := if job.errorMessage.Some? then job.errorMessage
                         else Some("Job reaped by liveness check (" + ReasonText(reason) + ")"),
         failureReason := if job.failureReason.Some? then job.failureReason else Some("reaper:" + ReasonText(reason)))
  }

  // ---------------------------------------------------------------- reaping

  /** When and against what one pass of the reaper judges. */
  datatype Pass = Pass(processes: Processes, nowMs: int, at: nat, lockFree: bool, blocked: set<JobId>)

  function ReapJob(job: Job, pass: Pass): Job {
    if ShouldReap(job, pass.processes, pass.nowMs) then Terminated(job, ReasonOf(job, pass.processes), pass.at) else job
  }

  function ReapJobs(jobs: seq<Job>, pass: Pass): (r: seq<Job>)
    ensures |r| == |jobs| && forall i :: 0 <= i < |r| ==> r[i] == ReapJob(jobs[i], pass)
  {
    seq(|jobs|, i requires 0 <= i < |jobs| => ReapJob(jobs[i], pass))
  }

  function ReapedOf(jobs: seq<Job>, pass: Pass): seq<Reaped>
    decreases |jobs|
  {
    if jobs == [] then []
    else
      var last := jobs[|jobs| - 1];
      var rest := ReapedOf(jobs[..|jobs| - 1], pass);
      if ShouldReap(last, pass.processes, pass.nowMs) then rest + [Reaped(last.id, ReasonOf(last, pass.processes))]
          else rest
  }

  /** A job file that has not ended on its own is ended too; a missing or unreadable one is left alone. */
  function MirrorOne(s: Store, entry: Reaped, pass: Pass): Store {
    if entry.id in pass.blocked then s
    else
      var locked := s.(locks := s.locks + 1);
      if entry.id !in s.jobFiles || s.jobFiles[entry.id].Unreadable? then locked
      else
        var job := s.jobFiles[entry.id].job;
        if job.status.Completed? || job.status.Failed? then locked
        else locked.(jobFiles := s.jobFiles[entry.id := Stored(Terminated(job, entry.reason, pass.at))])
  }

  function Mirror(s: Store, entries: seq<Reaped>, pass: Pass): Store
    decreases |entries|
  {
    if entries == [] then s else MirrorOne(Mirror(s, entries[..|entries| - 1], pass), entries[|entries| - 1], pass)
  }

  /** The pass under the lock, which rewrites the index whatever it finds. */
  function LockedPass(s: Store, pass: Pass): (Store, seq<Reaped>) {
    if !pass.lockFree then (s, [])
    else
      var locked := s.(locks := s.locks + 1);
      if s.index.Corrupt? then (locked, [])
      else
        var entries := ReapedOf(Jobs(s), pass);
        (Mirror(Save(locked, ReapJobs(Jobs(s), pass)), entries, pass), entries)
  }

  predicate SomethingDead(jobs: seq<Job>, pass: Pass) {
    exists job :: job in jobs && ShouldReap(job, pass.processes, pass.nowMs)
  }

  /** The reaper: the lock-free scan first, the locked pass only if it found something. */
  function ReapDeadJobs(s: Store, pass: Pass): (Store, seq<Reaped>) {
    if SomethingDead(Jobs(s), pass) then LockedPass(s, pass) else (s, [])
  }

  // ---------------------------------------------------------------- the store on disk

  class JobStore {
    var index: IndexFile
    var jobFiles: map<JobId, JobFile>
    var logs: set<string>
    var writes: nat
    var locks: nat

    ghost function Value(): Store
      reads this
    {
      Store(index, jobFiles, logs, writes, locks)
    }

    constructor ()
      ensures Value() == Store(Missing, map[], {}, 0, 0)
    {
      index, jobFiles, logs, writes, locks := Missing, map[], {}, 0, 0;
    }

    method LoadJobs() returns (jobs: seq<Job>)
      ensures jobs == Jobs(Value())
    {
      jobs := if index.Index? then index.jobs else [];
    }

    method SaveState(jobs: seq<Job>)
      modifies this
      ensures Value() == Save(old(Value()), jobs)
    {
      var previous := LoadJobs();
      var next := Prune(jobs);
      var i := 0;
      while i < |previous|
        invariant i <= |previous| && index == old(index) && writes == old(writes) && locks == old(locks)
        invariant jobFiles == old(jobFiles) - DroppedIds(previous[..i], next)
        invariant logs == old(logs) - DroppedLogs(previous[..i], next)
      {
        var job := previous[i];
        assert previous[..i + 1] == previous[..i] + [job];
        if job.id !in Ids(next) {
          jobFiles := jobFiles - {job.id};
          if job.logFile.Some? {
            logs := logs - {job.logFile.value};
          }
        }
        i := i + 1;
      }
      assert previous[..|previous|] == previous;
      index := Index(next);
      writes := writes + 1;
    }

    method SaveStateLocked(jobs: seq<Job>, lockFree: bool) returns (ok: bool)
      modifies this
      ensures (Value(), ok) == SaveLocked(old(Value()), jobs, lockFree)
    {
      if !lockFree {
        return false;
      }
      locks := locks + 1;
      if index.Corrupt? {
        return false;
      }
      SaveState(jobs);
      ok := true;
    }

    method WriteJobFile(id: JobId, job: Job, lockFree: bool) returns (ok: bool)
      modifies this
      ensures (Value(), ok) == WriteFile(old(Value()), id, job, lockFree)
    {
      if lockFree {
        locks := locks + 1;
        jobFiles := jobFiles[id := Stored(job)];
      }
      ok := lockFree;
    }

    method UpsertJob(p: Patch, now: nat, lockFree: bool) returns (ok: bool)
      modifies this
      ensures (Value(), ok) == Upsert(old(Value()), p, now, lockFree)
    {
      if !lockFree {
        return false;
      }
      locks := locks + 1;
      if index.Corrupt? {
        return false;
      }
      var jobs := LoadJobs();
      var k := FindJob(jobs, p.id);
      if k == |jobs| {
        SaveState([Merge(NewJob(p.id, now), p)] + jobs);
      } else {
        SaveState(jobs[k := Merge(jobs[k], p).(updatedAt := Some(now))]);
      }
      ok := true;
    }

    method FindDead(pass: Pass) returns (found: bool)
      ensures found == SomethingDead(Jobs(Value()), pass)
    {
      var jobs := LoadJobs();
      found := false;
      for i := 0 to |jobs|
        invariant found == exists k :: 0 <= k < i && ShouldReap(jobs[k], pass.processes, pass.nowMs)
      {
        found := found || ShouldReap(jobs[i], pass.processes, pass.nowMs);
      }
    }

    method UpdateJobFile(entry: Reaped, pass: Pass)
      modifies this
      ensures Value() == MirrorOne(old(Value()), entry, pass)
    {
      if entry.id in pass.blocked {
        return;
      }
      locks := locks + 1;
      if entry.id in jobFiles && jobFiles[entry.id].Stored? {
        var job := jobFiles[entry.id].job;
        if !job.status.Completed? && !job.status.Failed? {
          jobFiles := jobFiles[entry.id := Stored(Terminated(job, entry.reason, pass.at))];
        }
      }
    }

    method MarkDead(jobs: seq<Job>, pass: Pass) returns (changed: seq<Job>, entries: seq<Reaped>)
      ensures changed == ReapJobs(jobs, pass) && entries == ReapedOf(jobs, pass)
    {
      changed, entries := jobs, [];
      for i := 0 to |jobs|
        invariant |changed| == |jobs| && entries == ReapedOf(jobs[..i], pass)
        invariant forall k :: 0 <= k < i ==> changed[k] == ReapJob(jobs[k], pass)
        invariant forall k :: i <= k < |jobs| ==> changed[k] == jobs[k]
      {
        assert jobs[..i + 1][..i] == jobs[..i];
        if ShouldReap(changed[i], pass.processes, pass.nowMs) {
          var reason := ReasonOf(changed[i], pass.processes);
          changed := changed[i := Terminated(changed[i], reason, pass.at)];
          entries := entries + [Reaped(jobs[i].id, reason)];
        }
      }
      assert jobs[..|jobs|] == jobs;
    }

    method MirrorEntries(entries: seq<Reaped>, pass: Pass)
      modifies this
      ensures Value() == Mirror(old(Value()), entries, pass)
    {
      for i := 0 to |entries|
        invariant Value() == Mirror(old(Value()), entries[..i], pass)
      {
        assert entries[..i + 1][..i] == entries[..i];
        UpdateJobFile(entries[i], pass);
      }
      assert entries[..|entries|] == entries;
    }

    method RunLockedPass(pass: Pass) returns (entries: seq<Reaped>)
      modifies this
      ensures (Value(), entries) == LockedPass(old(Value()), pass)
    {
      hide Save, Mirror, ReapedOf;
      if !pass.lockFree {
        return [];
      }
      locks := locks + 1;
      if index.Corrupt? {
        return [];
      }
      var jobs := LoadJobs();
      var changed: seq<Job>;
      changed, entries := MarkDead(jobs, pass);
      SaveState(changed);
      MirrorEntries(entries, pass);
    }

    method Reap(pass: Pass) returns (entries: seq<Reaped>)
      modifies this
      ensures (Value(), entries) == ReapDeadJobs(old(Value()), pass)
    {
      var found := FindDead(pass);
      if !found {
        return [];
      }
      entries := RunLockedPass(pass);
    }
  }
}
