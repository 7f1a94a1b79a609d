/**
  * One call of the reaper among other processes that write the same store: between its lock-free scan and the lock,
  * and, as it mirrors outside the lock, in front of every job file.
  */
module ReaperRaces {
  import opened Wrappers
  import opened JobPruning
  import opened JobStore
  import opened JobStoreRuns

  /**
    * `scan`: the processes the scan sees; `pass` judges under the lock. `before`: what others write between scan and
    * lock; `between[i]`: what they write in front of the `i`th job file.
    */
  datatype Race = Race(scan: Processes, pass: Pass, before: seq<Op>, between: seq<seq<Op>>)

  function OpsAt(between: seq<seq<Op>>, i: nat): seq<Op> {
    if i < |between| then between[i] else []
  }

  /** The store as the lock finds it. */
  function AtLock(s: Store, r: Race): Store {
    RunOps(s, r.before)
  }

  predicate ScanFinds(s: Store, r: Race) {
    SomethingDead(Jobs(s), r.pass.(processes := r.scan))
  }

  /** The job files in turn, each after what others have written in front of it. */
  function MirrorAmid(s: Store, entries: seq<Reaped>, pass: Pass, between: seq<seq<Op>>): Store
    decreases |entries|
  {
    if entries == [] then s
    else
      var n := |entries| - 1;
      MirrorOne(RunOps(MirrorAmid(s, entries[..n], pass, between), OpsAt(between, n)), entries[n], pass)
  }

  /** The index saved under the lock. */
  function Saved(s: Store, r: Race): Store {
    var held := AtLock(s, r);
    Save(held.(locks := held.locks + 1), ReapJobs(Jobs(held), r.pass))
  }

  function ReapAmid(s: Store, r: Race): (Store, seq<Reaped>) {
    var held := AtLock(s, r);
    if !ScanFinds(s, r) || !r.pass.lockFree then (held, [])
    else if held.index.Corrupt? then (held.(locks := held.locks + 1), [])
    else
      var entries := ReapedOf(Jobs(held), r.pass);
      (MirrorAmid(Saved(s, r), entries, r.pass, r.between), entries)
  }

  // ---------------------------------------------------------------- the scan and the lock

  lemma {:induction false} UndisturbedMirror(s: Store, entries: seq<Reaped>, pass: Pass)
    ensures MirrorAmid(s, entries, pass, []) == Mirror(s, entries, pass)
    decreases |entries|
  {
    if entries != [] {
      UndisturbedMirror(s, entries[..|entries| - 1], pass);
    }
  }

  /** With nobody else writing this is the reaper as it stands alone. */
  lemma UndisturbedRaceIsReap(s: Store, pass: Pass)
    ensures ReapAmid(s, Race(pass.processes, pass, [], [])) == ReapDeadJobs(s, pass)
  {
    var r := Race(pass.processes, pass, [], []);
    assert pass.(processes := pass.processes) == pass;
    assert AtLock(s, r) == s;
    UndisturbedMirror(Saved(s, r), ReapedOf(Jobs(s), pass), pass);
  }

  /**
    * Whatever others write between scan and lock, and whichever processes come and go: the reaper ends exactly the
    * jobs that a pass at the moment of the lock would end, if and only if the scan had found something or there is
    * nothing to end under the lock. And every reason is true of the store as the lock finds it.
    */
  lemma ReapsWhatTheLockSeesIff(s: Store, r: Race)
    ensures ReapAmid(s, r).1 == LockedPass(AtLock(s, r), r.pass).1 <==>
      ScanFinds(s, r) || !r.pass.lockFree || !SomethingDead(Jobs(AtLock(s, r)), r.pass)
    ensures forall e :: e in ReapAmid(s, r).1 ==>
      exists job :: job in Jobs(AtLock(s, r)) && job.id == e.id && ExplainedBy(job, e.reason, r.pass)
  {
    var held := AtLock(s, r);
    NothingToReap(Jobs(held), r.pass);
    ReapedExplained(Jobs(held), r.pass);
    assert held.index.Corrupt? ==> !SomethingDead(Jobs(held), r.pass);
    hide AtLock, ReapedOf, SomethingDead, MirrorAmid, ExplainedBy;
  }

  /** A job that is no longer dead when the lock is taken stays, as others left it. */
  lemma RevivedJobIsKept(s: Store, r: Race, job: Job)
    requires job in Jobs(AtLock(s, r)) && Active(job) && !ShouldReap(job, r.pass.processes, r.pass.nowMs)
    ensures job in Jobs(Saved(s, r))
  {
    var jobs := Jobs(AtLock(s, r));
    var i :| 0 <= i < |jobs| && jobs[i] == job;
    assert ReapJobs(jobs, r.pass)[i] == job;
    hide AtLock, ReapJobs, Prune;
    PruneKeepsActive(ReapJobs(jobs, r.pass), job);
  }

  // ---------------------------------------------------------------- the index

  /** What an operation makes of the index does not depend on the job files, the logs or the counters. */
  lemma IndexIgnoresFiles(a: Store, b: Store, op: Op)
    requires a.index == b.index
    ensures Apply(a, op).index == Apply(b, op).index
  {
    hide Prune, Mirror, UpsertInto, SomethingDead, ReapedOf;
    if op.Reaping? {
      var jobs := ReapJobs(Jobs(a), op.pass);
      var entries := ReapedOf(Jobs(a), op.pass);
      MirrorKeepsIndex(Save(a.(locks := a.locks + 1), jobs), entries, op.pass);
      MirrorKeepsIndex(Save(b.(locks := b.locks + 1), jobs), entries, op.pass);
    }
  }

  lemma {:induction false} IndexIgnoresFilesThroughout(a: Store, b: Store, ops: seq<Op>)
    requires a.index == b.index
    ensures RunOps(a, ops).index == RunOps(b, ops).index
    decreases |ops|
  {
    hide Apply;
    if ops != [] {
      var front := ops[..|ops| - 1];
      IndexIgnoresFilesThroughout(a, b, front);
      IndexIgnoresFiles(RunOps(a, front), RunOps(b, front), ops[|ops| - 1]);
    }
  }

  lemma {:induction false} RunOpsConcat(s: Store, a: seq<Op>, b: seq<Op>)
    ensures RunOps(s, a + b) == RunOps(RunOps(s, a), b)
    decreases |b|
  {
    hide Apply;
    if b == [] {
      assert a + b == a;
    } else {
      assert (a + b)[..|a + b| - 1] == a + b[..|b| - 1];
      RunOpsConcat(s, a, b[..|b| - 1]);
    }
  }

  /** Everything others write while `n` job files are mirrored. */
  function Meanwhile(between: seq<seq<Op>>, n: nat): seq<Op> {
    if n == 0 then [] else Meanwhile(between, n - 1) + OpsAt(between, n - 1)
  }

  lemma MirrorOneKeepsIndex(s: Store, e: Reaped, pass: Pass)
    ensures MirrorOne(s, e, pass).index == s.index
  {
  }

  /** Mirroring disturbs no other writer: the index is what they would have made of it had it not taken place. */
  lemma {:induction false} MirrorAmidKeepsIndex(s: Store, entries: seq<Reaped>, pass: Pass, between: seq<seq<Op>>)
    ensures MirrorAmid(s, entries, pass, between).index == RunOps(s, Meanwhile(between, |entries|)).index
    decreases |entries|
  {
    hide MirrorOne, RunOps;
    if entries == [] {
      NothingRun(s);
    } else {
      var n := |entries| - 1;
      var a, b := MirrorAmid(s, entries[..n], pass, between), RunOps(s, Meanwhile(between, n));
      MirrorAmidKeepsIndex(s, entries[..n], pass, between);
      IndexIgnoresFilesThroughout(a, b, OpsAt(between, n));
      RunOpsConcat(s, Meanwhile(between, n), OpsAt(between, n));
      MirrorOneKeepsIndex(RunOps(a, OpsAt(between, n)), entries[n], pass);
    }
  }

  lemma NothingRun(s: Store)
    ensures RunOps(s, []) == s
  {
  }

  /** So no update is lost: the index is the one the pass saved, with all that others wrote since. */
  lemma NoUpdateIsLost(s: Store, r: Race)
    requires ScanFinds(s, r) && r.pass.lockFree && !AtLock(s, r).index.Corrupt?
    ensures ReapAmid(s, r).0.index == RunOps(Saved(s, r), Meanwhile(r.between, |ReapAmid(s, r).1|)).index
    ensures Saved(s, r).index == Index(Prune(ReapJobs(Jobs(AtLock(s, r)), r.pass)))
  {
    MirrorAmidKeepsIndex(Saved(s, r), ReapAmid(s, r).1, r.pass, r.between);
  }

  // ---------------------------------------------------------------- the job files

  /** The index has the job running or queued, and its own file says that it is over. */
  ghost predicate Split(s: Store, id: JobId) {
    && (exists job :: job in Jobs(s) && job.id == id && Active(job))
    && id in s.jobFiles && IsFinished(s.jobFiles[id])
  }

  /**
    * The mirror of a reaped job splits index and file if and only if, in front of it, others made the job active
    * again and its file is one that the mirror ends, or one that is over already.
    */
  lemma MirrorSplitsIff(m: Store, e: Reaped, pass: Pass)
    ensures Split(MirrorOne(m, e, pass), e.id) <==>
      && (exists job :: job in Jobs(m) && job.id == e.id && Active(job))
      && e.id in m.jobFiles && m.jobFiles[e.id].Stored? && (e.id !in pass.blocked || IsFinished(m.jobFiles[e.id]))
  {
    var s' := MirrorOne(m, e, pass);
    assert Jobs(s') == Jobs(m);
  }

  /**
    * A worker that starts after its job was reaped and before the job's file is mirrored: index and file both say
    * running, and the mirror then ends the file of the running job.
    */
  lemma LateWorkerLosesItsFile(saved: Store, e: Reaped, pass: Pass, p: Patch, content: Job, now: nat)
    requires saved.index.Index? && e.id !in pass.blocked
    requires p.id == e.id && p.status == Some(Running) && content.id == e.id && content.status.Running?
    ensures var m := RunOps(saved, [Upserting(p, now, true), WritingFile(e.id, content, true)]);
      && !Split(m, e.id) && m.jobFiles[e.id] == Stored(content)
      && Split(MirrorOne(m, e, pass), e.id)
  {
    var u := Upsert(saved, p, now, true).0;
    TwoRun(saved, Upserting(p, now, true), WritingFile(e.id, content, true));
    UpsertedIsActive(saved, p, now);
    WrittenIs(u, e.id, content);
    hide *;
    RunningFileSplits(WriteFile(u, e.id, content, true).0, e, pass, content);
  }

  lemma WrittenIs(s: Store, id: JobId, content: Job)
    ensures var m := WriteFile(s, id, content, true).0;
      m == Apply(s, WritingFile(id, content, true)) && Jobs(m) == Jobs(s) && id in m.jobFiles
          && m.jobFiles[id] == Stored(content)
  {
  }

  lemma RunningFileSplits(m: Store, e: Reaped, pass: Pass, content: Job)
    requires e.id !in pass.blocked && e.id in m.jobFiles && m.jobFiles[e.id] == Stored(content)
      && content.status.Running?
    requires exists job :: job in Jobs(m) && job.id == e.id && Active(job)
    ensures !Split(m, e.id) && Split(MirrorOne(m, e, pass), e.id)
  {
    MirrorSplitsIff(m, e, pass);
    hide MirrorOne, Jobs;
  }

  lemma TwoRun(s: Store, first: Op, second: Op)
    ensures RunOps(s, [first, second]) == Apply(Apply(s, first), second)
    ensures first.Upserting? ==> Apply(s, first) == Upsert(s, first.p, first.now, first.lockFree).0
  {
    hide SaveLocked, WriteFile, ReapDeadJobs, UpsertInto;
    assert [first, second][..1] == [first] && [first][..0] == [];
    assert RunOps(s, []) == s;
    assert RunOps(s, [first]) == Apply(s, first);
  }

  lemma UpsertedIsActive(s: Store, p: Patch, now: nat)
    requires s.index.Index? && p.status == Some(Running)
    ensures exists job :: job in Jobs(Upsert(s, p, now, true).0) && job.id == p.id && Active(job)
  {
    var jobs := Jobs(s);
    var k := FindJob(jobs, p.id);
    var next := UpsertInto(jobs, p, now);
    hide Prune, FindJob;
    var made := next[if k == |jobs| then 0 else k];
    assert made in next && made.id == p.id && Active(made);
    PruneKeepsActive(next, made);
  }
}
