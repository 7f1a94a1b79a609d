/** The job index: which jobs a save keeps. */
module JobPruning {
  import opened Wrappers
  import opened Counting
  import opened StableSort

  type JobId = string
  type Pid = x: nat | 0 < x witness 1

  datatype Status = Running | Queued | Completed | Failed | Cancelled | OtherStatus

  datatype Job = Job(
    id: JobId,
    status: Status,
    pid: Option<Pid>,
    processMark: Option<string>,
    updatedAt: Option<nat>,
    createdAt: Option<nat>,
    startedAt: Option<nat>,
    completedAt: Option<nat>,
    logFile: Option<string>,
    phase: string,
    errorMessage: Option<string>,
    failureReason: Option<string>)

  const MAX_JOBS: nat := 50

  predicate Active(job: Job) {
    job.status.Running? || job.status.Queued?
  }

  /** Latest first; a job without a time comes last. */
  function Recency(job: Job): int {
    if job.updatedAt.Some? then -1 - job.updatedAt.value else 0
  }

  function IsActive(): Job -> bool {
    (job: Job) => Active(job)
  }

  function IsTerminal(): Job -> bool {
    (job: Job) => !Active(job)
  }

  /** All active jobs, and of the others the first `budget`. */
  function Retain(jobs: seq<Job>, budget: nat): seq<Job>
    decreases |jobs|
  {
    if jobs == [] then []
    else if Active(jobs[0]) then [jobs[0]] + Retain(jobs[1..], budget)
    else if budget > 0 then [jobs[0]] + Retain(jobs[1..], budget - 1)
    else Retain(jobs[1..], 0)
  }

  function TerminalBudget(jobs: seq<Job>): nat {
    var active := Count(jobs, IsActive());
    if active < MAX_JOBS then MAX_JOBS - active else 0
  }

  function Prune(jobs: seq<Job>): seq<Job> {
    Retain(Sort(Recency, jobs), TerminalBudget(jobs))
  }

  // ---------------------------------------------------------------- what pruning keeps

  /** The latest update first, and the jobs without a time behind all that have one. */
  predicate LatestFirst(jobs: seq<Job>) {
    forall i, j :: 0 <= i < j < |jobs| ==> NotEarlier(jobs[i].updatedAt, jobs[j].updatedAt)
  }

  predicate NotEarlier(a: Option<nat>, b: Option<nat>) {
    b.Some? ==> a.Some? && b.value <= a.value
  }

  lemma SortedIsLatestFirst(jobs: seq<Job>)
    ensures Sorted(Recency, jobs) <==> LatestFirst(jobs)
  {
    if LatestFirst(jobs) {
      forall i, j | 0 <= i < j < |jobs|
        ensures Recency(jobs[i]) <= Recency(jobs[j])
      {
        assert NotEarlier(jobs[i].updatedAt, jobs[j].updatedAt);
      }
    }
  }

  function Select(jobs: seq<Job>, active: bool): seq<Job>
    decreases |jobs|
  {
    if jobs == [] then []
    else (if Active(jobs[0]) == active then [jobs[0]] else []) + Select(jobs[1..], active)
  }

  function Min(a: nat, b: nat): nat {
    if a < b then a else b
  }

  lemma {:induction false} CountFirst(jobs: seq<Job>, p: Job -> bool)
    requires jobs != []
    ensures Count(jobs, p) == (if p(jobs[0]) then 1 else 0) + Count(jobs[1..], p)
  {
    assert jobs == [jobs[0]] + jobs[1..];
    CountConcat([jobs[0]], jobs[1..], p);
    CountOne(jobs[0], p);
  }

  lemma {:induction false} SelectCounts(jobs: seq<Job>)
    ensures |Select(jobs, true)| == Count(jobs, IsActive()) && |Select(jobs, false)| == Count(jobs, IsTerminal())
    ensures Count(jobs, IsActive()) + Count(jobs, IsTerminal()) == |jobs|
    decreases |jobs|
  {
    if jobs != [] {
      CountFirst(jobs, IsActive());
      CountFirst(jobs, IsTerminal());
      SelectCounts(jobs[1..]);
    }
  }

  /** Every active job stays, in order, and of the terminal ones exactly the first `budget`. */
  lemma {:induction false} RetainSelects(jobs: seq<Job>, budget: nat)
    ensures Select(Retain(jobs, budget), true) == Select(jobs, true)
    ensures Select(Retain(jobs, budget), false) == Select(jobs, false)[..Min(budget, |Select(jobs, false)|)]
    decreases |jobs|
  {
    if jobs != [] {
      var first, rest := jobs[0], jobs[1..];
      var left := if Active(first) then budget else if budget > 0 then budget - 1 else 0;
      RetainSelects(rest, left);
      var kept := Retain(jobs, budget);
      if Active(first) || budget > 0 {
        assert kept[0] == first && kept[1..] == Retain(rest, left);
      }
    }
  }

  lemma {:induction false} RetainIsSubsequence(jobs: seq<Job>, budget: nat)
    requires Sorted(Recency, jobs)
    ensures Sorted(Recency, Retain(jobs, budget))
    ensures forall job :: job in Retain(jobs, budget) ==> job in jobs
    decreases |jobs|
  {
    if jobs != [] {
      var first, rest := jobs[0], jobs[1..];
      var left := if Active(first) then budget else if budget > 0 then budget - 1 else 0;
      RetainIsSubsequence(rest, left);
      forall i | 0 <= i < |Retain(rest, left)|
        ensures Recency(first) <= Recency(Retain(rest, left)[i])
      {
        assert Retain(rest, left)[i] in rest;
      }
    }
  }

  lemma {:induction false} RetainAll(jobs: seq<Job>, budget: nat)
    requires Count(jobs, IsTerminal()) <= budget
    ensures Retain(jobs, budget) == jobs
    decreases |jobs|
  {
    if jobs != [] {
      CountFirst(jobs, IsTerminal());
      RetainAll(jobs[1..], if Active(jobs[0]) then budget else budget - 1);
    }
  }

  lemma {:induction false} InsertCounts(sorted: seq<Job>, job: Job, p: Job -> bool)
    ensures Count(Insert(Recency, sorted, job), p) == Count(sorted, p) + if p(job) then 1 else 0
    decreases |sorted|
  {
    if sorted == [] || Recency(sorted[|sorted| - 1]) <= Recency(job) {
      CountLast(sorted, job, p);
    } else {
      var front, last := sorted[..|sorted| - 1], sorted[|sorted| - 1];
      InsertCounts(front, job, p);
      CountLast(Insert(Recency, front, job), last, p);
    }
  }

  lemma {:induction false} SortCounts(jobs: seq<Job>, p: Job -> bool)
    ensures Count(Sort(Recency, jobs), p) == Count(jobs, p)
    decreases |jobs|
  {
    if jobs != [] {
      SortCounts(jobs[..|jobs| - 1], p);
      InsertCounts(Sort(Recency, jobs[..|jobs| - 1]), jobs[|jobs| - 1], p);
    }
  }

  /**
    * What a save keeps: every active job, and of the terminal jobs the latest, as many as fit
    * into `MAX_JOBS` beside the active ones; all with the latest update first.
    */
  lemma PruneKeeps(jobs: seq<Job>)
    ensures var kept := Prune(jobs);
      var sorted := Sort(Recency, jobs);
      && LatestFirst(kept) && LatestFirst(sorted) && multiset(sorted) == multiset(jobs)
      && Select(kept, true) == Select(sorted, true)
      && Select(kept, false) == Select(sorted, false)[..Min(TerminalBudget(jobs), |Select(sorted, false)|)]
      && |Select(kept, true)| == Count(jobs, IsActive())
      && |Select(kept, false)| == Min(TerminalBudget(jobs), Count(jobs, IsTerminal()))
  {
    var sorted := Sort(Recency, jobs);
    SortIsStable(Recency, jobs, 0);
    RetainSelects(sorted, TerminalBudget(jobs));
    RetainIsSubsequence(sorted, TerminalBudget(jobs));
    SelectCounts(sorted);
    SortCounts(jobs, IsActive());
    SortCounts(jobs, IsTerminal());
    SortedIsLatestFirst(sorted);
    SortedIsLatestFirst(Prune(jobs));
  }

  /** The index never exceeds the cap unless the active jobs alone do, and below the cap nothing is dropped. */
  lemma PruneCaps(jobs: seq<Job>)
    ensures var active := Count(jobs, IsActive());
      |Prune(jobs)| == if active >= 50 then active else Min(|jobs|, 50)
    ensures |Prune(jobs)| <= MAX_JOBS || Prune(jobs) == Select(Prune(jobs), true)
  {
    PruneKeeps(jobs);
    SelectCounts(jobs);
    SelectCounts(Prune(jobs));
    if Count(jobs, IsActive()) >= MAX_JOBS {
      NothingTerminal(Prune(jobs));
    }
  }

  lemma {:induction false} NothingTerminal(jobs: seq<Job>)
    requires Select(jobs, false) == []
    ensures Select(jobs, true) == jobs
    decreases |jobs|
  {
    if jobs != [] {
      NothingTerminal(jobs[1..]);
    }
  }

  /** Pruning what is pruned changes nothing. */
  lemma PruneIsIdempotent(jobs: seq<Job>)
    ensures Prune(Prune(jobs)) == Prune(jobs)
  {
    var kept := Prune(jobs);
    PruneKeeps(jobs);
    SelectCounts(kept);
    SortedIsLatestFirst(kept);
    hide Retain, Sort, Prune, Sorted, Select, LatestFirst;
    assert Count(kept, IsTerminal()) <= TerminalBudget(kept);
    SortKeepsSorted(Recency, kept);
    RetainAll(kept, TerminalBudget(kept));
    PruneIs(kept);
  }

  lemma PruneIs(jobs: seq<Job>)
    ensures Prune(jobs) == Retain(Sort(Recency, jobs), TerminalBudget(jobs))
  {
  }

  lemma {:induction false} InSelect(jobs: seq<Job>, job: Job)
    ensures job in Select(jobs, Active(job)) <==> job in jobs
    decreases |jobs|
  {
    if jobs != [] {
      InSelect(jobs[1..], job);
      assert jobs == [jobs[0]] + jobs[1..];
    }
  }

  lemma {:induction false} SelectedAre(jobs: seq<Job>, active: bool)
    ensures forall job :: job in Select(jobs, active) ==> job in jobs && Active(job) == active
    ensures Sorted(Recency, jobs) ==> Sorted(Recency, Select(jobs, active))
    decreases |jobs|
  {
    if jobs != [] {
      SelectedAre(jobs[1..], active);
      var rest := Select(jobs[1..], active);
      if Sorted(Recency, jobs) {
        forall i | 0 <= i < |rest|
          ensures Recency(jobs[0]) <= Recency(rest[i])
        {
          assert rest[i] in jobs[1..];
        }
      }
    }
  }

  /** A running or queued job is never evicted, and nothing enters the index that was not there. */
  lemma PruneKeepsActive(jobs: seq<Job>, job: Job)
    ensures (job.status.Running? || job.status.Queued?) && job in jobs ==> job in Prune(jobs)
    ensures job in Prune(jobs) ==> job in jobs
  {
    PruneKeeps(jobs);
    SortMembers(Recency, jobs);
    InSelect(Prune(jobs), job);
    InSelect(Sort(Recency, jobs), job);
    SelectedAre(Sort(Recency, jobs), false);
    SelectedAre(Sort(Recency, jobs), true);
  }

  /**
    * A job that is dropped is neither running nor queued, and was not updated after any other such job that is kept:
    * it has no time, or the kept one has a time that is not earlier.
    */
  lemma PruneDropsTheOldest(jobs: seq<Job>, dropped: Job, kept: Job)
    requires dropped in jobs && dropped !in Prune(jobs)
    requires kept in Prune(jobs) && !kept.status.Running? && !kept.status.Queued?
    ensures !dropped.status.Running? && !dropped.status.Queued?
    ensures dropped.updatedAt.None? || (kept.updatedAt.Some? && dropped.updatedAt.value <= kept.updatedAt.value)
  {
    var sorted := Sort(Recency, jobs);
    PruneKeepsActive(jobs, dropped);
    PruneKeeps(jobs);
    SortMembers(Recency, jobs);
    SortIsStable(Recency, jobs, 0);
    InSelect(sorted, dropped);
    InSelect(Prune(jobs), dropped);
    InSelect(Prune(jobs), kept);
    SelectedAre(sorted, false);
    SortedIsLatestFirst(Select(sorted, false));
    hide Prune, Sort, Retain, Select;
    var terminal := Select(sorted, false);
    var i :| 0 <= i < |terminal| && terminal[i] == dropped;
    var n := Min(TerminalBudget(jobs), |terminal|);
    var j :| 0 <= j < n && terminal[..n][j] == kept;
    assert forall m :: 0 <= m < n ==> terminal[m] in terminal[..n];
    assert n <= i;
    assert NotEarlier(kept.updatedAt, dropped.updatedAt);
  }

  lemma {:induction false} CountAll(jobs: seq<Job>)
    ensures Count(jobs, IsTerminal()) == 0 <==> forall job :: job in jobs ==> Active(job)
    decreases |jobs|
  {
    if jobs != [] {
      CountAll(jobs[..|jobs| - 1]);
      assert jobs == jobs[..|jobs| - 1] + [jobs[|jobs| - 1]];
    }
  }

  /** Nothing at all is dropped if and only if there are at most fifty jobs, or all are running or queued. */
  lemma PruneDropsNothingIff(jobs: seq<Job>)
    ensures |Prune(jobs)| == |jobs| <==>
      |jobs| <= 50 || forall job :: job in jobs ==> job.status.Running? || job.status.Queued?
    ensures |Prune(jobs)| == |jobs| ==> multiset(Prune(jobs)) == multiset(jobs)
  {
    PruneCaps(jobs);
    CountAll(jobs);
    SelectCounts(jobs);
    SortIsStable(Recency, jobs, 0);
    SortCounts(jobs, IsTerminal());
    if |Prune(jobs)| == |jobs| {
      RetainAll(Sort(Recency, jobs), TerminalBudget(jobs));
    }
  }
}
