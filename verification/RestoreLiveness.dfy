/**
 Every restore job ends. Once a live row is past the sweep's age limit, a bounded number of sweeps
 begun by any one worker ends it, whatever every other worker, operator and crash does meanwhile.

 A sweep need not go through: the table refuses the write for a row that was read as queued and has
 been claimed since, and the tick ends there. So the rank counts the live rows that are at least as
 old, and twenty more for every one of them that is still queued: a sweep that goes through ends
 twenty rows, and a sweep that is refused has found a queued row claimed.
 */
module RestoreLiveness {
  import opened Options
  import opened RestoreJobs
  import opened RestoreProtocol
  import opened RestoreInvariant
  import Lists

  /** The live rows at least as old as `j`, itself included while it is live. */
  function Ahead(s: State, j: JobId): set<JobId>
    requires j in s.jobs
  {
    set i | i in s.jobs && Live(s.jobs[i].row) && s.jobs[i].row.createdAt <= s.jobs[j].row.createdAt
  }

  /** Those of them that nobody has claimed. */
  function Unclaimed(s: State, j: JobId): set<JobId>
    requires j in s.jobs
  {
    set i | i in s.jobs && s.jobs[i].row.status == Queued && s.jobs[i].row.createdAt <= s.jobs[j].row.createdAt
  }

  function Rank(s: State, j: JobId): nat
    requires j in s.jobs
  {
    SWEEP_LIMIT * |Unclaimed(s, j)| + |Ahead(s, j)|
  }

  function Ids(seen: seq<(JobId, Status)>): set<JobId> {
    set i | 0 <= i < |seen| :: seen[i].0
  }

  /** The rows read as queued that are at least as old as `j`. */
  function ReadUnclaimed(s: State, seen: seq<(JobId, Status)>, j: JobId): set<JobId>
    requires j in s.jobs
  {
    set i | 0 <= i < |seen| && seen[i].1 == Queued && seen[i].0 in s.jobs
      && s.jobs[seen[i].0].row.createdAt <= s.jobs[j].row.createdAt :: seen[i].0
  }

  // ---- counting the sweeps of one worker

  ghost predicate Begins(s: State, a: Action, w: WorkerId) {
    a.ByWorker? && a.worker == w && StageOf(s, w).Idle? && a.move.BeginTick? && IsSweepRead(s, a.move.seen)
  }

  /** The worker leaves its sweep, one way or another. */
  ghost predicate Leaves(s: State, a: Action, w: WorkerId) {
    StageOf(s, w).Sweeping? && !StageOf(Apply(s, a), w).Sweeping?
  }

  /** A lost statement or a crash ends the sweep before its last write. */
  ghost predicate Harms(s: State, a: Action, w: WorkerId) {
    Leaves(s, a, w) && a.ByWorker? && (a.move.Fault? || a.move.Crash?)
    && StageOf(s, w).next < |StageOf(s, w).seen|
  }

  ghost function SweepsBegun(s: State, w: WorkerId, run: seq<Action>): nat {
    if run == [] then 0
    else SweepsBegun(s, w, run[..|run| - 1])
         + (if Begins(Exec(s, run[..|run| - 1]), run[|run| - 1], w) then 1 else 0)
  }

  ghost function SweepsHarmed(s: State, w: WorkerId, run: seq<Action>): nat {
    if run == [] then 0
    else SweepsHarmed(s, w, run[..|run| - 1])
         + (if Harms(Exec(s, run[..|run| - 1]), run[|run| - 1], w) then 1 else 0)
  }

  /** Sweeps the worker left by itself: they went through, or the table refused a write. */
  ghost function SweepsLeft(s: State, w: WorkerId, run: seq<Action>): nat {
    if run == [] then 0
    else
      var before, a := Exec(s, run[..|run| - 1]), run[|run| - 1];
      SweepsLeft(s, w, run[..|run| - 1]) + (if Leaves(before, a, w) && !Harms(before, a, w) then 1 else 0)
  }

  /** A sweep that was begun was harmed, was left, or goes on. */
  lemma {:induction false} SweepsAreAccountedFor(s: State, w: WorkerId, run: seq<Action>)
    requires !StageOf(s, w).Sweeping?
    ensures SweepsBegun(s, w, run)
      == SweepsLeft(s, w, run) + SweepsHarmed(s, w, run) + if StageOf(Exec(s, run), w).Sweeping? then 1 else 0
  {
    if run != [] {
      SweepsAreAccountedFor(s, w, run[..|run| - 1]);
      OnlyABeginningSweeps(Exec(s, run[..|run| - 1]), run[|run| - 1], w);
    }
  }

  // ---- the rank

  /**
   What is left of the rank: `budget` bounds it, and while `w` sweeps it also pays for how the sweep
   may end: twenty rows that were read in front of `j`, or one that was read as queued and is not.
   */
  ghost predicate Within(s: State, w: WorkerId, j: JobId, budget: int)
    requires j in s.jobs
  {
    Live(s.jobs[j].row) ==>
      && s.jobs[j].row.createdAt < s.clock - MAX_AGE
      && Rank(s, j) <= budget
      && (StageOf(s, w).Sweeping? ==> SweepPays(s, StageOf(s, w).seen, j, budget))
  }

  ghost predicate SweepPays(s: State, seen: seq<(JobId, Status)>, j: JobId, budget: int)
    requires j in s.jobs
  {
    && (forall i, k :: 0 <= i < k < |seen| && seen[i].0 in s.jobs && seen[k].0 in s.jobs ==>
          s.jobs[seen[i].0].row.createdAt <= s.jobs[seen[k].0].row.createdAt)
    && (j !in Ids(seen) ==>
          && |Ids(seen)| == SWEEP_LIMIT
          && (forall i :: 0 <= i < |seen| && seen[i].0 in s.jobs ==>
                s.jobs[seen[i].0].row.createdAt <= s.jobs[j].row.createdAt)
          && SWEEP_LIMIT * |Unclaimed(s, j)| + |Ahead(s, j) + Ids(seen)| <= budget)
    && SWEEP_LIMIT * |Unclaimed(s, j) + ReadUnclaimed(s, seen, j)| + |Ahead(s, j)| <= budget
  }

  lemma DistinctIds(seen: seq<(JobId, Status)>)
    requires forall i, k :: 0 <= i < k < |seen| ==> seen[i].0 != seen[k].0
    ensures |Ids(seen)| == |seen|
  {
    if seen != [] {
      var front := seen[..|seen| - 1];
      DistinctIds(front);
      assert Ids(seen) == Ids(front) + {seen[|seen| - 1].0};
    }
  }

  /** A step never puts a row ahead of a job that is already older than the clock. */
  lemma AheadOnlyShrinks(s: State, s': State, j: JobId)
    requires Later(s, s') && j in s.jobs && s.jobs[j].row.createdAt < s.clock
    ensures Ahead(s', j) <= Ahead(s, j) && Unclaimed(s', j) <= Unclaimed(s, j)
  {
    forall i | i in s'.jobs && s'.jobs[i].row.createdAt <= s'.jobs[j].row.createdAt
      ensures i in s.jobs && JobMoves(s.jobs[i], s'.jobs[i])
    {
      assert JobMoves(s.jobs[j], s'.jobs[j]);
    }
  }

  /** Beginning a sweep: it reads `j`, or twenty rows that are all ahead of it. */
  lemma BeginKeepsBudget(s: State, w: WorkerId, j: JobId, budget: int, seen: seq<(JobId, Status)>)
    requires j in s.jobs && Within(s, w, j, budget)
    requires StageOf(s, w).Idle? && IsSweepRead(s, seen)
    ensures Within(SetStage(s, w, Sweeping(seen, 0)), w, j, budget)
  {
    OnlyRowsCount(s, SetStage(s, w, Sweeping(seen, 0)), seen, j, budget);
    if Live(s.jobs[j].row) {
      AReadPays(s, seen, j, budget);
    }
  }

  /** The rank and what a sweep pays depend on the rows alone. */
  lemma OnlyRowsCount(s: State, t: State, seen: seq<(JobId, Status)>, j: JobId, budget: int)
    requires t.jobs == s.jobs && j in s.jobs
    ensures Rank(t, j) == Rank(s, j) && (SweepPays(s, seen, j, budget) ==> SweepPays(t, seen, j, budget))
  {
    assert Ahead(t, j) == Ahead(s, j) && Unclaimed(t, j) == Unclaimed(s, j);
    assert ReadUnclaimed(t, seen, j) == ReadUnclaimed(s, seen, j);
  }

  /** What a sweep has just read is in front of `j` and was counted. */
  lemma AReadPays(s: State, seen: seq<(JobId, Status)>, j: JobId, budget: int)
    requires j in s.jobs && Stale(s.jobs[j].row, s.clock) && IsSweepRead(s, seen) && Rank(s, j) <= budget
    ensures SweepPays(s, seen, j, budget)
  {
    assert Unclaimed(s, j) + ReadUnclaimed(s, seen, j) == Unclaimed(s, j);
    if j !in Ids(seen) {
      UnseenIsBehind(s, seen, j);
      assert Ahead(s, j) + Ids(seen) == Ahead(s, j);
    }
  }

  lemma UnseenIsBehind(s: State, seen: seq<(JobId, Status)>, j: JobId)
    requires j in s.jobs && Stale(s.jobs[j].row, s.clock) && IsSweepRead(s, seen) && j !in Ids(seen)
    ensures |Ids(seen)| == SWEEP_LIMIT && Ids(seen) <= Ahead(s, j)
    ensures forall i :: 0 <= i < |seen| ==> s.jobs[seen[i].0].row.createdAt <= s.jobs[j].row.createdAt
  {
    assert forall i :: 0 <= i < |seen| ==> seen[i].0 in Ids(seen);
    assert !WasSeen(seen, j);
    DistinctIds(seen);
  }

  /** Leaving a sweep that was not harmed: twenty rows have ended, or a queued one is not queued any more. */
  lemma LeavingPaysTwenty(s: State, a: Action, w: WorkerId, j: JobId, budget: int)
    requires Inv(s) && j in s.jobs && Live(s.jobs[j].row) && Within(s, w, j, budget)
    requires Leaves(s, a, w) && !Harms(s, a, w)
    ensures Rank(s, j) <= budget - SWEEP_LIMIT
  {
    StageIsOk(s, w);
    if StageOf(s, w).next >= |StageOf(s, w).seen| {
      CompletionPaysTwenty(s, w, j, budget);
    } else {
      assert forall k :: k in s.jobs ==> JobOk(s.jobs[k], s.clock, s.phrase);
      RefusedRowWasClaimed(s, a, w);
      RefusalPaysTwenty(s, w, j, budget);
    }
  }

  /** Every row of the sweep has ended, so a live `j` lost twenty rows ahead of it. */
  lemma CompletionPaysTwenty(s: State, w: WorkerId, j: JobId, budget: int)
    requires StageOk(s, w) && j in s.jobs && Live(s.jobs[j].row) && Within(s, w, j, budget)
    requires StageOf(s, w).Sweeping? && StageOf(s, w).next >= |StageOf(s, w).seen|
    ensures Rank(s, j) <= budget - SWEEP_LIMIT
  {
    var seen := StageOf(s, w).seen;
    assert j !in Ids(seen);
    assert Ahead(s, j) !! Ids(seen);
    assert |Ahead(s, j) + Ids(seen)| == |Ahead(s, j)| + |Ids(seen)|;
  }

  /** The row at the refused write was unclaimed when it was read and is not any more. */
  lemma RefusalPaysTwenty(s: State, w: WorkerId, j: JobId, budget: int)
    requires StageOk(s, w) && j in s.jobs && Live(s.jobs[j].row) && Within(s, w, j, budget)
    requires StageOf(s, w).Sweeping? && StageOf(s, w).next < |StageOf(s, w).seen|
    requires var (k, read) := StageOf(s, w).seen[StageOf(s, w).next];
      k in s.jobs && read == Queued && s.jobs[k].row.status == Running
    ensures Rank(s, j) <= budget - SWEEP_LIMIT
  {
    var seen := StageOf(s, w).seen;
    var k := seen[StageOf(s, w).next].0;
    AllBeforeAreAsOld(s, w, j, budget);
    assert k in ReadUnclaimed(s, seen, j) && k !in Unclaimed(s, j);
    Lists.SubsetIsSmaller(Unclaimed(s, j) + {k}, Unclaimed(s, j) + ReadUnclaimed(s, seen, j));
  }

  /** The next write of a sweep that has not ended `j` is of a row at least as old. */
  lemma AllBeforeAreAsOld(s: State, w: WorkerId, j: JobId, budget: int)
    requires j in s.jobs && Live(s.jobs[j].row) && StageOk(s, w) && Within(s, w, j, budget)
    requires StageOf(s, w).Sweeping? && StageOf(s, w).next < |StageOf(s, w).seen|
    ensures var k := StageOf(s, w).seen[StageOf(s, w).next].0;
      k in s.jobs && s.jobs[k].row.createdAt <= s.jobs[j].row.createdAt
  {
    var Sweeping(seen, next) := StageOf(s, w);
    if j in Ids(seen) {
      var p :| 0 <= p < |seen| && seen[p].0 == j;
      assert p >= next;
    }
  }

  /** Without a fault a sweep stops before its end only at a row that was claimed since it was read. */
  lemma RefusedRowWasClaimed(s: State, a: Action, w: WorkerId)
    requires StageOk(s, w) && Leaves(s, a, w) && !Harms(s, a, w)
    requires forall j :: j in s.jobs ==> SchemaAllows(s.jobs[j].row)
    requires StageOf(s, w).next < |StageOf(s, w).seen|
    ensures var (k, read) := StageOf(s, w).seen[StageOf(s, w).next];
      k in s.jobs && read == Queued && s.jobs[k].row.status == Running
  {
    OnlyABeginningSweeps(s, a, w);
    SweepingWorkerSteps(s, w, a.move);
    var (k, read) := StageOf(s, w).seen[StageOf(s, w).next];
    SweepWriteSettles(s.jobs[k].row, read, s.clock);
  }

  /** Any other step keeps the budget: rows only end, and a sweep keeps the rows it read. */
  lemma OtherStepKeepsBudget(s: State, s': State, w: WorkerId, j: JobId, budget: int)
    requires Later(s, s') && StageOk(s, w) && j in s.jobs && Within(s, w, j, budget)
    requires StageOf(s', w).Sweeping? ==>
      StageOf(s, w).Sweeping? && StageOf(s', w).seen == StageOf(s, w).seen
    ensures Within(s', w, j, budget)
  {
    assert JobMoves(s.jobs[j], s'.jobs[j]);
    if Live(s'.jobs[j].row) {
      AheadOnlyShrinks(s, s', j);
      Lists.SubsetIsSmaller(Ahead(s', j), Ahead(s, j));
      Lists.SubsetIsSmaller(Unclaimed(s', j), Unclaimed(s, j));
      if StageOf(s', w).Sweeping? {
        SweepStillPays(s, s', StageOf(s, w).seen, j, budget);
      }
    }
  }

  lemma SweepStillPays(s: State, s': State, seen: seq<(JobId, Status)>, j: JobId, budget: int)
    requires Later(s, s') && j in s.jobs && SweepPays(s, seen, j, budget)
    requires forall i :: 0 <= i < |seen| ==> seen[i].0 in s.jobs
    requires Ahead(s', j) <= Ahead(s, j) && Unclaimed(s', j) <= Unclaimed(s, j)
    ensures SweepPays(s', seen, j, budget)
  {
    assert JobMoves(s.jobs[j], s'.jobs[j]);
    assert forall i :: 0 <= i < |seen| ==> JobMoves(s.jobs[seen[i].0], s'.jobs[seen[i].0]);
    assert ReadUnclaimed(s', seen, j) == ReadUnclaimed(s, seen, j);
    Lists.SubsetIsSmaller(Ahead(s', j), Ahead(s, j));
    Lists.SubsetIsSmaller(Unclaimed(s', j), Unclaimed(s, j));
    Lists.SubsetIsSmaller(Ahead(s', j) + Ids(seen), Ahead(s, j) + Ids(seen));
    Lists.SubsetIsSmaller(Unclaimed(s', j) + ReadUnclaimed(s', seen, j), Unclaimed(s, j) + ReadUnclaimed(s, seen, j));
  }

  /** A worker sweeps after a step only if it did before, over the same rows, or just began to. */
  lemma OnlyABeginningSweeps(s: State, a: Action, w: WorkerId)
    ensures StageOf(Apply(s, a), w).Sweeping? ==>
      || (StageOf(s, w).Sweeping? && StageOf(Apply(s, a), w).seen == StageOf(s, w).seen)
      || Begins(s, a, w)
    ensures Begins(s, a, w) ==> Apply(s, a) == SetStage(s, w, Sweeping(a.move.seen, 0))
    ensures Leaves(s, a, w) ==> a.ByWorker? && a.worker == w
  {
    if !(a.ByWorker? && a.worker == w) {
      OthersLeaveTheStage(s, a, w);
    }
  }

  lemma StepKeepsBudget(s: State, a: Action, w: WorkerId, j: JobId, budget: int)
    requires Inv(s) && j in s.jobs && Within(s, w, j, budget)
    ensures j in Apply(s, a).jobs
    ensures Within(Apply(s, a), w, j, if Leaves(s, a, w) && !Harms(s, a, w) then budget - SWEEP_LIMIT else budget)
  {
    ActionKeepsInv(s, a);
    OnlyABeginningSweeps(s, a, w);
    var after := Apply(s, a);
    assert JobMoves(s.jobs[j], after.jobs[j]);
    if Leaves(s, a, w) && !Harms(s, a, w) {
      if Live(after.jobs[j].row) {
        LeavingPaysTwenty(s, a, w, j, budget);
        AheadOnlyShrinks(s, after, j);
        Lists.SubsetIsSmaller(Ahead(after, j), Ahead(s, j));
        Lists.SubsetIsSmaller(Unclaimed(after, j), Unclaimed(s, j));
      }
    } else if Begins(s, a, w) {
      BeginKeepsBudget(s, w, j, budget, a.move.seen);
    } else {
      StageIsOk(s, w);
      OtherStepKeepsBudget(s, after, w, j, budget);
    }
  }

  lemma OneLeftMore(s: State, w: WorkerId, run: seq<Action>)
    requires run != []
    ensures var front, a := run[..|run| - 1], run[|run| - 1];
      && Exec(s, run) == Apply(Exec(s, front), a)
      && SWEEP_LIMIT * SweepsLeft(s, w, run) == SWEEP_LIMIT * SweepsLeft(s, w, front)
         + (if Leaves(Exec(s, front), a, w) && !Harms(Exec(s, front), a, w) then SWEEP_LIMIT else 0)
  {
  }

  lemma {:induction false} RunKeepsBudget(s: State, w: WorkerId, j: JobId, rank: int, run: seq<Action>)
    requires Inv(s) && j in s.jobs && Within(s, w, j, rank)
    ensures j in Exec(s, run).jobs
    ensures Within(Exec(s, run), w, j, rank - SWEEP_LIMIT * SweepsLeft(s, w, run))
  {
    if run != [] {
      RunKeepsBudget(s, w, j, rank, run[..|run| - 1]);
      RunsKeepInv(s, run[..|run| - 1]);
      LastStepKeepsBudget(s, w, j, run, rank);
    }
  }

  lemma StartsWithin(s: State, w: WorkerId, j: JobId)
    requires j in s.jobs && Stale(s.jobs[j].row, s.clock) && !StageOf(s, w).Sweeping?
    ensures Within(s, w, j, Rank(s, j))
  {
  }

  lemma RunsKeepInv(s: State, run: seq<Action>)
    requires Inv(s)
    ensures Inv(Exec(s, run))
  {
    RunsStayGood(s, run);
  }

  lemma LastStepKeepsBudget(s: State, w: WorkerId, j: JobId, run: seq<Action>, rank: int)
    requires run != []
    requires var front := run[..|run| - 1];
      && Inv(Exec(s, front)) && j in Exec(s, front).jobs
      && Within(Exec(s, front), w, j, rank - SWEEP_LIMIT * SweepsLeft(s, w, front))
    ensures j in Exec(s, run).jobs && Within(Exec(s, run), w, j, rank - SWEEP_LIMIT * SweepsLeft(s, w, run))
  {
    var front := run[..|run| - 1];
    var mid, a, budget := Exec(s, front), run[|run| - 1], rank - SWEEP_LIMIT * SweepsLeft(s, w, front);
    OneLeftMore(s, w, run);
    StepLeads(mid, a, Exec(s, run), w, j, budget, rank - SWEEP_LIMIT * SweepsLeft(s, w, run));
  }

  lemma StepLeads(s: State, a: Action, after: State, w: WorkerId, j: JobId, budget: int, left: int)
    requires Inv(s) && j in s.jobs && Within(s, w, j, budget) && after == Apply(s, a)
    requires left == budget - (if Leaves(s, a, w) && !Harms(s, a, w) then SWEEP_LIMIT else 0)
    ensures j in after.jobs && Within(after, w, j, left)
  {
    StepKeepsBudget(s, a, w, j, budget);
  }

  lemma ALiveJobIsAhead(s: State, j: JobId)
    requires j in s.jobs
    ensures Live(s.jobs[j].row) ==> |Ahead(s, j)| > 0
  {
    assert Live(s.jobs[j].row) ==> j in Ahead(s, j);
  }

  /**
   Every queued or running job past the age limit ends, also one whose worker crashed or left it
   running: as soon as one worker has begun enough sweeps that no fault and no crash cut short,
   however many of them the table refused.
   */
  lemma EveryJobEnds(phrase: RunId -> string, past: seq<Action>, run: seq<Action>, w: WorkerId, j: JobId)
    requires j in Exec(Start(phrase), past).jobs
    requires var s := Exec(Start(phrase), past);
      && Stale(s.jobs[j].row, s.clock) && !StageOf(s, w).Sweeping?
      && SWEEP_LIMIT * (SweepsBegun(s, w, run) - SweepsHarmed(s, w, run) - 1) >= Rank(s, j)
    ensures var after := Exec(Exec(Start(phrase), past), run);
      j in after.jobs && Terminal(after.jobs[j].row)
  {
    var s := Exec(Start(phrase), past);
    EveryRunKeepsInv(phrase, past);
    StartsWithin(s, w, j);
    RunKeepsBudget(s, w, j, Rank(s, j), run);
    SweepsAreAccountedFor(s, w, run);
    ALiveJobIsAhead(Exec(s, run), j);
  }

  /** A sweep never stands still: the worker's next statement writes the next row, or ends the sweep. */
  lemma ASweepMovesOn(phrase: RunId -> string, run: seq<Action>, w: WorkerId)
    requires StageOf(Exec(Start(phrase), run), w).Sweeping?
    requires var Sweeping(seen, next) := StageOf(Exec(Start(phrase), run), w); next < |seen|
    ensures var s := Exec(Start(phrase), run);
      var Sweeping(seen, next) := StageOf(s, w);
      StageOf(Apply(s, ByWorker(w, Proceed)), w) in {Idle, Sweeping(seen, next + 1)}
  {
    var s := Exec(Start(phrase), run);
    EveryRunKeepsInv(phrase, run);
    StageIsOk(s, w);
    SweepingWorkerSteps(s, w, Proceed);
  }
}
